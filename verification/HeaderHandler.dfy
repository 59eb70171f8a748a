/** The streaming header handler: buffers across calls, splits lines, drives the three-state machine. */
module HeaderHandler {
  import opened Downloads
  import opened HeaderMatch

  datatype Phase = ReadingStatusLine | ReadingHeaderFields | Done

  /** The user's verdict on a media type. */
  type Validator = MediaType -> bool

  /** State and media type: what processing lines changes. */
  datatype Machine = Machine(phase: Phase, mediaType: MediaType)

  const START := Machine(ReadingStatusLine, NO_MEDIA_TYPE)

  /** One line through the state machine; go says whether the download continues. */
  function Process(v: Validator, m: Machine, line: string): (r: (Machine, bool))
  {
    match m.phase
    case ReadingStatusLine =>
      if StatusOf(line).Some? && StatusOf(line).value[0] == '2'
      then (m.(phase := ReadingHeaderFields), true) else (m.(phase := Done), false)
    case ReadingHeaderFields =>
      (match MediaTypeOf(line)
       case None => (m.(mediaType := NO_MEDIA_TYPE), true)
       case Some(t) => (Machine(Done, t), v(t)))
    case Done => (m, true)
  }

  predicate IsLineEnd(buffer: string, k: nat)
  {
    k + 2 <= |buffer| && buffer[k] == '\r' && buffer[k + 1] == '\n'
  }

  /** The first line end at or after start. */
  function FindLineEnd(buffer: string, start: nat): (e: Option<nat>)
    requires start <= |buffer|
    ensures e.Some? ==> start <= e.value && e.value + 2 <= |buffer| && IsLineEnd(buffer, e.value)
    decreases |buffer| - start
  {
    if start + 2 > |buffer| then None
    else if IsLineEnd(buffer, start) then Some(start)
    else FindLineEnd(buffer, start + 1)
  }

  lemma {:induction false} NoEarlierLineEnd(buffer: string, start: nat, k: nat)
    requires start <= k <= |buffer|
    requires FindLineEnd(buffer, start).Some? ==> k < FindLineEnd(buffer, start).value
    ensures !IsLineEnd(buffer, k)
    decreases k - start
  {
    if start < k { NoEarlierLineEnd(buffer, start + 1, k); }
  }

  lemma {:induction false} FindIs(buffer: string, start: nat, e: nat)
    requires start <= e && IsLineEnd(buffer, e) && forall k :: start <= k < e ==> !IsLineEnd(buffer, k)
    ensures FindLineEnd(buffer, start) == Some(e)
    decreases e - start
  {
    if start < e { FindIs(buffer, start + 1, e); }
  }

  lemma FoundFirst(text: string, p: nat, e: nat)
    requires p <= |text| && FindLineEnd(text, p) == Some(e)
    ensures forall k :: p <= k < e ==> !IsLineEnd(text, k)
  {
    forall k | p <= k < e ensures !IsLineEnd(text, k) { NoEarlierLineEnd(text, p, k); }
  }

  const LINE_END := "\r\n"

  predicate NoLineEnd(line: string) { forall k :: 0 <= k < |line| - 1 ==> line[k] != '\r' || line[k + 1] != '\n' }

  /** Where a line stands in a text, the first line end is its own. */
  lemma FindFrom(text: string, p: nat, line: string)
    requires NoLineEnd(line) && IsLineEnd(text, p + |line|) && text[p..p + |line|] == line
    ensures FindLineEnd(text, p) == Some(p + |line|)
  {
    forall k | p <= k < p + |line| ensures !IsLineEnd(text, k) {
      assert !IsLineEnd(line, k - p);
      assert text[k] == line[k - p];
      assert k + 1 < p + |line| ==> text[k + 1] == line[k + 1 - p];
    }
    FindIs(text, p, p + |line|);
  }

  /** substr(start, end) as written takes a length, so it reads past the line; Exact takes the line. */
  datatype Slicing = AsWritten | Exact

  function Slice(slicing: Slicing, buffer: string, start: nat, end: nat): string
    requires start <= end <= |buffer|
  {
    match slicing
    case AsWritten => if start + end <= |buffer| then buffer[start..start + end] else buffer[start..]
    case Exact => buffer[start..end]
  }

  /** What scanning a buffer from start comes to: the machine, where unread text begins, whether to go on. */
  datatype Scan = Scan(machine: Machine, start: nat, go: bool)

  function ScanLines(v: Validator, slicing: Slicing, buffer: string, start: nat, m: Machine): (r: Scan)
    requires start <= |buffer|
    ensures start <= r.start <= |buffer|
    decreases |buffer| - start
  {
    match FindLineEnd(buffer, start)
    case None => Scan(m, start, true)
    case Some(end) =>
      var p := Process(v, m, Slice(slicing, buffer, start, end));
      if p.1 then ScanLines(v, slicing, buffer, end + 2, p.0) else Scan(p.0, start, false)
  }

  /** A handler between calls. After an abort libcurl makes no further call. */
  datatype Handler = Handler(buffer: string, machine: Machine, aborted: bool)

  function Feed(v: Validator, slicing: Slicing, h: Handler, chunk: string): Handler
  {
    if h.aborted then h
    else
      var buffer := h.buffer + chunk;
      var s := ScanLines(v, slicing, buffer, 0, h.machine);
      Handler(if s.go then buffer[s.start..] else buffer, s.machine, !s.go)
  }

  class HeaderHandler {
    const mediaTypeValidator: Validator
    var buffer: string
    var phase: Phase
    var mediaType: MediaType

    function View(aborted: bool): Handler
      reads this
    {
      Handler(buffer, Machine(phase, mediaType), aborted)
    }

    constructor (mediaTypeValidator: Validator)
      ensures View(false) == Handler("", START, false) && this.mediaTypeValidator == mediaTypeValidator
    {
      this.mediaTypeValidator := mediaTypeValidator;
      buffer, phase, mediaType := "", ReadingStatusLine, NO_MEDIA_TYPE;
    }

    /** operator(): the result is the chunk's size, or -1 to abort. */
    method Call(chunk: string) returns (r: int)
      modifies this
      ensures View(r == -1) == Feed(mediaTypeValidator, AsWritten, old(View(false)), chunk)
      ensures r == |chunk| || r == -1
    {
      hide Process, Slice, FindLineEnd;
      buffer := buffer + chunk;
      var start := 0;
      ghost var m0 := Machine(phase, mediaType);
      while true
        invariant 0 <= start <= |buffer| && buffer == old(buffer) + chunk
        invariant ScanLines(mediaTypeValidator, AsWritten, buffer, start, Machine(phase, mediaType))
               == ScanLines(mediaTypeValidator, AsWritten, buffer, 0, m0)
        decreases |buffer| - start
      {
        var end := FindLineEnd(buffer, start);
        if end.None? {
          break;
        }
        var continueDownload := ProcessLine(Slice(AsWritten, buffer, start, end.value));
        if !continueDownload {
          return -1;
        }
        start := end.value + 2;
      }
      buffer := buffer[start..];
      r := |chunk|;
    }

    method ProcessLine(line: string) returns (go: bool)
      modifies this`phase, this`mediaType
      ensures (Machine(phase, mediaType), go) == Process(mediaTypeValidator, old(Machine(phase, mediaType)), line)
    {
      match phase {
        case ReadingStatusLine =>
          var status := StatusOf(line);
          if status.Some? {
            if status.value[0] == '2' {
              phase := ReadingHeaderFields;
            } else {
              phase := Done;
              return false;
            }
          } else {
            phase := Done;
            return false;
          }
        case ReadingHeaderFields =>
          var mediaTypeFound;
          mediaTypeFound, mediaType := MatchContextType(line);
          if mediaTypeFound {
            go := mediaTypeValidator(mediaType);
            phase := Done;
            return;
          }
        case Done =>
      }
      go := true;
    }

    method Reuse()
      modifies this
      ensures View(false) == Handler("", START, false)
    {
      buffer, phase, mediaType := "", ReadingStatusLine, NO_MEDIA_TYPE;
    }
  }

  // The intended handler: a stream is split once, whatever the chunks

  /** All complete lines of a text, and what is left after the last line end. */
  function Split(text: string): (r: (seq<string>, string))
    decreases |text|
  {
    match FindLineEnd(text, 0)
    case None => ([], text)
    case Some(end) =>
      var rest := Split(text[end + 2..]);
      ([text[..end]] + rest.0, rest.1)
  }

  /** Lines, each with its line end, and what follows them. */
  function Unsplit(lines: seq<string>, leftover: string): string
  {
    if lines == [] then leftover else lines[0] + "\r\n" + Unsplit(lines[1..], leftover)
  }

  /** Lines and leftover of a text give the text back, and none of them holds a line end. */
  lemma {:induction false} SplitUnsplit(text: string)
    ensures var (lines, leftover) := Split(text);
      Unsplit(lines, leftover) == text && NoLineEnd(leftover) && forall line :: line in lines ==> NoLineEnd(line)
    decreases |text|
  {
    match FindLineEnd(text, 0)
    case None =>
      forall k | 0 <= k < |text| - 1 ensures text[k] != '\r' || text[k + 1] != '\n' {
        NoEarlierLineEnd(text, 0, k);
      }
    case Some(end) =>
      FoundFirst(text, 0, end);
      SplitUnsplit(text[end + 2..]);
      assert NoLineEnd(text[..end]) by {
        forall k | 0 <= k < end - 1 ensures text[k] != '\r' || text[k + 1] != '\n' { assert !IsLineEnd(text, k); }
      }
      assert text == text[..end] + LINE_END + text[end + 2..];
  }

  /** And any lines and leftover without line ends are what their text is split into. */
  lemma {:induction false} UnsplitSplit(lines: seq<string>, leftover: string)
    requires NoLineEnd(leftover) && forall line :: line in lines ==> NoLineEnd(line)
    ensures Split(Unsplit(lines, leftover)) == (lines, leftover)
    decreases |lines|
  {
    var text := Unsplit(lines, leftover);
    if lines == [] {
      if FindLineEnd(text, 0).Some? { assert false; }
    } else {
      UnsplitSplit(lines[1..], leftover);
      FindFrom(text, 0, lines[0]);
      SplitAt(text, |lines[0]|);
      assert text[|lines[0]| + 2..] == Unsplit(lines[1..], leftover) && text[..|lines[0]|] == lines[0];
      assert lines == [lines[0]] + lines[1..];
    }
  }

  /** Lines through the machine, up to the one that aborts. */
  function RunLines(v: Validator, m: Machine, lines: seq<string>): (r: (Machine, bool))
    decreases |lines|
  {
    if lines == [] then (m, true)
    else
      var p := Process(v, m, lines[0]);
      if p.1 then RunLines(v, p.0, lines[1..]) else p
  }

  function Join(chunks: seq<string>): string
  {
    if chunks == [] then "" else Join(chunks[..|chunks| - 1]) + chunks[|chunks| - 1]
  }

  function FeedAll(v: Validator, slicing: Slicing, chunks: seq<string>): Handler
  {
    if chunks == [] then Handler("", START, false)
    else Feed(v, slicing, FeedAll(v, slicing, chunks[..|chunks| - 1]), chunks[|chunks| - 1])
  }

  lemma {:induction false} FindLineEndShift(buffer: string, a: nat, start: nat)
    requires a <= start <= |buffer|
    ensures FindLineEnd(buffer[a..], start - a)
         == match FindLineEnd(buffer, start) case None => None case Some(e) => Some(e - a)
    decreases |buffer| - start
  {
    if start + 2 <= |buffer| && !IsLineEnd(buffer, start) {
      FindLineEndShift(buffer, a, start + 1);
    }
  }

  lemma SplitAt(text: string, end: nat)
    requires FindLineEnd(text, 0) == Some(end)
    ensures Split(text) == ([text[..end]] + Split(text[end + 2..]).0, Split(text[end + 2..]).1)
  {
  }

  lemma RunFirst(v: Validator, m: Machine, line: string, lines: seq<string>)
    ensures var p := Process(v, m, line);
      RunLines(v, m, [line] + lines) == if p.1 then RunLines(v, p.0, lines) else p
  {
    assert ([line] + lines)[1..] == lines;
  }

  lemma ScanStep(v: Validator, slicing: Slicing, buffer: string, start: nat, end: nat, m: Machine)
    requires start <= |buffer| && FindLineEnd(buffer, start) == Some(end)
    ensures var p := Process(v, m, Slice(slicing, buffer, start, end));
      ScanLines(v, slicing, buffer, start, m)
      == if p.1 then ScanLines(v, slicing, buffer, end + 2, p.0) else Scan(p.0, start, false)
  {
    hide FindLineEnd, Process, Slice;
  }

  lemma ScanEnd(v: Validator, slicing: Slicing, buffer: string, start: nat, m: Machine)
    requires start <= |buffer| && FindLineEnd(buffer, start).None?
    ensures ScanLines(v, slicing, buffer, start, m) == Scan(m, start, true)
    ensures Split(buffer[start..]) == ([], buffer[start..])
  {
    FindLineEndShift(buffer, start, start);
    hide FindLineEnd, Process, Slice;
  }

  /** The text from start, split: the line that ends first, then the rest. */
  lemma SplitFrom(buffer: string, start: nat, end: nat)
    requires start <= |buffer| && FindLineEnd(buffer, start) == Some(end)
    ensures var rest := Split(buffer[end + 2..]);
      Split(buffer[start..]) == ([buffer[start..end]] + rest.0, rest.1)
  {
    FindLineEndShift(buffer, start, start);
    hide FindLineEnd, Split;
    SplitAt(buffer[start..], end - start);
    Suffixes(buffer, start, end);
  }

  lemma Suffixes(buffer: string, start: nat, end: nat)
    requires start <= end && end + 2 <= |buffer|
    ensures buffer[start..][..end - start] == buffer[start..end]
    ensures buffer[start..][end - start + 2..] == buffer[end + 2..]
  {
  }

  /** Scanning with exact slices is splitting and running the lines. */
  lemma {:induction false} ExactScan(v: Validator, buffer: string, start: nat, m: Machine)
    requires start <= |buffer|
    ensures var s := ScanLines(v, Exact, buffer, start, m);
      var split := Split(buffer[start..]);
      && (s.machine, s.go) == RunLines(v, m, split.0)
      && (s.go ==> buffer[s.start..] == split.1)
    decreases |buffer| - start
  {
    hide ScanLines, Split, FindLineEnd, Process;
    match FindLineEnd(buffer, start)
    case None =>
      ScanEnd(v, Exact, buffer, start, m);
    case Some(end) =>
      var line := buffer[start..end];
      SplitFrom(buffer, start, end);
      ScanStep(v, Exact, buffer, start, end, m);
      RunFirst(v, m, line, Split(buffer[end + 2..]).0);
      hide RunLines;
      var p := Process(v, m, line);
      if p.1 {
        ExactScan(v, buffer, end + 2, p.0);
      }
  }

  lemma {:induction false} FindLineEndMore(text: string, more: string, start: nat)
    requires start <= |text| && FindLineEnd(text, start).Some?
    ensures FindLineEnd(text + more, start) == FindLineEnd(text, start)
    decreases |text| - start
  {
    if !IsLineEnd(text, start) {
      FindLineEndMore(text, more, start + 1);
    }
  }

  lemma SplitEnd(text: string)
    requires FindLineEnd(text, 0).None?
    ensures Split(text) == ([], text)
  {
  }

  /** More text only adds lines: those already complete stay, the leftover is split together with it. */
  lemma {:induction false} SplitMore(text: string, more: string)
    ensures Split(text + more).0 == Split(text).0 + Split(Split(text).1 + more).0
    ensures Split(text + more).1 == Split(Split(text).1 + more).1
    decreases |text|
  {
    hide Split, FindLineEnd;
    match FindLineEnd(text, 0)
    case None => SplitEnd(text);
    case Some(end) =>
      FindLineEndMore(text, more, 0);
      SplitAt(text, end);
      SplitAt(text + more, end);
      var rest := text[end + 2..];
      assert (text + more)[end + 2..] == rest + more && (text + more)[..end] == text[..end];
      SplitMore(rest, more);
      Regroup(text[..end], Split(rest).0, Split(Split(rest).1 + more).0);
  }

  lemma Regroup(x: string, a: seq<string>, b: seq<string>)
    ensures [x] + (a + b) == ([x] + a) + b
  {
  }

  lemma {:induction false} RunLinesMore(v: Validator, m: Machine, a: seq<string>, b: seq<string>)
    ensures var r := RunLines(v, m, a);
      RunLines(v, m, a + b) == if r.1 then RunLines(v, r.0, b) else r
    decreases |a|
  {
    if a == [] {
      assert a + b == b;
    } else {
      assert (a + b)[1..] == a[1..] + b;
      RunLinesMore(v, Process(v, m, a[0]).0, a[1..], b);
    }
  }

  /** With exact slices, feeding chunks one by one is running the lines of the whole stream: the line
      starts, the abort decision, state and media type, and the leftover buffer do not depend on where
      the stream was cut. */
  lemma {:induction false} ExactFeedIsStream(v: Validator, chunks: seq<string>)
    ensures var h := FeedAll(v, Exact, chunks);
      var split := Split(Join(chunks));
      && (h.machine, !h.aborted) == RunLines(v, START, split.0)
      && (!h.aborted ==> h.buffer == split.1)
  {
    if chunks == [] {
      assert FindLineEnd("", 0).None?;
    } else {
      var before, chunk := chunks[..|chunks| - 1], chunks[|chunks| - 1];
      ExactFeedIsStream(v, before);
      var h := FeedAll(v, Exact, before);
      SplitMore(Join(before), chunk);
      var old', new' := Split(Join(before)), Split(Split(Join(before)).1 + chunk);
      RunLinesMore(v, START, old'.0, new'.0);
      if !h.aborted {
        ExactScan(v, h.buffer + chunk, 0, h.machine);
        assert (h.buffer + chunk)[0..] == h.buffer + chunk;
      }
    }
  }

  lemma ExactChunkIndependence(v: Validator, a: seq<string>, b: seq<string>)
    requires Join(a) == Join(b)
    ensures var x, y := FeedAll(v, Exact, a), FeedAll(v, Exact, b);
      x.machine == y.machine && x.aborted == y.aborted && (!x.aborted ==> x.buffer == y.buffer)
  {
    ExactFeedIsStream(v, a);
    ExactFeedIsStream(v, b);
  }
}
