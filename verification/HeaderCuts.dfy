/** Exactly when the cut of a stream into calls can show in what the header handler as written comes to. */
module HeaderCuts {
  import opened Downloads
  import opened HeaderMatch
  import opened HeaderHandler
  import opened HeaderSettled
  import opened HeaderChunks

  /** However a text is cut into calls, the handler as written comes to the same state, media type and decision. */
  ghost predicate CutsAgree(v: Validator, text: string)
  {
    forall a, b :: Join(a) == text && Join(b) == text ==>
      SameOutcome(FeedAll(v, AsWritten, a), FeedAll(v, AsWritten, b))
  }

  predicate SameOutcome(g: Handler, h: Handler) { g.machine == h.machine && g.aborted == h.aborted }

  /** Streams whose header lines are all settled as they are read: no cut shows. */
  lemma SettledStreamAgrees(v: Validator, text: string)
    requires SettledRun(v, START, Split(text).0)
    ensures CutsAgree(v, text)
  {
    hide Split, SettledRun, FeedAll;
    forall a, b | Join(a) == text && Join(b) == text
      ensures SameOutcome(FeedAll(v, AsWritten, a), FeedAll(v, AsWritten, b))
    {
      SettledIsExact(v, a);
      SettledIsExact(v, b);
      ExactChunkIndependence(v, a, b);
    }
  }

  // Which line decides, and what may be read along with it

  predicate Accepted(line: string) { StatusOf(line).Some? && StatusOf(line).value[0] == '2' }

  /** The first content-type line after an accepted status line: where it starts and ends. */
  function Deciding(text: string, p: nat, phase: Phase): (d: Option<(nat, nat)>)
    requires p <= |text|
    ensures d.Some? ==> p <= d.value.0 <= d.value.1 && IsLineEnd(text, d.value.1)
    ensures d.Some? ==> MatchType(text[d.value.0..d.value.1]).Match? && FindLineEnd(text, d.value.0) == Some(d.value.1)
    decreases |text| - p
  {
    match FindLineEnd(text, p)
    case None => None
    case Some(e) =>
      match phase
      case ReadingStatusLine => if Accepted(text[p..e]) then Deciding(text, e + 2, ReadingHeaderFields) else None
      case ReadingHeaderFields =>
        if MatchType(text[p..e]).Match? then Some((p, e)) else Deciding(text, e + 2, ReadingHeaderFields)
      case Done => None
  }

  function CharsetOf(text: string, p: nat, e: nat, o: nat): string
    requires p <= e && e + o <= |text| && MatchType(text[p..e]).Match?
  {
    CharsetFrom(text[p..e + o], MatchType(text[p..e]).rest)
  }

  /** Whatever can be read along with the line, at least its line end and no more than what precedes the
      line is long, its charset stays the line's own. */
  predicate OverreadsAgree(text: string, p: nat, e: nat)
    requires p <= e <= |text| && MatchType(text[p..e]).Match?
  {
    forall o :: 2 <= o <= p && e + o <= |text| ==> CharsetOf(text, p, e, o) == CharsetOf(text, p, e, 0)
  }

  /** No line read as a header field from p on can change its charset. */
  predicate Harmless(text: string, p: nat, phase: Phase)
    requires p <= |text|
  {
    var d := Deciding(text, p, phase);
    d.Some? ==> OverreadsAgree(text, d.value.0, d.value.1)
  }

  // Finding lines in a part of the text

  /** A line end found in a part of the text is the one found in the text. */
  lemma FindInText(text: string, b: nat, q: nat, s: nat)
    requires b + s <= q <= |text| && FindLineEnd(text[b..q], s).Some?
    ensures FindLineEnd(text, b + s) == Some(b + FindLineEnd(text[b..q], s).value)
  {
    var part := text[b..q];
    var e := FindLineEnd(part, s).value;
    FoundFirst(part, s, e);
    forall k | b + s <= k < b + e ensures !IsLineEnd(text, k) {
      assert !IsLineEnd(part, k - b);
      assert k + 1 < q;
      assert part[k - b] == text[k] && part[k + 1 - b] == text[k + 1];
    }
    FindIs(text, b + s, b + e);
  }

  /** And the other way round, while the part holds the whole line end. */
  lemma FindInPart(text: string, q: nat, p: nat, e: nat)
    requires p <= |text| && FindLineEnd(text, p) == Some(e) && e + 2 <= q <= |text|
    ensures FindLineEnd(text[..q], p) == Some(e)
  {
    var part := text[..q];
    FoundFirst(text, p, e);
    forall k | p <= k < e ensures !IsLineEnd(part, k) {
      assert !IsLineEnd(text, k);
    }
    FindIs(part, p, e);
  }

  // Harmless streams: every cut comes to what was intended

  lemma DecidingStep(text: string, p: nat, e: nat, v: Validator, m: Machine)
    requires p <= |text| && FindLineEnd(text, p) == Some(e) && Harmless(text, p, m.phase)
    ensures Process(v, m, text[p..e]).1 ==> Harmless(text, e + 2, Process(v, m, text[p..e]).0.phase)
    ensures m.phase.ReadingHeaderFields? && MatchType(text[p..e]).Match? ==> OverreadsAgree(text, p, e)
  {
    hide FindLineEnd, OverreadsAgree, MatchType, StatusOf, CharsetFrom;
  }

  /** A line and what is read along with it come to what the line alone comes to. */
  lemma HarmlessProcess(v: Validator, m: Machine, text: string, p: nat, e: nat, o: nat)
    requires p <= e && e + o <= |text| && IsLineEnd(text, e) && (o == 0 || 2 <= o <= p)
    requires m.phase.ReadingHeaderFields? && MatchType(text[p..e]).Match? ==> OverreadsAgree(text, p, e)
    ensures Process(v, m, text[p..e + o]) == Process(v, m, text[p..e])
  {
    hide Tail, IsLineEnd, MatchType, CharsetFrom, Process;
    Adjacent(text, p, e, e + o);
    TailOf(text, e, o);
    if m.phase.ReadingHeaderFields? && MatchType(text[p..e]).Match? {
      OverreadIs(text, p, e, o);
    }
    hide OverreadsAgree;
    ProcessAlike(v, m, text[p..e], text[e..e + o]);
  }

  lemma OverreadIs(text: string, p: nat, e: nat, o: nat)
    requires p <= e && e + o <= |text| && (o == 0 || 2 <= o <= p)
    requires MatchType(text[p..e]).Match? && OverreadsAgree(text, p, e)
    ensures CharsetFrom(text[p..e + o], MatchType(text[p..e]).rest)
      == CharsetFrom(text[p..e], MatchType(text[p..e]).rest)
  {
    hide MatchType, CharsetFrom;
    assert CharsetOf(text, p, e, o) == CharsetOf(text, p, e, 0);
    assert text[p..e + 0] == text[p..e];
  }

  lemma TailOf(text: string, e: nat, o: nat)
    requires IsLineEnd(text, e) && e + o <= |text|
    ensures Tail(text[e..e + o])
  {
  }

  lemma ProcessAlike(v: Validator, m: Machine, line: string, ext: string)
    requires Tail(ext)
    requires m.phase.ReadingHeaderFields? && MatchType(line).Match? ==>
      CharsetFrom(line + ext, MatchType(line).rest) == CharsetFrom(line, MatchType(line).rest)
    ensures Process(v, m, line + ext) == Process(v, m, line)
  {
    hide Tail, StatusOf, MatchType, CharsetFrom;
    StatusTail(line, ext);
    MatchTypeTail(line, ext);
  }

  /** The slices, as stretches of the text. */
  lemma WrittenStretch(text: string, b: nat, q: nat, s: nat, e: nat) returns (o: nat)
    requires s <= e && b + e + 2 <= q <= |text| && (s == 0 || 2 <= s)
    ensures (o == 0 || 2 <= o <= b + s) && b + e + o <= |text|
    ensures Slice(AsWritten, text[b..q], s, e) == text[b + s..b + e + o]
    ensures Slice(Exact, text[b..q], s, e) == text[b + s..b + e]
  {
    o := if s + e <= q - b then s else q - b - e;
    PartOfPart(text, b, q, s, e + o);
    PartOfPart(text, b, q, s, e);
  }

  lemma PartOfPart(text: string, b: nat, q: nat, i: nat, j: nat)
    requires i <= j && b + j <= q <= |text|
    ensures text[b..q][i..j] == text[b + i..b + j]
  {
    var x, y := text[b..q][i..j], text[b + i..b + j];
    assert |x| == |y| == j - i;
    assert forall k :: 0 <= k < j - i ==> x[k] == text[b..q][i + k] == text[b + i + k] == y[k];
  }

  /** One line of a scan in a harmless stream, with either slice. */
  lemma HarmlessLine(v: Validator, text: string, b: nat, q: nat, s: nat, e: nat, m: Machine)
    requires b + s <= q <= |text| && (s == 0 || 2 <= s) && Harmless(text, b + s, m.phase)
    requires FindLineEnd(text[b..q], s) == Some(e)
    ensures s <= e && b + e + 2 <= q
    ensures var line := Slice(Exact, text[b..q], s, e);
      && Process(v, m, Slice(AsWritten, text[b..q], s, e)) == Process(v, m, line)
      && (Process(v, m, line).1 ==> Harmless(text, b + e + 2, Process(v, m, line).0.phase))
  {
    hide FindLineEnd, Process, Slice, Harmless, MatchType, OverreadsAgree;
    FindInText(text, b, q, s);
    DecidingStep(text, b + s, b + e, v, m);
    var o := WrittenStretch(text, b, q, s, e);
    HarmlessProcess(v, m, text, b + s, b + e, o);
  }

  predicate ScansAlike(v: Validator, text: string, b: nat, q: nat, s: nat, m: Machine)
    requires b + s <= q <= |text|
  {
    var r := ScanLines(v, Exact, text[b..q], s, m);
    && ScanLines(v, AsWritten, text[b..q], s, m) == r
    && b + r.start <= q && (r.go ==> Harmless(text, b + r.start, r.machine.phase))
  }

  lemma {:induction false} HarmlessScan(v: Validator, text: string, b: nat, q: nat, s: nat, m: Machine)
    requires b + s <= q <= |text| && (s == 0 || 2 <= s) && Harmless(text, b + s, m.phase)
    ensures ScansAlike(v, text, b, q, s, m)
    decreases q - b - s
  {
    hide ScanLines, FindLineEnd, Process, Slice, Harmless;
    match FindLineEnd(text[b..q], s)
    case None =>
      ScanEnd(v, AsWritten, text[b..q], s, m);
      ScanEnd(v, Exact, text[b..q], s, m);
    case Some(e) =>
      HarmlessLine(v, text, b, q, s, e, m);
      var p := Process(v, m, Slice(Exact, text[b..q], s, e));
      if p.1 { HarmlessScan(v, text, b, q, e + 2, p.0); }
      ScanStep(v, AsWritten, text[b..q], s, e, m);
      ScanStep(v, Exact, text[b..q], s, e, m);
  }

  /** What the handler holds between calls is the end of the text so far, and harmless from there on. */
  predicate Holds(text: string, c: nat, h: Handler)
  {
    !h.aborted ==>
      && |h.buffer| <= c <= |text| && h.buffer == text[c - |h.buffer|..c]
      && Harmless(text, c - |h.buffer|, h.machine.phase)
  }

  lemma HarmlessCall(v: Validator, text: string, c: nat, h: Handler, chunk: string)
    requires Holds(text, c, h) && c + |chunk| <= |text| && chunk == text[c..c + |chunk|]
    ensures Feed(v, AsWritten, h, chunk) == Feed(v, Exact, h, chunk)
    ensures Holds(text, c + |chunk|, Feed(v, Exact, h, chunk))
  {
    if !h.aborted {
      Adjacent(text, c - |h.buffer|, c, c + |chunk|);
      hide ScanLines, Harmless, Feed;
      HarmlessFeed(v, text, c - |h.buffer|, c + |chunk|, h, chunk);
    }
  }

  lemma HarmlessFeed(v: Validator, text: string, b: nat, q: nat, h: Handler, chunk: string)
    requires b <= q <= |text| && !h.aborted && h.buffer + chunk == text[b..q] && Harmless(text, b, h.machine.phase)
    ensures Feed(v, AsWritten, h, chunk) == Feed(v, Exact, h, chunk) && Holds(text, q, Feed(v, Exact, h, chunk))
  {
    hide ScanLines, Harmless, Feed, Holds, Left;
    HarmlessScan(v, text, b, q, 0, h.machine);
    FeedIs(v, AsWritten, h, chunk);
    FeedIs(v, Exact, h, chunk);
    HoldsRest(text, b, q, ScanLines(v, Exact, text[b..q], 0, h.machine));
  }

  /** The handler that a scan of its buffer leaves. */
  function Left(buffer: string, r: Scan): Handler
    requires r.start <= |buffer|
  {
    Handler(if r.go then buffer[r.start..] else buffer, r.machine, !r.go)
  }

  lemma FeedIs(v: Validator, slicing: Slicing, h: Handler, chunk: string)
    requires !h.aborted
    ensures Feed(v, slicing, h, chunk) == Left(h.buffer + chunk, ScanLines(v, slicing, h.buffer + chunk, 0, h.machine))
  {
    hide ScanLines;
  }

  lemma HoldsRest(text: string, b: nat, q: nat, r: Scan)
    requires b + r.start <= q <= |text| && (r.go ==> Harmless(text, b + r.start, r.machine.phase))
    ensures Holds(text, q, Left(text[b..q], r))
  {
    hide Harmless;
    if r.go {
      RestOfPart(text, b, q, r.start);
      HoldsAt(text, q, b + r.start, r.machine);
    }
  }

  lemma HoldsAt(text: string, q: nat, i: nat, m: Machine)
    requires i <= q <= |text| && Harmless(text, i, m.phase)
    ensures Holds(text, q, Handler(text[i..q], m, false))
  {
    hide Harmless;
    assert q - |text[i..q]| == i;
  }

  lemma Adjacent(text: string, b: nat, c: nat, q: nat)
    requires b <= c <= q <= |text|
    ensures text[b..c] + text[c..q] == text[b..q]
  {
  }

  lemma RestOfPart(text: string, b: nat, q: nat, i: nat)
    requires b + i <= q <= |text|
    ensures text[b..q][i..] == text[b + i..q]
  {
    PartOfPart(text, b, q, i, q - b);
    assert text[b..q][i..] == text[b..q][i..q - b];
  }

  lemma JoinLast(chunks: seq<string>)
    requires chunks != []
    ensures Join(chunks) == Join(chunks[..|chunks| - 1]) + chunks[|chunks| - 1]
  {
  }

  lemma FeedLast(v: Validator, slicing: Slicing, chunks: seq<string>)
    requires chunks != []
    ensures FeedAll(v, slicing, chunks)
      == Feed(v, slicing, FeedAll(v, slicing, chunks[..|chunks| - 1]), chunks[|chunks| - 1])
  {
    hide Feed;
  }

  lemma PrefixParts(before: string, chunk: string, text: string)
    requires before + chunk <= text
    ensures before <= text && |before| + |chunk| <= |text| && chunk == text[|before|..|before| + |chunk|]
  {
  }

  lemma {:induction false} HarmlessFeeds(v: Validator, text: string, chunks: seq<string>)
    requires Harmless(text, 0, ReadingStatusLine) && Join(chunks) <= text
    ensures FeedAll(v, AsWritten, chunks) == FeedAll(v, Exact, chunks)
    ensures Holds(text, |Join(chunks)|, FeedAll(v, Exact, chunks))
  {
    hide *;
    if chunks == [] {
      HoldsNothing(v, text);
    } else {
      JoinLast(chunks);
      FeedLast(v, AsWritten, chunks);
      FeedLast(v, Exact, chunks);
      var before, chunk := chunks[..|chunks| - 1], chunks[|chunks| - 1];
      PrefixParts(Join(before), chunk, text);
      HarmlessFeeds(v, text, before);
      HarmlessCall(v, text, |Join(before)|, FeedAll(v, Exact, before), chunk);
    }
  }

  lemma HoldsNothing(v: Validator, text: string)
    requires Harmless(text, 0, ReadingStatusLine)
    ensures FeedAll(v, AsWritten, []) == FeedAll(v, Exact, [])
    ensures Join([]) == "" && Holds(text, 0, FeedAll(v, Exact, []))
  {
    hide Harmless;
  }

  lemma HarmlessAgrees(v: Validator, text: string)
    requires Harmless(text, 0, ReadingStatusLine)
    ensures CutsAgree(v, text)
  {
    hide Harmless, FeedAll;
    forall a, b | Join(a) == text && Join(b) == text
      ensures SameOutcome(FeedAll(v, AsWritten, a), FeedAll(v, AsWritten, b))
    {
      HarmlessFeeds(v, text, a);
      HarmlessFeeds(v, text, b);
      ExactChunkIndependence(v, a, b);
    }
  }

  // The other streams: two cuts with two charsets

  lemma {:induction false} ScanDone(v: Validator, buffer: string, start: nat, m: Machine)
    requires start <= |buffer| && m.phase.Done?
    ensures ScanLines(v, AsWritten, buffer, start, m).machine == m && ScanLines(v, AsWritten, buffer, start, m).go
    decreases |buffer| - start
  {
    match FindLineEnd(buffer, start)
    case None =>
    case Some(end) => ScanDone(v, buffer, end + 2, m);
  }

  lemma FeedDone(v: Validator, h: Handler, chunk: string)
    requires h.machine.phase.Done?
    ensures Feed(v, AsWritten, h, chunk).machine == h.machine
  {
    if !h.aborted { ScanDone(v, h.buffer + chunk, 0, h.machine); }
  }

  /** A line before the deciding one is read alike with anything behind it: the scan goes on after it. */
  lemma BeforeDeciding(v: Validator, m: Machine, line: string, ext: string)
    requires Tail(ext) && (m.phase.ReadingStatusLine? ==> Accepted(line))
    requires m.phase.ReadingHeaderFields? ==> MatchType(line).NoMatch?
    requires !m.phase.Done?
    ensures Process(v, m, line + ext).1 && Process(v, m, line + ext).0.phase == ReadingHeaderFields
  {
    StatusTail(line, ext);
    MatchTypeTail(line, ext);
    hide StatusOf, MatchType, CharsetFrom;
  }

  lemma DecidingNext(text: string, p: nat, phase: Phase, e: nat)
    requires p <= |text| && Deciding(text, p, phase).Some? && FindLineEnd(text, p) == Some(e)
    requires !(phase.ReadingHeaderFields? && MatchType(text[p..e]).Match?)
    ensures !phase.Done? && (phase.ReadingStatusLine? ==> Accepted(text[p..e]))
    ensures Deciding(text, e + 2, ReadingHeaderFields) == Deciding(text, p, phase)
    ensures e + 2 <= Deciding(text, p, phase).value.0
  {
    hide FindLineEnd, MatchType, Accepted;
  }

  lemma DecidingHere(text: string, p: nat, phase: Phase, e: nat)
    requires p <= |text| && FindLineEnd(text, p) == Some(e)
    requires phase.ReadingHeaderFields? && MatchType(text[p..e]).Match?
    ensures Deciding(text, p, phase) == Some((p, e))
  {
    hide FindLineEnd, MatchType;
  }

  lemma DecidingFinds(text: string, p: nat, phase: Phase)
    requires p <= |text| && Deciding(text, p, phase).Some?
    ensures FindLineEnd(text, p).Some?
  {
    hide FindLineEnd, MatchType;
  }

  /** A single call that reaches up to q scans to the deciding line. */
  lemma {:induction false} ReachesDeciding(v: Validator, text: string, q: nat, s: nat, m: Machine) returns (n: Machine)
    requires s <= q <= |text| && Deciding(text, s, m.phase).Some? && Deciding(text, s, m.phase).value.0 <= q
    ensures n.phase.ReadingHeaderFields?
    ensures ScanLines(v, AsWritten, text[..q], s, m)
         == ScanLines(v, AsWritten, text[..q], Deciding(text, s, m.phase).value.0, n)
    decreases q - s
  {
    hide ScanLines, FindLineEnd, Process, Slice, Deciding, MatchType, Accepted, Overread, Tail, IsLineEnd;
    DecidingFinds(text, s, m.phase);
    var e := FindLineEnd(text, s).value;
    if m.phase.ReadingHeaderFields? && MatchType(text[s..e]).Match? {
      DecidingHere(text, s, m.phase, e);
      n := m;
    } else {
      DecidingNext(text, s, m.phase, e);
      FindInPart(text, q, s, e);
      ScanStep(v, AsWritten, text[..q], s, e, m);
      WrittenSlice(text[..q], s, e);
      ExactSlice(text[..q], s, e);
      assert text[..q][s..e] == text[s..e];
      BeforeDeciding(v, m, text[s..e], Overread(text[..q], s, e));
      n := ReachesDeciding(v, text, q, e + 2, Process(v, m, text[s..e] + Overread(text[..q], s, e)).0);
    }
  }

  /** What the deciding line comes to with a given charset. */
  function Declared(line: string, charset: string): Machine
    requires MatchType(line).Match?
  {
    Machine(Done, MediaType(MatchType(line).mediaType, MatchType(line).subtype, charset))
  }

  lemma ProcessDeciding(v: Validator, m: Machine, line: string, ext: string)
    requires m.phase.ReadingHeaderFields? && MatchType(line).Match? && Tail(ext)
    ensures Process(v, m, line + ext).0 == Declared(line, CharsetFrom(line + ext, MatchType(line).rest))
  {
    MatchTypeTail(line, ext);
    hide MatchType, CharsetFrom;
  }

  /** Scanning from the deciding line on: its slice settles the machine. */
  lemma ScanDeciding(v: Validator, buffer: string, s: nat, e: nat, line: string, ext: string, m: Machine)
    requires s <= |buffer| && FindLineEnd(buffer, s) == Some(e) && m.phase.ReadingHeaderFields?
    requires Slice(AsWritten, buffer, s, e) == line + ext && MatchType(line).Match? && Tail(ext)
    ensures ScanLines(v, AsWritten, buffer, s, m).machine
      == Declared(line, CharsetFrom(line + ext, MatchType(line).rest))
  {
    hide ScanLines, FindLineEnd, Process, Slice, MatchType, CharsetFrom, Tail;
    ScanStep(v, AsWritten, buffer, s, e, m);
    ProcessDeciding(v, m, line, ext);
    var p := Process(v, m, line + ext);
    if p.1 { ScanDone(v, buffer, e + 2, p.0); }
  }

  lemma FirstCall(v: Validator, chunk: string)
    ensures FeedAll(v, AsWritten, [chunk]) == Feed(v, AsWritten, Handler("", START, false), chunk)
    ensures Join([chunk]) == chunk
    ensures Feed(v, AsWritten, Handler("", START, false), chunk).machine
      == ScanLines(v, AsWritten, chunk, 0, START).machine
  {
    assert [chunk][..0] == [] && "" + chunk == chunk;
    hide ScanLines;
    assert FeedAll(v, AsWritten, []) == Handler("", START, false);
  }

  lemma LaterCall(v: Validator, chunks: seq<string>, chunk: string)
    ensures FeedAll(v, AsWritten, chunks + [chunk]) == Feed(v, AsWritten, FeedAll(v, AsWritten, chunks), chunk)
    ensures Join(chunks + [chunk]) == Join(chunks) + chunk
  {
    hide Feed;
    assert (chunks + [chunk])[..|chunks|] == chunks;
  }

  predicate IsDeciding(text: string, p: nat, e: nat)
  {
    Deciding(text, 0, ReadingStatusLine) == Some((p, e))
  }

  lemma DecidingFacts(text: string, p: nat, e: nat)
    requires IsDeciding(text, p, e)
    ensures p <= e && e + 2 <= |text| && IsLineEnd(text, e)
    ensures FindLineEnd(text, p) == Some(e) && MatchType(text[p..e]).Match?
  {
    hide Deciding, FindLineEnd, MatchType;
  }

  /** One call for the text up to o characters past the deciding line: it is read along with them. */
  lemma TogetherCut(v: Validator, text: string, p: nat, e: nat, o: nat)
    requires IsDeciding(text, p, e) && 2 <= o <= p && p <= e && e + o <= |text| && MatchType(text[p..e]).Match?
    ensures Join(Together(text, e + o)) == text
    ensures FeedAll(v, AsWritten, Together(text, e + o)).machine == Declared(text[p..e], CharsetOf(text, p, e, o))
  {
    hide MatchType, CharsetFrom, Slice, ScanLines, FeedAll, Feed, Join;
    TogetherScan(v, text, p, e, o);
    hide CharsetOf, Declared, IsDeciding;
    FirstCall(v, text[..e + o]);
    LaterCall(v, [text[..e + o]], text[e + o..]);
    FeedDone(v, FeedAll(v, AsWritten, [text[..e + o]]), text[e + o..]);
    Rejoined(text, e + o);
  }

  /** Two calls, cut at q. */
  function Together(text: string, q: nat): seq<string>
    requires q <= |text|
  {
    [text[..q]] + [text[q..]]
  }

  lemma Rejoined(text: string, q: nat)
    requires q <= |text|
    ensures text[..q] + text[q..] == text
  {
  }

  lemma TogetherSlice(text: string, p: nat, e: nat, o: nat)
    requires 2 <= o <= p <= e && e + o <= |text| && IsLineEnd(text, e)
    ensures text[p..e] + text[e..e + o] == text[p..e + o] && Tail(text[e..e + o])
    ensures Slice(AsWritten, text[..e + o], p, e) == text[p..e + o]
  {
    PartOfPart(text, 0, e + o, p, e + o);
    assert text[..e + o] == text[0..e + o];
  }

  lemma TogetherScan(v: Validator, text: string, p: nat, e: nat, o: nat)
    requires IsDeciding(text, p, e) && 2 <= o <= p && p <= e && e + o <= |text| && MatchType(text[p..e]).Match?
    ensures ScanLines(v, AsWritten, text[..e + o], 0, START).machine == Declared(text[p..e], CharsetOf(text, p, e, o))
    ensures ScanLines(v, AsWritten, text[..e + o], 0, START).machine.phase.Done?
  {
    hide FindLineEnd, MatchType, CharsetFrom, Slice, ScanLines, Tail, IsLineEnd, Deciding, Process;
    DecidingFacts(text, p, e);
    TogetherSlice(text, p, e, o);
    var n := ReachesAt(v, text, e + o, p, e);
    hide IsDeciding;
    FindInPart(text, e + o, p, e);
    ScanDeciding(v, text[..e + o], p, e, text[p..e], text[e..e + o], n);
  }

  lemma ReachesAt(v: Validator, text: string, q: nat, p: nat, e: nat) returns (n: Machine)
    requires IsDeciding(text, p, e) && p <= q <= |text|
    ensures n.phase.ReadingHeaderFields?
    ensures ScanLines(v, AsWritten, text[..q], 0, START) == ScanLines(v, AsWritten, text[..q], p, n)
  {
    hide Deciding, ScanLines;
    n := ReachesDeciding(v, text, q, 0, START);
  }

  /** All lines before the deciding one in a call of their own: the handler waits for it. */
  lemma BeforeCut(v: Validator, text: string, p: nat, e: nat) returns (n: Machine)
    requires IsDeciding(text, p, e) && p <= |text|
    ensures FeedAll(v, AsWritten, [text[..p]]) == Handler("", n, false) && n.phase.ReadingHeaderFields?
    ensures Join([text[..p]]) == text[..p]
  {
    var part := text[..p];
    hide FindLineEnd, MatchType, CharsetFrom, Slice, ScanLines, FeedAll, Deciding;
    n := ReachesAt(v, text, p, p, e);
    assert FindLineEnd(part, |part|).None?;
    ScanEnd(v, AsWritten, part, |part|, n);
    FirstCall(v, part);
    assert "" + part == part;
  }

  lemma {:induction false} FindShifted(text: string, p: nat, e: nat)
    requires p <= |text| && FindLineEnd(text, p) == Some(e) && e + 2 <= |text|
    ensures FindLineEnd(text[p..e + 2], 0) == Some(e - p)
  {
    FindInPart(text, e + 2, p, e);
    FindLineEndShift(text[..e + 2], p, p);
    assert text[..e + 2][p..] == text[p..e + 2];
  }

  /** Three calls: up to the deciding line, the line, and what follows. */
  function Apart(text: string, p: nat, e: nat): seq<string>
    requires p <= e && e + 2 <= |text|
  {
    [text[..p]] + [text[p..e + 2]] + [text[e + 2..]]
  }

  lemma ApartSlice(text: string, p: nat, e: nat)
    requires p <= e && e + 2 <= |text|
    ensures text[p..e] + "" == text[p..e] == text[p..e + 0]
    ensures Slice(AsWritten, text[p..e + 2], 0, e - p) == text[p..e]
    ensures text[..p] + text[p..e + 2] + text[e + 2..] == text
  {
    PartOfPart(text, p, e + 2, 0, e - p);
  }

  /** The deciding line in a call of its own: it is read alone. */
  lemma ApartCut(v: Validator, text: string, p: nat, e: nat)
    requires IsDeciding(text, p, e) && p <= e && e + 2 <= |text| && MatchType(text[p..e]).Match?
    ensures Join(Apart(text, p, e)) == text
    ensures FeedAll(v, AsWritten, Apart(text, p, e)).machine == Declared(text[p..e], CharsetOf(text, p, e, 0))
  {
    DecidingFacts(text, p, e);
    ApartSlice(text, p, e);
    hide FindLineEnd, MatchType, CharsetFrom, Slice, ScanLines, FeedAll, Feed, IsLineEnd, Join, IsDeciding, Tail;
    FindShifted(text, p, e);
    var n := BeforeCut(v, text, p, e);
    NoTail();
    ScanDeciding(v, text[p..e + 2], 0, e - p, text[p..e], "", n);
    var one := [text[..p]];
    LaterCall(v, one, text[p..e + 2]);
    FeedMachine(v, n, text[p..e + 2]);
    LaterCall(v, one + [text[p..e + 2]], text[e + 2..]);
    FeedDone(v, FeedAll(v, AsWritten, one + [text[p..e + 2]]), text[e + 2..]);
  }

  lemma NoTail()
    ensures Tail("")
  {
  }

  lemma FeedMachine(v: Validator, n: Machine, chunk: string)
    ensures Feed(v, AsWritten, Handler("", n, false), chunk).machine == ScanLines(v, AsWritten, chunk, 0, n).machine
  {
    assert "" + chunk == chunk;
    hide ScanLines;
  }

  lemma CutsDisagree(v: Validator, text: string, a: seq<string>, b: seq<string>)
    requires Join(a) == text && Join(b) == text
    requires FeedAll(v, AsWritten, a).machine != FeedAll(v, AsWritten, b).machine
    ensures !CutsAgree(v, text)
  {
    hide FeedAll, Join;
    assert !SameOutcome(FeedAll(v, AsWritten, a), FeedAll(v, AsWritten, b));
  }

  lemma HarmfulDisagrees(v: Validator, text: string, p: nat, e: nat)
    requires IsDeciding(text, p, e) && p <= e && e + 2 <= |text|
    requires MatchType(text[p..e]).Match? && !OverreadsAgree(text, p, e)
    ensures !CutsAgree(v, text)
  {
    var o :| 2 <= o <= p && e + o <= |text| && CharsetOf(text, p, e, o) != CharsetOf(text, p, e, 0);
    hide IsDeciding, MatchType, CharsetOf, CutsAgree, FeedAll, Join, Together, Apart;
    TogetherCut(v, text, p, e, o);
    ApartCut(v, text, p, e);
    CutsDisagree(v, text, Together(text, e + o), Apart(text, p, e));
  }

  /** For every stream: no cut of it into calls shows in what the handler as written comes to exactly when
      nothing that can be read along with the deciding line changes its charset. */
  lemma CutsAgreeIffHarmless(v: Validator, text: string)
    ensures CutsAgree(v, text) <==> Harmless(text, 0, ReadingStatusLine)
  {
    hide CutsAgree;
    if Harmless(text, 0, ReadingStatusLine) {
      HarmlessAgrees(v, text);
    } else {
      var d := Deciding(text, 0, ReadingStatusLine).value;
      DecidingFacts(text, d.0, d.1);
      HarmfulDisagrees(v, text, d.0, d.1);
    }
  }

  // In terms of the line alone

  /** More text after the deciding line leaves it the deciding one. */
  lemma {:induction false} DecidingMore(text: string, more: string, p: nat, phase: Phase)
    requires p <= |text| && Deciding(text, p, phase).Some?
    ensures Deciding(text + more, p, phase) == Deciding(text, p, phase)
    decreases |text| - p
  {
    hide Deciding, FindLineEnd, MatchType, Accepted;
    DecidingFinds(text, p, phase);
    var e := FindLineEnd(text, p).value;
    FindLineEndMore(text, more, p);
    assert (text + more)[p..e] == text[p..e];
    if phase.ReadingHeaderFields? && MatchType(text[p..e]).Match? {
      DecidingHere(text, p, phase, e);
      DecidingHere(text + more, p, phase, e);
    } else {
      DecidingNext(text, p, phase, e);
      DecidingMore(text, more, e + 2, ReadingHeaderFields);
      DecidingUnfolds(text + more, p, phase, e);
    }
  }

  lemma DecidingUnfolds(text: string, p: nat, phase: Phase, e: nat)
    requires p <= |text| && FindLineEnd(text, p) == Some(e) && !phase.Done?
    requires phase.ReadingStatusLine? ==> Accepted(text[p..e])
    requires phase.ReadingHeaderFields? ==> MatchType(text[p..e]).NoMatch?
    ensures Deciding(text, p, phase) == Deciding(text, e + 2, ReadingHeaderFields)
  {
    hide FindLineEnd, MatchType, Accepted;
  }

  /** The deciding line starts behind a whole status line. */
  lemma DecidingIsLate(text: string, p: nat, e: nat)
    requires IsDeciding(text, p, e)
    ensures p >= 15
  {
    DecidingFinds(text, 0, ReadingStatusLine);
    DecidingNext(text, 0, ReadingStatusLine, FindLineEnd(text, 0).value);
  }

  /** before leads to line: in the stream of both, line decides. */
  predicate LeadsTo(before: string, line: string)
  {
    IsDeciding(before + (line + LINE_END), |before|, |before| + |line|)
  }

  lemma LineDecides(before: string, line: string, more: string)
    requires LeadsTo(before, line)
    ensures var text := before + (line + (LINE_END + more));
      && IsDeciding(text, |before|, |before| + |line|) && |before| >= 15
      && text[|before|..|before| + |line|] == line && MatchType(line).Match?
  {
    var short, p, e := before + (line + LINE_END), |before|, |before| + |line|;
    hide MatchType, Deciding, IsDeciding;
    DecidingFacts(short, p, e);
    DecidingIsLate(short, p, e);
    StillDeciding(short, more, p, e);
    Regrouped(before, line, more);
  }

  lemma StillDeciding(text: string, more: string, p: nat, e: nat)
    requires IsDeciding(text, p, e)
    ensures IsDeciding(text + more, p, e)
  {
    hide Deciding;
    DecidingMore(text, more, 0, ReadingStatusLine);
  }

  lemma Regrouped(before: string, line: string, more: string)
    ensures before + (line + LINE_END) + more == before + (line + (LINE_END + more))
    ensures (before + (line + LINE_END))[|before|..|before| + |line|] == line
    ensures (before + (line + (LINE_END + more)))[|before|..|before| + |line|] == line
  {
  }

  /** On a settled line nothing that follows can change the charset. */
  lemma SettledIsHarmless(text: string, p: nat, e: nat)
    requires p <= e && IsLineEnd(text, e) && MatchType(text[p..e]).Match?
    requires Settled(text[p..e], MatchType(text[p..e]).rest)
    ensures OverreadsAgree(text, p, e)
  {
    var line := text[p..e];
    hide Settled, MatchType, CharsetFrom;
    forall o | 2 <= o <= p && e + o <= |text| ensures CharsetOf(text, p, e, o) == CharsetOf(text, p, e, 0) {
      assert text[p..e + o] == line + text[e..e + o] && text[p..e + 0] == line;
      SettledCharset(line, text[e..e + o], MatchType(line).rest);
    }
  }

  /** On an unsettled line some continuation does. */
  lemma UnsettledIsHarmful(before: string, line: string) returns (more: string)
    requires LeadsTo(before, line) && MatchType(line).Match? && !Settled(line, MatchType(line).rest)
    ensures var text := before + (line + (LINE_END + more));
      && MatchType(text[|before|..|before| + |line|]).Match?
      && !OverreadsAgree(text, |before|, |before| + |line|)
  {
    hide Settled, MatchType, CharsetFrom, LeadsTo, IsDeciding, OverreadsAgree;
    var a, b := UnsettledDiffers(line, MatchType(line).rest);
    var alone := CharsetFrom(line, MatchType(line).rest);
    var ext := if CharsetFrom(line + a, MatchType(line).rest) != alone then a else b;
    more := ext[2..];
    assert |ext| >= 2 && LINE_END + ext[2..] == ext;
    LineDecides(before, line, more);
    LongerReads(before, line, ext);
  }

  lemma LongerReads(before: string, line: string, ext: string)
    requires MatchType(line).Match? && 2 <= |ext| <= |before|
    requires CharsetFrom(line + ext, MatchType(line).rest) != CharsetFrom(line, MatchType(line).rest)
    ensures (before + (line + ext))[|before|..|before| + |line|] == line
    ensures !OverreadsAgree(before + (line + ext), |before|, |before| + |line|)
  {
    hide MatchType, CharsetFrom;
    var text, p, e := before + (line + ext), |before|, |before| + |line|;
    assert text[p..e] == line && text[p..e + 0] == line && text[p..e + |ext|] == line + ext;
    assert CharsetOf(text, p, e, |ext|) != CharsetOf(text, p, e, 0);
  }

  /** Whatever leads to a content-type line: no cut of any stream that goes on from it shows, exactly when
      the line is settled. */
  lemma CutsAgreeIffSettled(v: Validator, before: string, line: string)
    requires LeadsTo(before, line)
    ensures MatchType(line).Match?
    ensures (forall more :: CutsAgree(v, before + (line + (LINE_END + more)))) <==> Settled(line, MatchType(line).rest)
  {
    LineDecides(before, line, "");
    hide MatchType, Settled, CutsAgree, LeadsTo;
    if Settled(line, MatchType(line).rest) {
      forall more ensures CutsAgree(v, before + (line + (LINE_END + more))) {
        SettledLineAgrees(v, before, line, more);
      }
    } else {
      var more := UnsettledLineDisagrees(v, before, line);
      assert !CutsAgree(v, before + (line + (LINE_END + more)));
    }
  }

  lemma UnsettledLineDisagrees(v: Validator, before: string, line: string) returns (more: string)
    requires LeadsTo(before, line) && MatchType(line).Match? && !Settled(line, MatchType(line).rest)
    ensures !CutsAgree(v, before + (line + (LINE_END + more)))
  {
    hide MatchType, Settled, CutsAgree, LeadsTo, OverreadsAgree, IsDeciding;
    more := UnsettledIsHarmful(before, line);
    LineDecides(before, line, more);
    var text, p, e := before + (line + (LINE_END + more)), |before|, |before| + |line|;
    DecidingFacts(text, p, e);
    HarmfulDisagrees(v, text, p, e);
  }

  lemma SettledLineAgrees(v: Validator, before: string, line: string, more: string)
    requires LeadsTo(before, line) && MatchType(line).Match? && Settled(line, MatchType(line).rest)
    ensures CutsAgree(v, before + (line + (LINE_END + more)))
  {
    hide MatchType, Settled, CutsAgree, LeadsTo, OverreadsAgree;
    var text, p, e := before + (line + (LINE_END + more)), |before|, |before| + |line|;
    LineDecides(before, line, more);
    DecidingFacts(text, p, e);
    SettledIsHarmless(text, p, e);
    CutsAgreeIffHarmless(v, text);
  }

  // One stream, two cuts, two charsets

  const STATUS := "HTTP/1.1 200 "

  lemma StatusAccepted()
    ensures Accepted(STATUS) && NoLineEnd(STATUS)
  {
    assert STATUS[9] == '2' && STATUS[10] == '0' && STATUS[11] == '0' && STATUS[12] == ' ';
    assert STATUS[..9] == "HTTP/1.1 ";
    assert STATUS[9..12] == "200";
  }

  /** A status line leads to a content-type line that follows at once. */
  lemma StatusLeadsTo(line: string)
    requires NoLineEnd(line) && MatchType(line).Match?
    ensures LeadsTo(STATUS + LINE_END, line)
  {
    StatusAccepted();
    var text := STATUS + LINE_END + (line + LINE_END);
    StatusThenLine(text, STATUS, line);
  }

  lemma StatusThenLine(text: string, status: string, line: string)
    requires text == status + LINE_END + (line + LINE_END) && NoLineEnd(status) && NoLineEnd(line)
    requires Accepted(status) && MatchType(line).Match?
    ensures IsDeciding(text, |status| + 2, |status| + 2 + |line|)
  {
    var p := |status| + 2;
    StatusParts(text, status, line);
    hide NoLineEnd, FindLineEnd, MatchType, Accepted, IsLineEnd, Deciding;
    FindFrom(text, 0, status);
    FindFrom(text, p, line);
    DecidingHere(text, p, ReadingHeaderFields, p + |line|);
    DecidingUnfolds(text, 0, ReadingStatusLine, |status|);
  }

  lemma StatusParts(text: string, status: string, line: string)
    requires text == status + LINE_END + (line + LINE_END)
    ensures var p := |status| + 2;
      && text[0..|status|] == status && IsLineEnd(text, |status|)
      && text[p..p + |line|] == line && IsLineEnd(text, p + |line|)
  {
    assert text[|status| + 2..] == line + LINE_END;
  }

  const EXAMPLE := "content-type:a/b"

  lemma CharsetDependsOnCut(v: Validator)
    ensures var text := STATUS + LINE_END + (EXAMPLE + (LINE_END + CharsetParam('x')));
      && |text| == 43 && Join(Together(text, 43)) == text && Join(Apart(text, 15, 31)) == text
      && FeedAll(v, AsWritten, Together(text, 43)).machine == Machine(Done, MediaType("a", "b", "x"))
      && FeedAll(v, AsWritten, Apart(text, 15, 31)).machine == Machine(Done, MediaType("a", "b", ""))
  {
    TypeOfExample();
    CharsetParamLength('x');
    NoCharsetYet(EXAMPLE, 'x');
    hide CharsetParam;
    TwoCharsets(v, EXAMPLE, LINE_END + CharsetParam('x'), "x");
  }

  lemma TwoCharsets(v: Validator, line: string, ext: string, charset: string)
    requires |line| == 16 && |ext| == 12 && ext[..2] == LINE_END
    requires NoLineEnd(line) && MatchType(line) == Match("a", "b", 16)
    requires CharsetFrom(line + ext, 16) == charset && CharsetFrom(line, 16) == ""
    ensures var text := STATUS + LINE_END + (line + ext);
      && |text| == 43 && Join(Together(text, 43)) == text && Join(Apart(text, 15, 31)) == text
      && FeedAll(v, AsWritten, Together(text, 43)).machine == Machine(Done, MediaType("a", "b", charset))
      && FeedAll(v, AsWritten, Apart(text, 15, 31)).machine == Machine(Done, MediaType("a", "b", ""))
  {
    hide MatchType, CharsetFrom, NoLineEnd, FeedAll, Join, LeadsTo, IsDeciding, Together, Apart;
    var before := STATUS + LINE_END;
    StatusLeadsTo(line);
    LineDecides(before, line, ext[2..]);
    assert LINE_END + ext[2..] == ext;
    ReadsOf(before, line, ext);
    TogetherCut(v, before + (line + ext), 15, 31, 12);
    ApartCut(v, before + (line + ext), 15, 31);
  }

  lemma ReadsOf(before: string, line: string, ext: string)
    ensures var text, p, e := before + (line + ext), |before|, |before| + |line|;
      text[p..e] == line && text[p..e + 0] == line && text[p..e + |ext|] == line + ext && |text| == e + |ext|
  {
  }

  /** The line is unsettled, but in a stream that ends with it no cut shows. */
  lemma UnsettledYetHarmless(v: Validator)
    ensures CutsAgree(v, STATUS + LINE_END + (EXAMPLE + (LINE_END + ""))) && !SettledLine(EXAMPLE)
  {
    TypeOfExample();
    OnlyLineEnd();
    hide MatchType, CharsetFrom, NoLineEnd, LeadsTo, IsDeciding, CutsAgree;
    var before := STATUS + LINE_END;
    StatusLeadsTo(EXAMPLE);
    LineDecides(before, EXAMPLE, "");
    EndsHarmlessly(v, before, EXAMPLE);
  }

  lemma EndsHarmlessly(v: Validator, before: string, line: string)
    requires IsDeciding(before + (line + (LINE_END + "")), |before|, |before| + |line|) && MatchType(line).Match?
    requires CharsetFrom(line + LINE_END, MatchType(line).rest) == CharsetFrom(line, MatchType(line).rest)
    ensures CutsAgree(v, before + (line + (LINE_END + "")))
  {
    hide MatchType, CharsetFrom, CutsAgree, IsDeciding;
    assert LINE_END + "" == LINE_END;
    ReadsOf(before, line, LINE_END);
    OnlyOverread(v, before + (line + LINE_END), |before|, |before| + |line|);
  }

  /** With nothing behind the deciding line but its end, that is all there is to read along with it. */
  lemma OnlyOverread(v: Validator, text: string, p: nat, e: nat)
    requires IsDeciding(text, p, e) && p <= e && |text| == e + 2 && MatchType(text[p..e]).Match?
    requires CharsetFrom(text[p..e + 2], MatchType(text[p..e]).rest)
      == CharsetFrom(text[p..e + 0], MatchType(text[p..e]).rest)
    ensures CutsAgree(v, text)
  {
    hide MatchType, CharsetFrom, CutsAgree, Deciding;
    forall o | 2 <= o <= p && e + o <= |text| ensures CharsetOf(text, p, e, o) == CharsetOf(text, p, e, 0) {
      assert o == 2;
    }
    CutsAgreeIffHarmless(v, text);
  }

  lemma OnlyLineEnd()
    ensures CharsetFrom(EXAMPLE + LINE_END, 16) == ""
  {
    LineEndSkipped(EXAMPLE + LINE_END, 16);
  }

  lemma TypeOfExample()
    ensures MatchType(EXAMPLE) == Match("a", "b", 16) && NoLineEnd(EXAMPLE) && CharsetFrom(EXAMPLE, 16) == ""
  {
    var line := "content-type:a/b";
    assert line[..13] == CONTENT_TYPE && line[13..14] == "a" && line[15..16] == "b";
    TokenEndIs(line, 13, 14);
    TokenEndIs(line, 15, 16);
  }
}
