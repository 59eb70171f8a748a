/** What the header handler makes of one stream cut into calls in different ways. */
module HeaderChunks {
  import opened HeaderMatch
  import opened HeaderHandler
  import opened HeaderSettled

  // What the slice as written reads beyond the line

  function Overread(buffer: string, start: nat, end: nat): string
    requires start <= end <= |buffer|
  {
    if start + end <= |buffer| then buffer[end..start + end] else buffer[end..]
  }

  lemma WrittenSlice(buffer: string, start: nat, end: nat)
    requires start <= end && IsLineEnd(buffer, end)
    ensures Slice(AsWritten, buffer, start, end) == Slice(Exact, buffer, start, end) + Overread(buffer, start, end)
    ensures Tail(Overread(buffer, start, end))
    ensures start == 0 ==> Overread(buffer, start, end) == ""
  {
  }

  // Everything but the charset

  ghost predicate IgnoresCharset(v: Validator)
  {
    forall a: MediaType, b: MediaType :: a.mediaType == b.mediaType && a.subtype == b.subtype ==> v(a) == v(b)
  }

  predicate SameButCharset(a: Machine, b: Machine)
  {
    a.phase == b.phase && a.mediaType.mediaType == b.mediaType.mediaType && a.mediaType.subtype == b.mediaType.subtype
  }

  lemma ProcessTail(v: Validator, a: Machine, b: Machine, line: string, ext: string)
    requires IgnoresCharset(v) && SameButCharset(a, b) && Tail(ext)
    ensures var p, q := Process(v, a, line + ext), Process(v, b, line);
      SameButCharset(p.0, q.0) && p.1 == q.1
  {
    StatusTail(line, ext);
    MatchTypeTail(line, ext);
    hide StatusOf, MatchType, CharsetFrom;
  }

  lemma {:induction false} ScanSame(v: Validator, buffer: string, start: nat, a: Machine, b: Machine)
    requires start <= |buffer| && IgnoresCharset(v) && SameButCharset(a, b)
    ensures var s, t := ScanLines(v, AsWritten, buffer, start, a), ScanLines(v, Exact, buffer, start, b);
      SameButCharset(s.machine, t.machine) && s.start == t.start && s.go == t.go
    decreases |buffer| - start
  {
    hide ScanLines, FindLineEnd, Process, Slice, SameButCharset, IgnoresCharset, Tail, Overread;
    match FindLineEnd(buffer, start)
    case None =>
      ScanEnd(v, AsWritten, buffer, start, a);
      ScanEnd(v, Exact, buffer, start, b);
    case Some(end) =>
      ScanStep(v, AsWritten, buffer, start, end, a);
      ScanStep(v, Exact, buffer, start, end, b);
      WrittenSlice(buffer, start, end);
      var line, ext := Slice(Exact, buffer, start, end), Overread(buffer, start, end);
      ProcessTail(v, a, b, line, ext);
      if Process(v, b, line).1 {
        ScanSame(v, buffer, end + 2, Process(v, a, line + ext).0, Process(v, b, line).0);
      }
  }

  /** For the same chunks, the handler as written and the intended one agree on everything but charset. */
  lemma {:induction false} WrittenMatchesExact(v: Validator, chunks: seq<string>)
    requires IgnoresCharset(v)
    ensures var h, k := FeedAll(v, AsWritten, chunks), FeedAll(v, Exact, chunks);
      h.buffer == k.buffer && h.aborted == k.aborted && SameButCharset(h.machine, k.machine)
  {
    if chunks != [] {
      var before, chunk := chunks[..|chunks| - 1], chunks[|chunks| - 1];
      WrittenMatchesExact(v, before);
      var h, k := FeedAll(v, AsWritten, before), FeedAll(v, Exact, before);
      ScanSame(v, k.buffer + chunk, 0, h.machine, k.machine);
      hide ScanLines, SameButCharset;
    }
  }

  /** The code as written: for validators that ignore the charset, the cut of the stream into calls changes
      neither state, type and subtype, nor the decision to abort, nor where the unread text begins. */
  lemma WrittenChunkIndependence(v: Validator, a: seq<string>, b: seq<string>)
    requires IgnoresCharset(v) && Join(a) == Join(b)
    ensures var x, y := FeedAll(v, AsWritten, a), FeedAll(v, AsWritten, b);
      SameButCharset(x.machine, y.machine) && x.aborted == y.aborted && (!x.aborted ==> x.buffer == y.buffer)
  {
    WrittenMatchesExact(v, a);
    WrittenMatchesExact(v, b);
    ExactChunkIndependence(v, a, b);
  }

  // The charset, when the deciding line is settled

  predicate SettledLine(line: string)
  {
    MatchType(line).Match? ==> Settled(line, MatchType(line).rest)
  }

  /** Each line the machine reads as a header field is settled. */
  predicate SettledRun(v: Validator, m: Machine, lines: seq<string>)
    decreases |lines|
  {
    lines != [] ==>
      && (m.phase.ReadingHeaderFields? ==> SettledLine(lines[0]))
      && var p := Process(v, m, lines[0]); (p.1 ==> SettledRun(v, p.0, lines[1..]))
  }

  lemma SettledRunFirst(v: Validator, m: Machine, line: string, lines: seq<string>)
    ensures SettledRun(v, m, [line] + lines) <==>
      && (m.phase.ReadingHeaderFields? ==> SettledLine(line))
      && var p := Process(v, m, line); (p.1 ==> SettledRun(v, p.0, lines))
  {
    hide SettledLine, Process;
    assert ([line] + lines)[1..] == lines;
  }

  lemma ProcessSettled(v: Validator, m: Machine, line: string, ext: string)
    requires Tail(ext) && (m.phase.ReadingHeaderFields? ==> SettledLine(line))
    ensures Process(v, m, line + ext) == Process(v, m, line)
  {
    StatusTail(line, ext);
    MatchTypeTail(line, ext);
    if m.phase.ReadingHeaderFields? && MatchType(line).Match? {
      SettledCharset(line, ext, MatchType(line).rest);
    }
    hide StatusOf, MatchType, CharsetFrom, Settled;
  }

  lemma {:induction false} SettledScan(v: Validator, buffer: string, start: nat, m: Machine)
    requires start <= |buffer| && SettledRun(v, m, Split(buffer[start..]).0)
    ensures ScanLines(v, AsWritten, buffer, start, m) == ScanLines(v, Exact, buffer, start, m)
    decreases |buffer| - start
  {
    hide ScanLines, FindLineEnd, Process, Slice, Tail, Overread, Split, SettledLine, SettledRun;
    match FindLineEnd(buffer, start)
    case None =>
      ScanEnd(v, AsWritten, buffer, start, m);
      ScanEnd(v, Exact, buffer, start, m);
    case Some(end) =>
      ScanStep(v, AsWritten, buffer, start, end, m);
      ScanStep(v, Exact, buffer, start, end, m);
      WrittenSlice(buffer, start, end);
      ExactSlice(buffer, start, end);
      var line, ext := buffer[start..end], Overread(buffer, start, end);
      SplitFrom(buffer, start, end);
      SettledRunFirst(v, m, line, Split(buffer[end + 2..]).0);
      ProcessSettled(v, m, line, ext);
      if Process(v, m, line).1 {
        SettledScan(v, buffer, end + 2, Process(v, m, line).0);
      }
  }

  lemma ExactSlice(buffer: string, start: nat, end: nat)
    requires start <= end <= |buffer|
    ensures Slice(Exact, buffer, start, end) == buffer[start..end]
  {
  }

  /** A settled run is settled up to any point and from there on. */
  lemma {:induction false} SettledRunSplits(v: Validator, m: Machine, a: seq<string>, b: seq<string>)
    requires SettledRun(v, m, a + b)
    ensures SettledRun(v, m, a)
    ensures RunLines(v, m, a).1 ==> SettledRun(v, RunLines(v, m, a).0, b)
    decreases |a|
  {
    hide Process, SettledLine;
    if a == [] {
      assert a + b == b;
    } else {
      assert (a + b)[1..] == a[1..] + b;
      if Process(v, m, a[0]).1 {
        SettledRunSplits(v, Process(v, m, a[0]).0, a[1..], b);
      }
    }
  }

  /** Whatever the validator and the chunks, the handler as written does exactly what was intended when the
      lines it reads as header fields are settled. */
  lemma {:induction false} SettledIsExact(v: Validator, chunks: seq<string>)
    requires SettledRun(v, START, Split(Join(chunks)).0)
    ensures FeedAll(v, AsWritten, chunks) == FeedAll(v, Exact, chunks)
  {
    if chunks != [] {
      var before, chunk := chunks[..|chunks| - 1], chunks[|chunks| - 1];
      var old', new' := Split(Join(before)), Split(Split(Join(before)).1 + chunk);
      SplitMore(Join(before), chunk);
      assert Join(chunks) == Join(before) + chunk;
      hide Split, SettledRun, ScanLines, Join;
      SettledRunSplits(v, START, old'.0, new'.0);
      SettledIsExact(v, before);
      ExactFeedIsStream(v, before);
      var h := FeedAll(v, Exact, before);
      if !h.aborted {
        assert (h.buffer + chunk)[0..] == h.buffer + chunk;
        SettledScan(v, h.buffer + chunk, 0, h.machine);
      }
    }
  }

  // Or when each call completes at most one line

  /** Each call completes at most one line, as libcurl promises its header callback. */
  ghost predicate OneLinePerCall(chunks: seq<string>)
  {
    forall k :: 0 <= k < |chunks| ==> |Split(Join(chunks[..k + 1])).0| <= |Split(Join(chunks[..k])).0| + 1
  }

  lemma OneLineScan(v: Validator, buffer: string, m: Machine)
    requires |Split(buffer).0| <= 1
    ensures ScanLines(v, AsWritten, buffer, 0, m) == ScanLines(v, Exact, buffer, 0, m)
  {
    hide ScanLines, FindLineEnd, Process, Slice, Tail, Overread, Split;
    assert buffer[0..] == buffer;
    match FindLineEnd(buffer, 0)
    case None =>
      ScanEnd(v, AsWritten, buffer, 0, m);
      ScanEnd(v, Exact, buffer, 0, m);
    case Some(end) =>
      ScanStep(v, AsWritten, buffer, 0, end, m);
      ScanStep(v, Exact, buffer, 0, end, m);
      WrittenSlice(buffer, 0, end);
      var line := Slice(Exact, buffer, 0, end);
      assert line + "" == line;
      SplitFrom(buffer, 0, end);
      var p := Process(v, m, line);
      if FindLineEnd(buffer, end + 2).None? {
        ScanEnd(v, AsWritten, buffer, end + 2, p.0);
        ScanEnd(v, Exact, buffer, end + 2, p.0);
      } else {
        SplitFrom(buffer, end + 2, FindLineEnd(buffer, end + 2).value);
        assert false;
      }
  }

  lemma LastCallOneLine(chunks: seq<string>)
    requires OneLinePerCall(chunks) && chunks != []
    ensures var n := |chunks| - 1;
      OneLinePerCall(chunks[..n]) && |Split(Split(Join(chunks[..n])).1 + chunks[n]).0| <= 1
  {
    var n := |chunks| - 1;
    var before, chunk := chunks[..n], chunks[n];
    assert chunks[..n + 1] == chunks;
    assert |Split(Join(chunks)).0| <= |Split(Join(before)).0| + 1;
    SplitMore(Join(before), chunk);
    assert Join(chunks) == Join(before) + chunk;
    hide Split, Join;
    forall k | 0 <= k < n
      ensures |Split(Join(before[..k + 1])).0| <= |Split(Join(before[..k])).0| + 1
    {
      assert before[..k] == chunks[..k] && before[..k + 1] == chunks[..k + 1];
    }
  }

  lemma {:induction false} OneLinePerCallIsExact(v: Validator, chunks: seq<string>)
    requires OneLinePerCall(chunks)
    ensures FeedAll(v, AsWritten, chunks) == FeedAll(v, Exact, chunks)
  {
    if chunks != [] {
      var before, chunk := chunks[..|chunks| - 1], chunks[|chunks| - 1];
      LastCallOneLine(chunks);
      hide Split, ScanLines, Join, OneLinePerCall;
      OneLinePerCallIsExact(v, before);
      ExactFeedIsStream(v, before);
      var h := FeedAll(v, Exact, before);
      if !h.aborted {
        OneLineScan(v, h.buffer + chunk, h.machine);
      }
    }
  }
}
