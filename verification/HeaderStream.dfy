/** What the header handler makes of a whole stream, in terms of its lines. */
module HeaderStream {
  import opened Downloads
  import opened HeaderMatch
  import opened HeaderHandler
  import opened HeaderRoundTrip
  import opened HeaderChunks

  predicate IsStatus(d: string)
  {
    |d| == 3 && '0' <= d[0] <= '9' && '0' <= d[1] <= '9' && '0' <= d[2] <= '9'
  }

  /** A status line with this status, whatever the reason. */
  ghost predicate HasStatus(line: string, d: string)
  {
    IsStatus(d) && exists reason :: line == "HTTP/1.1 " + d + " " + reason
  }

  ghost predicate IsSuccess(line: string) { exists d :: HasStatus(line, d) && d[0] == '2' }

  /** A content-type line, whatever its type and parameters. */
  ghost predicate IsTypeLine(line: string)
  {
    exists field, spaced, mediaType, subtype, rest :: IsWritten(line, field, spaced, mediaType, subtype, rest)
  }

  /** The media type of a line; as written, the handler reads it together with some of what follows. */
  ghost predicate TypeRead(slicing: Slicing, line: string, m: MediaType)
  {
    exists ext :: Tail(ext) && (slicing.Exact? ==> ext == "") && Declares(line + ext, m)
  }

  /** What lines come to: the first one must be a status line of success, or the download is aborted. Then the
      first content-type line, and none after it, is put to the validator, whose verdict decides. */
  ghost predicate Outcome(v: Validator, slicing: Slicing, lines: seq<string>, m: Machine, go: bool)
  {
    if lines == [] then m == Machine(ReadingStatusLine, MediaType("", "", "")) && go
    else if !IsSuccess(lines[0]) then m == Machine(Done, MediaType("", "", "")) && !go
    else
      && ((forall k :: 1 <= k < |lines| ==> !IsTypeLine(lines[k])) ==>
            m == Machine(ReadingHeaderFields, MediaType("", "", "")) && go)
      && (forall k :: IsFirstType(lines, k) ==>
            m.phase == Done && TypeRead(slicing, lines[k], m.mediaType) && go == v(m.mediaType))
  }

  ghost predicate IsFirstType(lines: seq<string>, k: int)
  {
    1 <= k < |lines| && IsTypeLine(lines[k]) && forall i :: 1 <= i < k ==> !IsTypeLine(lines[i])
  }

  // One line

  /** A status is read exactly from the status lines. */
  lemma StatusIffWritten(line: string, d: string)
    ensures StatusOf(line) == Some(d) <==> HasStatus(line, d)
  {
    if StatusOf(line) == Some(d) {
      assert line == "HTTP/1.1 " + d + " " + line[13..];
    }
    if HasStatus(line, d) {
      var reason :| line == "HTTP/1.1 " + d + " " + reason;
      assert line[..9] == "HTTP/1.1 " && line[9..12] == d && line[12] == ' ';
    }
  }

  lemma SuccessIff(line: string)
    ensures IsSuccess(line) <==> StatusOf(line).Some? && StatusOf(line).value[0] == '2'
  {
    hide StatusOf;
    if IsSuccess(line) {
      var d :| HasStatus(line, d) && d[0] == '2';
      StatusIffWritten(line, d);
    }
    if StatusOf(line).Some? {
      StatusIffWritten(line, StatusOf(line).value);
    }
  }

  lemma TypeLineIff(line: string)
    ensures IsTypeLine(line) <==> MatchType(line).Match?
  {
    hide MatchType, IsWritten;
    if IsTypeLine(line) {
      var field, spaced, mediaType, subtype, rest :| IsWritten(line, field, spaced, mediaType, subtype, rest);
      WrittenMatches(line, field, spaced, mediaType, subtype, rest);
    }
    if MatchType(line).Match? {
      var m := MatchType(line);
      FieldFound(line);
      MatchIsWritten(line);
      assert IsWritten(line, line[..13], TypeStart(line) == 14, m.mediaType, m.subtype, line[m.rest..]);
    }
  }

  lemma FirstTypeKept(lines: seq<string>, more: seq<string>, k: int)
    requires k < |lines|
    ensures IsFirstType(lines + more, k) <==> IsFirstType(lines, k)
  {
    hide IsTypeLine;
    assert forall i :: 0 <= i < |lines| ==> (lines + more)[i] == lines[i];
  }

  lemma {:induction false} SomeFirstType(lines: seq<string>, n: nat) returns (k: nat)
    requires 1 <= n < |lines| && IsTypeLine(lines[n])
    ensures k <= n && IsFirstType(lines, k)
    decreases n
  {
    hide IsTypeLine;
    k := n;
    if i :| 1 <= i < n && IsTypeLine(lines[i]) { k := SomeFirstType(lines, i); }
  }

  /** A type line has been found. */
  lemma AfterTypeLine(v: Validator, slicing: Slicing, lines: seq<string>, more: seq<string>, m: Machine, k: nat,
                      go: bool)
    requires Outcome(v, slicing, lines, m, go) && IsFirstType(lines, k) && IsSuccess(lines[0])
    ensures m.phase == Done && Outcome(v, slicing, lines + more, m, go)
  {
    hide IsTypeLine, TypeRead, IsSuccess;
    assert (lines + more)[0] == lines[0];
    FirstTypeKept(lines, more, k);
    assert IsTypeLine((lines + more)[k]);
    forall j | IsFirstType(lines + more, j) ensures j == k {
      assert IsFirstType(lines + more, k);
    }
  }

  /** Nothing more is read once the download is aborted. */
  lemma AfterAbort(v: Validator, slicing: Slicing, lines: seq<string>, more: seq<string>, m: Machine)
    requires Outcome(v, slicing, lines, m, false)
    ensures Outcome(v, slicing, lines + more, m, false)
  {
    hide IsTypeLine, TypeRead, IsSuccess;
    assert (lines + more)[0] == lines[0];
    if IsSuccess(lines[0]) {
      var n :| 1 <= n < |lines| && IsTypeLine(lines[n]);
      var k := SomeFirstType(lines, n);
      AfterTypeLine(v, slicing, lines, more, m, k, false);
    }
  }

  lemma FirstLine(v: Validator, slicing: Slicing, line: string, ext: string)
    requires Tail(ext)
    ensures var p := Process(v, START, line + ext); Outcome(v, slicing, [line], p.0, p.1)
  {
    StatusTail(line, ext);
    SuccessIff(line);
    hide StatusOf, IsSuccess, IsTypeLine, TypeRead, Tail;
  }

  /** A header line while no type has been found. */
  lemma HeaderLine(v: Validator, slicing: Slicing, line: string, ext: string)
    requires Tail(ext) && (slicing.Exact? ==> ext == "")
    ensures var p := Process(v, Machine(ReadingHeaderFields, NO_MEDIA_TYPE), line + ext);
      if IsTypeLine(line) then p.0.phase == Done && TypeRead(slicing, line, p.0.mediaType) && p.1 == v(p.0.mediaType)
      else p == (Machine(ReadingHeaderFields, NO_MEDIA_TYPE), true)
  {
    var p := Process(v, Machine(ReadingHeaderFields, NO_MEDIA_TYPE), line + ext);
    MatchTypeTail(line, ext);
    TypeLineIff(line);
    if MatchType(line).Match? { ReadsWhatIsDeclared(line + ext, p.0.mediaType); }
    hide MatchType, CharsetFrom, IsTypeLine, Declares, Tail;
  }

  lemma AnotherLine(v: Validator, slicing: Slicing, lines: seq<string>, line: string, m: Machine, go: bool)
    requires lines != [] && IsSuccess(lines[0]) && forall k :: 1 <= k < |lines| ==> !IsTypeLine(lines[k])
    requires if IsTypeLine(line) then m.phase == Done && TypeRead(slicing, line, m.mediaType) && go == v(m.mediaType)
      else m == Machine(ReadingHeaderFields, NO_MEDIA_TYPE) && go
    ensures Outcome(v, slicing, lines + [line], m, go)
  {
    hide IsSuccess, IsTypeLine, TypeRead, IsFirstType;
    var n := |lines|;
    assert (lines + [line])[0] == lines[0] && (lines + [line])[n] == line;
    forall k | IsFirstType(lines + [line], k) ensures k == n && IsTypeLine(line) {
      FirstIsNew(lines, line, k);
    }
  }

  lemma FirstIsNew(lines: seq<string>, line: string, k: int)
    requires IsFirstType(lines + [line], k) && forall k :: 1 <= k < |lines| ==> !IsTypeLine(lines[k])
    ensures k == |lines| && IsTypeLine(line)
  {
    hide IsTypeLine;
  }

  /** One more line, read with what the slice takes in behind it. */
  lemma OneMoreLine(v: Validator, slicing: Slicing, lines: seq<string>, m: Machine, line: string, ext: string)
    requires Outcome(v, slicing, lines, m, true) && Tail(ext) && (slicing.Exact? ==> ext == "")
    ensures var p := Process(v, m, line + ext); Outcome(v, slicing, lines + [line], p.0, p.1)
  {
    assert m.phase.Done? ==> Process(v, m, line + ext) == (m, true);
    hide IsTypeLine, TypeRead, IsSuccess, StatusOf, MatchType, CharsetFrom, Tail, Process;
    if lines == [] {
      assert lines + [line] == [line];
      FirstLine(v, slicing, line, ext);
    } else if n :| 1 <= n < |lines| && IsTypeLine(lines[n]) {
      var k := SomeFirstType(lines, n);
      AfterTypeLine(v, slicing, lines, [line], m, k, true);
    } else {
      var p := Process(v, m, line + ext);
      HeaderLine(v, slicing, line, ext);
      AnotherLine(v, slicing, lines, line, p.0, p.1);
    }
  }

  // All lines

  /** What the slice takes in behind its line. */
  function Behind(slicing: Slicing, buffer: string, start: nat, end: nat): string
    requires start <= end <= |buffer|
  {
    if slicing.Exact? then "" else Overread(buffer, start, end)
  }

  lemma SliceParts(slicing: Slicing, buffer: string, start: nat, end: nat)
    requires start <= end && IsLineEnd(buffer, end)
    ensures Slice(slicing, buffer, start, end) == buffer[start..end] + Behind(slicing, buffer, start, end)
    ensures Tail(Behind(slicing, buffer, start, end)) && (slicing.Exact? ==> Behind(slicing, buffer, start, end) == "")
  {
    WrittenSlice(buffer, start, end);
    hide Tail;
  }

  lemma {:induction false} ScanOutcome(v: Validator, slicing: Slicing, lines: seq<string>, buffer: string, start: nat,
                                       m: Machine)
    requires start <= |buffer| && Outcome(v, slicing, lines, m, true)
    ensures var s, split := ScanLines(v, slicing, buffer, start, m), Split(buffer[start..]);
      Outcome(v, slicing, lines + split.0, s.machine, s.go) && (s.go ==> buffer[s.start..] == split.1)
    decreases |buffer| - start
  {
    hide ScanLines, Split, FindLineEnd, Process, Outcome, Tail, Behind, Slice;
    match FindLineEnd(buffer, start)
    case None =>
      ScanEnd(v, slicing, buffer, start, m);
      assert lines + [] == lines;
    case Some(end) =>
      var line, ext, rest := buffer[start..end], Behind(slicing, buffer, start, end), Split(buffer[end + 2..]).0;
      SplitFrom(buffer, start, end);
      ScanStep(v, slicing, buffer, start, end, m);
      SliceParts(slicing, buffer, start, end);
      OneMoreLine(v, slicing, lines, m, line, ext);
      var p := Process(v, m, line + ext);
      assert lines + ([line] + rest) == (lines + [line]) + rest;
      if p.1 {
        ScanOutcome(v, slicing, lines + [line], buffer, end + 2, p.0);
      } else {
        AfterAbort(v, slicing, lines + [line], rest, p.0);
      }
  }

  lemma {:induction false} FeedsOutcome(v: Validator, slicing: Slicing, chunks: seq<string>)
    ensures var h, split := FeedAll(v, slicing, chunks), Split(Join(chunks));
      Outcome(v, slicing, split.0, h.machine, !h.aborted) && (!h.aborted ==> h.buffer == split.1)
  {
    if chunks == [] {
      assert FindLineEnd("", 0).None?;
    } else {
      var before, chunk := chunks[..|chunks| - 1], chunks[|chunks| - 1];
      FeedsOutcome(v, slicing, before);
      var h, old', new' := FeedAll(v, slicing, before), Split(Join(before)), Split(Split(Join(before)).1 + chunk);
      SplitMore(Join(before), chunk);
      hide Split, ScanLines, Outcome;
      if h.aborted {
        AfterAbort(v, slicing, old'.0, new'.0, h.machine);
      } else {
        assert (h.buffer + chunk)[0..] == h.buffer + chunk;
        ScanOutcome(v, slicing, old'.0, h.buffer + chunk, 0, h.machine);
      }
    }
  }

  /** Lines and leftover, cut into calls in any way: the handler comes to the outcome of the lines, and while the
      download goes on it holds the leftover. */
  lemma StreamOutcome(v: Validator, slicing: Slicing, chunks: seq<string>, lines: seq<string>, leftover: string)
    requires NoLineEnd(leftover) && forall line :: line in lines ==> NoLineEnd(line)
    requires Join(chunks) == Unsplit(lines, leftover)
    ensures var h := FeedAll(v, slicing, chunks);
      Outcome(v, slicing, lines, h.machine, !h.aborted) && (!h.aborted ==> h.buffer == leftover)
  {
    hide Outcome, FeedAll;
    FeedsOutcome(v, slicing, chunks);
    UnsplitSplit(lines, leftover);
  }
}
