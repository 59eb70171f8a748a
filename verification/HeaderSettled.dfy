/** Which lines fix their charset, whatever follows them. */
module HeaderSettled {
  import opened HeaderMatch
  import opened HeaderRoundTrip

  /** The search reaches a complete charset parameter before any quoted value that runs off the line. */
  predicate Settled(s: string, i: nat)
    decreases |s| - i
  {
    i < |s| &&
    match ParamAt(s, i)
    case Param(name, _, end) => IEquals(name, "charset") || Settled(s, end)
    case Open(_) => false
    case NoParam => Settled(s, i + 1)
  }

  lemma {:induction false} SettledCharset(s: string, ext: string, i: nat)
    requires Settled(s, i) && Tail(ext)
    ensures CharsetFrom(s + ext, i) == CharsetFrom(s, i)
    decreases |s| - i
  {
    ParamAtTail(s, ext, i);
    match ParamAt(s, i)
    case Param(name, _, end) => if !IEquals(name, "charset") { SettledCharset(s, ext, end); }
    case NoParam => SettledCharset(s, ext, i + 1);
  }

  function CharsetParam(z: char): string { WriteParameter(Parameter("", "", "charset", [z])) }

  lemma CharsetParamLength(z: char)
    ensures |CharsetParam(z)| == 10
  {
    WriteParameterLength(Parameter("", "", "charset", [z]));
  }

  /** A string that ends in a plain charset parameter yields its value. */
  lemma PlainCharset(w: string, p: nat, z: char)
    requires p <= |w| && w[p..] == CharsetParam(z) && IsTokenChar(z)
    ensures CharsetFrom(w, p) == [z]
  {
    var ps := [Parameter("", "", "charset", [z])];
    assert WriteParameters(ps[1..]) == "" && WriteParameters(ps) == CharsetParam(z) + "" == CharsetParam(z);
    assert At(w, p, CharsetParam(z)) by { hide CharsetParam; AtDrop(w, p); }
    CharsetToken(z);
    FirstIsCharset(ps);
    hide *;
    CharsetRead(w, p, ps);
  }

  lemma AtDrop(w: string, p: nat)
    requires p <= |w|
    ensures At(w, p, w[p..])
  {
  }

  lemma CharsetToken(z: char)
    requires IsTokenChar(z)
    ensures AllWellFormed([Parameter("", "", "charset", [z])])
  {
    assert IsToken("charset") && IsToken([z]);
  }

  lemma FirstIsCharset(ps: seq<Parameter>)
    requires ps != [] && ps[0].name == "charset"
    ensures FirstCharset(ps) == ps[0].value
  {
    assert IEquals("charset", "charset");
  }

  /** A line end carries no parameter. */
  lemma LineEndSkipped(w: string, p: nat)
    requires p + 2 <= |w| && w[p] == '\r' && w[p + 1] == '\n'
    ensures CharsetFrom(w, p) == CharsetFrom(w, p + 2)
  {
    assert NameAt(w, p).None? && NameAt(w, p + 1).None?;
  }

  predicate LineEndFirst(ext: string) { |ext| >= 2 && ext[0] == '\r' && ext[1] == '\n' }

  lemma NoCharsetYet(s: string, z: char)
    requires IsTokenChar(z)
    ensures CharsetFrom(s + ("\r\n" + CharsetParam(z)), |s|) == [z]
  {
    CharsetBehind(s + ("\r\n" + CharsetParam(z)), s, z);
  }

  lemma CharsetBehind(w: string, s: string, z: char)
    requires w == s + ("\r\n" + CharsetParam(z)) && IsTokenChar(z)
    ensures CharsetFrom(w, |s|) == [z]
  {
    assert w[|s|] == '\r' && w[|s| + 1] == '\n' && w[|s| + 2..] == CharsetParam(z);
    hide CharsetFrom, CharsetParam;
    LineEndSkipped(w, |s|);
    PlainCharset(w, |s| + 2, z);
  }

  /** A quoted value that runs off the line swallows everything up to the next quote. */
  lemma OpenValueCloses(s: string, i: nat, ext: string, end: nat)
    requires i <= |s| && ParamAt(s, i).Open? && Tail(ext) && QuoteAt(s + ext, |s|) == Closed(end)
    ensures ParamAt(s + ext, i).Param? && ParamAt(s + ext, i).name == ParamAt(s, i).name
    ensures ParamAt(s + ext, i).end == end
    ensures |ParamAt(s + ext, i).value| == end - (NameAt(s, i).value.1 + 1)
  {
    NameAtTail(s, ext, i);
    var n := NameAt(s, i).value;
    NameKept(s, ext, n.0, n.1);
    hide NameAt;
    OpenQuoteCloses(s, s[n.0..n.1], n.1 + 1, ext, end);
  }

  lemma NameKept(s: string, ext: string, i: nat, j: nat)
    requires i <= j <= |s|
    ensures (s + ext)[i..j] == s[i..j]
  {
  }

  lemma OpenQuoteCloses(s: string, name: string, v: nat, ext: string, end: nat)
    requires v <= |s| && ValueAt(s, name, v).Open? && Tail(ext) && QuoteAt(s + ext, |s|) == Closed(end)
    ensures ValueAt(s + ext, name, v) == Param(name, (s + ext)[v..end], end)
  {
    TokenEndTail(s, ext, v);
    QuoteAtTail(s, ext, v + 1);
    hide TokenEnd, QuoteAt, Tail;
  }

  lemma QuoteAfterLineEnd(w: string, p: nat)
    requires p + 3 <= |w| && w[p] == '\r' && w[p + 1] == '\n' && w[p + 2] == '"'
    ensures QuoteAt(w, p) == Closed(p + 3)
  {
    assert QuoteAt(w, p + 1) == QuoteAt(w, p + 2) == Closed(p + 3);
  }

  lemma OpenCharset(s: string, i: nat)
    requires i < |s| && ParamAt(s, i).Open? && IEquals(ParamAt(s, i).name, "charset")
    ensures CharsetFrom(s + "\r\n\"", i) != CharsetFrom(s + "\r\n\r\n\"", i)
  {
    var a, b := "\r\n\"", "\r\n\r\n\"";
    QuoteAfterLineEnd(s + a, |s|);
    QuoteAfterTwoLineEnds(s + b, |s|);
    hide QuoteAt, ParamAt, NameAt, IEquals, CharsetFrom;
    OpenValueCloses(s, i, a, |s| + 3);
    OpenValueCloses(s, i, b, |s| + 5);
    CharsetTaken(s + a, i);
    CharsetTaken(s + b, i);
  }

  lemma QuoteAfterTwoLineEnds(w: string, p: nat)
    requires p + 5 <= |w| && w[p] == '\r' && w[p + 1] == '\n' && w[p + 2] == '\r' && w[p + 3] == '\n' && w[p + 4] == '"'
    ensures QuoteAt(w, p) == Closed(p + 5)
  {
    QuoteAfterLineEnd(w, p + 2);
    assert QuoteAt(w, p) == QuoteAt(w, p + 1) == QuoteAt(w, p + 2);
  }

  lemma CharsetTaken(w: string, i: nat)
    requires i < |w| && ParamAt(w, i).Param? && IEquals(ParamAt(w, i).name, "charset")
    ensures CharsetFrom(w, i) == ParamAt(w, i).value
  {
    hide ParamAt, IEquals;
  }

  lemma OtherParamSkipped(w: string, i: nat)
    requires i < |w| && ParamAt(w, i).Param? && !IEquals(ParamAt(w, i).name, "charset")
    ensures CharsetFrom(w, i) == CharsetFrom(w, ParamAt(w, i).end)
  {
  }

  /** A line end, the quote that closes an open value, and a charset parameter after it. */
  function QuotedCharset(z: char): string
  {
    "\r\n\"" + CharsetParam(z)
  }

  lemma QuotedCharsetParts(z: char)
    ensures var ext := QuotedCharset(z);
      && |ext| == 13 && LineEndFirst(ext) && Tail(ext)
      && ext[0] == '\r' && ext[1] == '\n' && ext[2] == '"' && ext[3..] == CharsetParam(z)
  {
  }

  lemma OpenOther(s: string, i: nat, z: char)
    requires i < |s| && ParamAt(s, i).Open? && !IEquals(ParamAt(s, i).name, "charset") && IsTokenChar(z)
    ensures CharsetFrom(s + QuotedCharset(z), i) == [z]
  {
    hide *;
    var ext := QuotedCharset(z);
    QuotedCharsetParts(z);
    QuoteAfterLineEnd(s + ext, |s|);
    OpenValueCloses(s, i, ext, |s| + 3);
    OtherParamSkipped(s + ext, i);
    assert (s + ext)[|s| + 3..] == ext[3..];
    PlainCharset(s + ext, |s| + 3, z);
  }

  /** On an unsettled line two continuations give two charsets. */
  lemma {:induction false} UnsettledDiffers(s: string, i: nat) returns (a: string, b: string)
    requires i <= |s| && !Settled(s, i)
    ensures LineEndFirst(a) && LineEndFirst(b) && |a| <= 15 && |b| <= 15
    ensures CharsetFrom(s + a, i) != CharsetFrom(s + b, i)
    decreases |s| - i
  {
    if i == |s| {
      a, b := "\r\n" + CharsetParam('a'), "\r\n" + CharsetParam('b');
      NoCharsetYet(s, 'a');
      NoCharsetYet(s, 'b');
    } else {
      match ParamAt(s, i)
      case NoParam =>
        a, b := UnsettledDiffers(s, i + 1);
        ParamAtTail(s, a, i);
        ParamAtTail(s, b, i);
      case Param(name, _, end) =>
        a, b := UnsettledDiffers(s, end);
        ParamAtTail(s, a, i);
        ParamAtTail(s, b, i);
      case Open(name) =>
        if IEquals(name, "charset") {
          a, b := "\r\n\"", "\r\n\r\n\"";
          OpenCharset(s, i);
        } else {
          a, b := QuotedCharset('a'), QuotedCharset('b');
          QuotedCharsetParts('a');
          QuotedCharsetParts('b');
          OpenOther(s, i, 'a');
          OpenOther(s, i, 'b');
        }
    }
  }

  /** The charset read from a line is the same whatever follows the line exactly when it is settled. */
  lemma CharsetIndependentIffSettled(s: string, i: nat)
    requires i <= |s|
    ensures (forall ext :: LineEndFirst(ext) ==> CharsetFrom(s + ext, i) == CharsetFrom(s, i)) <==> Settled(s, i)
  {
    if Settled(s, i) {
      forall ext | LineEndFirst(ext) ensures CharsetFrom(s + ext, i) == CharsetFrom(s, i) {
        SettledCharset(s, ext, i);
      }
    } else {
      var a, b := UnsettledDiffers(s, i);
    }
  }
}
