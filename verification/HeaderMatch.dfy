/** Header lines as the anchored matchers read them, and how a match depends on what follows the line. */
module HeaderMatch {
  import opened Downloads

  datatype MediaType = MediaType(mediaType: string, subtype: string, charset: string)

  const NO_MEDIA_TYPE := MediaType("", "", "")

  predicate IsDigit(c: char) { '0' <= c <= '9' }

  /** The token class of the code. Its range from plus to dot takes in the comma as well. */
  predicate IsTokenChar(c: char)
  {
    || 'a' <= c <= 'z' || 'A' <= c <= 'Z' || IsDigit(c) || c == '_'
    || '+' <= c <= '.' || c == '!' || c == '#' || c == '$' || c == '%' || c == '&' || c == '\''
    || c == '*' || c == '^' || c == '`' || c == '|' || c == '~'
  }

  /** The token characters of section 3.2.6 of RFC 7230. */
  predicate IsTchar(c: char)
  {
    || 'a' <= c <= 'z' || 'A' <= c <= 'Z' || '0' <= c <= '9'
    || c in {'!', '#', '$', '%', '&', '\'', '*', '+', '-', '.', '^', '_', '`', '|', '~'}
  }

  /** The code's token class is the standard's and the comma. */
  lemma TokenClassAddsComma(c: char)
    ensures IsTokenChar(c) <==> IsTchar(c) || c == ','
  {
  }

  predicate IsBlank(c: char) { c == ' ' || c == '\t' }

  predicate IEquals(a: string, b: string)
  {
    |a| == |b| && forall i :: 0 <= i < |a| ==> Lower(a[i]) == Lower(b[i])
  }

  function TokenEnd(s: string, i: nat): (e: nat)
    requires i <= |s|
    ensures i <= e <= |s|
    decreases |s| - i
  {
    if i < |s| && IsTokenChar(s[i]) then TokenEnd(s, i + 1) else i
  }

  function BlankEnd(s: string, i: nat): (e: nat)
    requires i <= |s|
    ensures i <= e <= |s|
    decreases |s| - i
  {
    if i < |s| && IsBlank(s[i]) then BlankEnd(s, i + 1) else i
  }

  datatype Quote = Closed(end: nat) | Broken | Unterminated

  /** From after an opening quote: to the closing one, unless a backslash cannot be paired. */
  function QuoteAt(s: string, i: nat): (q: Quote)
    requires i <= |s|
    ensures q.Closed? ==> i < q.end <= |s|
    decreases |s| - i
  {
    if i == |s| then Unterminated
    else if s[i] == '"' then Closed(i + 1)
    else if s[i] == '\\' then
      if i + 1 < |s| && s[i + 1] != '\r' && s[i + 1] != '\n' then QuoteAt(s, i + 2) else Broken
    else QuoteAt(s, i + 1)
  }

  datatype Param = NoParam | Open(name: string) | Param(name: string, value: string, end: nat)

  /** Where the name of a parameter starting at i begins and ends; its equals sign follows. */
  function NameAt(s: string, i: nat): (r: Option<(nat, nat)>)
    requires i <= |s|
    ensures r.Some? ==> i < r.value.0 < r.value.1 < |s|
  {
    var semicolon := BlankEnd(s, i);
    if semicolon == |s| || s[semicolon] != ';' then None
    else
      var start := BlankEnd(s, semicolon + 1);
      var end := TokenEnd(s, start);
      if end == start || end == |s| || s[end] != '=' then None else Some((start, end))
  }

  /** A parameter starting at i: name and value, or a name whose quoted value runs off the string. */
  function ParamAt(s: string, i: nat): (p: Param)
    requires i <= |s|
    ensures p.Param? ==> i < p.end <= |s|
  {
    match NameAt(s, i)
    case None => NoParam
    case Some(n) => ValueAt(s, s[n.0..n.1], n.1 + 1)
  }

  function ValueAt(s: string, name: string, v: nat): (p: Param)
    requires v <= |s|
    ensures p.Param? ==> v < p.end <= |s|
  {
    var end := TokenEnd(s, v);
    if v < end then Param(name, s[v..end], end)
    else if v < |s| && s[v] == '"' then
      match QuoteAt(s, v + 1)
      case Closed(q) => Param(name, s[v..q], q)
      case Broken => NoParam
      case Unterminated => Open(name)
    else NoParam
  }

  /** The value of the first charset parameter found searching from i, skipping other parameters. */
  function CharsetFrom(s: string, i: nat): string
    decreases |s| - i
  {
    if i >= |s| then ""
    else
      match ParamAt(s, i)
      case Param(name, value, end) => if IEquals(name, "charset") then value else CharsetFrom(s, end)
      case _ => CharsetFrom(s, i + 1)
  }

  const CONTENT_TYPE := "content-type:"

  predicate StartsWithContentType(line: string)
  {
    |line| >= 13 && IEquals(line[..13], CONTENT_TYPE)
  }

  /** Type, subtype and where the parameters begin. */
  datatype TypeMatch = NoMatch | Match(mediaType: string, subtype: string, rest: nat)

  /** Where the type begins: after the field name, its colon, and a space if there is one. */
  function TypeStart(line: string): (start: nat)
    ensures |line| >= 13 ==> start <= |line|
  {
    if 13 < |line| && line[13] == ' ' then 14 else 13
  }

  function MatchType(line: string): (m: TypeMatch)
    ensures m.Match? ==> m.rest <= |line|
  {
    if !StartsWithContentType(line) then NoMatch
    else
      var start := TypeStart(line);
      var slash := TokenEnd(line, start);
      if slash == start || slash == |line| || line[slash] != '/' then NoMatch
      else
        var end := TokenEnd(line, slash + 1);
        if end == slash + 1 then NoMatch else Match(line[start..slash], line[slash + 1..end], end)
  }

  /** Where the comma shows: a type that is no token of the standard is taken for one. */
  lemma CommaInType()
    ensures MatchType("content-type:a,b/c") == Match("a,b", "c", 18)
    ensures exists k :: 0 <= k < 3 && !IsTchar("a,b"[k])
  {
    var line := "content-type:a,b/c";
    TokenEndIs(line, 13, 16);
    TokenEndIs(line, 17, 18);
    assert line[..13] == CONTENT_TYPE && line[13..16] == "a,b" && line[17..18] == "c";
    assert !IsTchar("a,b"[1]);
  }

  /** The media type a line declares, if it is a content-type line. */
  function MediaTypeOf(line: string): Option<MediaType>
  {
    match MatchType(line)
    case NoMatch => None
    case Match(t, sub, rest) => Some(MediaType(t, sub, CharsetFrom(line, rest)))
  }

  /** matchContextType. */
  method MatchContextType(line: string) returns (found: bool, result: MediaType)
    ensures found <==> MediaTypeOf(line).Some?
    ensures result == if found then MediaTypeOf(line).value else NO_MEDIA_TYPE
  {
    var m := MatchType(line);
    hide ParamAt, IEquals, MatchType;
    if m.NoMatch? {
      return false, NO_MEDIA_TYPE;
    }
    var charset := SearchCharset(line, m.rest);
    return true, MediaType(m.mediaType, m.subtype, charset);
  }

  /** Its loop over the parameter list. */
  method SearchCharset(line: string, rest: nat) returns (charset: string)
    requires rest <= |line|
    ensures charset == CharsetFrom(line, rest)
  {
    hide ParamAt, IEquals;
    charset := "";
    var pos := rest;
    while pos < |line|
      invariant 0 <= pos <= |line|
      invariant charset == "" && CharsetFrom(line, pos) == CharsetFrom(line, rest)
    {
      var p := ParamAt(line, pos);
      if p.Param? {
        if IEquals(p.name, "charset") {
          return p.value;
        }
        pos := p.end;
      } else {
        pos := pos + 1;
      }
    }
  }

  /** The three digits of a status line of HTTP/1.1. */
  function StatusOf(line: string): Option<string>
  {
    if |line| >= 13 && line[..9] == "HTTP/1.1 " && line[12] == ' '
       && IsDigit(line[9]) && IsDigit(line[10]) && IsDigit(line[11])
    then Some(line[9..12]) else None
  }

  // Reading past the end of a line

  /** What may follow a line in the buffer: nothing, or its own line end and more. */
  predicate Tail(ext: string) { ext == "" || ext[0] == '\r' }

  lemma {:induction false} TokenEndTail(s: string, ext: string, i: nat)
    requires i <= |s| && Tail(ext)
    ensures TokenEnd(s + ext, i) == TokenEnd(s, i)
    decreases |s| - i
  {
    if i < |s| && IsTokenChar(s[i]) {
      TokenEndTail(s, ext, i + 1);
    }
  }

  lemma {:induction false} BlankEndTail(s: string, ext: string, i: nat)
    requires i <= |s| && Tail(ext)
    ensures BlankEnd(s + ext, i) == BlankEnd(s, i)
    decreases |s| - i
  {
    if i < |s| && IsBlank(s[i]) {
      BlankEndTail(s, ext, i + 1);
    }
  }

  lemma {:induction false} QuoteAtTail(s: string, ext: string, i: nat)
    requires i <= |s| && Tail(ext)
    ensures QuoteAt(s, i).Unterminated? ==> QuoteAt(s + ext, i) == QuoteAt(s + ext, |s|)
    ensures !QuoteAt(s, i).Unterminated? ==> QuoteAt(s + ext, i) == QuoteAt(s, i)
    decreases |s| - i
  {
    if i < |s| && s[i] != '"' {
      if s[i] != '\\' {
        QuoteAtTail(s, ext, i + 1);
      } else if i + 1 < |s| && s[i + 1] != '\r' && s[i + 1] != '\n' {
        QuoteAtTail(s, ext, i + 2);
      }
    }
  }

  lemma ValueAtTail(s: string, ext: string, name: string, v: nat)
    requires v <= |s| && Tail(ext)
    ensures !ValueAt(s, name, v).Open? ==> ValueAt(s + ext, name, v) == ValueAt(s, name, v)
  {
    TokenEndTail(s, ext, v);
    if v < |s| && s[v] == '"' {
      QuoteAtTail(s, ext, v + 1);
    }
  }

  lemma NameAtTail(s: string, ext: string, i: nat)
    requires i <= |s| && Tail(ext)
    ensures NameAt(s + ext, i) == NameAt(s, i)
  {
    hide TokenEnd, BlankEnd;
    BlankEndTail(s, ext, i);
    var semicolon := BlankEnd(s, i);
    if semicolon < |s| && s[semicolon] == ';' {
      BlankEndTail(s, ext, semicolon + 1);
      TokenEndTail(s, ext, BlankEnd(s, semicolon + 1));
    }
  }

  /** A parameter that is complete, or not there at all, is unaffected by what follows the line. */
  lemma ParamAtTail(s: string, ext: string, i: nat)
    requires i <= |s| && Tail(ext)
    ensures !ParamAt(s, i).Open? ==> ParamAt(s + ext, i) == ParamAt(s, i)
  {
    NameAtTail(s, ext, i);
    hide NameAt, ValueAt;
    match NameAt(s, i)
    case None =>
    case Some(n) =>
      assert (s + ext)[n.0..n.1] == s[n.0..n.1];
      ValueAtTail(s, ext, s[n.0..n.1], n.1 + 1);
  }

  lemma ContentTypeTail(line: string, ext: string)
    requires Tail(ext)
    ensures StartsWithContentType(line + ext) <==> StartsWithContentType(line)
  {
    var l := line + ext;
    if |line| >= 13 {
      assert l[..13] == line[..13];
    } else if |l| >= 13 {
      assert l[..13][|line|] == '\r';
      assert Lower(CONTENT_TYPE[|line|]) != '\r';
    }
  }

  /** Type and subtype never depend on what follows the line. */
  lemma MatchTypeTail(line: string, ext: string)
    requires Tail(ext)
    ensures MatchType(line + ext) == MatchType(line)
  {
    ContentTypeTail(line, ext);
    hide TokenEnd, StartsWithContentType, Tail;
    if StartsWithContentType(line) {
      assert |line| >= 13;
      var start := TypeStart(line);
      assert (13 < |line| && line[13] == ' ') <==> (13 < |line + ext| && (line + ext)[13] == ' ');
      TokenEndTail(line, ext, start);
      var slash := TokenEnd(line, start);
      if slash < |line| {
        TokenEndTail(line, ext, slash + 1);
        SliceTail(line, ext, start, slash);
        SliceTail(line, ext, slash + 1, TokenEnd(line, slash + 1));
      } else {
        assert |line| < |line + ext| ==> (line + ext)[|line|] == '\r';
      }
    }
  }

  lemma SliceTail(line: string, ext: string, i: nat, j: nat)
    requires i <= j <= |line|
    ensures (line + ext)[i..j] == line[i..j]
  {
  }

  /** Nor does the status. */
  lemma StatusTail(line: string, ext: string)
    requires Tail(ext)
    ensures StatusOf(line + ext) == StatusOf(line)
  {
    var l := line + ext;
    if |l| >= 13 && |line| < 13 {
      assert l[|line|] == '\r';
      if |line| < 9 {
        assert l[..9][|line|] == '\r' && "HTTP/1.1 "[|line|] != '\r';
      }
    } else if |line| >= 13 {
      assert l[..9] == line[..9] && l[9..12] == line[9..12];
    }
  }

  lemma {:induction false} TokenEndIs(s: string, i: nat, e: nat)
    requires i <= e <= |s| && (forall k :: i <= k < e ==> IsTokenChar(s[k])) && (e == |s| || !IsTokenChar(s[e]))
    ensures TokenEnd(s, i) == e
    decreases e - i
  {
    if i < e { TokenEndIs(s, i + 1, e); }
  }
}
