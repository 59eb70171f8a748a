/** Writing a media type as a content-type line and reading it back. */
module HeaderRoundTrip {
  import opened Downloads
  import opened HeaderMatch

  predicate IsToken(s: string) { s != "" && forall k :: 0 <= k < |s| ==> IsTokenChar(s[k]) }

  predicate AllBlank(s: string) { forall k :: 0 <= k < |s| ==> s[k] == ' ' || s[k] == '\t' }

  /** The field name with its colon, in any case. */
  predicate IsFieldName(field: string) { Spelled(field, "content-type:", "CONTENT-TYPE:") }

  predicate IsCharsetName(name: string) { Spelled(name, "charset", "CHARSET") }

  /** The text of a quoted string from i up to e: each backslash is paired with a character that does not
      end a line, and no quote stands alone. */
  predicate QuotedText(s: string, i: nat, e: nat)
    requires i <= e <= |s|
    decreases e - i
  {
    i == e
    || (s[i] == '\\' && i + 1 < e && s[i + 1] != '\r' && s[i + 1] != '\n' && QuotedText(s, i + 2, e))
    || (s[i] != '\\' && s[i] != '"' && QuotedText(s, i + 1, e))
  }

  predicate IsQuoted(s: string)
  {
    |s| >= 2 && s[0] == '"' && s[|s| - 1] == '"' && QuotedText(s, 1, |s| - 1)
  }

  /** A parameter with the blanks around its semicolon. */
  datatype Parameter = Parameter(before: string, after: string, name: string, value: string)

  predicate WellFormed(p: Parameter)
  {
    AllBlank(p.before) && AllBlank(p.after) && IsToken(p.name) && (IsToken(p.value) || IsQuoted(p.value))
  }

  function WriteParameter(p: Parameter): string
  {
    p.before + ";" + p.after + p.name + "=" + p.value
  }

  function WriteParameters(ps: seq<Parameter>): string
  {
    if ps == [] then "" else WriteParameter(ps[0]) + WriteParameters(ps[1..])
  }

  function Space(spaced: bool): string { if spaced then " " else "" }

  function WriteType(mediaType: string, subtype: string, params: string): string
  {
    mediaType + ("/" + (subtype + params))
  }

  /** field is the field name with its colon; a space may follow it. */
  function WriteLine(field: string, spaced: bool, mediaType: string, subtype: string, params: string): string
  {
    field + (Space(spaced) + WriteType(mediaType, subtype, params))
  }

  /** The first parameter named charset, whatever its case. */
  function FirstCharset(ps: seq<Parameter>): string
  {
    if ps == [] then "" else if IsCharsetName(ps[0].name) then ps[0].value else FirstCharset(ps[1..])
  }

  // Words in any case

  /** A character and its capital, or one that has none. */
  predicate Cased(small: char, capital: char)
  {
    if 'a' <= small <= 'z' then capital as int + 32 == small as int
    else capital == small && !('A' <= small <= 'Z')
  }

  lemma AnyCase(s: string, small: string, capital: string)
    requires |small| == |capital| && forall i :: 0 <= i < |small| ==> Cased(small[i], capital[i])
    ensures IEquals(s, small) <==> Spelled(s, small, capital)
  {
    if |s| == |small| {
      forall i | 0 <= i < |s| ensures Lower(s[i]) == Lower(small[i]) <==> s[i] == small[i] || s[i] == capital[i] {
        assert Cased(small[i], capital[i]);
      }
    }
  }

  lemma FieldNameAnyCase(s: string)
    ensures IEquals(s, CONTENT_TYPE) <==> IsFieldName(s)
  {
    AnyCase(s, CONTENT_TYPE, "CONTENT-TYPE:");
  }

  lemma CharsetNameAnyCase(s: string)
    ensures IEquals(s, "charset") <==> IsCharsetName(s)
  {
    AnyCase(s, "charset", "CHARSET");
  }

  // Reading a stretch of text

  lemma {:induction false} BlankEndIs(s: string, i: nat, e: nat)
    requires i <= e <= |s| && (forall k :: i <= k < e ==> IsBlank(s[k])) && (e == |s| || !IsBlank(s[e]))
    ensures BlankEnd(s, i) == e
    decreases e - i
  {
    if i < e { BlankEndIs(s, i + 1, e); }
  }

  lemma {:induction false} QuoteCloses(s: string, i: nat, e: nat)
    requires i <= e < |s| && s[e] == '"' && QuotedText(s, i, e)
    ensures QuoteAt(s, i) == Closed(e + 1)
    decreases e - i
  {
    if i < e { QuoteCloses(s, if s[i] == '\\' then i + 2 else i + 1, e); }
  }

  /** Quoted text stays quoted text wherever it stands. */
  lemma {:induction false} QuotedShift(a: string, i: nat, e: nat, b: string, j: nat)
    requires i <= e <= |a| && j + (e - i) <= |b| && QuotedText(a, i, e)
    requires forall k :: i <= k < e ==> b[k - i + j] == a[k]
    ensures QuotedText(b, j, j + (e - i))
    decreases e - i
  {
    if i < e {
      assert b[j] == a[i];
      if a[i] == '\\' {
        assert b[i + 1 - i + j] == a[i + 1];
        QuotedShift(a, i + 2, e, b, j + 2);
      } else {
        QuotedShift(a, i + 1, e, b, j + 1);
      }
    }
  }

  /** w is written at i. */
  predicate At(s: string, i: nat, w: string)
  {
    i + |w| <= |s| && forall k :: 0 <= k < |w| ==> s[i + k] == w[k]
  }

  lemma AtSlice(s: string, i: nat, w: string)
    requires At(s, i, w)
    ensures s[i..i + |w|] == w
  {
  }

  lemma SliceAt(s: string, i: nat, j: nat)
    requires i <= j <= |s|
    ensures At(s, i, s[i..j])
  {
  }

  lemma BlanksRead(s: string, i: nat, w: string)
    requires At(s, i, w) && AllBlank(w) && (i + |w| == |s| || !IsBlank(s[i + |w|]))
    ensures BlankEnd(s, i) == i + |w|
  {
    assert forall k :: i <= k < i + |w| ==> s[k] == w[k - i];
    BlankEndIs(s, i, i + |w|);
  }

  lemma TokenRead(s: string, i: nat, w: string)
    requires At(s, i, w) && IsToken(w) && (i + |w| == |s| || !IsTokenChar(s[i + |w|]))
    ensures TokenEnd(s, i) == i + |w| && s[i..i + |w|] == w
  {
    assert forall k :: i <= k < i + |w| ==> s[k] == w[k - i];
    TokenEndIs(s, i, i + |w|);
    AtSlice(s, i, w);
  }

  // One parameter

  function NameStart(i: nat, p: Parameter): nat { i + |p.before| + 1 + |p.after| }

  function ValueStart(i: nat, p: Parameter): nat { NameStart(i, p) + |p.name| + 1 }

  function ParameterEnd(i: nat, p: Parameter): nat { ValueStart(i, p) + |p.value| }

  /** Where parameter p is written at i, and what follows its value cannot belong to it. */
  predicate WrittenAt(s: string, i: nat, p: Parameter)
  {
    var semicolon, n, v, e := i + |p.before|, NameStart(i, p), ValueStart(i, p), ParameterEnd(i, p);
    && e <= |s| && At(s, i, p.before) && s[semicolon] == ';' && At(s, semicolon + 1, p.after)
    && At(s, n, p.name) && s[v - 1] == '=' && At(s, v, p.value)
    && (IsToken(p.value) ==> e == |s| || !IsTokenChar(s[e]))
  }

  lemma NameRead(s: string, i: nat, p: Parameter)
    requires WellFormed(p) && WrittenAt(s, i, p)
    ensures NameAt(s, i) == Some((NameStart(i, p), NameStart(i, p) + |p.name|))
    ensures s[NameStart(i, p)..NameStart(i, p) + |p.name|] == p.name
  {
    var semicolon, n := i + |p.before|, NameStart(i, p);
    assert s[n] == p.name[0] && !IsBlank(s[n]);
    hide At, AllBlank;
    BlanksRead(s, i, p.before);
    BlanksRead(s, semicolon + 1, p.after);
    TokenRead(s, n, p.name);
    hide BlankEnd, TokenEnd, IsToken;
  }

  lemma QuotedRead(s: string, v: nat, w: string)
    requires At(s, v, w) && IsQuoted(w)
    ensures !IsTokenChar('"') && s[v] == '"' && QuoteAt(s, v + 1) == Closed(v + |w|) && s[v..v + |w|] == w
  {
    var n := |w| - 1;
    assert s[v + 0] == w[0] && s[v + n] == w[n];
    assert forall k :: 1 <= k < n ==> s[k - 1 + (v + 1)] == w[k];
    QuotedShift(w, 1, n, s, v + 1);
    QuoteCloses(s, v + 1, v + n);
    AtSlice(s, v, w);
  }

  lemma ValueRead(s: string, i: nat, p: Parameter)
    requires WellFormed(p) && WrittenAt(s, i, p)
    ensures ValueAt(s, p.name, ValueStart(i, p)) == Param(p.name, p.value, ParameterEnd(i, p))
  {
    var v := ValueStart(i, p);
    hide At, IsQuoted, AllBlank;
    if IsToken(p.value) {
      TokenRead(s, v, p.value);
    } else {
      QuotedRead(s, v, p.value);
    }
    hide IsToken, QuoteAt;
  }

  lemma ParameterRead(s: string, i: nat, p: Parameter)
    requires WellFormed(p) && WrittenAt(s, i, p)
    ensures i < ParameterEnd(i, p) <= |s| && ParamAt(s, i) == Param(p.name, p.value, ParameterEnd(i, p))
  {
    NameRead(s, i, p);
    ValueRead(s, i, p);
    hide NameAt, ValueAt, WellFormed;
  }

  // All parameters

  lemma AtParts(s: string, i: nat, a: string, b: string)
    requires At(s, i, a + b)
    ensures At(s, i, a) && At(s, i + |a|, b)
  {
    assert forall k :: 0 <= k < |a| ==> (a + b)[k] == a[k];
    assert forall k :: 0 <= k < |b| ==> (a + b)[|a| + k] == b[k];
  }

  lemma AtOne(s: string, i: nat, c: char)
    requires At(s, i, [c])
    ensures i < |s| && s[i] == c
  {
    assert s[i + 0] == [c][0];
  }

  lemma ParameterParts(s: string, i: nat, p: Parameter)
    requires At(s, i, WriteParameter(p))
    ensures ParameterEnd(i, p) <= |s| && At(s, i, p.before) && s[i + |p.before|] == ';'
    ensures At(s, i + |p.before| + 1, p.after) && At(s, NameStart(i, p), p.name)
    ensures s[ValueStart(i, p) - 1] == '=' && At(s, ValueStart(i, p), p.value)
  {
    hide At;
    AtParts(s, i, p.before + ";" + p.after + p.name + "=", p.value);
    AtParts(s, i, p.before + ";" + p.after + p.name, "=");
    AtParts(s, i, p.before + ";" + p.after, p.name);
    AtParts(s, i, p.before + ";", p.after);
    AtParts(s, i, p.before, ";");
    AtOne(s, i + |p.before|, ';');
    AtOne(s, ValueStart(i, p) - 1, '=');
    assert ValueStart(i, p) + |p.value| <= |s|;
  }

  /** What follows a value, or the subtype, is no token character. */
  lemma ParametersStart(ps: seq<Parameter>)
    requires AllWellFormed(ps)
    ensures EndsToken(WriteParameters(ps))
  {
    if ps != [] {
      assert WellFormed(ps[0]);
      var w := WriteParameter(ps[0]);
      assert w[0] == if ps[0].before == "" then ';' else ps[0].before[0];
      assert WriteParameters(ps)[0] == w[0];
    }
  }

  /** w is written at i, and nothing follows it. */
  predicate AtEnd(s: string, i: nat, w: string) { At(s, i, w) && i + |w| == |s| }

  predicate ParametersAt(s: string, i: nat, ps: seq<Parameter>) { AtEnd(s, i, WriteParameters(ps)) }

  ghost predicate AllWellFormed(ps: seq<Parameter>) { forall p :: p in ps ==> WellFormed(p) }

  lemma FirstWellFormed(ps: seq<Parameter>)
    requires ps != [] && AllWellFormed(ps)
    ensures WellFormed(ps[0]) && AllWellFormed(ps[1..])
  {
    hide WellFormed;
    assert ps[0] in ps;
  }

  lemma ParameterWritten(s: string, i: nat, ps: seq<Parameter>)
    requires ps != [] && ParametersAt(s, i, ps) && AllWellFormed(ps[1..])
    ensures WrittenAt(s, i, ps[0]) && ParametersAt(s, ParameterEnd(i, ps[0]), ps[1..])
  {
    var p, w, rest := ps[0], WriteParameter(ps[0]), WriteParameters(ps[1..]);
    assert WriteParameters(ps) == w + rest;
    hide At, WriteParameter, WriteParameters, AllWellFormed, IsTokenChar;
    ParametersStart(ps[1..]);
    OneWritten(s, i, p, rest);
  }

  lemma OneWritten(s: string, i: nat, p: Parameter, rest: string)
    requires At(s, i, WriteParameter(p) + rest) && i + |WriteParameter(p) + rest| == |s|
    requires rest != "" ==> !IsTokenChar(rest[0])
    ensures WrittenAt(s, i, p) && At(s, ParameterEnd(i, p), rest) && ParameterEnd(i, p) + |rest| == |s|
  {
    hide At, WriteParameter, IsTokenChar;
    AtParts(s, i, WriteParameter(p), rest);
    ParameterParts(s, i, p);
    WriteParameterLength(p);
    if rest != "" { AtFirst(s, ParameterEnd(i, p), rest); }
  }

  lemma AtFirst(s: string, i: nat, w: string)
    requires At(s, i, w) && w != ""
    ensures i < |s| && s[i] == w[0]
  {
    assert s[i + 0] == w[0];
  }

  lemma WriteParameterLength(p: Parameter)
    ensures |WriteParameter(p)| == |p.before| + 1 + |p.after| + |p.name| + 1 + |p.value|
  {
  }

  lemma CharsetStep(s: string, i: nat, p: Parameter)
    requires i < ParameterEnd(i, p) <= |s| && ParamAt(s, i) == Param(p.name, p.value, ParameterEnd(i, p))
    ensures CharsetFrom(s, i) == if IsCharsetName(p.name) then p.value else CharsetFrom(s, ParameterEnd(i, p))
  {
    hide ParamAt, IEquals, IsCharsetName, ParameterEnd;
    CharsetNameAnyCase(p.name);
  }

  lemma {:induction false} CharsetRead(s: string, i: nat, ps: seq<Parameter>)
    requires ParametersAt(s, i, ps) && AllWellFormed(ps)
    ensures CharsetFrom(s, i) == FirstCharset(ps)
    decreases |ps|
  {
    if ps == [] {
      assert i == |s|;
    } else {
      hide *;
      assert FirstCharset(ps) == if IsCharsetName(ps[0].name) then ps[0].value else FirstCharset(ps[1..]);
      FirstWellFormed(ps);
      ParameterWritten(s, i, ps);
      ParameterRead(s, i, ps[0]);
      CharsetStep(s, i, ps[0]);
      CharsetRead(s, ParameterEnd(i, ps[0]), ps[1..]);
    }
  }

  // Any text: the search finds the parameters that stand in it, from left to right

  ghost predicate HasParameter(s: string, i: nat) { exists p :: WellFormed(p) && WrittenAt(s, i, p) }

  /** The parameters found from i on, with their places: each is the first that stands behind the one before
      it, and none stands behind the last. */
  ghost predicate Found(s: string, i: nat, places: seq<nat>, ps: seq<Parameter>)
    requires |places| == |ps|
    decreases |ps|
  {
    if ps == [] then forall k :: i <= k < |s| ==> !HasParameter(s, k)
    else
      && i <= places[0] && WellFormed(ps[0]) && WrittenAt(s, places[0], ps[0])
      && (forall k :: i <= k < places[0] ==> !HasParameter(s, k))
      && Found(s, ParameterEnd(places[0], ps[0]), places[1..], ps[1..])
  }

  lemma {:induction false} BlankRun(s: string, i: nat)
    requires i <= |s|
    ensures forall k :: i <= k < BlankEnd(s, i) ==> IsBlank(s[k])
    decreases |s| - i
  {
    if i < |s| && IsBlank(s[i]) { BlankRun(s, i + 1); }
  }

  lemma {:induction false} QuoteWasText(s: string, i: nat)
    requires i <= |s| && QuoteAt(s, i).Closed?
    ensures s[QuoteAt(s, i).end - 1] == '"' && QuotedText(s, i, QuoteAt(s, i).end - 1)
    decreases |s| - i
  {
    if s[i] != '"' { QuoteWasText(s, if s[i] == '\\' then i + 2 else i + 1); }
  }

  lemma ValueWasWritten(s: string, name: string, v: nat)
    requires v <= |s| && ValueAt(s, name, v).Param?
    ensures var m := ValueAt(s, name, v);
      && m.name == name && m.value == s[v..m.end] && (IsToken(m.value) || IsQuoted(m.value))
      && (IsToken(m.value) ==> m.end == |s| || !IsTokenChar(s[m.end]))
  {
    TokenRun(s, v);
    if TokenEnd(s, v) == v {
      QuoteWasText(s, v + 1);
      var end := QuoteAt(s, v + 1).end;
      QuotedShift(s, v + 1, end - 1, s[v..end], 1);
    }
  }

  lemma NameWasWritten(s: string, i: nat)
    requires i <= |s| && NameAt(s, i).Some?
    ensures var n, semicolon := NameAt(s, i).value, BlankEnd(s, i);
      && i <= semicolon < n.0 < n.1 < |s| && s[semicolon] == ';' && s[n.1] == '='
      && AllBlank(s[i..semicolon]) && AllBlank(s[semicolon + 1..n.0]) && IsToken(s[n.0..n.1])
  {
    var semicolon := BlankEnd(s, i);
    BlankRun(s, i);
    BlankRun(s, semicolon + 1);
    TokenRun(s, BlankEnd(s, semicolon + 1));
  }

  lemma ParamUnfolds(s: string, i: nat)
    requires i <= |s| && ParamAt(s, i).Param?
    ensures NameAt(s, i).Some?
    ensures var n := NameAt(s, i).value; ParamAt(s, i) == ValueAt(s, s[n.0..n.1], n.1 + 1)
  {
    hide NameAt, ValueAt;
  }

  /** What is found was written. */
  lemma ParamWasWritten(s: string, i: nat) returns (p: Parameter)
    requires i <= |s| && ParamAt(s, i).Param?
    ensures WellFormed(p) && WrittenAt(s, i, p) && ParamAt(s, i).end == ParameterEnd(i, p)
  {
    ParamUnfolds(s, i);
    hide *;
    var n, semicolon, end := NameAt(s, i).value, BlankEnd(s, i), ParamAt(s, i).end;
    NameWasWritten(s, i);
    ValueWasWritten(s, s[n.0..n.1], n.1 + 1);
    p := PartsWritten(s, i, semicolon, n.0, n.1, end);
  }

  /** The parts of a text, as a parameter. */
  lemma PartsWritten(s: string, i: nat, semicolon: nat, start: nat, equals: nat, end: nat) returns (p: Parameter)
    requires i <= semicolon < start < equals < end <= |s| && s[semicolon] == ';' && s[equals] == '='
    requires AllBlank(s[i..semicolon]) && AllBlank(s[semicolon + 1..start]) && IsToken(s[start..equals])
    requires IsToken(s[equals + 1..end]) || IsQuoted(s[equals + 1..end])
    requires IsToken(s[equals + 1..end]) ==> end == |s| || !IsTokenChar(s[end])
    ensures WellFormed(p) && WrittenAt(s, i, p) && end == ParameterEnd(i, p)
  {
    hide At, IsToken, IsQuoted, AllBlank;
    SliceAt(s, i, semicolon);
    SliceAt(s, semicolon + 1, start);
    SliceAt(s, start, equals);
    SliceAt(s, equals + 1, end);
    p := Parameter(s[i..semicolon], s[semicolon + 1..start], s[start..equals], s[equals + 1..end]);
  }

  /** A parameter is found exactly where one is written. */
  lemma ParamIffWritten(s: string, i: nat)
    requires i <= |s|
    ensures ParamAt(s, i).Param? <==> HasParameter(s, i)
  {
    hide WellFormed, WrittenAt, ParamAt;
    if ParamAt(s, i).Param? {
      var p := ParamWasWritten(s, i);
    }
    if HasParameter(s, i) {
      var p :| WellFormed(p) && WrittenAt(s, i, p);
      ParameterRead(s, i, p);
    }
  }

  /** In every text some parameters are found. */
  lemma {:induction false} ParametersFound(s: string, i: nat) returns (places: seq<nat>, ps: seq<Parameter>)
    requires i <= |s|
    ensures |places| == |ps| && Found(s, i, places, ps)
    decreases |s| - i
  {
    places, ps := [], [];
    if i < |s| {
      ParamIffWritten(s, i);
      if ParamAt(s, i).Param? {
        hide WellFormed, WrittenAt, ParamAt;
        var p := ParamWasWritten(s, i);
        places, ps := ParametersFound(s, ParameterEnd(i, p));
        places, ps := [i] + places, [p] + ps;
      } else {
        places, ps := ParametersFound(s, i + 1);
      }
    }
  }

  /** The charset read from any text is that of the first parameter so named among those found. */
  lemma {:induction false} CharsetOfFound(s: string, i: nat, places: seq<nat>, ps: seq<Parameter>)
    requires i <= |s| && |places| == |ps| && Found(s, i, places, ps)
    ensures CharsetFrom(s, i) == FirstCharset(ps)
    decreases |ps|, |s| - i
  {
    if i == |s| {
    } else if HasParameter(s, i) {
      assert ps != [] && places[0] == i;
      ParameterRead(s, i, ps[0]);
      CharsetStep(s, i, ps[0]);
      CharsetOfFound(s, ParameterEnd(i, ps[0]), places[1..], ps[1..]);
    } else {
      ParamIffWritten(s, i);
      CharsetOfFound(s, i + 1, places, ps);
    }
  }

  // The line

  /** Reading back a written line, however it is spelled: the field name in any case, a space or none after
      its colon, blanks around the semicolons, values as tokens or quoted strings with escapes. */
  lemma ReadsWhatWasWritten(field: string, spaced: bool, mediaType: string, subtype: string, ps: seq<Parameter>)
    requires IsFieldName(field) && IsToken(mediaType) && IsToken(subtype) && AllWellFormed(ps)
    ensures MediaTypeOf(WriteLine(field, spaced, mediaType, subtype, WriteParameters(ps)))
         == Some(MediaType(mediaType, subtype, FirstCharset(ps)))
  {
    var params := WriteParameters(ps);
    var line, start := WriteLine(field, spaced, mediaType, subtype, params), if spaced then 14 else 13;
    ParametersStart(ps);
    hide *;
    FieldLength(field);
    LineParts(line, start, field, spaced, mediaType, subtype, params);
    TypeRead(line, start, field, mediaType, subtype, params);
    ReadsParts(line, start, field, mediaType, subtype, ps);
  }

  lemma ReadsParts(s: string, start: nat, field: string, mediaType: string, subtype: string, ps: seq<Parameter>)
    requires LineAt(s, start, field, mediaType, subtype) && AllWellFormed(ps)
    requires AtEnd(s, start + |mediaType| + 1 + |subtype|, WriteParameters(ps))
    requires MatchType(s) == Match(mediaType, subtype, start + |mediaType| + 1 + |subtype|)
    ensures MediaTypeOf(s) == Some(MediaType(mediaType, subtype, FirstCharset(ps)))
  {
    hide AtEnd, LineAt, WriteParameters, AllWellFormed, MatchType, CharsetFrom, FirstCharset;
    CharsetRead(s, start + |mediaType| + 1 + |subtype|, ps);
  }

  /** What a type and subtype are followed by: nothing, or no token character. */
  predicate EndsToken(rest: string) { rest == "" || !IsTokenChar(rest[0]) }

  /** A content-type line, up to its parameters: a field name in any case, a space or none, two tokens. */
  predicate IsWritten(line: string, field: string, spaced: bool, mediaType: string, subtype: string, rest: string)
  {
    && IsFieldName(field) && IsToken(mediaType) && IsToken(subtype) && EndsToken(rest)
    && line == WriteLine(field, spaced, mediaType, subtype, rest)
  }

  /** The matcher finds a type and a subtype exactly in the lines that are written with them. */
  lemma MatchesIffWritten(line: string, mediaType: string, subtype: string, n: nat)
    ensures MatchType(line) == Match(mediaType, subtype, n) <==>
      n <= |line| && exists field, spaced :: IsWritten(line, field, spaced, mediaType, subtype, line[n..])
  {
    if n <= |line| && exists field, spaced :: IsWritten(line, field, spaced, mediaType, subtype, line[n..]) {
      var field, spaced :| IsWritten(line, field, spaced, mediaType, subtype, line[n..]);
      WrittenMatches(line, field, spaced, mediaType, subtype, line[n..]);
    }
    if MatchType(line) == Match(mediaType, subtype, n) {
      MatchIsWritten(line);
      assert IsWritten(line, line[..13], TypeStart(line) == 14, mediaType, subtype, line[n..]);
    }
  }

  /** The line is written with this type and subtype, and its charset is that of the first parameter so named
      among those found behind them. */
  ghost predicate Declares(line: string, m: MediaType)
  {
    exists field, spaced, n: nat, places, ps ::
      && n <= |line| && IsWritten(line, field, spaced, m.mediaType, m.subtype, line[n..])
      && |places| == |ps| && Found(line, n, places, ps) && m.charset == FirstCharset(ps)
  }

  /** The media type read from any line is the one it declares. */
  lemma ReadsWhatIsDeclared(line: string, m: MediaType)
    ensures MediaTypeOf(line) == Some(m) <==> Declares(line, m)
  {
    hide MatchType, IsWritten, Found, FirstCharset, CharsetFrom;
    if Declares(line, m) {
      var field, spaced, n: nat, places, ps :|
        && n <= |line| && IsWritten(line, field, spaced, m.mediaType, m.subtype, line[n..])
        && |places| == |ps| && Found(line, n, places, ps) && m.charset == FirstCharset(ps);
      MatchesIffWritten(line, m.mediaType, m.subtype, n);
      CharsetOfFound(line, n, places, ps);
    }
    if MediaTypeOf(line) == Some(m) {
      var n := MatchType(line).rest;
      MatchesIffWritten(line, m.mediaType, m.subtype, n);
      var places, ps := ParametersFound(line, n);
      CharsetOfFound(line, n, places, ps);
    }
  }

  lemma WrittenMatches(line: string, field: string, spaced: bool, mediaType: string, subtype: string, rest: string)
    requires IsWritten(line, field, spaced, mediaType, subtype, rest)
    ensures MatchType(line) == Match(mediaType, subtype, |line| - |rest|)
  {
    var start := if spaced then 14 else 13;
    FieldLength(field);
    hide IsFieldName, IsToken, EndsToken, WriteLine, MatchType, At, LineAt;
    LineParts(line, start, field, spaced, mediaType, subtype, rest);
    TypeRead(line, start, field, mediaType, subtype, rest);
  }

  lemma FieldFound(line: string)
    requires MatchType(line).Match?
    ensures StartsWithContentType(line) && |line| >= 13 && IsFieldName(line[..13])
  {
    hide IEquals, IsFieldName, TokenEnd;
    FieldNameAnyCase(line[..13]);
  }

  lemma StartOfType(line: string)
    ensures if TypeStart(line) == 14 then 13 < |line| && line[13] == ' ' else TypeStart(line) == 13
  {
  }

  lemma MatchTypeUnfolds(line: string)
    requires StartsWithContentType(line) && |line| >= 13
    ensures var start := TypeStart(line);
      var slash := TokenEnd(line, start);
      MatchType(line) ==
        if slash == start || slash == |line| || line[slash] != '/' then NoMatch
        else
          var end := TokenEnd(line, slash + 1);
          if end == slash + 1 then NoMatch else Match(line[start..slash], line[slash + 1..end], end)
  {
    hide TokenEnd, StartsWithContentType, TypeStart;
  }

  lemma MatchParts(line: string)
    requires MatchType(line).Match?
    ensures TypeStart(line) <= |line|
    ensures var start := TypeStart(line);
      var slash := TokenEnd(line, start);
      && start < slash < |line| && line[slash] == '/'
      && var end := TokenEnd(line, slash + 1);
         slash + 1 < end && MatchType(line) == Match(line[start..slash], line[slash + 1..end], end)
  {
    FieldFound(line);
    hide *;
    MatchTypeUnfolds(line);
  }

  lemma MatchIsWritten(line: string)
    requires MatchType(line).Match?
    ensures var m, spaced := MatchType(line), TypeStart(line) == 14;
      IsWritten(line, line[..13], spaced, m.mediaType, m.subtype, line[m.rest..])
  {
    FieldFound(line);
    MatchParts(line);
    StartOfType(line);
    hide *;
    var start := TypeStart(line);
    var slash := TokenEnd(line, start);
    var end := TokenEnd(line, slash + 1);
    TokenFound(line, start);
    TokenFound(line, slash + 1);
    Assembled(line, start, slash, end, start == 14);
    assert MatchType(line) == Match(line[start..slash], line[slash + 1..end], end);
  }

  lemma {:induction false} TokenRun(s: string, i: nat)
    requires i <= |s|
    ensures forall k :: i <= k < TokenEnd(s, i) ==> IsTokenChar(s[k])
    ensures TokenEnd(s, i) == |s| || !IsTokenChar(s[TokenEnd(s, i)])
    decreases |s| - i
  {
    if i < |s| && IsTokenChar(s[i]) { TokenRun(s, i + 1); }
  }

  lemma TokenFound(s: string, i: nat)
    requires i <= |s|
    ensures i < TokenEnd(s, i) ==> IsToken(s[i..TokenEnd(s, i)])
    ensures EndsToken(s[TokenEnd(s, i)..])
  {
    TokenRun(s, i);
  }

  lemma Assembled(line: string, start: nat, slash: nat, end: nat, spaced: bool)
    requires start <= slash < end <= |line| && line[slash] == '/'
    requires if spaced then start == 14 && line[13] == ' ' else start == 13
    requires IsFieldName(line[..13]) && IsToken(line[start..slash]) && IsToken(line[slash + 1..end])
    requires EndsToken(line[end..])
    ensures IsWritten(line, line[..13], spaced, line[start..slash], line[slash + 1..end], line[end..])
  {
    hide IsFieldName, IsToken, EndsToken;
    assert line[slash..] == "/" + (line[slash + 1..end] + line[end..]);
    assert line[start..] == line[start..slash] + line[slash..];
    assert line[13..] == Space(spaced) + line[start..];
  }

  lemma FieldLength(field: string)
    requires IsFieldName(field)
    ensures |field| == 13
  {
  }

  /** The parts of a line, by position. */
  predicate LineAt(s: string, start: nat, field: string, mediaType: string, subtype: string)
  {
    var slash := start + |mediaType|;
    && |field| == 13 && At(s, 0, field) && (start == 13 || (start == 14 && 13 < |s| && s[13] == ' '))
    && At(s, start, mediaType) && slash < |s| && s[slash] == '/' && At(s, slash + 1, subtype)
  }

  lemma AtAll(s: string)
    ensures At(s, 0, s)
  {
  }

  lemma LineParts(s: string, start: nat, field: string, spaced: bool, mediaType: string, subtype: string,
                  params: string)
    requires |field| == 13 && s == WriteLine(field, spaced, mediaType, subtype, params)
    requires start == if spaced then 14 else 13
    ensures LineAt(s, start, field, mediaType, subtype) && AtEnd(s, start + |mediaType| + 1 + |subtype|, params)
  {
    AtAll(s);
    hide At, WriteType, Space;
    AtParts(s, 0, field, Space(spaced) + WriteType(mediaType, subtype, params));
    AtParts(s, 13, Space(spaced), WriteType(mediaType, subtype, params));
    SpaceAt(s, spaced);
    TypeParts(s, start, mediaType, subtype, params);
    AtEnds(s, field, Space(spaced), mediaType, subtype, params);
  }

  lemma SpaceAt(s: string, spaced: bool)
    requires At(s, 13, Space(spaced))
    ensures |Space(spaced)| == (if spaced then 1 else 0) && (spaced ==> 13 < |s| && s[13] == ' ')
  {
    if spaced { AtOne(s, 13, ' '); }
  }

  lemma TypeParts(s: string, start: nat, mediaType: string, subtype: string, params: string)
    requires At(s, start, WriteType(mediaType, subtype, params))
    ensures var slash := start + |mediaType|;
      At(s, start, mediaType) && slash < |s| && s[slash] == '/'
      && At(s, slash + 1, subtype) && At(s, slash + 1 + |subtype|, params)
  {
    hide At;
    AtParts(s, start, mediaType, "/" + (subtype + params));
    AtParts(s, start + |mediaType|, "/", subtype + params);
    AtParts(s, start + |mediaType| + 1, subtype, params);
    AtOne(s, start + |mediaType|, '/');
  }

  lemma AtEnds(s: string, field: string, space: string, mediaType: string, subtype: string, params: string)
    requires s == field + (space + WriteType(mediaType, subtype, params))
    ensures |s| == |field| + |space| + |mediaType| + 1 + |subtype| + |params|
  {
  }

  lemma TypeRead(s: string, start: nat, field: string, mediaType: string, subtype: string, rest: string)
    requires LineAt(s, start, field, mediaType, subtype) && AtEnd(s, start + |mediaType| + 1 + |subtype|, rest)
    requires IsFieldName(field) && IsToken(mediaType) && IsToken(subtype) && EndsToken(rest)
    ensures MatchType(s) == Match(mediaType, subtype, start + |mediaType| + 1 + |subtype|)
    ensures start + |mediaType| + 1 + |subtype| == |s| - |rest|
  {
    var slash, end := start + |mediaType|, start + |mediaType| + 1 + |subtype|;
    FieldRead(s, start, field, mediaType, subtype);
    if rest != "" { AtFirst(s, end, rest); }
    hide At, StartsWithContentType, IsFieldName;
    assert !IsTokenChar('/');
    TokenRead(s, start, mediaType);
    TokenRead(s, slash + 1, subtype);
    hide TokenEnd, IsToken;
  }

  lemma FieldRead(s: string, start: nat, field: string, mediaType: string, subtype: string)
    requires LineAt(s, start, field, mediaType, subtype) && IsFieldName(field) && IsToken(mediaType)
    ensures StartsWithContentType(s) && 13 < |s| && (s[13] == ' ' <==> start == 14)
  {
    hide IEquals, IsFieldName;
    FieldNameAnyCase(field);
    AtSlice(s, 0, field);
    assert s[..13] == field;
    AtFirst(s, start, mediaType);
  }
}
