/**
The fields and tables of the status line, CSeq, parameters and the authentication headers, and what each of them gives
back when its printed form is read.
*/
module CodecTables {
  import opened Common
  import opened CodecText
  import opened CodecPattern

  datatype Parameter = Parameter(name: string, value: string)

  datatype Field = Text(text: string) | Number(number: int) | List(list: seq<Parameter>)

  // ---------- Text and numbers ----------

  function ParseText(s: string, prior: Field): Option<Field> {
    match ParsedString(s)
    case Some(t) => Some(Text(t))
    case None => None
  }

  function ParseNumber(s: string, prior: Field): Option<Field> {
    match Atoi(s)
    case Some(n) => Some(Number(n))
    case None => None
  }

  function Lead(start: char): string { if start == EMPTY then "" else [start] }

  /** String2String. */
  function ShowText(start: char, mandatory: bool, v: Field): string {
    if v.Text? && v.text != "" then Lead(start) + v.text else ""
  }

  /** Integer2String. */
  function ShowNumber(start: char, mandatory: bool, v: Field): string {
    if v.Number? && (v.number != 0 || mandatory) then Lead(start) + Decimal(v.number) else ""
  }

  function TextLine(start: char, end: char, mandatory: bool): Pattern<Field> {
    Pattern(start, end, mandatory, ParseText, _ => true, ShowText)
  }

  function NumberLine(start: char, end: char, mandatory: bool): Pattern<Field> {
    Pattern(start, end, mandatory, ParseNumber, _ => true, ShowNumber)
  }

  /** A text that is printed and read alike: shorter than 128 characters, and with no space at its ends. */
  predicate Clean(t: string) { Plain(t) && Bare(t) && |t| < 128 }

  lemma TextShown(start: char, end: char, mandatory: bool, t: string, prior: Field)
    requires Clean(t) && t != "" && end !in t
    ensures Shown(TextLine(start, end, mandatory), Text(t), prior, t)
    ensures TextLine(start, end, mandatory).parse("", prior) != Some(Text(t))
  {
    BareIsKept(t);
  }

  /** A number that is not 0 is shown, and so is 0 in a mandatory line. */
  lemma NumberShown(start: char, end: char, mandatory: bool, n: int, prior: Field)
    requires IsInt32(n) && (n != 0 || mandatory) && !IsDigit(end) && end != '-'
    ensures Shown(NumberLine(start, end, mandatory), Number(n), prior, Decimal(n))
    ensures n != 0 ==> NumberLine(start, end, mandatory).parse("", prior) != Some(Number(n))
  {
    DecimalShape(n);
    DecimalRead(n);
    var d := Decimal(n);
    assert d[0] in d;
  }

  lemma TextSilent(start: char, end: char, mandatory: bool, prior: Field)
    ensures Silent(TextLine(start, end, mandatory), Text(""), prior)
  {
  }

  lemma NumberSilent(start: char, end: char, prior: Field)
    ensures Silent(NumberLine(start, end, false), Number(0), prior)
  {
  }

  // ---------- Status line ----------

  const StatusLineTable := [TextLine(EMPTY, SPACE, false), NumberLine(SPACE, SPACE, false), TextLine(SPACE, EMPTY, false)]

  /** A status line with a code is read back exactly when it has a reason phrase. */
  lemma StatusLineWithCode(init: seq<Field>, version: string, code: int, reason: string)
    requires |init| == 3 && Clean(version) && version != "" && SPACE !in version
    requires IsInt32(code) && code != 0 && Clean(reason)
    ensures var h := [Text(version), Number(code), Text(reason)];
      ParseWith(PrintFrom(StatusLineTable, h, 0), StatusLineTable, init) == Done(h) <==> reason != ""
  {
    var h := [Text(version), Number(code), Text(reason)];
    TextShown(EMPTY, SPACE, false, version, init[0]);
    NumberShown(SPACE, SPACE, false, code, init[1]);
    if reason != "" {
      TextShown(SPACE, EMPTY, false, reason, init[2]);
      RoundTrip(StatusLineTable, init, h, [version, Decimal(code), reason], 3);
    } else {
      TextSilent(SPACE, EMPTY, false, init[2]);
      RoundTrip(StatusLineTable, init, h, [version, Decimal(code), reason], 2);
    }
  }

  lemma ThreeFields(table: seq<Pattern<Field>>, h: seq<Field>)
    requires |table| == |h| == 3
    ensures PrintFrom(table, h, 0) == PrintOne(table[0], h[0]) + PrintOne(table[1], h[1]) + PrintOne(table[2], h[2])
  {
    assert PrintFrom(table, h, 3) == "";
    assert PrintFrom(table, h, 2) == PrintOne(table[2], h[2]);
    assert PrintFrom(table, h, 1) == PrintOne(table[1], h[1]) + PrintOne(table[2], h[2]);
  }

  /** The first two elements of a status line `v r`: `v`, and what comes before the first space of `r`, or nothing. */
  lemma TwoWords(version: string, r: string)
    requires Plain(version) && 0 < |version| < MAX_ELEMENT_LENGTH && SPACE !in version && Plain(r) && r != "" && r[0] != SPACE
    ensures var s, n := version + [SPACE] + r, |version|;
      && Element(s, Some(0), StatusLineTable[0]) == (version, Some(n))
      && (SPACE !in r ==> Element(s, Some(n), StatusLineTable[1]) == ("", Some(n)))
      && (SPACE in r ==> Element(s, Some(n), StatusLineTable[1]).1.Some? && Element(s, Some(n), StatusLineTable[1]).1.value > n + 1)
  {
    var s, n := version + [SPACE] + r, |version|;
    assert s[0..] == version + ([SPACE] + r);
    ElementIs(s, 0, StatusLineTable[0], version, [SPACE] + r);
    assert s[n + 1..] == r && s[n + 1] == r[0];
    if SPACE !in r {
      FindCharNone(s, n + 1, SPACE);
    }
  }

  lemma LastWord(version: string, r: string, at: nat)
    requires Plain(version) && Plain(r) && |version| <= at < |version + [SPACE] + r| && at > 0
    ensures var s := version + [SPACE] + r;
      |Element(s, Some(at), StatusLineTable[2]).0| <= |s| - at - 1
    ensures at == |version| && r != "" && r[0] != SPACE && |r| < MAX_ELEMENT_LENGTH ==>
      Element(version + [SPACE] + r, Some(at), StatusLineTable[2]).0 == r
  {
    var s := version + [SPACE] + r;
    if at == |version| && r != "" && r[0] != SPACE && |r| < MAX_ELEMENT_LENGTH {
      assert s[at + 1..] == r == r + "" && s[at] == SPACE;
      ElementIs(s, at, StatusLineTable[2], r, "");
    }
  }

  lemma ThreeSteps(s: string, table: seq<Pattern<Field>>, init: seq<Field>)
    requires |table| == |init| == 3 && ParseFrom(s, 0, Some(0), table, init).Done?
    ensures var f, (v0, e0) := ParseFrom(s, 0, Some(0), table, init).fields, Element(s, Some(0), table[0]);
      var (v1, e1) := Element(s, e0, table[1]);
      && Some(f[0]) == table[0].parse(v0, init[0]) && Some(f[1]) == table[1].parse(v1, init[1])
      && Some(f[2]) == table[2].parse(Element(s, e1, table[2]).0, init[2])
  {
    var (v0, e0) := Element(s, Some(0), table[0]);
    var f0 := init[0 := table[0].parse(v0, init[0]).value];
    assert ParseFrom(s, 0, Some(0), table, init) == ParseFrom(s, 1, e0, table, f0);
    var (v1, e1) := Element(s, e0, table[1]);
    var f1 := f0[1 := table[1].parse(v1, init[1]).value];
    assert ParseFrom(s, 1, e0, table, f0) == ParseFrom(s, 2, e1, table, f1);
  }

  /** A status line without a code is printed as two words, or more if its reason phrase has more than one. */
  lemma PrintedWithoutCode(version: string, reason: string)
    requires version != "" && version[0] != SPACE && reason != ""
    ensures var s := PrintFrom(StatusLineTable, [Text(version), Number(0), Text(reason)], 0);
      s == version + [SPACE] + reason && s[SkipSpaces(s, 0)..] == s
  {
    ThreeFields(StatusLineTable, [Text(version), Number(0), Text(reason)]);
    var s := version + [SPACE] + reason;
    assert s[0] == version[0] && s[0..] == s;
  }

  lemma OneWordRead(init: seq<Field>, version: string, reason: string)
    requires |init| == 3 && Clean(version) && version != "" && SPACE !in version
    requires Clean(reason) && reason != "" && SPACE !in reason
    ensures ParseFrom(version + [SPACE] + reason, 0, Some(0), StatusLineTable, init) == Done([Text(version), Number(0), Text(reason)])
  {
    var s, n := version + [SPACE] + reason, |version|;
    WordsParsed(init, version, reason);
    OneWordElements(version, reason);
    ThreeRead(s, StatusLineTable, init, version, n, "", n, reason, [Text(version), Number(0), Text(reason)]);
  }

  lemma OneWordElements(version: string, reason: string)
    requires Clean(version) && version != "" && SPACE !in version
    requires Clean(reason) && reason != "" && SPACE !in reason
    ensures var s, n := version + [SPACE] + reason, |version|;
      && Element(s, Some(0), StatusLineTable[0]) == (version, Some(n))
      && Element(s, Some(n), StatusLineTable[1]) == ("", Some(n))
      && Element(s, Some(n), StatusLineTable[2]).0 == reason
  {
    TwoWords(version, reason);
    LastWord(version, reason, |version|);
  }

  lemma WordsParsed(init: seq<Field>, version: string, reason: string)
    requires |init| == 3 && Clean(version) && Clean(reason)
    ensures Takes(StatusLineTable[0], version, init[0], Text(version))
    ensures Takes(StatusLineTable[1], "", init[1], Number(0))
    ensures Takes(StatusLineTable[2], reason, init[2], Text(reason))
  {
    BareIsKept(version);
    BareIsKept(reason);
  }

  /** The line makes the value of the text. */
  predicate Takes(p: Pattern<Field>, t: string, prior: Field, v: Field) {
    p.legal(t) && p.parse(t, prior) == Some(v)
  }

  lemma ThreeRead(
      s: string, table: seq<Pattern<Field>>, init: seq<Field>, t0: string, n0: nat, t1: string, n1: nat, t2: string, h: seq<Field>)
    requires |table| == |init| == |h| == 3 && n0 <= |s| && n1 <= |s|
    requires Element(s, Some(0), table[0]) == (t0, Some(n0)) && Takes(table[0], t0, init[0], h[0])
    requires Element(s, Some(n0), table[1]) == (t1, Some(n1)) && Takes(table[1], t1, init[1], h[1])
    requires Element(s, Some(n1), table[2]).0 == t2 && Takes(table[2], t2, init[2], h[2])
    ensures ParseFrom(s, 0, Some(0), table, init) == Done(h)
  {
    var f0 := init[0 := h[0]];
    ParseStep(s, 0, 0, table, init, t0, n0, h[0]);
    var f1 := f0[1 := h[1]];
    ParseStep(s, 1, n0, table, f0, t1, n1, h[1]);
    assert f1[2 := h[2]] == h;
    assert ParseFrom(s, 2, Some(n1), table, f1) == ParseFrom(s, 3, Element(s, Some(n1), table[2]).1, table, h);
  }

  lemma WordsLost(init: seq<Field>, version: string, reason: string)
    requires |init| == 3 && Clean(version) && version != "" && SPACE !in version
    requires Clean(reason) && reason != "" && SPACE in reason
    ensures ParseFrom(version + [SPACE] + reason, 0, Some(0), StatusLineTable, init) != Done([Text(version), Number(0), Text(reason)])
  {
    var s, n, table := version + [SPACE] + reason, |version|, StatusLineTable;
    TwoWords(version, reason);
    var end := Element(s, Some(n), table[1]).1.value;
    var last := Element(s, Some(end), table[2]).0;
    if end < |s| {
      LastWord(version, reason, end);
    }
    if ParseFrom(s, 0, Some(0), table, init).Done? {
      ThreeSteps(s, table, init);
      ParsedIsBare(last);
    }
  }

  lemma StatusLineWithoutCode(init: seq<Field>, version: string, reason: string)
    requires |init| == 3 && Clean(version) && version != "" && SPACE !in version && Clean(reason) && reason != ""
    ensures var h := [Text(version), Number(0), Text(reason)];
      ParseWith(PrintFrom(StatusLineTable, h, 0), StatusLineTable, init) == Done(h) <==> SPACE !in reason
  {
    PrintedWithoutCode(version, reason);
    if SPACE !in reason {
      OneWordRead(init, version, reason);
    } else {
      WordsLost(init, version, reason);
    }
  }

  /** Theorem: a status line is read back exactly when it has a reason phrase and, if its code is 0, that is one word. */
  lemma StatusLineRoundTrip(init: seq<Field>, version: string, code: int, reason: string)
    requires |init| == 3 && Clean(version) && version != "" && SPACE !in version && IsInt32(code) && Clean(reason)
    ensures var h := [Text(version), Number(code), Text(reason)];
      ParseWith(PrintFrom(StatusLineTable, h, 0), StatusLineTable, init) == Done(h) <==>
        reason != "" && (code != 0 || SPACE !in reason)
  {
    if code != 0 {
      StatusLineWithCode(init, version, code, reason);
    } else if reason != "" {
      StatusLineWithoutCode(init, version, reason);
    } else {
      TextShown(EMPTY, SPACE, false, version, init[0]);
      NumberSilent(SPACE, SPACE, init[1]);
      TextSilent(SPACE, EMPTY, false, init[2]);
      RoundTrip(StatusLineTable, init, [Text(version), Number(0), Text("")], [version, "", ""], 1);
    }
  }

  // ---------- CSeq ----------

  const CSeqTable := [TextLine(EMPTY, ':', false), NumberLine(':', SPACE, false), TextLine(SPACE, EMPTY, false)]

  lemma CSeqWithNumber(init: seq<Field>, name: string, number: int, method_: string)
    requires |init| == 3 && Clean(name) && name != "" && ':' !in name
    requires IsInt32(number) && number != 0 && Clean(method_)
    ensures var h := [Text(name), Number(number), Text(method_)];
      ParseWith(PrintFrom(CSeqTable, h, 0), CSeqTable, init) == Done(h) <==> method_ != ""
  {
    var h := [Text(name), Number(number), Text(method_)];
    TextShown(EMPTY, ':', false, name, init[0]);
    NumberShown(':', SPACE, false, number, init[1]);
    if method_ != "" {
      TextShown(SPACE, EMPTY, false, method_, init[2]);
      RoundTrip(CSeqTable, init, h, [name, Decimal(number), method_], 3);
    } else {
      TextSilent(SPACE, EMPTY, false, init[2]);
      RoundTrip(CSeqTable, init, h, [name, Decimal(number), method_], 2);
    }
  }

  lemma PrintedWithoutNumber(name: string, method_: string)
    requires name != "" && name[0] != SPACE && method_ != ""
    ensures var s := PrintFrom(CSeqTable, [Text(name), Number(0), Text(method_)], 0);
      s == name + [SPACE] + method_ && s[SkipSpaces(s, 0)..] == s
  {
    ThreeFields(CSeqTable, [Text(name), Number(0), Text(method_)]);
    var s := name + [SPACE] + method_;
    assert s[0] == name[0] && s[0..] == s;
  }

  /** Behind a position there is only so much to read. */
  lemma ElementBound(s: string, position: Option<nat>, p: Pattern<Field>)
    requires position.Some? ==> 0 < position.value <= |s|
    ensures var (value, end) := Element(s, position, p);
      (end.Some? ==> position.Some? && position.value <= end.value <= |s|)
      && (value != "" ==> position.Some? && |value| <= |s| - position.value - 1)
  {
  }

  /** Without a number there is no colon behind the name, and what is read for the method is too short. */
  lemma CSeqWithoutNumber(init: seq<Field>, name: string, method_: string)
    requires |init| == 3 && Clean(name) && ':' !in name && Clean(method_) && method_ != ""
    ensures ParseFrom(name + [SPACE] + method_, 0, Some(0), CSeqTable, init) != Done([Text(name), Number(0), Text(method_)])
  {
    var s, table := name + [SPACE] + method_, CSeqTable;
    var (v0, e0) := Element(s, Some(0), table[0]);
    var (v1, e1) := Element(s, e0, table[1]);
    var v2 := Element(s, e1, table[2]).0;
    assert e0.Some? ==> e0.value > |name|;
    ElementBound(s, e0, table[1]);
    ElementBound(s, e1, table[2]);
    if ParseFrom(s, 0, Some(0), table, init).Done? {
      ThreeSteps(s, table, init);
      ParsedIsBare(v2);
    }
  }

  /** Theorem: a CSeq header is read back exactly when it has a number and a method. */
  lemma CSeqRoundTrip(init: seq<Field>, name: string, number: int, method_: string)
    requires |init| == 3 && Clean(name) && name != "" && ':' !in name && IsInt32(number) && Clean(method_)
    ensures var h := [Text(name), Number(number), Text(method_)];
      ParseWith(PrintFrom(CSeqTable, h, 0), CSeqTable, init) == Done(h) <==> number != 0 && method_ != ""
  {
    if number != 0 {
      CSeqWithNumber(init, name, number, method_);
    } else if method_ != "" {
      PrintedWithoutNumber(name, method_);
      CSeqWithoutNumber(init, name, method_);
    } else {
      TextShown(EMPTY, ':', false, name, init[0]);
      NumberSilent(':', SPACE, init[1]);
      TextSilent(SPACE, EMPTY, false, init[2]);
      RoundTrip(CSeqTable, init, [Text(name), Number(0), Text("")], [name, "", ""], 1);
    }
  }

  // ---------- Headers that are a number ----------

  function NumberHeaderTable(nameMandatory: bool, numberMandatory: bool): seq<Pattern<Field>> {
    [TextLine(EMPTY, ':', nameMandatory), NumberLine(':', EMPTY, numberMandatory)]
  }

  const ContentLengthTable := NumberHeaderTable(true, true)
  const MaxForwardsTable := NumberHeaderTable(false, false)
  const ExpiresTable := NumberHeaderTable(false, false)

  /** Theorem: a header that is a number is read back exactly when the number is not 0 or one of its lines is mandatory. */
  lemma NumberHeaderRoundTrip(nameMandatory: bool, numberMandatory: bool, init: seq<Field>, name: string, number: int)
    requires |init| == 2 && Clean(name) && name != "" && ':' !in name && IsInt32(number)
    ensures var table, h := NumberHeaderTable(nameMandatory, numberMandatory), [Text(name), Number(number)];
      ParseWith(PrintFrom(table, h, 0), table, init) == Done(h) <==> number != 0 || numberMandatory || nameMandatory
  {
    var table, h := NumberHeaderTable(nameMandatory, numberMandatory), [Text(name), Number(number)];
    TextShown(EMPTY, ':', nameMandatory, name, init[0]);
    if number != 0 || numberMandatory {
      NumberShown(':', EMPTY, numberMandatory, number, init[1]);
      RoundTrip(table, init, h, [name, Decimal(number)], 2);
    } else {
      NumberSilent(':', EMPTY, init[1]);
      RoundTrip(table, init, h, [name, ""], 1);
    }
  }

  /** Theorem: Content-Length is read back with every number, 0 included; Max-Forwards and Expires lose their name with 0. */
  lemma NumberHeaders(init: seq<Field>, name: string, number: int)
    requires |init| == 2 && Clean(name) && name != "" && ':' !in name && IsInt32(number)
    ensures var h := [Text(name), Number(number)];
      && ParseWith(PrintFrom(ContentLengthTable, h, 0), ContentLengthTable, init) == Done(h)
      && (ParseWith(PrintFrom(MaxForwardsTable, h, 0), MaxForwardsTable, init) == Done(h) <==> number != 0)
      && (ParseWith(PrintFrom(ExpiresTable, h, 0), ExpiresTable, init) == Done(h) <==> number != 0)
  {
    NumberHeaderRoundTrip(true, true, init, name, number);
    NumberHeaderRoundTrip(false, false, init, name, number);
  }

  // ---------- Parameters ----------

  const ParameterTable := [TextLine(EMPTY, '=', true), TextLine('=', EMPTY, false)]

  const NewParameter: seq<Field> := [Text(""), Text("")]

  function FieldsOf(p: Parameter): (r: seq<Field>)
    ensures |r| == 2
  {
    [Text(p.name), Text(p.value)]
  }

  /** ParseParameter, None where its outcome is not defined. */
  function ParseParameter(s: string): Option<Parameter> {
    match ParseWith(s, ParameterTable, NewParameter)
    case Done(f) => if |f| == 2 && f[0].Text? && f[1].Text? then Some(Parameter(f[0].text, f[1].text)) else None
    case _ => None
  }

  function PrintParameter(p: Parameter): string { PrintFrom(ParameterTable, FieldsOf(p), 0) }

  predicate CleanParameter(p: Parameter) {
    Clean(p.name) && p.name != "" && '=' !in p.name && Clean(p.value)
  }

  /** Theorem: a parameter is read back, with a value or without. */
  lemma ParameterRoundTrip(p: Parameter)
    requires CleanParameter(p)
    ensures ParseParameter(PrintParameter(p)) == Some(p)
  {
    TextShown(EMPTY, '=', true, p.name, Text(""));
    if p.value != "" {
      TextShown('=', EMPTY, false, p.value, Text(""));
      RoundTrip(ParameterTable, NewParameter, FieldsOf(p), [p.name, p.value], 2);
    } else {
      TextSilent('=', EMPTY, false, Text(""));
      RoundTrip(ParameterTable, NewParameter, FieldsOf(p), [p.name, p.value], 1);
    }
  }

  lemma PrintedParameter(p: Parameter)
    ensures PrintParameter(p) == p.name + (if p.value == "" then "" else "=" + p.value)
  {
    assert PrintFrom(ParameterTable, FieldsOf(p), 2) == "";
    assert PrintFrom(ParameterTable, FieldsOf(p), 1) == (if p.value == "" then "" else "=" + p.value);
  }

  // ---------- Parameter lists ----------

  /** The length of the first token. */
  function TokenLength(s: string, sep: char): (n: nat)
    ensures n <= |s| && sep !in s[..n] && (n < |s| ==> s[n] == sep)
  {
    if s == "" || s[0] == sep then 0
    else
      var n := TokenLength(s[1..], sep) + 1;
      assert s[..n] == [s[0]] + s[1..][..n - 1];
      n
  }

  /** strtok: what stands between separators, without the empty ones. */
  function Tokens(s: string, sep: char): (r: seq<string>)
    ensures forall t | t in r :: t != "" && sep !in t && forall c | c in t :: c in s
    decreases |s|
  {
    if s == "" then []
    else if s[0] == sep then Tokens(s[1..], sep)
    else
      var n := TokenLength(s, sep);
      assert n > 0;
      [s[..n]] + Tokens(s[n..], sep)
  }

  /** What `read` makes of the tokens, appended to a list. */
  function ReadTokens<P>(read: string -> Option<P>, tokens: seq<string>, prior: seq<P>): Option<seq<P>>
    decreases tokens
  {
    if tokens == [] then Some(prior)
    else match read(tokens[0])
      case Some(p) => ReadTokens(read, tokens[1..], prior + [p])
      case None => None
  }

  function ListSeparator(s: string): char { if ';' in s then ';' else ',' }

  /** ParseParametersExt. */
  function ParseParameters(s: string, prior: seq<Parameter>): Option<seq<Parameter>> {
    ReadTokens(ParseParameter, Tokens(s, ListSeparator(s)), prior)
  }

  /** The parameters from `i` on, each behind its separator; the first one may have another. */
  function PrintParameters(first: char, sep: char, ps: seq<Parameter>): string
    decreases ps
  {
    if ps == [] then "" else [first] + PrintParameter(ps[0]) + PrintParameters(sep, sep, ps[1..])
  }

  function Texts(ps: seq<Parameter>): (r: seq<string>)
    ensures |r| == |ps|
  {
    seq(|ps|, k requires 0 <= k < |ps| => PrintParameter(ps[k]))
  }

  predicate Lacks(p: Parameter, c: char) { c !in p.name && c !in p.value }

  lemma {:induction false} TokenLengthIs(t: string, rest: string, sep: char)
    requires sep !in t && (rest == "" || rest[0] == sep)
    ensures TokenLength(t + rest, sep) == |t|
  {
    if t == "" {
      assert t + rest == rest;
    } else {
      assert t[0] in t && (t + rest)[1..] == t[1..] + rest;
      TokenLengthIs(t[1..], rest, sep);
    }
  }

  /** A text before a separator is the first token. */
  lemma FirstToken(t: string, rest: string, sep: char)
    requires t != "" && sep !in t && (rest == "" || rest[0] == sep)
    ensures Tokens(t + rest, sep) == [t] + Tokens(rest, sep)
  {
    TokenLengthIs(t, rest, sep);
    assert t[0] in t && (t + rest)[0] == t[0];
    assert (t + rest)[..|t|] == t && (t + rest)[|t|..] == rest;
  }

  lemma PrintedLacks(p: Parameter, c: char)
    requires c != '='
    ensures c !in PrintParameter(p) <==> Lacks(p, c)
  {
    PrintedParameter(p);
  }

  lemma TokenBehind(sep: char, t: string, rest: string)
    requires t != "" && sep !in t && (rest == "" || rest[0] == sep)
    ensures Tokens([sep] + t + rest, sep) == [t] + Tokens(rest, sep)
  {
    assert ([sep] + t + rest)[1..] == t + rest;
    FirstToken(t, rest, sep);
  }

  lemma PrintedToken(p: Parameter, sep: char)
    requires sep != '=' && p.name != "" && Lacks(p, sep)
    ensures PrintParameter(p) != "" && sep !in PrintParameter(p)
  {
    PrintedParameter(p);
    PrintedLacks(p, sep);
  }

  lemma {:induction false} TokensPrinted(sep: char, ps: seq<Parameter>)
    requires sep != '=' && forall p | p in ps :: CleanParameter(p) && Lacks(p, sep)
    ensures Tokens(PrintParameters(sep, sep, ps), sep) == Texts(ps)
  {
    if ps != [] {
      assert CleanParameter(ps[0]) && Lacks(ps[0], sep);
      PrintedToken(ps[0], sep);
      TokenBehind(sep, PrintParameter(ps[0]), PrintParameters(sep, sep, ps[1..]));
      TokensPrinted(sep, ps[1..]);
      assert Texts(ps) == [PrintParameter(ps[0])] + Texts(ps[1..]);
    }
  }

  lemma {:induction false} TextsRead<P>(read: string -> Option<P>, texts: seq<string>, ps: seq<P>, prior: seq<P>)
    requires |texts| == |ps| && forall k | 0 <= k < |ps| :: read(texts[k]) == Some(ps[k])
    ensures ReadTokens(read, texts, prior) == Some(prior + ps)
    decreases ps
  {
    if ps == [] {
      assert prior + ps == prior;
    } else {
      TextsRead(read, texts[1..], ps[1..], prior + [ps[0]]);
      assert prior + [ps[0]] + ps[1..] == prior + ps;
    }
  }

  /** What is read from a text has only the characters of the text. */
  lemma ParsedLacks(s: string, c: char)
    requires c !in s && ParseParameter(s).Some?
    ensures Lacks(ParseParameter(s).value, c)
  {
    FieldsLack(s[SkipSpaces(s, 0)..], c);
  }

  lemma FieldsLack(s: string, c: char)
    requires c !in s && ParseFrom(s, 0, Some(0), ParameterTable, NewParameter).Done?
    ensures var f := ParseFrom(s, 0, Some(0), ParameterTable, NewParameter).fields;
      (f[0].Text? ==> c !in f[0].text) && (f[1].Text? ==> c !in f[1].text)
  {
    var (v0, end0) := Element(s, Some(0), ParameterTable[0]);
    var (v1, end1) := Element(s, end0, ParameterTable[1]);
    ElementLacks(s, Some(0), ParameterTable[0], c);
    ElementLacks(s, end0, ParameterTable[1], c);
    TwoFields(s, ParameterTable, NewParameter);
    TextLacks(v0, c);
    TextLacks(v1, c);
  }

  lemma TextLacks(s: string, c: char)
    requires c !in s && ParsedString(s).Some?
    ensures c !in ParsedString(s).value
  {
  }

  lemma ElementLacks(s: string, position: Option<nat>, p: Pattern<Field>, c: char)
    requires c !in s && (position.Some? ==> position.value <= |s|)
    ensures c !in Element(s, position, p).0
  {
  }

  lemma TwoFields(s: string, table: seq<Pattern<Field>>, fields: seq<Field>)
    requires |table| == |fields| == 2 && ParseFrom(s, 0, Some(0), table, fields).Done?
    ensures var r, (v0, end0) := ParseFrom(s, 0, Some(0), table, fields).fields, Element(s, Some(0), table[0]);
      Some(r[0]) == table[0].parse(v0, fields[0]) && Some(r[1]) == table[1].parse(Element(s, end0, table[1]).0, fields[1])
  {
    var (v0, end0) := Element(s, Some(0), table[0]);
    var f0 := fields[0 := table[0].parse(v0, fields[0]).value];
    assert ParseFrom(s, 0, Some(0), table, fields) == ParseFrom(s, 1, end0, table, f0);
    var (v1, end1) := Element(s, end0, table[1]);
    assert ParseFrom(s, 1, end0, table, f0) == ParseFrom(s, 2, end1, table, f0[1 := table[1].parse(v1, fields[1]).value]);
  }

  lemma {:induction false} TokensRead<P>(read: string -> Option<P>, tokens: seq<string>, prior: seq<P>, q: P -> bool)
    requires ReadTokens(read, tokens, prior).Some?
    requires forall t | t in tokens :: read(t).Some? ==> q(read(t).value)
    ensures var r := ReadTokens(read, tokens, prior).value;
      prior <= r && forall k | |prior| <= k < |r| :: q(r[k])
    decreases tokens
  {
    if tokens != [] {
      TokensRead(read, tokens[1..], prior + [read(tokens[0]).value], q);
    }
  }

  lemma ParametersRead(ps: seq<Parameter>, prior: seq<Parameter>)
    requires forall p | p in ps :: CleanParameter(p)
    ensures ReadTokens(ParseParameter, Texts(ps), prior) == Some(prior + ps)
  {
    forall k | 0 <= k < |ps| ensures ParseParameter(Texts(ps)[k]) == Some(ps[k]) {
      ParameterRoundTrip(ps[k]);
    }
    TextsRead(ParseParameter, Texts(ps), ps, prior);
  }

  /** Theorem: a list of parameters is read back after what was there exactly when no name or value has the separator. */
  lemma ParametersRoundTrip(ps: seq<Parameter>, prior: seq<Parameter>)
    requires forall p | p in ps :: CleanParameter(p)
    ensures ParseParameters(PrintParameters(';', ';', ps), prior) == Some(prior + ps) <==> forall p | p in ps :: Lacks(p, ';')
  {
    var s := PrintParameters(';', ';', ps);
    assert if ps == [] then s == "" else s[0] == ';';
    if forall p | p in ps :: Lacks(p, ';') {
      TokensPrinted(';', ps);
      ParametersRead(ps, prior);
    }
    if ParseParameters(s, prior) == Some(prior + ps) && ps != [] {
      ReadLacks(s, ';', ';', prior);
      forall k | 0 <= k < |ps| ensures Lacks(ps[k], ';') {
        assert ps[k] == (prior + ps)[|prior| + k];
      }
    }
  }

  /** What is read from the tokens of a text lacks the separator, and whatever the text lacks. */
  lemma ReadLacks(s: string, sep: char, c: char, prior: seq<Parameter>)
    requires c == sep || c !in s
    requires ReadTokens(ParseParameter, Tokens(s, sep), prior).Some?
    ensures var r := ReadTokens(ParseParameter, Tokens(s, sep), prior).value;
      prior <= r && forall k | |prior| <= k < |r| :: Lacks(r[k], c)
  {
    forall t | t in Tokens(s, sep) && ParseParameter(t).Some? ensures Lacks(ParseParameter(t).value, c) {
      ParsedLacks(t, c);
    }
    TokensRead(ParseParameter, Tokens(s, sep), prior, (p: Parameter) => Lacks(p, c));
  }

  // ---------- Authentication headers ----------

  function ParseList(s: string, prior: Field): Option<Field> {
    match ParseParameters(s, if prior.List? then prior.list else [])
    case Some(ps) => Some(List(ps))
    case None => None
  }

  /** Parameters2String, with the separator it puts between parameters. */
  function ShowList(sep: char): (char, bool, Field) -> string {
    (start: char, mandatory: bool, v: Field) => if v.List? then PrintParameters(start, sep, v.list) else ""
  }

  function AuthTable(sep: char): seq<Pattern<Field>> {
    [TextLine(EMPTY, ':', false), TextLine(':', SPACE, false), Pattern(SPACE, EMPTY, false, ParseList, _ => true, ShowList(sep))]
  }

  const NewAuthHeader: seq<Field> := [Text(""), Text(""), List([])]

  function AuthFields(name: string, scheme: string, ps: seq<Parameter>): (r: seq<Field>)
    ensures |r| == 3
  {
    [Text(name), Text(scheme), List(ps)]
  }

  function Replace(s: string, c: char, d: char): (r: string)
    ensures |r| == |s| && forall j | 0 <= j < |s| :: r[j] == if s[j] == c then d else s[j]
  {
    seq(|s|, j requires 0 <= j < |s| => if s[j] == c then d else s[j])
  }

  /** AuthHeader2String: the header with every semicolon made a comma. */
  function PrintAuthHeader(name: string, scheme: string, ps: seq<Parameter>): string {
    Replace(PrintFrom(AuthTable(';'), AuthFields(name, scheme, ps), 0), ';', ',')
  }

  lemma ReplaceConcat(a: string, b: string, c: char, d: char)
    ensures Replace(a + b, c, d) == Replace(a, c, d) + Replace(b, c, d)
  {
  }

  lemma ReplaceNone(a: string, c: char, d: char)
    requires c !in a
    ensures Replace(a, c, d) == a
  {
  }

  lemma {:induction false} ParametersReplaced(first: char, ps: seq<Parameter>)
    requires forall p | p in ps :: Lacks(p, ';')
    decreases ps
    ensures Replace(PrintParameters(first, ';', ps), ';', ',') == PrintParameters(if first == ';' then ',' else first, ',', ps)
  {
    if ps != [] {
      var t, rest := PrintParameter(ps[0]), PrintParameters(';', ';', ps[1..]);
      PrintedLacks(ps[0], ';');
      ReplaceNone(t, ';', ',');
      ReplaceConcat([first] + t, rest, ';', ',');
      ReplaceConcat([first], t, ';', ',');
      ParametersReplaced(';', ps[1..]);
    }
  }

  /** The text of a list behind its first separator. */
  function ListText(sep: char, ps: seq<Parameter>): string
    requires ps != []
  {
    PrintParameter(ps[0]) + PrintParameters(sep, sep, ps[1..])
  }

  lemma {:induction false} PrintedList(first: char, sep: char, ps: seq<Parameter>, c: char)
    requires (forall p | p in ps :: Lacks(p, c)) && c != '=' && c != sep && c != first
    ensures c !in PrintParameters(first, sep, ps)
    decreases ps
  {
    if ps != [] {
      PrintedLacks(ps[0], c);
      PrintedList(sep, sep, ps[1..], c);
    }
  }

  lemma ListTextLacks(ps: seq<Parameter>, c: char)
    requires ps != [] && (forall p | p in ps :: Lacks(p, c)) && c != '=' && c != ','
    ensures c !in ListText(',', ps)
  {
    PrintedLacks(ps[0], c);
    PrintedList(',', ',', ps[1..], c);
  }

  /** A parameter that may stand in an authentication header. */
  predicate AuthParameter(p: Parameter) { CleanParameter(p) && Lacks(p, ';') && Lacks(p, ',') }

  lemma ListTextRead(ps: seq<Parameter>)
    requires ps != [] && forall p | p in ps :: AuthParameter(p)
    ensures ParseParameters(ListText(',', ps), []) == Some(ps)
  {
    ListTextTokens(ps);
    ListTextLacks(ps, ';');
    ParametersRead(ps, []);
    assert [] + ps == ps;
  }

  lemma ListTextTokens(ps: seq<Parameter>)
    requires ps != [] && forall p | p in ps :: CleanParameter(p) && Lacks(p, ',')
    ensures Tokens(ListText(',', ps), ',') == Texts(ps)
  {
    var t, rest := PrintParameter(ps[0]), PrintParameters(',', ',', ps[1..]);
    assert CleanParameter(ps[0]) && Lacks(ps[0], ',');
    PrintedToken(ps[0], ',');
    FirstToken(t, rest, ',');
    TokensPrinted(',', ps[1..]);
    assert Texts(ps) == [t] + Texts(ps[1..]);
  }

  lemma ListShown(ps: seq<Parameter>)
    requires ps != [] && (forall p | p in ps :: AuthParameter(p)) && |ListText(',', ps)| < MAX_ELEMENT_LENGTH
    ensures Shown(AuthTable(',')[2], List(ps), List([]), ListText(',', ps))
    ensures AuthTable(',')[2].parse("", List([])) != Some(List(ps))
  {
    ListTextPlain(ps);
    ListRead(ps);
  }

  lemma ListRead(ps: seq<Parameter>)
    requires ps != [] && (forall p | p in ps :: AuthParameter(p))
    ensures ParseList(ListText(',', ps), List([])) == Some(List(ps)) && ParseList("", List([])) == Some(List([]))
  {
    ListTextRead(ps);
    assert Tokens("", ',') == [];
  }

  lemma ListTextPlain(ps: seq<Parameter>)
    requires ps != [] && forall p | p in ps :: AuthParameter(p)
    ensures Plain(ListText(',', ps)) && ListText(',', ps) != "" && ListText(',', ps)[0] != SPACE
  {
    assert AuthParameter(ps[0]);
    PrintedParameter(ps[0]);
    forall p | p in ps ensures Lacks(p, EMPTY) {
      assert AuthParameter(p);
    }
    ListTextLacks(ps, EMPTY);
  }

  lemma AuthReplaced(name: string, scheme: string, ps: seq<Parameter>)
    requires ';' !in name && ';' !in scheme && forall p | p in ps :: Lacks(p, ';')
    ensures PrintAuthHeader(name, scheme, ps) == PrintFrom(AuthTable(','), AuthFields(name, scheme, ps), 0)
  {
    var list := PrintParameters(SPACE, ';', ps);
    var two := Lead(':') + scheme;
    var middle := if scheme == "" then "" else two;
    AuthPrinted(';', name, scheme, ps);
    AuthPrinted(',', name, scheme, ps);
    ReplaceConcat(name + middle, list, ';', ',');
    ReplaceNone(name + middle, ';', ',');
    ParametersReplaced(SPACE, ps);
  }

  lemma AuthPrinted(sep: char, name: string, scheme: string, ps: seq<Parameter>)
    ensures PrintFrom(AuthTable(sep), AuthFields(name, scheme, ps), 0)
         == name + (if scheme == "" then "" else Lead(':') + scheme) + PrintParameters(SPACE, sep, ps)
  {
    ThreeFields(AuthTable(sep), AuthFields(name, scheme, ps));
  }

  /** Reading does not depend on how a table prints. */
  lemma {:induction false} SameReading<V>(s: string, k: nat, position: Option<nat>, table: seq<Pattern<V>>, other: seq<Pattern<V>>, fields: seq<V>)
    requires k <= |table| == |other| == |fields| && (position.Some? ==> position.value <= |s|)
    requires forall j | 0 <= j < |table| :: table[j] == other[j].(show := table[j].show)
    ensures ParseFrom(s, k, position, table, fields) == ParseFrom(s, k, position, other, fields)
    decreases |table| - k
  {
    if k < |table| {
      var (value, end) := Element(s, position, table[k]);
      assert table[k] == other[k].(show := table[k].show);
      assert Element(s, position, other[k]) == (value, end);
      if table[k].legal(value) && table[k].parse(value, fields[k]).Some? {
        SameReading(s, k + 1, end, table, other, fields[k := table[k].parse(value, fields[k]).value]);
      }
    }
  }

  /** What the list of a text without a semicolon can be. */
  lemma ListLacks(t: string, ps: seq<Parameter>)
    requires ';' !in t && ParseList(t, List([])) == Some(List(ps))
    ensures forall p | p in ps :: Lacks(p, ';') && Lacks(p, ',')
  {
    ReadLacks(t, ',', ';', []);
    ReadLacks(t, ',', ',', []);
  }

  /** From any text without a semicolon, only parameters without either separator are read. */
  lemma ReadAuthLacks(s: string, h: seq<Field>, ps: seq<Parameter>)
    requires |h| == 3 && h[2] == List(ps) && ';' !in s && ParseFrom(s, 0, Some(0), AuthTable(','), NewAuthHeader) == Done(h)
    ensures forall p | p in ps :: Lacks(p, ';') && Lacks(p, ',')
  {
    var table := AuthTable(',');
    var (v0, end0) := Element(s, Some(0), table[0]);
    var (v1, end1) := Element(s, end0, table[1]);
    ThreeSteps(s, table, NewAuthHeader);
    ElementLacks(s, end1, table[2], ';');
    ListLacks(Element(s, end1, table[2]).0, ps);
  }

  /** A header with both separators. */
  function AuthText(name: string, scheme: string, t: string): (r: string)
    ensures |r| == |name| + 1 + |scheme| + 1 + |t|
  {
    name + ([':'] + (scheme + ([SPACE] + t)))
  }

  /** A third element of 256 characters or more is read as empty text. */
  lemma LongElements(s: string, p: Pattern<Field>, q: Pattern<Field>, last: Pattern<Field>, name: string, scheme: string, t: string)
    requires p.start == EMPTY && q.start != EMPTY && last.start != EMPTY && p.end == q.start && q.end == last.start && last.end == EMPTY
    requires p.end != ANY && q.end != ANY && Plain(s) && s == name + ([q.start] + (scheme + ([last.start] + t)))
    requires 0 < |name| < MAX_ELEMENT_LENGTH && name[0] != SPACE && p.end !in name
    requires 0 < |scheme| < MAX_ELEMENT_LENGTH && scheme[0] != SPACE && q.end !in scheme
    requires |t| >= MAX_ELEMENT_LENGTH && t[0] != SPACE
    ensures Element(s, Some(0), p) == (name, Some(|name|))
    ensures Element(s, Some(|name|), q) == (scheme, Some(|name| + 1 + |scheme|))
    ensures Element(s, Some(|name| + 1 + |scheme|), last).0 == ""
  {
    var rest := [last.start] + t;
    var after := [q.start] + (scheme + rest);
    assert |s| == |name| + |after| && |after| == 1 + |scheme| + |rest|;
    assert s[0..] == name + after;
    ElementBehind(s, 0, p, name, after);
    ElementBehind(s, |name|, q, scheme, rest);
    LastTooLong(s, |name| + 1 + |scheme|, last, t);
  }

  /** A text behind its start separator, and before its end separator. */
  lemma ElementBehind(s: string, pos: nat, p: Pattern<Field>, t: string, rest: string)
    requires Plain(s) && pos <= |s| && (p.start == EMPTY <==> pos == 0)
    requires s[pos..] == if pos == 0 then t + rest else [p.start] + (t + rest)
    requires 0 < |t| < MAX_ELEMENT_LENGTH && t[0] != SPACE && p.end !in t && p.end != ANY && rest != "" && rest[0] == p.end
    ensures Element(s, Some(pos), p) == (t, Some(SkipLeading(pos) + |t|)) && s[SkipLeading(pos) + |t|..] == rest
  {
    Behind(s, pos, p.start, t + rest);
    ElementIs(s, pos, p, t, rest);
    assert s[SkipLeading(pos)..][|t|..] == rest;
  }

  lemma LongListLost(name: string, scheme: string, ps: seq<Parameter>, t: string)
    requires Clean(name) && name != "" && ':' !in name
    requires Clean(scheme) && scheme != "" && SPACE !in scheme
    requires Plain(t) && |t| >= MAX_ELEMENT_LENGTH && t[0] != SPACE && ps != []
    ensures ParseFrom(AuthText(name, scheme, t), 0, Some(0), AuthTable(','), NewAuthHeader)
         != Done(AuthFields(name, scheme, ps))
  {
    var s := AuthText(name, scheme, t);
    var table := AuthTable(',');
    LongElements(s, table[0], table[1], table[2], name, scheme, t);
    assert Tokens("", ',') == [] && ParseList("", List([])) == Some(List([]));
    if ParseFrom(s, 0, Some(0), AuthTable(','), NewAuthHeader).Done? {
      ThreeSteps(s, AuthTable(','), NewAuthHeader);
    }
  }

  /** A last element of 256 characters or more is read as empty text. */
  lemma LastTooLong(s: string, pos: nat, p: Pattern<Field>, t: string)
    requires Plain(s) && 0 < pos <= |s| && s[pos..] == [p.start] + t && p.start != EMPTY && p.end == EMPTY
    requires |t| >= MAX_ELEMENT_LENGTH && t[0] != SPACE
    ensures Element(s, Some(pos), p).0 == ""
  {
    Behind(s, pos, p.start, t);
    assert s[pos + 1] == t[0];
    FindCharIs(s, pos + 1, EMPTY, |s|);
  }

  /**
  Theorem: an authentication header, printed with commas, is read back exactly when it has a parameter, none of its
  parameters holds a semicolon or a comma, and the text of its list is shorter than 256 characters.
  */
  lemma AuthRoundTrip(name: string, scheme: string, ps: seq<Parameter>)
    requires Clean(name) && name != "" && ':' !in name && ';' !in name
    requires Clean(scheme) && scheme != "" && SPACE !in scheme && ';' !in scheme
    requires forall p | p in ps :: CleanParameter(p)
    ensures ParseWith(PrintAuthHeader(name, scheme, ps), AuthTable(';'), NewAuthHeader) == Done(AuthFields(name, scheme, ps))
       <==> ps != [] && (forall p | p in ps :: Lacks(p, ';') && Lacks(p, ',')) && |ListText(',', ps)| < 256
  {
    var h, s := AuthFields(name, scheme, ps), PrintAuthHeader(name, scheme, ps);
    var start := SkipSpaces(s, 0);
    SameReading(s[start..], 0, Some(0), AuthTable(';'), AuthTable(','), NewAuthHeader);
    if forall p | p in ps :: Lacks(p, ';') && Lacks(p, ',') {
      AuthReplaced(name, scheme, ps);
      AuthRead(name, scheme, ps);
    } else if ParseFrom(s[start..], 0, Some(0), AuthTable(','), NewAuthHeader) == Done(h) {
      ReadAuthLacks(s[start..], h, ps);
    }
  }

  lemma AuthRead(name: string, scheme: string, ps: seq<Parameter>)
    requires Clean(name) && name != "" && ':' !in name
    requires Clean(scheme) && scheme != "" && SPACE !in scheme
    requires forall p | p in ps :: AuthParameter(p)
    ensures var h := AuthFields(name, scheme, ps);
      ParseWith(PrintFrom(AuthTable(','), h, 0), AuthTable(','), NewAuthHeader) == Done(h) <==> ps != [] && |ListText(',', ps)| < MAX_ELEMENT_LENGTH
  {
    if ps != [] && |ListText(',', ps)| >= MAX_ELEMENT_LENGTH {
      AuthReadLong(name, scheme, ps);
    } else {
      AuthReadShort(name, scheme, ps);
    }
  }

  lemma AuthReadShort(name: string, scheme: string, ps: seq<Parameter>)
    requires Clean(name) && name != "" && ':' !in name
    requires Clean(scheme) && scheme != "" && SPACE !in scheme
    requires forall p | p in ps :: AuthParameter(p)
    requires ps != [] ==> |ListText(',', ps)| < MAX_ELEMENT_LENGTH
    ensures var h := AuthFields(name, scheme, ps);
      ParseWith(PrintFrom(AuthTable(','), h, 0), AuthTable(','), NewAuthHeader) == Done(h) <==> ps != []
  {
    var h := AuthFields(name, scheme, ps);
    TextShown(EMPTY, ':', false, name, Text(""));
    TextShown(':', SPACE, false, scheme, Text(""));
    if ps != [] {
      ListShown(ps);
      RoundTrip(AuthTable(','), NewAuthHeader, h, [name, scheme, ListText(',', ps)], 3);
    } else {
      RoundTrip(AuthTable(','), NewAuthHeader, h, [name, scheme, ""], 2);
    }
  }

  lemma AuthReadLong(name: string, scheme: string, ps: seq<Parameter>)
    requires Clean(name) && name != "" && ':' !in name
    requires Clean(scheme) && scheme != "" && SPACE !in scheme
    requires ps != [] && (forall p | p in ps :: AuthParameter(p)) && |ListText(',', ps)| >= MAX_ELEMENT_LENGTH
    ensures ParseWith(PrintFrom(AuthTable(','), AuthFields(name, scheme, ps), 0), AuthTable(','), NewAuthHeader)
         != Done(AuthFields(name, scheme, ps))
  {
    var s, t := PrintFrom(AuthTable(','), AuthFields(name, scheme, ps), 0), ListText(',', ps);
    ListTextPlain(ps);
    LongListLost(name, scheme, ps, t);
    AuthPrintedList(name, scheme, ps);
    assert s[0] == name[0] && s[0..] == s;
  }

  lemma AuthPrintedList(name: string, scheme: string, ps: seq<Parameter>)
    requires scheme != "" && ps != []
    ensures PrintFrom(AuthTable(','), AuthFields(name, scheme, ps), 0) == AuthText(name, scheme, ListText(',', ps))
  {
    var t := ListText(',', ps);
    AuthPrinted(',', name, scheme, ps);
    assert PrintParameters(SPACE, ',', ps) == [SPACE] + t;
    assert name + (Lead(':') + scheme) + ([SPACE] + t) == AuthText(name, scheme, t);
  }
}
