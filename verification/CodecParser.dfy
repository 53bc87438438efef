/**
The loops of sip/Parser.c, sip/Parameter.c and sip/WWW_AuthenticationHeader.c, each against what CodecPattern,
CodecTables and CodecParameters say of it. A target structure is an array of its fields.
*/
module CodecParser {
  import opened Common
  import opened CodecText
  import opened CodecPattern
  import opened CodecTables
  import opened CodecParameters

  lemma {:induction false} SpacesSkipped(s: string, i: nat, j: nat)
    requires i <= j <= |s| && forall k | i <= k < j :: s[k] == SPACE
    ensures SkipSpaces(s, i) == SkipSpaces(s, j)
    decreases j - i
  {
    if i < j {
      SpacesSkipped(s, i + 1, j);
    }
  }

  lemma {:induction false} NoSeparators(s: string, i: nat, j: nat)
    requires i <= j <= |s| && forall k | i <= k < j :: !IsSeparator(s[k])
    ensures NextSeparator(s, i) == NextSeparator(s, j)
    decreases j - i
  {
    if i < j {
      NoSeparators(s, i + 1, j);
    }
  }

  method NextSeparatorFrom(s: string, i: nat) returns (pos: nat)
    requires i <= |s|
    ensures pos == NextSeparator(s, i)
  {
    var tokens := [' ', ';', ':', '@', '?', '"'];
    pos := i;
    while pos < |s|
      invariant i <= pos <= |s| && forall k | i <= k < pos :: !IsSeparator(s[k])
    {
      var t := 0;
      while t < |tokens|
        invariant 0 <= t <= |tokens| && forall u | 0 <= u < t :: s[pos] != tokens[u]
      {
        if s[pos] == tokens[t] {
          NoSeparators(s, i, pos);
          return;
        }
        t := t + 1;
      }
      assert !IsSeparator(s[pos]) by {
        assert s[pos] != tokens[0] && s[pos] != tokens[1] && s[pos] != tokens[2];
        assert s[pos] != tokens[3] && s[pos] != tokens[4] && s[pos] != tokens[5];
      }
      pos := pos + 1;
    }
    NoSeparators(s, i, pos);
  }

  method FindEndSeparator<V>(s: string, i: nat, p: Pattern<V>) returns (end: Option<nat>)
    requires i <= |s|
    ensures end == FindEnd(s, i, p)
  {
    var header := i;
    while At(s, header) == SPACE
      invariant i <= header <= |s| && forall k | i <= k < header :: s[k] == SPACE
      decreases |s| - header
    {
      header := header + 1;
    }
    SpacesSkipped(s, i, header);
    if p.end == ANY {
      var pos := NextSeparatorFrom(s, header);
      return Some(pos);
    }
    end := FindChar(s, header, p.end);
    if end.None? && p.mandatory {
      end := Some(|s|);
    }
  }

  method FindNextComponent<V>(s: string, position: Option<nat>, p: Pattern<V>) returns (end: Option<nat>)
    requires position.Some? ==> position.value <= |s|
    ensures end == if position.None? then None else NextComponent(s, position.value, p)
  {
    if position.None? {
      return None;
    }
    var header := position.value;
    if p.start == EMPTY {
      end := FindEndSeparator(s, header, p);
    } else if p.start == At(s, header) {
      end := FindEndSeparator(s, header + 1, p);
      if end.None? {
        end := Some(header);
      }
    } else {
      end := Some(header);
    }
  }

  /** ParseString; None where nothing is defined. */
  method ParseString(value: string) returns (target: Option<string>)
    ensures target == ParsedString(value)
  {
    var length := |value|;
    if length >= 128 {
      return None;
    }
    if length == 0 {
      return Some("");
    }
    var start, end := 0, length - 1;
    while value[start] == SPACE
      invariant 0 <= start < length && (start > 0 ==> start < end) && forall k | 0 <= k < start :: value[k] == SPACE
      decreases length - start
    {
      start := start + 1;
      if start >= end {
        SpacesSkipped(value, 0, start);
        return Some("");
      }
    }
    SpacesSkipped(value, 0, start);
    end := TrimTail(value, start);
    target := Some(value[start..end + 1]);
  }

  /** The loop of ParseString over the spaces at the end. */
  method TrimTail(value: string, start: nat) returns (end: nat)
    requires start < |value| && value[start] != SPACE
    ensures start <= end < |value| && value[start..end + 1] == TrimEnd(value[start..])
  {
    end := |value| - 1;
    assert value[start..end + 1] == value[start..];
    while value[end] == SPACE
      invariant start <= end < |value| && TrimEnd(value[start..end + 1]) == TrimEnd(value[start..])
      decreases end
    {
      assert value[start..end + 1][..end - start] == value[start..end];
      end := end - 1;
    }
  }

  lemma ParseTurn<V>(s: string, k: nat, position: Option<nat>, table: seq<Pattern<V>>, fields: seq<V>, value: string, end: Option<nat>)
    requires k < |table| == |fields| && (position.Some? ==> position.value <= |s|) && Element(s, position, table[k]) == (value, end)
    ensures ParseFrom(s, k, position, table, fields) ==
      if !table[k].legal(value) then Illegal(fields)
      else match table[k].parse(value, fields[k])
        case None => Undefined
        case Some(v) => ParseFrom(s, k + 1, end, table, fields[k := v])
  {
  }

  /** Parse: the fields of `target` are set in place. None where the outcome is not defined. */
  method Parse<V>(str: string, target: array<V>, table: seq<Pattern<V>>) returns (result: Option<int>)
    requires target.Length == |table|
    modifies target
    ensures match ParseWith(str, table, old(target[..]))
      case Done(f) => result == Some(0) && target[..] == f
      case Illegal(f) => result == Some(-1) && target[..] == f
      case Undefined => result == None
  {
    var from := 0;
    while At(str, from) == SPACE
      invariant 0 <= from <= |str| && forall k | 0 <= k < from :: str[k] == SPACE
      decreases |str| - from
    {
      from := from + 1;
    }
    SpacesSkipped(str, 0, from);
    var s := str[from..];
    var position: Option<nat> := Some(0);
    var k := 0;
    ghost var r := ParseWith(str, table, target[..]);
    while k < |table|
      invariant 0 <= k <= |table| && (position.Some? ==> position.value <= |s|)
      invariant ParseFrom(s, k, position, table, target[..]) == r
    {
      var end := FindNextComponent(s, position, table[k]);
      var value := "";
      if position.Some? && end.Some? {
        var start := SkipLeading(position.value);
        if start < end.value && end.value - start < MAX_ELEMENT_LENGTH {
          value := s[start..end.value];
        }
      }
      ParseTurn(s, k, position, table, target[..], value, end);
      if !table[k].legal(value) {
        return Some(-1);
      }
      var v := table[k].parse(value, target[k]);
      if v.None? {
        return None;
      }
      ghost var fields := target[..];
      target[k] := v.value;
      assert target[..] == fields[k := v.value];
      position := end;
      k := k + 1;
    }
    result := Some(0);
  }

  method ToString<V>(table: seq<Pattern<V>>, fields: seq<V>) returns (s: string)
    requires |table| == |fields|
    ensures s == PrintFrom(table, fields, 0)
  {
    s := "";
    var k := 0;
    while k < |table|
      invariant 0 <= k <= |table| && s + PrintFrom(table, fields, k) == PrintFrom(table, fields, 0)
    {
      s := s + table[k].show(table[k].start, table[k].mandatory, fields[k]);
      k := k + 1;
    }
  }

  // ---------- Parameters ----------

  /** struct Parameters. */
  class Parameters {
    var parameters: seq<Parameter>

    constructor ()
      ensures parameters == []
    {
      parameters := [];
    }

    method AddParameter(name: string, value: string)
      requires Storable(name, value)
      modifies this
      ensures parameters == Added(old(parameters), name, value)
    {
      var at: Option<nat> := None;
      var i := 0;
      while i < |parameters|
        invariant 0 <= i <= |parameters| && at == LastIndex(parameters[..i], name)
      {
        assert parameters[..i + 1][..i] == parameters[..i];
        if parameters[i].name == name {
          at := Some(i);
        }
        i := i + 1;
      }
      assert parameters[..i] == parameters;
      if at.None? {
        parameters := parameters + [Parameter("", "")];
        at := Some(|parameters| - 1);
      }
      var name1 := ParseString(name);
      var value1 := ParseString(value);
      parameters := parameters[at.value := Parameter(name1.value, value1.value)];
    }

    method GetParameter(name: string) returns (value: Option<string>)
      ensures value == Get(parameters, name)
    {
      var i := 0;
      while i < |parameters|
        invariant 0 <= i <= |parameters| && Get(parameters, name) == Get(parameters[i..], name)
      {
        if parameters[i].name == name {
          return Some(parameters[i].value);
        }
        assert parameters[i..][1..] == parameters[i + 1..];
        i := i + 1;
      }
      return None;
    }

    /** ParametersMatched. */
    method Matches(other: Parameters) returns (r: bool)
      ensures r == Matched(parameters, other.parameters) && (r <==> parameters == other.parameters)
    {
      MatchedIsEqual(parameters, other.parameters);
      if |parameters| != |other.parameters| {
        return false;
      }
      var i := 0;
      while i < |parameters|
        invariant 0 <= i <= |parameters|
        invariant forall k | 0 <= k < i :: parameters[k].name == other.parameters[k].name && parameters[k].value == other.parameters[k].value
      {
        if parameters[i].name != other.parameters[i].name || parameters[i].value != other.parameters[i].value {
          return false;
        }
        i := i + 1;
      }
      return true;
    }

    /** ParametersDup. */
    method Dup() returns (dest: Parameters)
      requires forall p | p in parameters :: Storable(p.name, p.value)
      ensures fresh(dest) && dest.parameters == Adds(parameters)
    {
      dest := new Parameters();
      var i := 0;
      while i < |parameters|
        invariant 0 <= i <= |parameters| && fresh(dest) && dest.parameters == Adds(parameters[..i])
      {
        assert parameters[..i + 1][..i] == parameters[..i];
        dest.AddParameter(parameters[i].name, parameters[i].value);
        i := i + 1;
      }
      assert parameters[..i] == parameters;
    }

    /** ParseParametersExt; false where the outcome is not defined. */
    method ParseParametersExt(s: string) returns (ok: bool)
      modifies this
      ensures match ParseParameters(s, old(parameters))
        case Some(ps) => ok && parameters == ps
        case None => !ok
    {
      var separator := if ';' in s then ';' else ',';
      var tokens := Tokens(s, separator);
      ghost var r := ParseParameters(s, parameters);
      while tokens != []
        invariant ReadTokens(ParseParameter, tokens, parameters) == r
        decreases |tokens|
      {
        var target := new Field[2][Text(""), Text("")];
        assert target[..] == NewParameter;
        var done := Parse(tokens[0], target, ParameterTable);
        if done != Some(0) || !target[0].Text? || !target[1].Text? {
          return false;
        }
        parameters := parameters + [Parameter(target[0].text, target[1].text)];
        tokens := tokens[1..];
      }
      ok := true;
    }

    /** Parameters2StringExt, with the start separator of its pattern, if it has one. */
    method ToText(start: Option<char>) returns (text: string)
      ensures text == PrintParameters(match start case Some(c) => c case None => ';', ';', parameters)
    {
      text := "";
      var i := 0;
      ghost var first := match start case Some(c) => c case None => ';';
      ghost var whole := PrintParameters(first, ';', parameters);
      while i < |parameters|
        invariant 0 <= i <= |parameters|
        invariant text + PrintParameters(if i == 0 then first else ';', ';', parameters[i..]) == whole
      {
        var separator := if i == 0 && start.Some? then start.value else ';';
        var one := ToString(ParameterTable, FieldsOf(parameters[i]));
        PrintedNext(separator, parameters, i, one, text, whole);
        text := text + [separator];
        text := text + one;
        i := i + 1;
      }
    }

    static lemma PrintedNext(separator: char, ps: seq<Parameter>, i: nat, one: string, text: string, whole: string)
      requires i < |ps| && one == PrintParameter(ps[i])
      requires text + PrintParameters(separator, ';', ps[i..]) == whole
      ensures text + [separator] + one + PrintParameters(';', ';', ps[i + 1..]) == whole
    {
      assert ps[i..][1..] == ps[i + 1..];
      assert PrintParameters(separator, ';', ps[i..]) == [separator] + PrintParameter(ps[i]) + PrintParameters(';', ';', ps[i + 1..]);
    }

    method Clear()
      modifies this
      ensures parameters == []
    {
      var length := |parameters|;
      var i := 0;
      while i < length
        invariant 0 <= i <= length && |parameters| == length - i
      {
        parameters := parameters[1..];
        i := i + 1;
      }
    }
  }

  // ---------- Authentication headers ----------

  method AuthHeader2String(name: string, scheme: string, ps: seq<Parameter>) returns (result: string)
    ensures result == PrintAuthHeader(name, scheme, ps)
  {
    var printed := ToString(AuthTable(';'), AuthFields(name, scheme, ps));
    result := printed;
    var i := 0;
    while i < |result|
      invariant 0 <= i <= |result| == |printed|
      invariant forall j | 0 <= j < i :: result[j] == if printed[j] == ';' then ',' else printed[j]
      invariant forall j | i <= j < |result| :: result[j] == printed[j]
    {
      if result[i] == ';' {
        result := result[i := ','];
      }
      i := i + 1;
    }
  }
}
