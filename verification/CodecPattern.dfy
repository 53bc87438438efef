/**
The pattern tables of sip/Parser.c: what one table prints for a header and what it reads from a string, and when reading
undoes printing. The fields of a header are in the order of its table.
*/
module CodecPattern {
  import opened Common
  import opened CodecText

  /**
  A line of a table whose format is "*". `parse` stores a value over an old one and is None when its outcome is not
  defined; `show` has the start separator and the mandatory flag of the line. No legality test is one that always holds.
  */
  datatype Pattern<!V> = Pattern(
    start: char,
    end: char,
    mandatory: bool,
    parse: (string, V) -> Option<V>,
    legal: string -> bool,
    show: (char, bool, V) -> string)

  /** Parse returns 0, or -1 at a value that is not legal, or has no defined outcome; the fields are as it leaves them. */
  datatype Outcome<+V> = Done(fields: seq<V>) | Illegal(fields: seq<V>) | Undefined

  const MAX_ELEMENT_LENGTH := 256

  // ---------- Reading ----------

  /** FindEndSeparator. */
  function FindEnd<V>(s: string, i: nat, p: Pattern<V>): (r: Option<nat>)
    requires i <= |s|
    ensures r.Some? ==> i <= r.value <= |s|
  {
    var j := SkipSpaces(s, i);
    if p.end == ANY then Some(NextSeparator(s, j))
    else match FindChar(s, j, p.end)
      case Some(e) => Some(e)
      case None => if p.mandatory then Some(|s|) else None
  }

  /** FindNextComponent, from a position that is not NULL. */
  function NextComponent<V>(s: string, at: nat, p: Pattern<V>): (r: Option<nat>)
    requires at <= |s|
    ensures r.Some? ==> at <= r.value <= |s|
  {
    if p.start == EMPTY then FindEnd(s, at, p)
    else if At(s, at) == p.start then
      // A start separator is not the NUL, so there is a character to skip.
      match FindEnd(s, at + 1, p)
      case Some(e) => Some(e)
      case None => Some(at)
    else Some(at)
  }

  /** The separator at a position is skipped, except at the start of the string. */
  function SkipLeading(position: nat): nat { if position == 0 then 0 else position + 1 }

  /** The characters from `start` to `end`, if there are at least one and fewer than 256 of them. */
  function Component(s: string, start: nat, end: nat): (r: string)
    requires end <= |s|
  {
    if start < end < start + MAX_ELEMENT_LENGTH then s[start..end] else ""
  }

  /** The text of the component at `position`; nothing follows the position NULL. */
  function Element<V>(s: string, position: Option<nat>, p: Pattern<V>): (r: (string, Option<nat>))
    requires position.Some? ==> position.value <= |s|
    ensures r.1.Some? ==> r.1.value <= |s|
  {
    if position.None? then ("", None)
    else
      var end := NextComponent(s, position.value, p);
      (if end.None? then "" else Component(s, SkipLeading(position.value), end.value), end)
  }

  /** The loop of Parse from line `k` of the table on. */
  function ParseFrom<V>(s: string, k: nat, position: Option<nat>, table: seq<Pattern<V>>, fields: seq<V>): (r: Outcome<V>)
    requires k <= |table| == |fields| && (position.Some? ==> position.value <= |s|)
    ensures !r.Undefined? ==> |r.fields| == |fields| && r.fields[..k] == fields[..k]
    decreases |table| - k
  {
    if k == |table| then Done(fields)
    else
      var (value, end) := Element(s, position, table[k]);
      if !table[k].legal(value) then Illegal(fields)
      else match table[k].parse(value, fields[k])
        case None => Undefined
        case Some(v) =>
          var r := ParseFrom(s, k + 1, end, table, fields[k := v]);
          assert r.Undefined? || r.fields[..k] == r.fields[..k + 1][..k];
          r
  }

  /** Parse. */
  function ParseWith<V>(s: string, table: seq<Pattern<V>>, fields: seq<V>): (r: Outcome<V>)
    requires |table| == |fields|
    ensures !r.Undefined? ==> |r.fields| == |fields|
  {
    ParseFrom(s[SkipSpaces(s, 0)..], 0, Some(0), table, fields)
  }

  // ---------- Printing ----------

  function PrintOne<V>(p: Pattern<V>, v: V): string { p.show(p.start, p.mandatory, v) }

  /** ToString for the lines from `k` on. */
  function PrintFrom<V>(table: seq<Pattern<V>>, fields: seq<V>, k: nat): string
    requires k <= |table| == |fields|
    decreases |table| - k
  {
    if k == |table| then "" else PrintOne(table[k], fields[k]) + PrintFrom(table, fields, k + 1)
  }

  // ---------- Round trip ----------

  /** A table in which every element ends where the next starts; the last ends with the string. */
  ghost predicate Chain<V>(table: seq<Pattern<V>>) {
    && |table| > 0 && table[0].start == EMPTY && table[|table| - 1].end == EMPTY
    && forall k | 0 < k < |table| :: table[k].start == table[k - 1].end && table[k].start != EMPTY && table[k].start != ANY
  }

  /** The value is printed as the text `t` behind its separator; the text ends at the end separator and denotes the value. */
  ghost predicate Shown<V>(p: Pattern<V>, v: V, prior: V, t: string) {
    && PrintOne(p, v) == (if p.start == EMPTY then "" else [p.start]) + t
    && 0 < |t| < MAX_ELEMENT_LENGTH && Plain(t) && t[0] != SPACE && p.end !in t
    && p.legal(t) && p.parse(t, prior) == Some(v)
  }

  /** The value is printed as nothing, which denotes it. */
  ghost predicate Silent<V>(p: Pattern<V>, v: V, prior: V) {
    PrintOne(p, v) == "" && p.legal("") && p.parse("", prior) == Some(v)
  }

  /** A header whose first `m` fields are shown and whose others are silent. `init` is the header that Parse is given. */
  ghost predicate Regular<V(!new)>(table: seq<Pattern<V>>, init: seq<V>, fields: seq<V>, texts: seq<string>, m: nat) {
    && Chain(table) && |init| == |fields| == |texts| == |table| && 0 < m <= |table|
    && (forall k | 0 <= k < m :: Shown(table[k], fields[k], init[k], texts[k]))
    && (forall k | m <= k < |table| :: Silent(table[k], fields[k], init[k]))
  }

  /** Empty text denotes the value too. */
  predicate EmptyDenotes<V(==)>(p: Pattern<V>, v: V, prior: V) {
    p.legal("") && p.parse("", prior) == Some(v)
  }

  /** A later line starts with the separator of the last line that is shown. */
  predicate Repeats<V>(table: seq<Pattern<V>>, m: nat)
    requires 0 < m <= |table|
  {
    m > 1 && exists k :: m <= k < |table| && table[k].start == table[m - 1].start
  }

  lemma {:induction false} FindCharIs(s: string, i: nat, c: char, n: nat)
    requires i <= n <= |s| && c !in s[i..n] && At(s, n) == c && Plain(s)
    ensures FindChar(s, i, c) == Some(n)
    decreases n - i
  {
    if i < n {
      assert s[i] == s[i..n][0];
      FindCharIs(s, i + 1, c, n);
    }
  }

  lemma {:induction false} FindCharNone(s: string, i: nat, c: char)
    requires i <= |s| && c !in s[i..] && c != EMPTY
    ensures FindChar(s, i, c) == None
    decreases |s| - i
  {
    if i < |s| {
      assert s[i] == s[i..][0];
      FindCharNone(s, i + 1, c);
    }
  }

  /** A text up to its end separator is the component that is read. */
  lemma ElementIs<V>(s: string, pos: nat, p: Pattern<V>, t: string, rest: string)
    requires Plain(s) && pos < |s| && s[SkipLeading(pos)..] == t + rest
    requires if p.start == EMPTY then pos == 0 else pos > 0 && s[pos] == p.start
    requires 0 < |t| < MAX_ELEMENT_LENGTH && t[0] != SPACE && p.end !in t && p.end != ANY
    requires if rest == "" then p.end == EMPTY || p.mandatory else rest[0] == p.end
    ensures Element(s, Some(pos), p) == (t, Some(SkipLeading(pos) + |t|))
  {
    var i := SkipLeading(pos);
    assert s[i] == s[i..][0] == t[0];
    assert s[i..i + |t|] == t;
    if rest != "" {
      assert s[i + |t|] == s[i..][|t|] == rest[0];
      FindCharIs(s, i, p.end, i + |t|);
    } else if p.end == EMPTY {
      FindCharIs(s, i, p.end, i + |t|);
    } else {
      FindCharNone(s, i, p.end);
    }
  }

  lemma {:induction false} SilentRest<V(!new)>(table: seq<Pattern<V>>, init: seq<V>, fields: seq<V>, texts: seq<string>, m: nat, k: nat)
    requires Regular(table, init, fields, texts, m) && m <= k <= |table|
    ensures PrintFrom(table, fields, k) == ""
    decreases |table| - k
  {
    if k < |table| {
      assert Silent(table[k], fields[k], init[k]);
      SilentRest(table, init, fields, texts, m, k + 1);
    }
  }

  /** What follows the text of line `k` starts with the end separator of the line. */
  lemma RestStarts<V(!new)>(table: seq<Pattern<V>>, init: seq<V>, fields: seq<V>, texts: seq<string>, m: nat, k: nat)
    requires Regular(table, init, fields, texts, m) && k < m
    ensures var rest := PrintFrom(table, fields, k + 1);
      && PrintFrom(table, fields, k) == (if k == 0 then "" else [table[k].start]) + texts[k] + rest
      && (k + 1 < m ==> rest != "" && rest[0] == table[k].end)
      && (k + 1 == m ==> rest == "")
  {
    assert Shown(table[k], fields[k], init[k], texts[k]);
    if k + 1 < m {
      assert Shown(table[k + 1], fields[k + 1], init[k + 1], texts[k + 1]);
    } else {
      SilentRest(table, init, fields, texts, m, m);
    }
  }

  /** Reading goes on with the field of the line set. */
  lemma Advance<V>(init: seq<V>, fields: seq<V>, now: seq<V>, k: nat)
    requires k < |now| == |init| == |fields| && now[..k] == fields[..k] && now[k..] == init[k..]
    ensures now[k] == init[k]
    ensures now[k := fields[k]][..k + 1] == fields[..k + 1] && now[k := fields[k]][k + 1..] == init[k + 1..]
  {
    assert now[k] == now[k..][0] == init[k];
    assert now[k + 1..] == now[k..][1..] == init[k..][1..];
  }

  /** From the end of the string on, the silent fields are read as they are. */
  lemma {:induction false} ReadSilent<V(!new)>(
      s: string, table: seq<Pattern<V>>, init: seq<V>, fields: seq<V>, texts: seq<string>, m: nat, k: nat, now: seq<V>)
    requires Regular(table, init, fields, texts, m) && m <= k <= |table| && |now| == |table| && s != ""
    requires now[..k] == fields[..k] && now[k..] == init[k..]
    ensures ParseFrom(s, k, Some(|s|), table, now) == Done(fields)
    decreases |table| - k
  {
    if k < |table| {
      assert Silent(table[k], fields[k], init[k]);
      Advance(init, fields, now, k);
      assert Element(s, Some(|s|), table[k]) == ("", Some(|s|));
      ParseStep(s, k, |s|, table, now, "", |s|, fields[k]);
      ReadSilent(s, table, init, fields, texts, m, k + 1, now[k := fields[k]]);
    } else {
      assert now == now[..k] == fields;
    }
  }

  /** From a position where line `k` is printed, the line reads its field. */
  lemma StepShown<V(!new)>(
      s: string, pos: nat, table: seq<Pattern<V>>, init: seq<V>, fields: seq<V>, texts: seq<string>, m: nat, k: nat, now: seq<V>)
    returns (next: nat)
    requires Regular(table, init, fields, texts, m) && k < m && |now| == |table| && (k + 1 == m < |table| ==> table[k].mandatory)
    requires now[k] == init[k]
    requires Plain(s) && pos <= |s| && s[pos..] == PrintFrom(table, fields, k) && (k == 0 <==> pos == 0)
    ensures 0 < next <= |s| && s[next..] == PrintFrom(table, fields, k + 1)
    ensures ParseFrom(s, k, Some(pos), table, now) == ParseFrom(s, k + 1, Some(next), table, now[k := fields[k]])
  {
    var i, t := SkipLeading(pos), texts[k];
    OneShown(s, pos, table, init, fields, texts, m, k);
    assert Shown(table[k], fields[k], init[k], t);
    assert s[i + |t|..] == s[i..][|t|..];
    next := i + |t|;
    ParseStep(s, k, pos, table, now, t, next, fields[k]);
  }

  lemma ParseStep<V>(s: string, k: nat, pos: nat, table: seq<Pattern<V>>, now: seq<V>, t: string, next: nat, v: V)
    requires k < |table| == |now| && pos <= |s| && next <= |s|
    requires Element(s, Some(pos), table[k]) == (t, Some(next)) && table[k].legal(t) && table[k].parse(t, now[k]) == Some(v)
    ensures ParseFrom(s, k, Some(pos), table, now) == ParseFrom(s, k + 1, Some(next), table, now[k := v])
  {
  }

  /** From a position where line `k` is printed, all fields are read as they are. */
  lemma {:induction false} ReadShown<V(!new)>(
      s: string, pos: nat, table: seq<Pattern<V>>, init: seq<V>, fields: seq<V>, texts: seq<string>, m: nat, k: nat, now: seq<V>)
    requires Regular(table, init, fields, texts, m) && k <= m && |now| == |table| && (m < |table| ==> table[m - 1].mandatory)
    requires now[..k] == fields[..k] && now[k..] == init[k..]
    requires Plain(s) && pos <= |s| && s[pos..] == PrintFrom(table, fields, k) && (k == 0 <==> pos == 0)
    ensures ParseFrom(s, k, Some(pos), table, now) == Done(fields)
    decreases m - k
  {
    if k == m {
      SilentRest(table, init, fields, texts, m, m);
      assert pos == |s|;
      ReadSilent(s, table, init, fields, texts, m, m, now);
    } else {
      Advance(init, fields, now, k);
      var next := StepShown(s, pos, table, init, fields, texts, m, k, now);
      ReadShown(s, next, table, init, fields, texts, m, k + 1, now[k := fields[k]]);
    }
  }

  lemma OneShown<V(!new)>(
      s: string, pos: nat, table: seq<Pattern<V>>, init: seq<V>, fields: seq<V>, texts: seq<string>, m: nat, k: nat)
    requires Regular(table, init, fields, texts, m) && k < m && (k + 1 == m < |table| ==> table[k].mandatory)
    requires Plain(s) && pos <= |s| && s[pos..] == PrintFrom(table, fields, k) && (k == 0 <==> pos == 0)
    ensures pos < |s| && s[SkipLeading(pos)..] == texts[k] + PrintFrom(table, fields, k + 1)
    ensures Element(s, Some(pos), table[k]) == (texts[k], Some(SkipLeading(pos) + |texts[k]|))
  {
    var t, rest := texts[k], PrintFrom(table, fields, k + 1);
    RestStarts(table, init, fields, texts, m, k);
    assert Shown(table[k], fields[k], init[k], t);
    Behind(s, pos, table[k].start, t + rest);
    ElementIs(s, pos, table[k], t, rest);
  }

  /** What is behind a position: all of it at the start, otherwise what follows the separator. */
  lemma Behind(s: string, pos: nat, start: char, rest: string)
    requires pos <= |s| && rest != "" && s[pos..] == (if pos == 0 then "" else [start]) + rest
    ensures pos < |s| && s[SkipLeading(pos)..] == rest && (pos > 0 ==> s[pos] == start)
  {
    if pos > 0 {
      assert s[pos] == s[pos..][0];
      assert s[pos + 1..] == s[pos..][1..];
    }
  }

  /** When the last shown field can be followed by nothing, its line finds no end, and the field is read as empty text. */
  lemma {:induction false} ReadLost<V(!new)>(
      s: string, pos: nat, table: seq<Pattern<V>>, init: seq<V>, fields: seq<V>, texts: seq<string>, m: nat, k: nat, now: seq<V>)
    requires Regular(table, init, fields, texts, m) && k < m < |table| && |now| == |table| && !table[m - 1].mandatory
    requires now[..k] == fields[..k] && now[k..] == init[k..]
    requires Plain(s) && pos <= |s| && s[pos..] == PrintFrom(table, fields, k) && (k == 0 <==> pos == 0)
    ensures var done := ParseFrom(s, k, Some(pos), table, now) == Done(fields);
      var empty := EmptyDenotes(table[m - 1], fields[m - 1], init[m - 1]);
      (done ==> empty) && (empty && !Repeats(table, m) ==> done)
    decreases m - k
  {
    Advance(init, fields, now, k);
    if k + 1 < m {
      var next := StepShown(s, pos, table, init, fields, texts, m, k, now);
      ReadLost(s, next, table, init, fields, texts, m, k + 1, now[k := fields[k]]);
    } else {
      LastLost(s, pos, table, init, fields, texts, m);
      EmptyRead(s, pos, table, k, now);
      if EmptyDenotes(table[k], fields[k], init[k]) && !Repeats(table, m) {
        var position := if k == 0 then None else Some(pos);
        assert ParseFrom(s, k, Some(pos), table, now) == ParseFrom(s, m, position, table, now[k := fields[k]]);
        ReadStuck(s, position, table, init, fields, texts, m, m, now[k := fields[k]]);
      }
    }
  }

  /** From a position whose character no line starts with, or from none, the silent fields are read as they are. */
  lemma {:induction false} ReadStuck<V(!new)>(
      s: string, position: Option<nat>, table: seq<Pattern<V>>, init: seq<V>, fields: seq<V>, texts: seq<string>, m: nat, k: nat, now: seq<V>)
    requires Regular(table, init, fields, texts, m) && m <= k <= |table| && |now| == |table|
    requires position.Some? ==> 0 < position.value < |s| && forall j | m <= j < |table| :: table[j].start != s[position.value]
    requires now[..k] == fields[..k] && now[k..] == init[k..]
    ensures ParseFrom(s, k, position, table, now) == Done(fields)
    decreases |table| - k
  {
    if k < |table| {
      assert Silent(table[k], fields[k], init[k]);
      Advance(init, fields, now, k);
      assert Element(s, position, table[k]) == ("", position);
      ParseOn(s, k, position, table, now, fields[k]);
      ReadStuck(s, position, table, init, fields, texts, m, k + 1, now[k := fields[k]]);
    } else {
      assert now == now[..k] == fields;
    }
  }

  lemma ParseOn<V>(s: string, k: nat, position: Option<nat>, table: seq<Pattern<V>>, now: seq<V>, v: V)
    requires k < |table| == |now| && (position.Some? ==> position.value <= |s|)
    requires Element(s, position, table[k]) == ("", position) && table[k].legal("") && table[k].parse("", now[k]) == Some(v)
    ensures ParseFrom(s, k, position, table, now) == ParseFrom(s, k + 1, position, table, now[k := v])
  {
  }

  /** A line that reads empty text leaves the value that empty text denotes, if the rest of the table comes to an end. */
  lemma EmptyRead<V(!new)>(s: string, pos: nat, table: seq<Pattern<V>>, k: nat, now: seq<V>)
    requires k < |table| == |now| && pos <= |s| && Element(s, Some(pos), table[k]).0 == ""
    ensures var r := ParseFrom(s, k, Some(pos), table, now);
      r.Done? ==> table[k].legal("") && Some(r.fields[k]) == table[k].parse("", now[k])
  {
    var r := ParseFrom(s, k, Some(pos), table, now);
    if r.Done? {
      var v := table[k].parse("", now[k]).value;
      assert r == ParseFrom(s, k + 1, Element(s, Some(pos), table[k]).1, table, now[k := v]);
      assert r.fields[k] == r.fields[..k + 1][k] == v;
    }
  }

  lemma LastLost<V(!new)>(s: string, pos: nat, table: seq<Pattern<V>>, init: seq<V>, fields: seq<V>, texts: seq<string>, m: nat)
    requires Regular(table, init, fields, texts, m) && m < |table| && !table[m - 1].mandatory
    requires Plain(s) && pos <= |s| && s[pos..] == PrintFrom(table, fields, m - 1) && (m == 1 <==> pos == 0)
    ensures Element(s, Some(pos), table[m - 1]) == ("", if m == 1 then None else Some(pos))
    ensures m > 1 ==> pos < |s| && s[pos] == table[m - 1].start
  {
    var k := m - 1;
    var t, p := texts[k], table[k];
    RestStarts(table, init, fields, texts, m, k);
    assert Shown(p, fields[k], init[k], t);
    if k > 0 {
      assert s[pos] == s[pos..][0] == p.start;
      assert s[pos + 1..] == s[pos..][1..] == t;
    }
    var i := SkipLeading(pos);
    assert s[i] == s[i..][0] == t[0];
    assert p.end == table[m].start;
    FindCharNone(s, i, p.end);
  }

  /**
  Theorem: reading the printed form of a header over a fresh one gives it back exactly when all fields are shown, or the
  last one that is shown belongs to a mandatory line or is denoted by empty text as well. Only when that last field is
  denoted by empty text, and a later line starts with the same separator, can it be lost all the same.
  */
  lemma RoundTrip<V(!new)>(table: seq<Pattern<V>>, init: seq<V>, fields: seq<V>, texts: seq<string>, m: nat)
    requires Regular(table, init, fields, texts, m)
    ensures var done := ParseWith(PrintFrom(table, fields, 0), table, init) == Done(fields);
      var empty := EmptyDenotes(table[m - 1], fields[m - 1], init[m - 1]);
      && (m == |table| || table[m - 1].mandatory ==> done)
      && (done ==> m == |table| || table[m - 1].mandatory || empty)
      && (empty && !Repeats(table, m) ==> done)
  {
    var s := PrintFrom(table, fields, 0);
    PrintedPlain(table, init, fields, texts, m, 0);
    RestStarts(table, init, fields, texts, m, 0);
    assert Shown(table[0], fields[0], init[0], texts[0]);
    assert s[0..] == s;
    if m == |table| || table[m - 1].mandatory {
      ReadShown(s, 0, table, init, fields, texts, m, 0, init);
    } else {
      ReadLost(s, 0, table, init, fields, texts, m, 0, init);
    }
  }

  lemma {:induction false} PrintedPlain<V(!new)>(table: seq<Pattern<V>>, init: seq<V>, fields: seq<V>, texts: seq<string>, m: nat, k: nat)
    requires Regular(table, init, fields, texts, m) && k <= m
    ensures Plain(PrintFrom(table, fields, k))
    decreases m - k
  {
    if k < m {
      RestStarts(table, init, fields, texts, m, k);
      assert Shown(table[k], fields[k], init[k], texts[k]);
      PrintedPlain(table, init, fields, texts, m, k + 1);
    } else {
      SilentRest(table, init, fields, texts, m, m);
    }
  }
}
