/**
Parameter lists as maps: adding, looking up, copying and comparing. A name is looked up as it is given, but stored without
the spaces around it.
*/
module CodecParameters {
  import opened Common
  import opened CodecText
  import opened CodecTables

  const PARAMETER_NAME_MAX_LENGTH := 32
  const PARAMETER_VALUE_MAX_LENGTH := 128

  /** Texts that ParseString is defined for, and that the fields of a parameter can hold once stored. */
  predicate Storable(name: string, value: string) {
    |name| < 128 && |value| < PARAMETER_VALUE_MAX_LENGTH && |Stored(name)| < PARAMETER_NAME_MAX_LENGTH
  }

  /** What ParseString leaves of a text. */
  function Stored(s: string): string
    requires |s| < 128
  {
    ParsedString(s).value
  }

  function Names(ps: seq<Parameter>): (r: seq<string>)
    ensures |r| == |ps| && forall k | 0 <= k < |ps| :: r[k] == ps[k].name
  {
    seq(|ps|, k requires 0 <= k < |ps| => ps[k].name)
  }

  predicate Distinct(names: seq<string>) { forall i, j | 0 <= i < j < |names| :: names[i] != names[j] }

  /** The last parameter of a name. */
  function LastIndex(ps: seq<Parameter>, name: string): (r: Option<nat>)
    ensures r.Some? ==> r.value < |ps| && ps[r.value].name == name && forall k | r.value < k < |ps| :: ps[k].name != name
    ensures r.None? ==> forall k | 0 <= k < |ps| :: ps[k].name != name
  {
    if ps == [] then None
    else if ps[|ps| - 1].name == name then Some(|ps| - 1)
    else LastIndex(ps[..|ps| - 1], name)
  }

  /** AddParameter. */
  function Added(ps: seq<Parameter>, name: string, value: string): seq<Parameter>
    requires Storable(name, value)
  {
    var p := Parameter(Stored(name), Stored(value));
    match LastIndex(ps, name)
    case Some(i) => ps[i := p]
    case None => ps + [p]
  }

  /** GetParameter: the value of the first parameter of a name. */
  function Get(ps: seq<Parameter>, name: string): (r: Option<string>)
    ensures r.None? <==> name !in Names(ps)
  {
    if ps == [] then None
    else if ps[0].name == name then Some(ps[0].value)
    else
      assert Names(ps) == [ps[0].name] + Names(ps[1..]);
      Get(ps[1..], name)
  }

  lemma {:induction false} GetAt(ps: seq<Parameter>, k: nat)
    requires k < |ps| && forall j | 0 <= j < k :: ps[j].name != ps[k].name
    ensures Get(ps, ps[k].name) == Some(ps[k].value)
  {
    if k > 0 {
      GetAt(ps[1..], k - 1);
    }
  }

  /** Theorem: adding keeps names distinct exactly when the name has no spaces to lose or is new without them. */
  lemma AddKeepsDistinct(ps: seq<Parameter>, name: string, value: string)
    requires Distinct(Names(ps)) && Storable(name, value)
    ensures Distinct(Names(Added(ps, name, value))) <==> Stored(name) == name || Stored(name) !in Names(ps)
  {
    var names, after := Names(ps), Names(Added(ps, name, value));
    var i := match LastIndex(ps, name) case Some(i) => i case None => |ps|;
    assert after[i] == Stored(name);
    assert forall k | 0 <= k < |ps| && k != i :: after[k] == names[k];
    if Stored(name) != name && Stored(name) in names {
      var k :| 0 <= k < |names| && names[k] == Stored(name);
      assert after[k] == after[i];
    }
  }

  /** Theorem: after adding, the stored name has the stored value, and every other name is as it was. */
  lemma GetAfterAdd(ps: seq<Parameter>, name: string, value: string, n: string)
    requires Distinct(Names(ps)) && Storable(name, value) && (Stored(name) == name || Stored(name) !in Names(ps))
    ensures Get(Added(ps, name, value), n) ==
      if n == Stored(name) then Some(Stored(value)) else if n == name then None else Get(ps, n)
  {
    var names, next := Names(ps), Added(ps, name, value);
    var i := match LastIndex(ps, name) case Some(i) => i case None => |ps|;
    AddKeepsDistinct(ps, name, value);
    assert Names(next)[i] == Stored(name);
    assert forall k | 0 <= k < |ps| && k != i :: next[k] == ps[k];
    if n == Stored(name) {
      GetAt(next, i);
    } else if n != name && n in names {
      GetKept(ps, next, i, n);
    }
  }

  /** A name that stands elsewhere than at `i` keeps its value. */
  lemma GetKept(ps: seq<Parameter>, next: seq<Parameter>, i: nat, n: string)
    requires Distinct(Names(ps)) && Distinct(Names(next)) && |ps| <= |next| && n in Names(ps)
    requires forall k | 0 <= k < |ps| :: if k != i then next[k] == ps[k] else ps[k].name != n
    ensures Get(next, n) == Get(ps, n)
  {
    var k :| 0 <= k < |ps| && Names(ps)[k] == n;
    GetAt(ps, k);
    assert Names(next)[k] == n;
    GetAt(next, k);
  }

  // ---------- Any number of additions ----------

  /** Parameters as they can stand in a list: texts that are stored as they are. */
  predicate Settled(ps: seq<Parameter>) {
    forall p | p in ps :: Storable(p.name, p.value) && Stored(p.name) == p.name && Stored(p.value) == p.value
  }

  /** AddParameter for one entry after the other, from the empty list. */
  function Adds(es: seq<Parameter>): seq<Parameter>
    requires forall e | e in es :: Storable(e.name, e.value)
  {
    if es == [] then []
    else
      var e := es[|es| - 1];
      Added(Adds(es[..|es| - 1]), e.name, e.value)
  }

  /** The names in the order in which they first come. */
  function FirstNames(es: seq<Parameter>): (r: seq<string>)
    ensures Distinct(r) && |r| <= |es|
    ensures forall n :: n in r <==> n in Names(es)
  {
    if es == [] then []
    else
      var n, r := es[|es| - 1].name, FirstNames(es[..|es| - 1]);
      assert Names(es) == Names(es[..|es| - 1]) + [n];
      if n in r then r else r + [n]
  }

  /** The value that a name comes with last. */
  function LastValue(es: seq<Parameter>, name: string): Option<string> {
    if es == [] then None
    else if es[|es| - 1].name == name then Some(es[|es| - 1].value)
    else LastValue(es[..|es| - 1], name)
  }

  lemma {:induction false} LastValueKnown(es: seq<Parameter>, name: string)
    ensures LastValue(es, name).Some? <==> name in Names(es)
  {
    if es != [] {
      LastValueKnown(es[..|es| - 1], name);
      assert Names(es) == Names(es[..|es| - 1]) + [es[|es| - 1].name];
    }
  }

  /** First positions, last values. */
  function Merged(es: seq<Parameter>): (r: seq<Parameter>)
    ensures Names(r) == FirstNames(es)
  {
    var names := FirstNames(es);
    var r := seq(|names|, k requires 0 <= k < |names| => Parameter(names[k], match LastValue(es, names[k]) case Some(v) => v case None => ""));
    assert Names(r) == names;
    r
  }

  /** Theorem: any number of additions of settled parameters gives first positions and last values. */
  lemma {:induction false} AddsMerge(es: seq<Parameter>)
    requires Settled(es)
    ensures Adds(es) == Merged(es)
  {
    if es != [] {
      var e, before := es[|es| - 1], es[..|es| - 1];
      AddsMerge(before);
      assert e in es;
      var ps, next := Merged(before), Merged(es);
      var i := match LastIndex(ps, e.name) case Some(i) => i case None => |ps|;
      assert e.name in FirstNames(before) <==> i < |ps| by {
        assert e.name in Names(ps) <==> i < |ps|;
      }
      assert Names(next)[i] == e.name;
      assert |next| == |Added(ps, e.name, e.value)|;
      forall k | 0 <= k < |next| ensures next[k] == Added(ps, e.name, e.value)[k] {
        if k != i {
          assert Names(next)[k] == Names(ps)[k] != e.name;
        }
      }
    }
  }

  /** Theorem: after any number of additions the names are distinct, and each has the value it came with last. */
  lemma AddsAreMap(es: seq<Parameter>, name: string)
    requires Settled(es)
    ensures Distinct(Names(Adds(es))) && Get(Adds(es), name) == LastValue(es, name)
  {
    AddsMerge(es);
    LastValueKnown(es, name);
    var ps := Merged(es);
    if name in Names(ps) {
      var k :| 0 <= k < |ps| && Names(ps)[k] == name;
      GetAt(ps, k);
    }
  }

  // ---------- Copies ----------

  /** ParametersMatched. */
  predicate Matched(ps: seq<Parameter>, qs: seq<Parameter>) {
    |ps| == |qs| && forall k | 0 <= k < |ps| :: ps[k].name == qs[k].name && ps[k].value == qs[k].value
  }

  /** Two lists match exactly if they are the same list. */
  lemma MatchedIsEqual(ps: seq<Parameter>, qs: seq<Parameter>)
    ensures Matched(ps, qs) <==> ps == qs
  {
    if Matched(ps, qs) {
      forall k | 0 <= k < |ps| ensures ps[k] == qs[k] {
        assert ps[k].name == qs[k].name && ps[k].value == qs[k].value;
      }
    }
  }

  lemma {:induction false} DistinctFirst(es: seq<Parameter>)
    ensures FirstNames(es) == Names(es) <==> Distinct(Names(es))
    ensures |FirstNames(es)| == |es| <==> Distinct(Names(es))
  {
    if es != [] {
      var n, before := es[|es| - 1].name, es[..|es| - 1];
      DistinctFirst(before);
      assert Names(es) == Names(before) + [n];
      if n in Names(before) {
        var k :| 0 <= k < |before| && Names(before)[k] == n;
        assert Names(es)[k] == Names(es)[|es| - 1];
      }
    }
  }

  lemma {:induction false} LastValueAt(es: seq<Parameter>, k: nat)
    requires Distinct(Names(es)) && k < |es|
    ensures LastValue(es, es[k].name) == Some(es[k].value)
  {
    if k < |es| - 1 {
      assert Names(es)[k] != Names(es)[|es| - 1];
      assert Distinct(Names(es[..|es| - 1])) by {
        assert Names(es)[..|es| - 1] == Names(es[..|es| - 1]);
      }
      LastValueAt(es[..|es| - 1], k);
    }
  }

  /** Theorem: a copy matches its source exactly when the names are distinct; then it is the same list. */
  lemma DupMatches(src: seq<Parameter>)
    requires Settled(src)
    ensures Matched(src, Adds(src)) <==> Distinct(Names(src))
    ensures Distinct(Names(src)) <==> Adds(src) == src
  {
    AddsMerge(src);
    MatchedIsEqual(src, Adds(src));
    DistinctFirst(src);
    if Distinct(Names(src)) {
      forall k | 0 <= k < |src| ensures Merged(src)[k] == src[k] {
        LastValueAt(src, k);
        assert Names(Merged(src))[k] == src[k].name;
      }
    }
  }

  /** Names that differ only in a leading space come to be the same. */
  lemma SpacedNameTwice()
    ensures var ps := Adds([Parameter("tag", "1"), Parameter(" tag", "2")]);
      ps == [Parameter("tag", "1"), Parameter("tag", "2")] && Get(ps, "tag") == Some("1")
  {
    var a, b := Parameter("tag", "1"), Parameter(" tag", "2");
    SpacedTag();
    assert [a][..0] == [] && [a, b][..1] == [a];
    assert Adds([a]) == [a];
  }

  lemma SpacedTag()
    ensures Stored("tag") == "tag" && Stored(" tag") == "tag" && Stored("1") == "1" && Stored("2") == "2"
  {
    BareIsKept("tag");
    BareIsKept("1");
    BareIsKept("2");
    assert SkipSpaces(" tag", 1) == 1 && SkipSpaces(" tag", 0) == 1;
    assert " tag"[1..] == "tag";
  }
}
