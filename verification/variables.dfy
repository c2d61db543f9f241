/** variables.go: scoped variable containers and their `$` interpolation.

    A container is a chain of string maps. `GetRaw` answers with the stored,
    unexpanded text; `GetVariable` expands the stored text with os.Expand,
    resolving every referenced name against the SAME (outermost) container.
    Go recurses without bound on a reference cycle, so the model threads
    explicit fuel through the recursion and reports `OutOfFuel` where Go would
    never return. */
module Variables {
  import opened Wrappers
  import opened OsExpand

  type Vars = map<string, string>

  datatype Container =
    | Flat(values: Vars)                                 // mapContainer
    | Chained(child: Container, parent: Container)        // variableContainerWithParent
    | WithExtra(extra: Option<Vars>, parent: Container)  // variableContainerWithExtraParameters; None is a nil map

  /** GetRawVariable. */
  function GetRaw(c: Container, key: string): Option<string> {
    match c
    case Flat(values) => if key in values then Some(values[key]) else None
    case Chained(child, parent) =>
      var v := GetRaw(child, key);
      if v.Some? then v else GetRaw(parent, key)
    case WithExtra(extra, parent) =>
      var v := GetRaw(parent, key);
      if v.Some? then v
      else if extra.Some? && key in extra.value then Some(extra.value[key])
      else None
  }

  /** The maps of a container, highest priority first: an independent reading of
      which map answers a raw lookup. The wrapped container of an extra-parameter
      layer outranks the extra map, and a nil extra map contributes nothing. */
  function Layers(c: Container): seq<Vars> {
    match c
    case Flat(values) => [values]
    case Chained(child, parent) => Layers(child) + Layers(parent)
    case WithExtra(extra, parent) => Layers(parent) + (if extra.Some? then [extra.value] else [])
  }

  /** Some map of `layers` holds `key`. */
  predicate HeldBy(layers: seq<Vars>, key: string) {
    exists i :: 0 <= i < |layers| && key in layers[i]
  }

  /** The value of `key` in the first map that has it. */
  function FirstIn(layers: seq<Vars>, key: string): Option<string> {
    if |layers| == 0 then None
    else if key in layers[0] then Some(layers[0][key])
    else FirstIn(layers[1..], key)
  }

  lemma {:induction false} FirstInAppend(a: seq<Vars>, b: seq<Vars>, key: string)
    ensures FirstIn(a + b, key) == if FirstIn(a, key).Some? then FirstIn(a, key) else FirstIn(b, key)
  {
    if |a| == 0 {
      assert a + b == b;
    } else {
      assert (a + b)[1..] == a[1..] + b;
      FirstInAppend(a[1..], b, key);
    }
  }

  /** A raw lookup answers from the highest-priority map that holds the key. */
  lemma {:induction false} RawIsFirstLayer(c: Container, key: string)
    ensures GetRaw(c, key) == FirstIn(Layers(c), key)
  {
    match c
    case Flat(values) =>
    case Chained(child, parent) =>
      RawIsFirstLayer(child, key);
      RawIsFirstLayer(parent, key);
      FirstInAppend(Layers(child), Layers(parent), key);
    case WithExtra(extra, parent) =>
      RawIsFirstLayer(parent, key);
      var tail := if extra.Some? then [extra.value] else [];
      FirstInAppend(Layers(parent), tail, key);
      if extra.Some? {
        assert tail[1..] == [];
      }
  }

  datatype Lookup = Found(value: string) | Missing | OutOfFuel

  /** The replacement expandValue's mapping closure yields for `name` while
      expanding `current`: the cycle guard, then a full lookup of `name`, with
      an unknown name replaced by "". None means the recursion ran out of fuel. */
  function Substitute(c: Container, current: string, name: string, fuel: nat): Option<string>
    decreases fuel, 1
  {
    if name == current then Some("")
    else
      match GetVariable(c, name, fuel)
      case Found(v) => Some(v)
      case Missing => Some("")
      case OutOfFuel => None
  }

  /** Every name referenced by `raw` expands without running out of fuel. */
  predicate Resolvable(c: Container, raw: string, fuel: nat)
    decreases fuel, 2
  {
    forall n | n in RefNames(raw) :: Substitute(c, raw, n, fuel).Some?
  }

  /** expandValue(raw, ...): os.Expand with the guarded lookup as its mapping. */
  function ExpandValue(c: Container, raw: string, fuel: nat): (r: string)
    decreases fuel, 2
  {
    Expand(raw, n => Substitute(c, raw, n, fuel).GetOr(""))
  }

  /** GetVariable: the stored text of `key` with every reference expanded. */
  function GetVariable(c: Container, key: string, fuel: nat): (r: Lookup)
    ensures r.Missing? <==> GetRaw(c, key).None?
    decreases fuel, 0
  {
    match GetRaw(c, key)
    case None => Missing
    case Some(raw) =>
      if fuel == 0 || !Resolvable(c, raw, fuel - 1) then OutOfFuel
      else Found(ExpandValue(c, raw, fuel - 1))
  }

  /** A name that resolves to nothing is replaced by "", never by an error. */
  lemma UnresolvedIsEmpty(c: Container, current: string, name: string, fuel: nat)
    requires GetRaw(c, name).None?
    ensures Substitute(c, current, name, fuel) == Some("")
  {
  }

  /** The guard `keyReference == currentValue` never fires: every referenced name
      is strictly shorter than the text being expanded, so the closure always
      does the full lookup. */
  lemma GuardIsDead(c: Container, current: string, name: string, fuel: nat)
    requires name in RefNames(current)
    ensures Substitute(c, current, name, fuel) ==
      match GetVariable(c, name, fuel)
      case Found(v) => Some(v)
      case Missing => Some("")
      case OutOfFuel => None
  {
    NameNeverWholeString(current, name);
  }

  /** Stored text without `$` comes back unchanged. */
  lemma NoDollarValue(c: Container, key: string, fuel: nat)
    requires GetRaw(c, key).Some? && '$' !in GetRaw(c, key).value
    requires fuel > 0
    ensures GetVariable(c, key, fuel) == Found(GetRaw(c, key).value)
  {
    var raw := GetRaw(c, key).value;
    NoDollarUnchanged(raw, n => Substitute(c, raw, n, fuel - 1).GetOr(""));
    assert ExpandValue(c, raw, fuel - 1) == raw;
  }

  /** More fuel never changes an answer that was already reached. */
  lemma {:induction false} FuelMonotone(c: Container, key: string, fuel: nat, more: nat)
    requires GetVariable(c, key, fuel) != OutOfFuel
    requires fuel <= more
    ensures GetVariable(c, key, more) == GetVariable(c, key, fuel)
    decreases fuel, 0
  {
    match GetRaw(c, key)
    case None =>
    case Some(raw) =>
      ResolvedAt(c, key, raw, fuel);
      DefinedMonotone(c, key, raw, fuel, more);
  }

  /** FuelMonotone for a key that holds `raw`. */
  lemma {:induction false} DefinedMonotone(c: Container, key: string, raw: string, fuel: nat, more: nat)
    requires GetRaw(c, key) == Some(raw) && fuel > 0 && Resolvable(c, raw, fuel - 1)
    requires fuel <= more
    ensures GetVariable(c, key, more) == GetVariable(c, key, fuel)
    decreases fuel - 1, 3
  {
    ResolvableMonotone(c, raw, fuel - 1, more - 1);
    LookupAgrees(c, key, raw, fuel, more);
  }

  /** A defined key that did not run out of fuel had fuel left and every
      reference in its stored text resolved. */
  lemma ResolvedAt(c: Container, key: string, raw: string, fuel: nat)
    requires GetRaw(c, key) == Some(raw) && GetVariable(c, key, fuel) != OutOfFuel
    ensures fuel > 0 && Resolvable(c, raw, fuel - 1)
  {
  }

  /** Text whose references all resolve at some fuel resolves alike with more. */
  lemma {:induction false} ResolvableMonotone(c: Container, raw: string, fuel: nat, more: nat)
    requires Resolvable(c, raw, fuel)
    requires fuel <= more
    ensures ExpandsAlike(c, raw, fuel, more)
    decreases fuel, 2
  {
    forall n | n in RefNames(raw)
      ensures Substitute(c, raw, n, fuel) == Substitute(c, raw, n, more)
    {
      SubstituteMonotone(c, raw, n, fuel, more);
    }
    ExpandValueAgrees(c, raw, fuel, more);
  }

  /** Two fuel levels at which the stored text of `key` resolves and expands
      alike give the same answer. */
  lemma LookupAgrees(c: Container, key: string, raw: string, f1: nat, f2: nat)
    requires GetRaw(c, key) == Some(raw) && f1 > 0 && f2 > 0
    requires ExpandsAlike(c, raw, f1 - 1, f2 - 1)
    ensures GetVariable(c, key, f2) == GetVariable(c, key, f1)
  {
  }

  /** The references of `raw` resolve at both fuel levels, and it expands alike. */
  ghost predicate ExpandsAlike(c: Container, raw: string, f1: nat, f2: nat) {
    Resolvable(c, raw, f1) && Resolvable(c, raw, f2) && ExpandValue(c, raw, f2) == ExpandValue(c, raw, f1)
  }

  /** Two fuel levels at which every reference substitutes alike expand alike. */
  lemma ExpandValueAgrees(c: Container, raw: string, f1: nat, f2: nat)
    requires forall n :: n in RefNames(raw) ==> Substitute(c, raw, n, f1) == Substitute(c, raw, n, f2)
    ensures ExpandValue(c, raw, f1) == ExpandValue(c, raw, f2)
  {
    ExpandCongruence(raw, n => Substitute(c, raw, n, f1).GetOr(""), n => Substitute(c, raw, n, f2).GetOr(""));
  }

  lemma {:induction false} SubstituteMonotone(c: Container, current: string, name: string, fuel: nat, more: nat)
    requires Substitute(c, current, name, fuel).Some?
    requires fuel <= more
    ensures Substitute(c, current, name, more) == Substitute(c, current, name, fuel)
    decreases fuel, 1
  {
    if name != current {
      FuelMonotone(c, name, fuel, more);
    }
  }

  /** An acyclic reference graph, witnessed by a rank that strictly drops along
      every reference to a defined name. */
  ghost predicate RankedBy(c: Container, rank: string -> nat) {
    forall k, n :: GetRaw(c, k).Some? && n in RefNames(GetRaw(c, k).value) && GetRaw(c, n).Some? ==> rank(n) < rank(k)
  }

  /** Under an acyclic reference graph every lookup terminates once the fuel
      exceeds the key's rank. */
  lemma {:induction false} AcyclicTerminates(c: Container, rank: string -> nat, key: string, fuel: nat)
    requires RankedBy(c, rank)
    requires fuel > rank(key)
    ensures GetVariable(c, key, fuel) != OutOfFuel
    decreases rank(key), 1
  {
    match GetRaw(c, key)
    case None =>
    case Some(raw) =>
      forall n | n in RefNames(raw)
        ensures Substitute(c, raw, n, fuel - 1).Some?
      {
        ReferenceTerminates(c, rank, key, raw, n, fuel - 1);
      }
      assert Resolvable(c, raw, fuel - 1);
  }

  /** One reference inside the stored text of `key` resolves with one unit of
      fuel less than `key` was given. */
  lemma {:induction false} ReferenceTerminates(c: Container, rank: string -> nat, key: string, raw: string,
                                                n: string, fuel: nat)
    requires RankedBy(c, rank)
    requires GetRaw(c, key) == Some(raw) && n in RefNames(raw)
    requires fuel >= rank(key)
    ensures Substitute(c, raw, n, fuel).Some?
    decreases rank(key), 0
  {
    if n != raw {
      match GetRaw(c, n)
      case None =>
        assert GetVariable(c, n, fuel) == Missing;
      case Some(_) =>
        assert rank(n) < rank(key);
        AcyclicTerminates(c, rank, n, fuel);
    }
  }

  /** `{k: "${k}"}`: the guard compares "k" with "${k}" and lets the lookup
      recurse into itself, so Go never returns; no amount of fuel suffices. */
  lemma {:induction false} SelfReferenceDiverges(c: Container, key: string, fuel: nat)
    requires key != "" && '}' !in key
    requires GetRaw(c, key) == Some("${" + key + "}")
    ensures GetVariable(c, key, fuel) == OutOfFuel
    decreases fuel
  {
    var raw := "${" + key + "}";
    if fuel > 0 {
      OneBracedRef(key, "", n => n);
      assert raw + "" == raw;
      assert key in RefNames(raw);
      SelfReferenceDiverges(c, key, fuel - 1);
      NameNeverWholeString(raw, key);
      assert Substitute(c, raw, key, fuel - 1) == None;
      assert !Resolvable(c, raw, fuel - 1);
    }
  }

  /** Text holding one `${name}` followed by `$`-free text. */
  lemma OneBracedRef(name: string, tail: string, mapping: string -> string)
    requires name != "" && '}' !in name && '$' !in tail
    ensures RefNames("${" + name + "}" + tail) == [name]
    ensures Expand("${" + name + "}" + tail, mapping) == mapping(name) + tail
  {
    var seg := Ref(name, "${" + name + "}");
    BracedRef(name, tail);
    NoDollarUnchanged(tail, mapping);
    RenderAppend([seg], Parse(tail), mapping);
    NamesAppend([seg], Parse(tail));
    assert [seg][1..] == [];
  }

  /** GetVariable of a key whose stored text is `${name}` plus `$`-free text:
      one more unit of fuel than the lookup of `name` needed. */
  lemma OneRefLookup(c: Container, key: string, name: string, tail: string, v: string, fuel: nat)
    requires name != "" && '}' !in name && '$' !in tail
    requires GetRaw(c, key) == Some("${" + name + "}" + tail)
    requires fuel >= 1 && GetVariable(c, name, fuel - 1) == Found(v)
    ensures GetVariable(c, key, fuel) == Found(v + tail)
  {
    var raw := "${" + name + "}" + tail;
    OneBracedRef(name, tail, n => Substitute(c, raw, n, fuel - 1).GetOr(""));
    NameNeverWholeString(raw, name);
    assert Substitute(c, raw, name, fuel - 1) == Some(v);
    assert Resolvable(c, raw, fuel - 1);
    assert ExpandValue(c, raw, fuel - 1) == v + tail;
  }

  /** Three keys where the second references the first and the third the second. */
  lemma TwoHopLookup(c: Container, a: string, b: string, k: string,
                     va: string, tb: string, tk: string, fuel: nat)
    requires a != "" && '}' !in a && b != "" && '}' !in b
    requires '$' !in va && '$' !in tb && '$' !in tk
    requires GetRaw(c, a) == Some(va)
    requires GetRaw(c, b) == Some("${" + a + "}" + tb)
    requires GetRaw(c, k) == Some("${" + b + "}" + tk)
    requires fuel >= 3
    ensures GetVariable(c, a, fuel) == Found(va)
    ensures GetVariable(c, b, fuel) == Found(va + tb)
    ensures GetVariable(c, k, fuel) == Found(va + tb + tk)
  {
    var f1 := fuel - 1;
    var f2 := f1 - 1;
    NoDollarValue(c, a, f2);
    OneRefLookup(c, b, a, tb, va, f1);
    FuelMonotone(c, a, f2, fuel);
    FuelMonotone(c, b, f1, fuel);
    OneRefLookup(c, k, b, tk, va + tb, fuel);
  }

  /** variables_test.go, flat map: test="test", test2="${test}1", test3="${test2}2". */
  lemma FlatTransitiveExample(fuel: nat)
    requires fuel >= 3
    ensures var c := Flat(map["test" := "test", "test2" := "${test}1", "test3" := "${test2}2"]);
      && GetVariable(c, "test", fuel) == Found("test")
      && GetVariable(c, "test2", fuel) == Found("test1")
      && GetVariable(c, "test3", fuel) == Found("test12")
      && GetVariable(c, "test4", fuel) == Missing
  {
    var c := Flat(map["test" := "test", "test2" := "${test}1", "test3" := "${test2}2"]);
    assert GetRaw(c, "test4") == None;
    assert "${test}1" == "${" + "test" + "}" + "1";
    assert "${test2}2" == "${" + "test2" + "}" + "2";
    assert "test" + "1" == "test1";
    assert "test" + "1" + "2" == "test12";
    TwoHopLookup(c, "test", "test2", "test3", "test", "1", "2", fuel);
  }

  /** variables_test.go, chained: the child's test2 overrides the parent's, and
      the child's test3 sees the override. */
  lemma ChainedOverrideExample(fuel: nat)
    requires fuel >= 3
    ensures var c := Chained(Flat(map["test2" := "${test}2", "test3" := "${test2}3"]),
                             Flat(map["test" := "test", "test2" := "${test}1"]));
      && GetRaw(c, "test2") == Some("${test}2")
      && GetVariable(c, "test", fuel) == Found("test")
      && GetVariable(c, "test2", fuel) == Found("test2")
      && GetVariable(c, "test3", fuel) == Found("test23")
      && GetVariable(c, "test4", fuel) == Missing
  {
    var c := Chained(Flat(map["test2" := "${test}2", "test3" := "${test2}3"]),
                     Flat(map["test" := "test", "test2" := "${test}1"]));
    assert GetRaw(c, "test") == Some("test");
    assert GetRaw(c, "test2") == Some("${test}2");
    assert GetRaw(c, "test3") == Some("${test2}3");
    assert GetRaw(c, "test4") == None;
    assert "${test}2" == "${" + "test" + "}" + "2";
    assert "${test2}3" == "${" + "test2" + "}" + "3";
    assert "test" + "2" == "test2";
    assert "test" + "2" + "3" == "test23";
    TwoHopLookup(c, "test", "test2", "test3", "test", "2", "3", fuel);
  }
}
