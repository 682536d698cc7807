/**
 * Model selection of the renderer route (`conditionMatch`, `chooseModel`):
 * which model references a block state renders with, from its block's
 * variants (first matching entry) or multipart definition (every matching
 * part, in declaration order).
 *
 * The `when` condition of a multipart part arrives in the dataset as a
 * dynamically typed object told apart by an `AND` or `OR` key; here it is the
 * tagged `Condition` datatype.
 */
module ModelSelector {
  import opened Wrappers
  import opened JsStrings
  import opened BlockStates

  /** A model reference; `weight` only occurs inside weighted lists. */
  datatype ModelRef = ModelRef(model: int, uvlock: Option<bool>, x: Option<int>, y: Option<int>, weight: Option<int>)

  /** What a variant or part applies: one reference, or a weighted list the client picks from. */
  datatype Apply = Single(ref: ModelRef) | Weighted(choices: seq<ModelRef>)

  /** A `when` condition: a literal `{key: value, ...}`, `{AND: [...]}` or `{OR: [...]}`. */
  datatype Condition =
    | Literal(entries: seq<(string, string)>)
    | And(children: seq<Condition>)
    | Or(children: seq<Condition>)

  datatype Part = Part(apply: Apply, when: Option<Condition>)

  /** One row of the block-state table: variants, multipart, both or neither may be present. */
  datatype ModelCollection = ModelCollection(variants: Option<seq<(string, Apply)>>, multipart: Option<seq<Part>>)

  // Conditions -------------------------------------------------------------------

  /** A literal value starting with `!` is negated. */
  predicate Negated(value: string)
  {
    |value| > 0 && value[0] == '!'
  }

  /** The `|`-separated alternatives of a literal value, after any leading `!`. */
  function Alternatives(value: string): seq<string>
  {
    Split(if Negated(value) then value[1..] else value, '|')
  }

  /**
   * One entry of a literal: the property is one of the alternatives, and that
   * answer is flipped once when the value is negated. An absent property is
   * never one of the alternatives.
   */
  predicate EntryHolds(key: string, value: string, props: Props)
  {
    var actual := Lookup(props, key);
    (actual.Some? && actual.value in Alternatives(value)) != Negated(value)
  }

  /** `conditionMatch`. */
  predicate ConditionMatch(c: Condition, props: Props)
  {
    match c
    case And(cs) => forall i :: 0 <= i < |cs| ==> ConditionMatch(cs[i], props)
    case Or(cs) => exists i :: 0 <= i < |cs| && ConditionMatch(cs[i], props)
    case Literal(es) => forall i :: 0 <= i < |es| ==> EntryHolds(es[i].0, es[i].1, props)
  }

  /** An empty AND holds, an empty OR does not, an empty literal holds. */
  lemma EmptyConditions(props: Props)
    ensures ConditionMatch(And([]), props)
    ensures !ConditionMatch(Or([]), props)
    ensures ConditionMatch(Literal([]), props)
  {
  }

  /** An absent property satisfies exactly the negated literals. */
  lemma AbsentProperty(key: string, value: string, props: Props)
    requires Lookup(props, key) == None
    ensures EntryHolds(key, value, props) <==> Negated(value)
  {
  }

  /** A leading `!` flips the outcome of an entry. */
  lemma NegationFlips(key: string, value: string, props: Props)
    requires !Negated(value)
    ensures EntryHolds(key, "!" + value, props) <==> !EntryHolds(key, value, props)
  {
    assert ("!" + value)[1..] == value;
  }

  /** `v1|v2` holds exactly when `v1` or `v2` holds. */
  lemma AlternativesDisjoin(key: string, v1: string, v2: string, props: Props)
    requires !Negated(v1) && !Negated(v2)
    ensures EntryHolds(key, v1 + "|" + v2, props) <==> EntryHolds(key, v1, props) || EntryHolds(key, v2, props)
  {
    assert v1 + "|" + v2 == v1 + ['|'] + v2;
    SplitOfConcat(v1, '|', v2);
    assert !Negated(v1 + "|" + v2);
  }

  /** `{a: "!1|2"}` matches `a=3` but neither `a=1` nor `a=2`. */
  lemma NegatedAlternativesExample()
    ensures ConditionMatch(Literal([("a", "!1|2")]), [("a", Some("3"))])
    ensures !ConditionMatch(Literal([("a", "!1|2")]), [("a", Some("1"))])
    ensures !ConditionMatch(Literal([("a", "!1|2")]), [("a", Some("2"))])
  {
    assert "!1|2"[1..] == "1" + ['|'] + "2";
    SplitOfConcat("1", '|', "2");
    assert Split("1", '|') == ["1"];
    assert Split("2", '|') == ["2"];
    assert Alternatives("!1|2") == ["1", "2"];
    var es := [("a", "!1|2")];
    assert EntryHolds(es[0].0, es[0].1, [("a", Some("3"))]);
    assert Lookup([("a", Some("1"))], "a") == Some("1");
    assert !EntryHolds(es[0].0, es[0].1, [("a", Some("1"))]);
    assert Lookup([("a", Some("2"))], "a") == Some("2");
    assert !EntryHolds(es[0].0, es[0].1, [("a", Some("2"))]);
  }

  /** A condition reads the properties only through `Lookup`, so insertion order cannot matter. */
  lemma {:induction false} ConditionMatchLookupOnly(c: Condition, p: Props, q: Props)
    requires forall k :: Lookup(p, k) == Lookup(q, k)
    ensures ConditionMatch(c, p) == ConditionMatch(c, q)
    decreases c
  {
    match c
    case Literal(es) =>
      forall i | 0 <= i < |es| ensures EntryHolds(es[i].0, es[i].1, p) == EntryHolds(es[i].0, es[i].1, q) {
        assert Lookup(p, es[i].0) == Lookup(q, es[i].0);
      }
    case And(cs) =>
      forall i | 0 <= i < |cs| ensures ConditionMatch(cs[i], p) == ConditionMatch(cs[i], q) {
        ConditionMatchLookupOnly(cs[i], p, q);
      }
    case Or(cs) =>
      forall i | 0 <= i < |cs| ensures ConditionMatch(cs[i], p) == ConditionMatch(cs[i], q) {
        ConditionMatchLookupOnly(cs[i], p, q);
      }
  }

  // Variants ---------------------------------------------------------------------

  /** One `k=v` constraint of a variant key: `blockProperties[key] === value`. */
  predicate ConstraintHolds(constraint: string, props: Props)
  {
    var e := EntryOf(constraint);
    Lookup(props, e.0) == e.1
  }

  /** Every comma-separated constraint of a variant key holds; unmentioned properties are ignored. */
  predicate VariantMatches(key: string, props: Props)
  {
    var constraints := Split(key, ',');
    forall i :: 0 <= i < |constraints| ==> ConstraintHolds(constraints[i], props)
  }

  /** The variant key `""` matches every state without a property named `""`. */
  lemma EmptyVariantKey(props: Props)
    requires Lookup(props, "") == None
    ensures VariantMatches("", props)
  {
    assert Split("", ',') == [""];
    assert Split("", '=') == [""];
  }

  /** The position of the first matching variant, or -1 when none matches. */
  function FirstMatchingVariant(variants: seq<(string, Apply)>, props: Props): (i: int)
    ensures -1 <= i < |variants|
    ensures 0 <= i ==> VariantMatches(variants[i].0, props)
    ensures forall j :: 0 <= j < |variants| && (i == -1 || j < i) ==> !VariantMatches(variants[j].0, props)
  {
    if |variants| == 0 then -1
    else if VariantMatches(variants[0].0, props) then 0
    else
      var i := FirstMatchingVariant(variants[1..], props);
      if i == -1 then -1 else i + 1
  }

  /** Given `{"a=1": M1, "a=1,b=2": M2}`, the state `a=1,b=2` gets `M1`: first match, not most specific. */
  lemma FirstNotMostSpecific(m1: Apply, m2: Apply)
    ensures var props := [("a", Some("1")), ("b", Some("2"))];
      FirstMatchingVariant([("a=1", m1), ("a=1,b=2", m2)], props) == 0
  {
    var props := [("a", Some("1")), ("b", Some("2"))];
    assert Split("a=1", ',') == ["a=1"];
    assert "a=1" == "a" + ['='] + "1";
    SplitOfConcat("a", '=', "1");
    assert Split("a", '=') == ["a"] && Split("1", '=') == ["1"];
    assert EntryOf("a=1") == ("a", Some("1"));
    assert ConstraintHolds("a=1", props);
  }

  // Multipart --------------------------------------------------------------------

  /** A part applies when its `when` holds; a missing `when` is the empty literal, which always holds. */
  predicate PartMatches(part: Part, props: Props)
  {
    ConditionMatch(part.when.GetOr(Literal([])), props)
  }

  /** The `apply` of every matching part, in declaration order. */
  function MatchingApplies(parts: seq<Part>, props: Props): (r: seq<Apply>)
  {
    var matching := Filter(parts, (p: Part) => PartMatches(p, props));
    seq(|matching|, i requires 0 <= i < |matching| => matching[i].apply)
  }

  /** Multipart selection is compositional over the part list, so it keeps declaration order. */
  lemma MatchingAppliesAppend(a: seq<Part>, b: seq<Part>, props: Props)
    ensures MatchingApplies(a + b, props) == MatchingApplies(a, props) + MatchingApplies(b, props)
  {
    FilterAppend(a, b, (p: Part) => PartMatches(p, props));
  }

  /** A single part contributes its `apply` exactly when it matches. */
  lemma MatchingAppliesSingle(part: Part, props: Props)
    ensures MatchingApplies([part], props) == if PartMatches(part, props) then [part.apply] else []
    ensures part.when.None? ==> MatchingApplies([part], props) == [part.apply]
  {
    assert [part][1..] == [];
  }

  /** No part is selected exactly when no part matches. */
  lemma {:induction false} MatchingAppliesEmpty(parts: seq<Part>, props: Props)
    ensures MatchingApplies(parts, props) == [] <==> forall i :: 0 <= i < |parts| ==> !PartMatches(parts[i], props)
  {
    if |parts| > 0 {
      assert parts == [parts[0]] + parts[1..];
      MatchingAppliesAppend([parts[0]], parts[1..], props);
      MatchingAppliesSingle(parts[0], props);
      MatchingAppliesEmpty(parts[1..], props);
    }
  }

  /** Given parts `{a:"1"}` and `{OR:[{a:"2"},{a:"1"}]}`, the state `a=1` selects both, in order. */
  lemma BothPartsSelected(m1: Apply, m2: Apply)
    ensures var props := [("a", Some("1"))];
      MatchingApplies([Part(m1, Some(Literal([("a", "1")]))),
                       Part(m2, Some(Or([Literal([("a", "2")]), Literal([("a", "1")])])))], props)
      == [m1, m2]
  {
    var props := [("a", Some("1"))];
    var p1 := Part(m1, Some(Literal([("a", "1")])));
    var p2 := Part(m2, Some(Or([Literal([("a", "2")]), Literal([("a", "1")])])));
    assert Split("1", '|') == ["1"];
    assert EntryHolds("a", "1", props);
    assert ConditionMatch(Literal([("a", "1")]), props);
    assert PartMatches(p1, props);
    var alternatives := [Literal([("a", "2")]), Literal([("a", "1")])];
    assert ConditionMatch(alternatives[1], props);
    assert PartMatches(p2, props);
    MatchingAppliesAppend([p1], [p2], props);
    MatchingAppliesSingle(p1, props);
    MatchingAppliesSingle(p2, props);
    assert [p1, p2] == [p1] + [p2];
  }

  // chooseModel -------------------------------------------------------------------

  /**
   * What `chooseModel` returns: `None` (null) for a block missing from the table, a
   * row with neither section, no matching variant or no matching part; otherwise the
   * first matching variant's value, or the matching parts' `apply` values in order.
   */
  function SelectParts(table: map<string, ModelCollection>, state: BlockState): (r: Option<seq<Apply>>)
    ensures state.name !in table ==> r == None
    ensures r.Some? ==> |r.value| > 0
  {
    if state.name !in table then None
    else
      var collection := table[state.name];
      match collection.variants
      case Some(variants) =>
        var i := FirstMatchingVariant(variants, state.properties);
        if i == -1 then None else Some([variants[i].1])
      case None =>
        match collection.multipart
        case None => None
        case Some(parts) =>
          var applies := MatchingApplies(parts, state.properties);
          if |applies| == 0 then None else Some(applies)
  }

  /** A variant search reads the properties only through `Lookup`. */
  lemma {:induction false} FirstMatchingVariantLookupOnly(variants: seq<(string, Apply)>, p: Props, q: Props)
    requires forall k :: Lookup(p, k) == Lookup(q, k)
    ensures FirstMatchingVariant(variants, p) == FirstMatchingVariant(variants, q)
  {
    if |variants| > 0 {
      var constraints := Split(variants[0].0, ',');
      forall i | 0 <= i < |constraints| ensures ConstraintHolds(constraints[i], p) == ConstraintHolds(constraints[i], q) {
        assert Lookup(p, EntryOf(constraints[i]).0) == Lookup(q, EntryOf(constraints[i]).0);
      }
      FirstMatchingVariantLookupOnly(variants[1..], p, q);
    }
  }

  /**
   * `chooseModel` depends on the state only through its name and `Lookup`: two
   * states whose objects hold the same keys and values choose the same parts.
   */
  lemma SelectPartsLookupOnly(table: map<string, ModelCollection>, s: BlockState, t: BlockState)
    requires s.name == t.name
    requires forall k :: Lookup(s.properties, k) == Lookup(t.properties, k)
    ensures SelectParts(table, s) == SelectParts(table, t)
  {
    if s.name in table {
      var collection := table[s.name];
      if collection.variants.Some? {
        FirstMatchingVariantLookupOnly(collection.variants.value, s.properties, t.properties);
      } else if collection.multipart.Some? {
        var parts := collection.multipart.value;
        forall i | 0 <= i < |parts| ensures PartMatches(parts[i], s.properties) == PartMatches(parts[i], t.properties) {
          ConditionMatchLookupOnly(parts[i].when.GetOr(Literal([])), s.properties, t.properties);
        }
        FilterCongruent(parts, (p: Part) => PartMatches(p, s.properties), (p: Part) => PartMatches(p, t.properties));
      }
    }
  }

  /**
   * One `key=value` constraint against the state's properties: it holds when the
   * state has exactly that entry, or when the constraint has no `=` and the state
   * lacks the key (`undefined === undefined`).
   */
  method CheckConstraint(constraint: string, props: Props) returns (holds: bool)
    ensures holds == ConstraintHolds(constraint, props)
    ensures ValidProps(props) ==>
      (holds <==>
        || (exists i :: 0 <= i < |props| && props[i] == EntryOf(constraint))
        || (EntryOf(constraint).1.None? && forall i :: 0 <= i < |props| ==> props[i].0 != EntryOf(constraint).0))
  {
    var kv := Split(constraint, '=');
    var key, value := kv[0], if |kv| > 1 then Some(kv[1]) else None;
    assert EntryOf(constraint) == (key, value);
    holds := Lookup(props, key) == value;
    if ValidProps(props) {
      if i :| 0 <= i < |props| && props[i].0 == key {
        assert holds <==> props[i] == (key, value);
      }
    }
  }

  /** The constraint loop of `chooseModel` for one variant key, with its `match` flag and early exit. */
  method MatchVariant(key: string, props: Props) returns (matched: bool)
    ensures matched == VariantMatches(key, props)
  {
    var constraints := Split(key, ',');
    var c := 0;
    while c < |constraints|
      invariant 0 <= c <= |constraints|
      invariant forall j :: 0 <= j < c ==> ConstraintHolds(constraints[j], props)
    {
      var holds := CheckConstraint(constraints[c], props);
      if !holds {
        return false;
      }
      c := c + 1;
    }
    return true;
  }

  /** `chooseModel`: the variant loop with its `match` flag and early return. */
  method ChooseModel(table: map<string, ModelCollection>, state: BlockState) returns (parts: Option<seq<Apply>>)
    ensures parts == SelectParts(table, state)
  {
    if state.name !in table {
      return None;
    }
    var collection := table[state.name];
    if collection.variants.None? && collection.multipart.None? {
      return None;
    }
    var props := state.properties;
    if collection.variants.Some? {
      var variants := collection.variants.value;
      var n := 0;
      while n < |variants|
        invariant 0 <= n <= |variants|
        invariant forall j :: 0 <= j < n ==> !VariantMatches(variants[j].0, props)
      {
        var matched := MatchVariant(variants[n].0, props);
        if matched {
          return Some([variants[n].1]);
        }
        n := n + 1;
      }
      return None;
    } else {
      var applies := MatchingApplies(collection.multipart.value, props);
      if |applies| == 0 {
        return None;
      }
      return Some(applies);
    }
  }
}
