/**
 * JavaScript `Set` semantics on sequences: a set remembers insertion order,
 * `add` of a present element is a no-op, and `Array.from` lists the elements
 * in insertion order. A set is the sequence of its elements in that order.
 */
module OrderedSets {

  /** No element occurs twice. */
  predicate Distinct<T(==)>(s: seq<T>)
  {
    forall i, j :: 0 <= i < j < |s| ==> s[i] != s[j]
  }

  /** `set.add(x)`. */
  function Add<T(==)>(acc: seq<T>, x: T): seq<T>
  {
    if x in acc then acc else acc + [x]
  }

  /** `xs.forEach(x => set.add(x))`. */
  function AddAll<T(==)>(acc: seq<T>, xs: seq<T>): seq<T>
  {
    if |xs| == 0 then acc
    else Add(AddAll(acc, xs[..|xs| - 1]), xs[|xs| - 1])
  }

  /** Adding keeps a set free of repeats. */
  lemma AddDistinct<T>(acc: seq<T>, x: T)
    requires Distinct(acc)
    ensures Distinct(Add(acc, x))
  {
    if x !in acc {
      var r := acc + [x];
      forall i, j | 0 <= i < j < |r| ensures r[i] != r[j] {
        if j == |acc| {
          assert r[i] == acc[i];
        }
      }
    }
  }

  /** The set after `forEach` holds what it held before and every element added. */
  lemma {:induction false} AddAllMembership<T>(acc: seq<T>, xs: seq<T>, y: T)
    ensures y in AddAll(acc, xs) <==> y in acc || y in xs
    decreases |xs|
  {
    if |xs| > 0 {
      var init := xs[..|xs| - 1];
      AddAllMembership(acc, init, y);
      assert xs == init + [xs[|xs| - 1]];
    }
  }

  /** `forEach` adding keeps a set free of repeats. */
  lemma {:induction false} AddAllDistinct<T>(acc: seq<T>, xs: seq<T>)
    requires Distinct(acc)
    ensures Distinct(AddAll(acc, xs))
    decreases |xs|
  {
    if |xs| > 0 {
      AddAllDistinct(acc, xs[..|xs| - 1]);
      AddDistinct(AddAll(acc, xs[..|xs| - 1]), xs[|xs| - 1]);
    }
  }

  /** Adding `a` and then `b` is adding `a + b`. */
  lemma {:induction false} AddAllConcat<T>(acc: seq<T>, a: seq<T>, b: seq<T>)
    ensures AddAll(acc, a + b) == AddAll(AddAll(acc, a), b)
    decreases |b|
  {
    if |b| == 0 {
      assert a + b == a;
    } else {
      var b' := b[..|b| - 1];
      assert (a + b)[..|a + b| - 1] == a + b';
      AddAllConcat(acc, a, b');
    }
  }

  /** One more step of a `forEach` over `xs`. */
  lemma AddAllStep<T>(acc: seq<T>, xs: seq<T>, j: nat)
    requires j < |xs|
    ensures AddAll(acc, xs[..j + 1]) == Add(AddAll(acc, xs[..j]), xs[j])
  {
    assert xs[..j + 1][..j] == xs[..j];
  }
}
