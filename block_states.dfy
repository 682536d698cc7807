/**
 * The block-state codec of the renderer route: parsing `name[k=v,...]`
 * (`stringToState`) and the two canonical keys (`stateToString`, and
 * `stateToStringFilteredWaterLogged` for the occlusion and liquid tables).
 *
 * A block state's properties are a JavaScript object: an ordered list of
 * entries with distinct keys, iterated in insertion order. A value can be
 * `undefined` (the descriptor `a[k]` has no `=`); it prints as "undefined".
 */
module BlockStates {
  import opened Wrappers
  import opened JsStrings

  type Entry = (string, Option<string>)
  type Props = seq<Entry>

  datatype BlockState = BlockState(name: string, properties: Props)

  function KeyOf(e: Entry): string { e.0 }

  /** A JavaScript object never holds one key twice. */
  predicate ValidProps(p: Props)
  {
    DistinctBy(p, KeyOf)
  }

  /** `blockProperties[k]`: `None` when `k` is absent or holds `undefined`. */
  function Lookup(p: Props, k: string): (r: Option<string>)
    ensures ValidProps(p) ==> forall i :: 0 <= i < |p| && p[i].0 == k ==> r == p[i].1
    ensures (forall i :: 0 <= i < |p| ==> p[i].0 != k) ==> r == None
  {
    if |p| == 0 then None
    else if p[0].0 == k then p[0].1
    else Lookup(p[1..], k)
  }

  /** `acc[k] = v`: overwrites an existing key in place, otherwise appends. */
  function Assign(p: Props, k: string, v: Option<string>): (r: Props)
    ensures (forall i :: 0 <= i < |p| ==> p[i].0 != k) ==> r == p + [(k, v)]
    ensures |r| == |p| || |r| == |p| + 1
    ensures forall i :: 0 <= i < |r| ==> (i < |p| && r[i] == p[i]) || r[i] == (k, v)
  {
    if |p| == 0 then [(k, v)]
    else if p[0].0 == k then [(k, v)] + p[1..]
    else
      assert p == [p[0]] + p[1..];
      [p[0]] + Assign(p[1..], k, v)
  }

  /** Assigning keeps the keys of a JavaScript object distinct. */
  lemma {:induction false} AssignValid(p: Props, k: string, v: Option<string>)
    requires ValidProps(p)
    ensures ValidProps(Assign(p, k, v))
  {
    if |p| > 0 && p[0].0 != k {
      var rest := Assign(p[1..], k, v);
      AssignValid(p[1..], k, v);
      forall i | 0 <= i < |rest| ensures rest[i].0 != p[0].0 {
        if rest[i] != (k, v) {
          assert p[i + 1] == rest[i];
        }
      }
      assert Assign(p, k, v) == [p[0]] + rest;
    }
  }

  /** After `acc[k] = v`, reading `k` gives `v` and every other key reads as before. */
  lemma {:induction false} AssignLookup(p: Props, k: string, v: Option<string>, k': string)
    ensures Lookup(Assign(p, k, v), k') == if k' == k then v else Lookup(p, k')
  {
    if |p| > 0 && p[0].0 != k {
      AssignLookup(p[1..], k, v, k');
    }
  }

  // Printing -------------------------------------------------------------------

  /** `${v}` for a possibly undefined value. */
  function Show(v: Option<string>): string
  {
    match v
    case Some(s) => s
    case None => "undefined"
  }

  /** `${key}=${value}`. */
  function FormatEntry(e: Entry): string
  {
    e.0 + "=" + Show(e.1)
  }

  function FormatEntries(p: Props): (r: seq<string>)
    ensures |r| == |p|
  {
    seq(|p|, i requires 0 <= i < |p| => FormatEntry(p[i]))
  }

  /** `name[k1=v1,...]` with the entries sorted by key, or the bare name when there are none. */
  function Bracketed(name: string, p: Props): (r: string)
    ensures |p| == 0 <==> r == name
    ensures |r| >= |name| && r[..|name|] == name
  {
    if |p| > 0 then name + "[" + Join(FormatEntries(SortBy(p, KeyOf)), ',') + "]"
    else name
  }

  /** `stateToString`: the canonical key of a state. */
  function StateToString(s: BlockState): string
  {
    Bracketed(s.name, s.properties)
  }

  function NotWaterlogged(e: Entry): bool { e.0 != "waterlogged" }

  /** `stateToStringFilteredWaterLogged`: the canonical key without the `waterlogged` entry. */
  function StateToStringFilteredWaterLogged(s: BlockState): string
  {
    Bracketed(s.name, Filter(s.properties, NotWaterlogged))
  }

  // Parsing --------------------------------------------------------------------

  /** The entry `val` denotes: `const [key, value] = val.split('=')`. */
  function EntryOf(val: string): Entry
  {
    var kv := Split(val, '=');
    (kv[0], if |kv| > 1 then Some(kv[1]) else None)
  }

  /** A key and a (defined) value that survive `split(',')` and `split('=')` intact. */
  predicate CleanEntry(e: Entry)
  {
    CleanToken(e.0) && (e.1.Some? ==> CleanToken(e.1.value))
  }

  /** A piece of a comma split denotes a clean entry. */
  lemma EntryOfClean(val: string)
    requires ',' !in val
    ensures CleanEntry(EntryOf(val))
  {
    var kv := Split(val, '=');
    JoinOfSplit(val, '=');
    forall j | 0 <= j < |kv| ensures ',' !in kv[j] {
      if ',' in kv[j] {
        JoinContains(kv, '=', j, ',');
      }
    }
  }

  /** `parts.reduce((acc, val) => { acc[key] = value; return acc }, {})`, a left fold. */
  function ParseEntries(parts: seq<string>): (r: Props)
    ensures ValidProps(r)
    ensures |parts| > 0 ==> |r| > 0
    ensures (forall j :: 0 <= j < |parts| ==> CleanEntry(EntryOf(parts[j]))) ==>
              forall i :: 0 <= i < |r| ==> CleanEntry(r[i])
  {
    if |parts| == 0 then []
    else
      var acc := ParseEntries(parts[..|parts| - 1]);
      var e := EntryOf(parts[|parts| - 1]);
      assert forall j :: 0 <= j < |parts| - 1 ==> parts[..|parts| - 1][j] == parts[j];
      AssignValid(acc, e.0, e.1);
      Assign(acc, e.0, e.1)
  }

  /** A character of a piece of a join is a character of the joined string. */
  lemma {:induction false} JoinContains<T>(parts: seq<seq<T>>, sep: T, j: nat, c: T)
    requires j < |parts| && c in parts[j]
    ensures c in Join(parts, sep)
  {
    if |parts| > 1 {
      if j > 0 {
        JoinContains(parts[1..], sep, j - 1, c);
      }
    }
  }

  /** `stringToState`. */
  function StringToState(str: string): (s: BlockState)
    ensures '[' !in s.name
    ensures ValidProps(s.properties)
    ensures forall i :: 0 <= i < |s.properties| ==> CleanEntry(s.properties[i])
    ensures '[' !in str ==> s == BlockState(str, [])
    ensures '[' in str ==> |s.properties| > 0
  {
    var split := IndexOf(str, '[');
    if split == -1 then BlockState(str, [])
    else
      var body := if |str| > 0 && str[|str| - 1] == ']' then str[..|str| - 1] else str;
      assert body[..split] == str[..split];
      var pieces := Split(body[split + 1..], ',');
      forall j | 0 <= j < |pieces| ensures CleanEntry(EntryOf(pieces[j])) {
        SplitPieces(body[split + 1..], ',', j);
        EntryOfClean(pieces[j]);
      }
      BlockState(body[..split], ParseEntries(pieces))
  }

  // Properties -----------------------------------------------------------------

  /** A key or value that survives `split(',')` and `split('=')` intact. */
  predicate CleanToken(t: string)
  {
    ',' !in t && '=' !in t
  }

  /** A state whose canonical key parses back: what `stringToState` yields when every value is defined. */
  predicate Printable(s: BlockState)
  {
    && '[' !in s.name
    && ValidProps(s.properties)
    && forall i :: 0 <= i < |s.properties| ==> CleanEntry(s.properties[i]) && s.properties[i].1.Some?
  }

  /** The canonical key does not depend on property insertion order. */
  lemma StateToStringOrderIndependent(s: BlockState, t: BlockState)
    requires s.name == t.name
    requires ValidProps(s.properties)
    requires multiset(s.properties) == multiset(t.properties)
    ensures StateToString(s) == StateToString(t)
  {
    assert |s.properties| == |multiset(s.properties)| == |t.properties|;
    SortByPermutation(s.properties, t.properties, KeyOf);
  }

  /** Filtering `waterlogged` out of two permutations leaves two permutations. */
  lemma FilterPermutation(p: Props, q: Props)
    requires multiset(p) == multiset(q)
    ensures multiset(Filter(p, NotWaterlogged)) == multiset(Filter(q, NotWaterlogged))
  {
    forall e ensures multiset(Filter(p, NotWaterlogged))[e] == multiset(Filter(q, NotWaterlogged))[e] {
      FilterMultiset(p, NotWaterlogged, e);
      FilterMultiset(q, NotWaterlogged, e);
    }
  }

  lemma {:induction false} FilterDistinct(p: Props)
    requires ValidProps(p)
    ensures ValidProps(Filter(p, NotWaterlogged))
  {
    if |p| > 0 {
      FilterDistinct(p[1..]);
      var rest := Filter(p[1..], NotWaterlogged);
      forall i | 0 <= i < |rest| ensures rest[i].0 != p[0].0 {
        assert rest[i] in multiset(rest);
        FilterMultiset(p[1..], NotWaterlogged, rest[i]);
        assert rest[i] in multiset(p[1..]);
      }
    }
  }

  /** The occlusion/liquid key does not depend on property insertion order either. */
  lemma FilteredKeyOrderIndependent(s: BlockState, t: BlockState)
    requires s.name == t.name
    requires ValidProps(s.properties)
    requires multiset(s.properties) == multiset(t.properties)
    ensures StateToStringFilteredWaterLogged(s) == StateToStringFilteredWaterLogged(t)
  {
    FilterPermutation(s.properties, t.properties);
    FilterDistinct(s.properties);
    StateToStringOrderIndependent(
      BlockState(s.name, Filter(s.properties, NotWaterlogged)),
      BlockState(t.name, Filter(t.properties, NotWaterlogged)));
  }

  lemma {:induction false} FilterAssignWaterlogged(p: Props, v: Option<string>)
    ensures Filter(Assign(p, "waterlogged", v), NotWaterlogged) == Filter(p, NotWaterlogged)
  {
    if |p| > 0 {
      var a := Assign(p, "waterlogged", v);
      if p[0].0 == "waterlogged" {
        assert a[1..] == p[1..];
      } else {
        FilterAssignWaterlogged(p[1..], v);
        assert a[1..] == Assign(p[1..], "waterlogged", v);
      }
    }
  }

  /**
   * Setting `waterlogged` to any value, or adding it, leaves the occlusion/liquid key
   * unchanged: `b[waterlogged=true]` and `b[waterlogged=false]` share one row.
   */
  lemma WaterloggedIgnored(s: BlockState, v: Option<string>)
    ensures StateToStringFilteredWaterLogged(BlockState(s.name, Assign(s.properties, "waterlogged", v)))
         == StateToStringFilteredWaterLogged(s)
  {
    FilterAssignWaterlogged(s.properties, v);
  }

  lemma {:induction false} FilterAllKept(p: Props)
    requires forall i :: 0 <= i < |p| ==> p[i].0 != "waterlogged"
    ensures Filter(p, NotWaterlogged) == p
  {
    if |p| > 0 {
      FilterAllKept(p[1..]);
      assert p == [p[0]] + p[1..];
    }
  }

  /** Without a `waterlogged` entry both keys coincide. */
  lemma FilteredKeyWhenDry(s: BlockState)
    requires forall i :: 0 <= i < |s.properties| ==> s.properties[i].0 != "waterlogged"
    ensures StateToStringFilteredWaterLogged(s) == StateToString(s)
  {
    FilterAllKept(s.properties);
  }

  /** A clean, defined entry prints as `k=v` and reads back as itself. */
  lemma EntryRoundTrip(e: Entry)
    requires CleanEntry(e) && e.1.Some?
    ensures EntryOf(FormatEntry(e)) == e
    ensures ',' !in FormatEntry(e)
  {
    SplitOfConcat(e.0, '=', e.1.value);
    assert FormatEntry(e) == e.0 + ['='] + e.1.value;
  }

  lemma {:induction false} ParseFormatted(ps: Props)
    requires ValidProps(ps)
    requires forall i :: 0 <= i < |ps| ==> CleanEntry(ps[i]) && ps[i].1.Some?
    ensures ParseEntries(FormatEntries(ps)) == ps
    decreases |ps|
  {
    if |ps| > 0 {
      var n := |ps|;
      var init, last := ps[..n - 1], ps[n - 1];
      assert init + [last] == ps;
      assert ValidProps(init) by {
        forall i, j | 0 <= i < j < |init| ensures KeyOf(init[i]) != KeyOf(init[j]) {
          assert init[i] == ps[i] && init[j] == ps[j];
        }
      }
      ParseFormatted(init);
      var fs := FormatEntries(ps);
      FormatEntriesInit(ps);
      assert ParseEntries(fs[..n - 1]) == init;
      EntryRoundTrip(last);
      assert EntryOf(fs[n - 1]) == last;
      assert ParseEntries(fs) == Assign(init, last.0, last.1);
      forall i | 0 <= i < |init| ensures init[i].0 != last.0 {
        assert KeyOf(ps[i]) != KeyOf(ps[n - 1]);
      }
      assert Assign(init, last.0, last.1) == init + [last];
    }
  }

  lemma FormatEntriesInit(ps: Props)
    requires |ps| > 0
    ensures FormatEntries(ps)[..|ps| - 1] == FormatEntries(ps[..|ps| - 1])
  {
  }

  /** Parsing a canonical key gives back the state with its entries in key order. */
  lemma ParseOfCanonicalKey(s: BlockState)
    requires Printable(s) && |s.properties| > 0
    ensures StringToState(StateToString(s)) == BlockState(s.name, SortBy(s.properties, KeyOf))
  {
    var sorted := SortBy(s.properties, KeyOf);
    SortByDistinct(s.properties, KeyOf);
    forall i | 0 <= i < |sorted| ensures CleanEntry(sorted[i]) && sorted[i].1.Some? {
      assert sorted[i] in multiset(s.properties);
    }
    var entries := FormatEntries(sorted);
    forall i | 0 <= i < |entries| ensures ',' !in entries[i] {
      EntryRoundTrip(sorted[i]);
    }
    var joined := Join(entries, ',');
    var str := s.name + "[" + joined + "]";
    assert StateToString(s) == str;
    IndexOfFirst(s.name, '[', joined + "]");
    assert str == s.name + ['['] + (joined + "]");
    var body := str[..|str| - 1];
    assert body == s.name + "[" + joined;
    assert body[..|s.name|] == s.name;
    assert body[|s.name| + 1..] == joined;
    SplitOfJoin(entries, ',');
    ParseFormatted(sorted);
  }

  /**
   * Round trip: the canonical key of a printable state parses back to the same
   * name and the same entries (in key order), hence to the same canonical key.
   */
  lemma CanonicalKeyRoundTrip(s: BlockState)
    requires Printable(s)
    ensures StringToState(StateToString(s)).name == s.name
    ensures multiset(StringToState(StateToString(s)).properties) == multiset(s.properties)
    ensures StateToString(StringToState(StateToString(s))) == StateToString(s)
  {
    if |s.properties| > 0 {
      ParseOfCanonicalKey(s);
      StateToStringOrderIndependent(s, StringToState(StateToString(s)));
    }
  }

  /** Reading a key does not depend on insertion order. */
  lemma LookupPermutation(p: Props, q: Props, k: string)
    requires ValidProps(p) && ValidProps(q)
    requires multiset(p) == multiset(q)
    ensures Lookup(p, k) == Lookup(q, k)
  {
    if i :| 0 <= i < |p| && p[i].0 == k {
      assert p[i] in multiset(q);
      var j :| 0 <= j < |q| && q[j] == p[i];
    } else {
      forall j | 0 <= j < |q| ensures q[j].0 != k {
        assert q[j] in multiset(p);
      }
    }
  }

  /**
   * A property written without `=` (`a[k]`) parses to an undefined value, yet the
   * canonical key of that state parses to the different state `a[k=undefined]`.
   */
  lemma UndefinedValueSharesKey(name: string, k: string)
    requires '[' !in name && CleanToken(k)
    ensures StringToState(name + "[" + k + "]") == BlockState(name, [(k, None)])
    ensures StateToString(BlockState(name, [(k, None)])) == StateToString(BlockState(name, [(k, Some("undefined"))]))
    ensures StringToState(StateToString(BlockState(name, [(k, None)]))) == BlockState(name, [(k, Some("undefined"))])
  {
    BareKeyParses(name, k);
    UndefinedPrintsAsText(name, k);
    UndefinedTextParses(name, k);
  }

  lemma UndefinedTextParses(name: string, k: string)
    requires '[' !in name && CleanToken(k)
    ensures StringToState(StateToString(BlockState(name, [(k, Some("undefined"))]))) == BlockState(name, [(k, Some("undefined"))])
  {
    var explicit := BlockState(name, [(k, Some("undefined"))]);
    UndefinedIsClean();
    ParseOfCanonicalKey(explicit);
    assert SortBy(explicit.properties, KeyOf) == explicit.properties;
  }

  lemma UndefinedIsClean()
    ensures CleanToken("undefined")
  {
  }

  lemma UndefinedPrintsAsText(name: string, k: string)
    ensures StateToString(BlockState(name, [(k, None)])) == StateToString(BlockState(name, [(k, Some("undefined"))]))
  {
    assert SortBy([(k, None)], KeyOf) == [(k, None)];
    assert SortBy([(k, Some("undefined"))], KeyOf) == [(k, Some("undefined"))];
  }

  lemma BareKeyParses(name: string, k: string)
    requires '[' !in name && CleanToken(k)
    ensures StringToState(name + "[" + k + "]") == BlockState(name, [(k, None)])
  {
    var str := name + "[" + k + "]";
    IndexOfFirst(name, '[', k + "]");
    assert str == name + ['['] + (k + "]");
    assert str[..|str| - 1][..|name|] == name;
    assert str[..|str| - 1][|name| + 1..] == k;
    assert Split(k, ',') == [k];
    assert Split(k, '=') == [k];
    assert ParseEntries([k]) == [(k, None)];
  }
}
