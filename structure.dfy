/**
 * The palette-to-grid encoder of the structure endpoint (`resolveStructure`),
 * applied to an already parsed structure file: a palette entry is its
 * namespaced `Name` and its optional `Properties`, a block is its position and
 * its palette index.
 *
 * Output strings are sequences of UTF-16 code units: `String.fromCharCode`
 * truncates its argument to 16 bits, which is where the name generator wraps.
 * Block names and property texts are Dafny strings, as in the renderer.
 */
module Structure {
  import opened Wrappers
  import opened JsStrings

  /** A UTF-16 code unit. */
  newtype CodeUnit = x: int | 0 <= x < 0x1_0000

  const Plus: CodeUnit := 43
  const Minus: CodeUnit := 45
  const Comma: CodeUnit := 44
  const Semicolon: CodeUnit := 59

  /** How many names `nameProvider` hands out before `String.fromCharCode` wraps around. */
  const NameCapacity: nat := 0x1_0000 - 0x4E00 + 52

  // Name generator ---------------------------------------------------------------------

  /** The code unit of the `n`-th call of a `nameProvider` closure. */
  function NameAt(n: nat): CodeUnit
  {
    ToUint16(if n < 26 then 65 + n else if n < 52 then 97 + n - 26 else 0x4E00 + n - 52)
  }

  /** The 16-bit truncation `String.fromCharCode` applies to a non-negative code. */
  function ToUint16(code: nat): CodeUnit
  {
    if code < 0x1_0000 then code as CodeUnit else ToUint16(code - 0x1_0000)
  }

  /** The truncation keeps the code modulo 2^16. */
  lemma {:induction false} ToUint16Mod(code: nat)
    ensures ToUint16(code) as int == code % 0x1_0000
  {
    if code >= 0x1_0000 {
      ToUint16Mod(code - 0x1_0000);
    }
  }

  /** Below the capacity the names are `A`–`Z`, then `a`–`z`, then U+4E00 upward, and never a marker or separator. */
  lemma NameAtRanges(n: nat)
    requires n < NameCapacity
    ensures n < 26 <==> 65 <= NameAt(n) <= 90
    ensures 26 <= n < 52 <==> 97 <= NameAt(n) <= 122
    ensures 52 <= n <==> 0x4E00 <= NameAt(n)
    ensures NameAt(n) != Plus && NameAt(n) != Minus && NameAt(n) != Comma && NameAt(n) != Semicolon
  {
  }

  /** Below the capacity, different calls give different names. */
  lemma NamesDistinct(m: nat, n: nat)
    requires m < NameCapacity && n < NameCapacity && m != n
    ensures NameAt(m) != NameAt(n)
  {
    NameAtRanges(m);
    NameAtRanges(n);
  }

  /** Past the capacity the names wrap: call 45,663 gives `+`, call 45,665 gives `-`, call 45,685 repeats `A`. */
  lemma NamesWrap()
    ensures NameAt(45663) == Plus && NameAt(45665) == Minus && NameAt(45685) == NameAt(0)
  {
    assert NameAt(45663) == ToUint16(0x1_0000 + 43) == ToUint16(43);
    assert NameAt(45665) == ToUint16(0x1_0000 + 45) == ToUint16(45);
    assert NameAt(45685) == ToUint16(0x1_0000 + 65) == ToUint16(65);
  }

  /** The closure returned by `nameProvider`, with its captured `count`. */
  class NameProvider {
    var count: nat

    constructor()
      ensures count == 0
    {
      count := 0;
    }

    /** One call of the closure: the next name, and the counter moves on. */
    method Next() returns (name: CodeUnit)
      modifies this
      ensures name == NameAt(old(count)) && count == old(count) + 1
      ensures old(count) < NameCapacity ==> name != Plus && name != Minus
    {
      var ch: int;
      if count < 26 {
        ch := 65 + count;
      } else if count < 52 {
        ch := 97 + count - 26;
      } else {
        ch := 0x4E00 + count - 52;
      }
      if old(count) < NameCapacity {
        NameAtRanges(count);
      }
      ToUint16Mod(ch);
      count := count + 1;
      name := (ch % 0x1_0000) as CodeUnit;
    }
  }

  // Palette mapping --------------------------------------------------------------------

  /** A palette entry: its namespaced `Name` and its `Properties` compound, when present. */
  datatype PaletteEntry = PaletteEntry(id: string, properties: Option<seq<(string, string)>>)

  /** `id.split(':', 2)[1]`: the name after the namespace, `undefined` when there is no `:`. */
  function BlockName(id: string): (r: Option<string>)
    ensures r.Some? <==> ':' in id
  {
    if |id| == 0 then None
    else if id[0] == ':' then Some(BeforeColon(id[1..]))
    else BlockName(id[1..])
  }

  /** The text up to the first `:`, or all of it. */
  function BeforeColon(s: string): (r: string)
    ensures ':' !in r
  {
    if |s| == 0 || s[0] == ':' then [] else [s[0]] + BeforeColon(s[1..])
  }

  /** A split whose first element is not the separator: the first piece grows, the others stay. */
  lemma SplitCons<T>(s: seq<T>, sep: T)
    requires |s| > 0 && s[0] != sep
    ensures |Split(s, sep)| == |Split(s[1..], sep)|
    ensures Split(s, sep)[0] == [s[0]] + Split(s[1..], sep)[0]
    ensures Split(s, sep)[1..] == Split(s[1..], sep)[1..]
  {
    var t := s[1..];
    var i, j := IndexOf(s, sep), IndexOf(t, sep);
    if j == -1 {
      assert Split(s, sep) == [s] && Split(t, sep) == [t];
    } else {
      assert i == j + 1;
      assert s[i + 1..] == t[j + 1..];
      assert s[..i] == [s[0]] + t[..j];
      assert Split(s, sep) == [s[..i]] + Split(t[j + 1..], sep);
      assert Split(t, sep) == [t[..j]] + Split(t[j + 1..], sep);
    }
  }

  lemma {:induction false} BeforeColonSplit(s: string)
    ensures BeforeColon(s) == Split(s, ':')[0]
  {
    if |s| > 0 && s[0] != ':' {
      BeforeColonSplit(s[1..]);
      SplitCons(s, ':');
    } else if |s| > 0 {
      assert IndexOf(s, ':') == 0;
    }
  }

  /** The scan for the name is `split(':', 2)[1]`: the second piece of the split, when there is one. */
  lemma {:induction false} BlockNameSplit(id: string)
    ensures var pieces := Split(id, ':');
      BlockName(id) == if |pieces| >= 2 then Some(pieces[1]) else None
  {
    if |id| == 0 {
      assert Split(id, ':') == [id];
    } else if id[0] == ':' {
      SplitLeadingSep(id, ':');
      BeforeColonSplit(id[1..]);
    } else {
      BlockNameSplit(id[1..]);
      SecondPieceCons(id, ':');
    }
  }

  lemma SecondPieceCons<T>(s: seq<T>, sep: T)
    requires |s| > 0 && s[0] != sep
    ensures |Split(s, sep)| == |Split(s[1..], sep)|
    ensures |Split(s, sep)| >= 2 ==> Split(s, sep)[1] == Split(s[1..], sep)[1]
  {
    SplitCons(s, sep);
    var p, q := Split(s, sep), Split(s[1..], sep);
    if |p| >= 2 {
      assert p[1] == p[1..][0] == q[1..][0] == q[1];
    }
  }

  lemma SplitLeadingSep<T>(s: seq<T>, sep: T)
    requires |s| > 0 && s[0] == sep
    ensures Split(s, sep) == [[]] + Split(s[1..], sep)
  {
    assert IndexOf(s, sep) == 0;
  }

  /** A namespaced id yields the part between the first and the second `:`. */
  lemma {:induction false} BlockNameOfNamespaced(ns: string, name: string, rest: Option<string>)
    requires ':' !in ns && ':' !in name
    ensures BlockName(ns + [':'] + NameTail(name, rest)) == Some(name)
  {
    var id := ns + [':'] + NameTail(name, rest);
    if |ns| == 0 {
      assert id == [':'] + NameTail(name, rest);
      BeforeColonOfTail(name, rest);
    } else {
      assert id[1..] == ns[1..] + [':'] + NameTail(name, rest);
      BlockNameOfNamespaced(ns[1..], name, rest);
    }
  }

  /** What follows the namespace: the name, then possibly a second `:` and more. */
  function NameTail(name: string, rest: Option<string>): string
  {
    if rest.Some? then name + [':'] + rest.value else name
  }

  lemma {:induction false} BeforeColonOfTail(name: string, rest: Option<string>)
    requires ':' !in name
    ensures BeforeColon(NameTail(name, rest)) == name
  {
    if |name| > 0 {
      assert NameTail(name, rest)[1..] == NameTail(name[1..], rest);
      BeforeColonOfTail(name[1..], rest);
    }
  }

  /** `${name}`: an `undefined` name prints as the text `undefined`. */
  function NameText(name: Option<string>): string
  {
    name.GetOr("undefined")
  }

  /** The marker of an `air` or `structure_void` entry; other entries draw a fresh name. */
  function MarkerOf(e: PaletteEntry): Option<CodeUnit>
  {
    var name := BlockName(e.id);
    if name == Some("air") then Some(Plus)
    else if name == Some("structure_void") then Some(Minus)
    else None
  }

  /** `${k}=${v}` for one property. */
  function FormatProperty(p: (string, string)): string
  {
    p.0 + "=" + p.1
  }

  function FormatProperties(props: seq<(string, string)>): (r: seq<string>)
    ensures |r| == |props|
  {
    seq(|props|, i requires 0 <= i < |props| => FormatProperty(props[i]))
  }

  /** `Object.entries(properties).map(...).sort().join(',')`. */
  function PropertiesText(props: seq<(string, string)>): string
  {
    Join(SortBy(FormatProperties(props), (s: string) => s), ',')
  }

  /**
   * The `stateMapper` value of an entry: `name[...]` when it has a `Properties`
   * compound, else the bare name, which is `undefined` (`None`) for an id
   * without a `:`. Inside the brackets an `undefined` name prints as text.
   */
  function StateText(e: PaletteEntry): (r: Option<string>)
    ensures r.None? <==> BlockName(e.id).None? && e.properties.None?
    ensures e.properties.Some? ==> r.Some? && |r.value| > 0 && r.value[|r.value| - 1] == ']'
  {
    var name := BlockName(e.id);
    if e.properties.Some? then Some(NameText(name) + "[" + PropertiesText(e.properties.value) + "]") else name
  }

  /** Without commas in keys and values, the bracketed text lists every `k=v` once, in sorted order. */
  lemma PropertiesTextPieces(props: seq<(string, string)>)
    requires |props| >= 1
    requires forall i :: 0 <= i < |props| ==> ',' !in props[i].0 && ',' !in props[i].1
    ensures var pieces := Split(PropertiesText(props), ',');
      multiset(pieces) == multiset(FormatProperties(props)) && SortedBy(pieces, (s: string) => s)
  {
    var formatted := FormatProperties(props);
    var sorted := SortBy(formatted, (s: string) => s);
    forall i | 0 <= i < |sorted| ensures ',' !in sorted[i] {
      assert sorted[i] in multiset(formatted);
      var j :| 0 <= j < |formatted| && formatted[j] == sorted[i];
      assert formatted[j] == props[j].0 + ['='] + props[j].1;
    }
    assert |sorted| == |multiset(sorted)| == |multiset(formatted)| == |props|;
    SplitOfJoin(sorted, ',');
  }

  /** How many entries of `palette` draw a fresh name. */
  function NamedCount(palette: seq<PaletteEntry>): (n: nat)
    ensures n <= |palette|
  {
    if |palette| == 0 then 0
    else NamedCount(palette[..|palette| - 1]) + (if MarkerOf(palette[|palette| - 1]).None? then 1 else 0)
  }

  /** The character of an entry when `named` names have been drawn before it. */
  function Mapped(e: PaletteEntry, named: nat): CodeUnit
  {
    match MarkerOf(e)
    case Some(c) => c
    case None => NameAt(named)
  }

  /** `indexMapper` after the palette: entry `k` maps to position `k`. */
  function IndexMap(palette: seq<PaletteEntry>): (r: seq<CodeUnit>)
    ensures |r| == |palette|
  {
    if |palette| == 0 then []
    else
      var init := palette[..|palette| - 1];
      IndexMap(init) + [Mapped(palette[|palette| - 1], NamedCount(init))]
  }

  /** `stateMapper` after the palette. */
  function StateMap(palette: seq<PaletteEntry>): map<CodeUnit, Option<string>>
  {
    if |palette| == 0 then map[]
    else
      var init, e := palette[..|palette| - 1], palette[|palette| - 1];
      if MarkerOf(e).Some? then StateMap(init) else StateMap(init)[NameAt(NamedCount(init)) := StateText(e)]
  }

  /** Counting names is monotone, and a named entry counts itself. */
  lemma {:induction false} NamedCountPrefix(palette: seq<PaletteEntry>, k: nat)
    requires k < |palette|
    ensures NamedCount(palette[..k]) + (if MarkerOf(palette[k]).None? then 1 else 0) <= NamedCount(palette)
    decreases |palette|
  {
    var n := |palette|;
    var init := palette[..n - 1];
    if k < n - 1 {
      assert init[..k] == palette[..k] && init[k] == palette[k];
      NamedCountPrefix(init, k);
    } else {
      assert palette[..k] == init;
    }
  }

  /** Entry `k` maps to the marker of its kind, or to the name drawn after the named entries before it. */
  lemma {:induction false} IndexMapAt(palette: seq<PaletteEntry>, k: nat)
    requires k < |palette|
    ensures IndexMap(palette)[k] == Mapped(palette[k], NamedCount(palette[..k]))
    decreases |palette|
  {
    var n := |palette|;
    var init := palette[..n - 1];
    if k < n - 1 {
      assert init[..k] == palette[..k] && init[k] == palette[k];
      IndexMapAt(init, k);
    } else {
      assert palette[..k] == init;
    }
  }

  /**
   * While no more than `NameCapacity` names are drawn, `+` marks exactly the `air`
   * entries and `-` exactly the `structure_void` entries.
   */
  lemma MarkersExactlyAirAndVoid(palette: seq<PaletteEntry>, k: nat)
    requires k < |palette| && NamedCount(palette) <= NameCapacity
    ensures IndexMap(palette)[k] == Plus <==> BlockName(palette[k].id) == Some("air")
    ensures IndexMap(palette)[k] == Minus <==> BlockName(palette[k].id) == Some("structure_void")
  {
    IndexMapAt(palette, k);
    NamedCountPrefix(palette, k);
    if MarkerOf(palette[k]).None? {
      NameAtRanges(NamedCount(palette[..k]));
    }
  }

  /** While no more than `NameCapacity` names are drawn, two named entries never share a character. */
  lemma NamedEntriesDistinct(palette: seq<PaletteEntry>, j: nat, k: nat)
    requires j < k < |palette| && NamedCount(palette) <= NameCapacity
    requires MarkerOf(palette[j]).None? && MarkerOf(palette[k]).None?
    ensures IndexMap(palette)[j] != IndexMap(palette)[k]
  {
    IndexMapAt(palette, j);
    IndexMapAt(palette, k);
    NamedCountPrefix(palette, k);
    NamedCountPrefix(palette[..k], j);
    assert palette[..k][..j] == palette[..j] && palette[..k][j] == palette[j];
    NamesDistinct(NamedCount(palette[..j]), NamedCount(palette[..k]));
  }

  /** The `i`-th name drawn is drawn by a named entry with `i` named entries before it. */
  lemma {:induction false} NamedEntry(palette: seq<PaletteEntry>, i: nat) returns (k: nat)
    requires i < NamedCount(palette)
    ensures k < |palette| && MarkerOf(palette[k]).None? && NamedCount(palette[..k]) == i
    decreases |palette|
  {
    var n := |palette|;
    var init := palette[..n - 1];
    if i < NamedCount(init) {
      k := NamedEntry(init, i);
      assert init[..k] == palette[..k] && init[k] == palette[k];
    } else {
      k := n - 1;
      assert palette[..k] == init;
    }
  }

  /** The keys of `stateMapper` are exactly the names drawn. */
  lemma {:induction false} StateMapKeys(palette: seq<PaletteEntry>, c: CodeUnit)
    ensures c in StateMap(palette) <==> exists i :: 0 <= i < NamedCount(palette) && c == NameAt(i)
    decreases |palette|
  {
    if |palette| > 0 {
      var init := palette[..|palette| - 1];
      StateMapKeys(init, c);
      if MarkerOf(palette[|palette| - 1]).None? && c == NameAt(NamedCount(init)) {
        assert 0 <= NamedCount(init) < NamedCount(palette);
      }
    }
  }

  /** While no more than `NameCapacity` names are drawn, `air` and `structure_void` get no `stateMapper` entry. */
  lemma MarkersHaveNoState(palette: seq<PaletteEntry>)
    requires NamedCount(palette) <= NameCapacity
    ensures Plus !in StateMap(palette) && Minus !in StateMap(palette)
  {
    StateMapKeys(palette, Plus);
    StateMapKeys(palette, Minus);
    forall i | 0 <= i < NamedCount(palette) ensures NameAt(i) != Plus && NameAt(i) != Minus {
      NameAtRanges(i);
    }
  }

  /** While no more than `NameCapacity` names are drawn, each named entry's character maps to its state text. */
  lemma StateMapEntry(palette: seq<PaletteEntry>, k: nat)
    requires k < |palette| && NamedCount(palette) <= NameCapacity && MarkerOf(palette[k]).None?
    ensures IndexMap(palette)[k] in StateMap(palette)
    ensures StateMap(palette)[IndexMap(palette)[k]] == StateText(palette[k])
  {
    IndexMapAt(palette, k);
    StateMapName(palette, k);
  }

  /** The name drawn by entry `k` keys its state text. */
  lemma {:induction false} StateMapName(palette: seq<PaletteEntry>, k: nat)
    requires k < |palette| && NamedCount(palette) <= NameCapacity && MarkerOf(palette[k]).None?
    ensures NameAt(NamedCount(palette[..k])) in StateMap(palette)
    ensures StateMap(palette)[NameAt(NamedCount(palette[..k]))] == StateText(palette[k])
    decreases |palette|
  {
    var n := |palette|;
    var init := palette[..n - 1];
    if k < n - 1 {
      assert init[..k] == palette[..k] && init[k] == palette[k];
      StateMapName(init, k);
      if MarkerOf(palette[n - 1]).None? {
        NamedCountPrefix(init, k);
        NamesDistinct(NamedCount(palette[..k]), NamedCount(init));
      }
    } else {
      assert palette[..k] == init;
    }
  }

  /** `palette.forEach`: fills `indexMapper` and `stateMapper`, drawing names from a fresh `nameProvider`. */
  method MapPalette(palette: seq<PaletteEntry>) returns (indexMapper: seq<CodeUnit>, stateMapper: map<CodeUnit, Option<string>>)
    ensures indexMapper == IndexMap(palette)
    ensures stateMapper == StateMap(palette)
  {
    var nextAvailableName := new NameProvider();
    indexMapper, stateMapper := [], map[];
    for k := 0 to |palette|
      invariant nextAvailableName.count == NamedCount(palette[..k])
      invariant indexMapper == IndexMap(palette[..k])
      invariant stateMapper == StateMap(palette[..k])
    {
      var v := palette[k];
      assert palette[..k + 1][..k] == palette[..k] && palette[..k + 1][k] == v;
      var name := BlockName(v.id);
      if name == Some("air") {
        indexMapper := indexMapper + [Plus];
      } else if name == Some("structure_void") {
        indexMapper := indexMapper + [Minus];
      } else {
        var mappedChar := nextAvailableName.Next();
        indexMapper := indexMapper + [mappedChar];
        if v.properties.Some? {
          var propertiesString := PropertiesText(v.properties.value);
          stateMapper := stateMapper[mappedChar := Some(NameText(name) + "[" + propertiesString + "]")];
        } else {
          stateMapper := stateMapper[mappedChar := name];
        }
      }
    }
    assert palette[..|palette|] == palette;
  }

  // Grid -------------------------------------------------------------------------------

  /** A block: its `pos` (`[px, py, pz]`) and its `state` palette index. */
  datatype Block = Block(x: int, y: int, z: int, state: int)

  /** The `size` list `[x, y, z]`. */
  datatype Size = Size(x: int, y: int, z: int)

  /** A grid cell: a code unit, or `undefined` for a palette index with no entry. */
  type Cell = Option<CodeUnit>

  datatype Fault =
    | InvalidArrayLength   // `Array(n)` with a negative length throws a RangeError
    | RowOutOfRange        // `mappedStructure[py][pz]` is `undefined`: the write throws a TypeError
    | ColumnOutOfRange     // `px` outside the row

  /**
   * The dimensions `(y, z, x)` of the nested arrays: `Array(y)`, then `Array(z)` for
   * each layer and `Array(x)` for each row. An inner array is built, and its length
   * checked, only when its outer array has an element.
   */
  function Dims(size: Size): (r: Result<(nat, nat, nat), Fault>)
    ensures r.Ok? ==> r.value.0 == size.y
    ensures r.Ok? && size.y > 0 ==> r.value.1 == size.z
    ensures r.Ok? && size.y > 0 && size.z > 0 ==> r.value.2 == size.x
    ensures r.Err? <==> size.y < 0 || (size.y > 0 && size.z < 0) || (size.y > 0 && size.z > 0 && size.x < 0)
  {
    if size.y < 0 then Err(InvalidArrayLength)
    else if size.y == 0 then Ok((0, 0, 0))
    else if size.z < 0 then Err(InvalidArrayLength)
    else if size.z == 0 then Ok((size.y, 0, 0))
    else if size.x < 0 then Err(InvalidArrayLength)
    else Ok((size.y, size.z, size.x))
  }

  /** `indexMapper.get(state)!`. */
  function LookupIndex(index: seq<CodeUnit>, state: int): (r: Cell)
    ensures r.Some? <==> 0 <= state < |index|
  {
    if 0 <= state < |index| then Some(index[state]) else None
  }

  /** The fault the write of block `b` raises in a grid of dimensions `d`, if any. */
  function BlockFault(b: Block, d: (nat, nat, nat)): (r: Option<Fault>)
    ensures r.None? <==> 0 <= b.y < d.0 && 0 <= b.z < d.1 && 0 <= b.x < d.2
  {
    if !(0 <= b.y < d.0 && 0 <= b.z < d.1) then Some(RowOutOfRange)
    else if !(0 <= b.x < d.2) then Some(ColumnOutOfRange)
    else None
  }

  /** The fault of the first block whose write fails. */
  function FirstFault(blocks: seq<Block>, d: (nat, nat, nat)): (r: Option<Fault>)
    ensures r.None? <==> forall n :: 0 <= n < |blocks| ==> BlockFault(blocks[n], d).None?
  {
    if |blocks| == 0 then None
    else
      var init := blocks[..|blocks| - 1];
      assert forall n :: 0 <= n < |init| ==> init[n] == blocks[n];
      if FirstFault(init, d).Some? then FirstFault(init, d) else BlockFault(blocks[|blocks| - 1], d)
  }

  /** A fault among the first blocks is the fault of the whole list. */
  lemma {:induction false} FirstFaultPrefix(blocks: seq<Block>, d: (nat, nat, nat), n: nat)
    requires n <= |blocks| && FirstFault(blocks[..n], d).Some?
    ensures FirstFault(blocks, d) == FirstFault(blocks[..n], d)
    decreases |blocks|
  {
    if n < |blocks| {
      var init := blocks[..|blocks| - 1];
      assert init[..n] == blocks[..n];
      FirstFaultPrefix(init, d, n);
    } else {
      assert blocks[..n] == blocks;
    }
  }

  /** Building the grid fails at the array lengths or at the first block written out of range. */
  function GridFault(size: Size, blocks: seq<Block>): Option<Fault>
  {
    match Dims(size)
    case Err(e) => Some(e)
    case Ok(d) => FirstFault(blocks, d)
  }

  /** The cell at layer `i`, row `j`, column `k` after writing `blocks` in order over a grid of `-`. */
  function CellAfter(blocks: seq<Block>, index: seq<CodeUnit>, i: int, j: int, k: int): Cell
  {
    if |blocks| == 0 then Some(Minus)
    else
      var b := blocks[|blocks| - 1];
      if b.y == i && b.z == j && b.x == k then LookupIndex(index, b.state)
      else CellAfter(blocks[..|blocks| - 1], index, i, j, k)
  }

  /** A cell no block is written to keeps its `-`. */
  lemma {:induction false} CellUntouched(blocks: seq<Block>, index: seq<CodeUnit>, i: int, j: int, k: int)
    requires forall n :: 0 <= n < |blocks| ==> !(blocks[n].y == i && blocks[n].z == j && blocks[n].x == k)
    ensures CellAfter(blocks, index, i, j, k) == Some(Minus)
  {
    if |blocks| > 0 {
      var init := blocks[..|blocks| - 1];
      assert forall n :: 0 <= n < |init| ==> init[n] == blocks[n];
      CellUntouched(init, index, i, j, k);
    }
  }

  /** A cell holds the mapped character of the last block written to it. */
  lemma {:induction false} CellLastWrite(blocks: seq<Block>, index: seq<CodeUnit>, n: nat)
    requires n < |blocks|
    requires forall m :: n < m < |blocks| ==>
      !(blocks[m].y == blocks[n].y && blocks[m].z == blocks[n].z && blocks[m].x == blocks[n].x)
    ensures CellAfter(blocks, index, blocks[n].y, blocks[n].z, blocks[n].x) == LookupIndex(index, blocks[n].state)
    decreases |blocks|
  {
    if n < |blocks| - 1 {
      var init := blocks[..|blocks| - 1];
      assert forall m :: n < m < |init| ==> init[m] == blocks[m];
      assert !(blocks[|blocks| - 1].y == blocks[n].y && blocks[|blocks| - 1].z == blocks[n].z
               && blocks[|blocks| - 1].x == blocks[n].x);
      CellLastWrite(init, index, n);
    }
  }

  /** The grid as values: `y` layers of `z` rows of `x` cells. */
  function GridOf(d: (nat, nat, nat), blocks: seq<Block>, index: seq<CodeUnit>): seq<seq<seq<Cell>>>
  {
    seq(d.0, i requires 0 <= i < d.0 =>
      seq(d.1, j requires 0 <= j < d.1 =>
        seq(d.2, k requires 0 <= k < d.2 => CellAfter(blocks, index, i, j, k))))
  }

  /** The contents of the grid array, as values. */
  function Contents(grid: array3<Cell>): seq<seq<seq<Cell>>>
    reads grid
  {
    seq(grid.Length0, i requires 0 <= i < grid.Length0 reads grid =>
      seq(grid.Length1, j requires 0 <= j < grid.Length1 reads grid =>
        seq(grid.Length2, k requires 0 <= k < grid.Length2 reads grid => grid[i, j, k])))
  }

  /** A grid holding `CellAfter` at every position has the contents `GridOf`. */
  lemma ContentsOfFilled(grid: array3<Cell>, blocks: seq<Block>, index: seq<CodeUnit>)
    requires forall i, j, k :: 0 <= i < grid.Length0 && 0 <= j < grid.Length1 && 0 <= k < grid.Length2 ==>
      grid[i, j, k] == CellAfter(blocks, index, i, j, k)
    ensures Contents(grid) == GridOf((grid.Length0, grid.Length1, grid.Length2), blocks, index)
  {
    var c, g := Contents(grid), GridOf((grid.Length0, grid.Length1, grid.Length2), blocks, index);
    forall i | 0 <= i < grid.Length0 ensures c[i] == g[i] {
      forall j | 0 <= j < grid.Length1 ensures c[i][j] == g[i][j] {
        assert forall k :: 0 <= k < grid.Length2 ==> c[i][j][k] == g[i][j][k];
      }
    }
  }

  /** The cell write of one block, in bounds. */
  lemma CellAfterStep(blocks: seq<Block>, index: seq<CodeUnit>, n: nat, i: int, j: int, k: int)
    requires n < |blocks|
    ensures CellAfter(blocks[..n + 1], index, i, j, k) ==
      if blocks[n].y == i && blocks[n].z == j && blocks[n].x == k then LookupIndex(index, blocks[n].state)
      else CellAfter(blocks[..n], index, i, j, k)
  {
    assert blocks[..n + 1][..n] == blocks[..n];
  }

  /**
   * `Array(y).fill([]).map(...)` and `blocks.forEach(...)`: a grid of `-` cells, then
   * one write per block, in order. The first failing write ends the build.
   */
  method BuildGrid(size: Size, blocks: seq<Block>, indexMapper: seq<CodeUnit>)
      returns (fault: Option<Fault>, grid: array3<Cell>)
    ensures fault == GridFault(size, blocks)
    ensures fault.None? ==> Dims(size) == Ok((grid.Length0, grid.Length1, grid.Length2))
    ensures fault.None? ==>
      forall i, j, k :: 0 <= i < grid.Length0 && 0 <= j < grid.Length1 && 0 <= k < grid.Length2 ==>
        grid[i, j, k] == CellAfter(blocks, indexMapper, i, j, k)
  {
    var dims := Dims(size);
    if dims.Err? {
      grid := new Cell[0, 0, 0];
      return Some(dims.error), grid;
    }
    var d := dims.value;
    var y, z, x := d.0, d.1, d.2;
    grid := new Cell[y, z, x]((i, j, k) => Some(Minus));
    for n := 0 to |blocks|
      invariant grid.Length0 == y && grid.Length1 == z && grid.Length2 == x
      invariant FirstFault(blocks[..n], d) == None
      invariant forall i, j, k :: 0 <= i < y && 0 <= j < z && 0 <= k < x ==>
        grid[i, j, k] == CellAfter(blocks[..n], indexMapper, i, j, k)
    {
      var v := blocks[n];
      assert blocks[..n + 1][..n] == blocks[..n] && blocks[..n + 1][n] == v;
      if !(0 <= v.y < y && 0 <= v.z < z) {
        FirstFaultPrefix(blocks, d, n + 1);
        return Some(RowOutOfRange), grid;
      }
      if !(0 <= v.x < x) {
        FirstFaultPrefix(blocks, d, n + 1);
        return Some(ColumnOutOfRange), grid;
      }
      grid[v.y, v.z, v.x] := LookupIndex(indexMapper, v.state);
      forall i, j, k | 0 <= i < y && 0 <= j < z && 0 <= k < x
        ensures grid[i, j, k] == CellAfter(blocks[..n + 1], indexMapper, i, j, k)
      {
        CellAfterStep(blocks, indexMapper, n, i, j, k);
      }
    }
    assert blocks[..|blocks|] == blocks;
    fault := None;
  }

  // Serialisation ----------------------------------------------------------------------

  /** How `join` prints a cell: `undefined` as nothing. */
  function CellText(c: Cell): seq<CodeUnit>
  {
    match c
    case Some(u) => [u]
    case None => []
  }

  /** `xp.join('')`. */
  function RowText(row: seq<Cell>): seq<CodeUnit>
  {
    if |row| == 0 then [] else RowText(row[..|row| - 1]) + CellText(row[|row| - 1])
  }

  /** `zp.map(...).join(',')`. */
  function LayerText(layer: seq<seq<Cell>>): seq<CodeUnit>
  {
    Join(seq(|layer|, j requires 0 <= j < |layer| => RowText(layer[j])), Comma)
  }

  /** `mappedStructure.map(...).join(';')`. */
  function GridText(grid: seq<seq<seq<Cell>>>): seq<CodeUnit>
  {
    Join(seq(|grid|, i requires 0 <= i < |grid| => LayerText(grid[i])), Semicolon)
  }

  /** A row of defined cells prints one code unit per cell, in order; a row never prints a code unit no cell holds. */
  lemma {:induction false} RowTextCells(row: seq<Cell>)
    ensures |RowText(row)| <= |row|
    ensures (forall k :: 0 <= k < |row| ==> row[k].Some?) ==>
      |RowText(row)| == |row| && forall k :: 0 <= k < |row| ==> RowText(row)[k] == row[k].value
    ensures forall u :: u in RowText(row) ==> Some(u) in row
  {
    if |row| > 0 {
      var init := row[..|row| - 1];
      RowTextCells(init);
      assert forall k :: 0 <= k < |init| ==> init[k] == row[k];
    }
  }

  /** A join holds no code unit that is neither the separator nor in a part. */
  lemma {:induction false} JoinAvoids(parts: seq<seq<CodeUnit>>, sep: CodeUnit, c: CodeUnit)
    requires c != sep && forall i :: 0 <= i < |parts| ==> c !in parts[i]
    ensures c !in Join(parts, sep)
  {
    if |parts| > 1 {
      JoinAvoids(parts[1..], sep, c);
    }
  }

  /** With no comma in any cell, the rows of a layer are recovered by `split(',')`. */
  lemma LayerRows(layer: seq<seq<Cell>>)
    requires |layer| >= 1
    requires forall j, k :: 0 <= j < |layer| && 0 <= k < |layer[j]| ==> layer[j][k] != Some(Comma)
    ensures Split(LayerText(layer), Comma) == seq(|layer|, j requires 0 <= j < |layer| => RowText(layer[j]))
  {
    var rows := seq(|layer|, j requires 0 <= j < |layer| => RowText(layer[j]));
    forall j | 0 <= j < |rows| ensures Comma !in rows[j] {
      RowTextCells(layer[j]);
    }
    SplitOfJoin(rows, Comma);
  }

  /** With no comma or semicolon in any cell, the layers of the grid are recovered by `split(';')`. */
  lemma GridLayers(grid: seq<seq<seq<Cell>>>)
    requires |grid| >= 1
    requires forall i, j, k :: 0 <= i < |grid| && 0 <= j < |grid[i]| && 0 <= k < |grid[i][j]| ==>
      grid[i][j][k] != Some(Semicolon)
    ensures Split(GridText(grid), Semicolon) == seq(|grid|, i requires 0 <= i < |grid| => LayerText(grid[i]))
  {
    var layers := seq(|grid|, i requires 0 <= i < |grid| => LayerText(grid[i]));
    forall i | 0 <= i < |layers| ensures Semicolon !in layers[i] {
      var rows := seq(|grid[i]|, j requires 0 <= j < |grid[i]| => RowText(grid[i][j]));
      forall j | 0 <= j < |rows| ensures Semicolon !in rows[j] {
        RowTextCells(grid[i][j]);
      }
      JoinAvoids(rows, Comma, Semicolon);
    }
    SplitOfJoin(layers, Semicolon);
  }

  // resolveStructure -------------------------------------------------------------------

  /** The palettes of a structure file: a `palettes` list, or a single `palette`. */
  datatype Palettes = Palettes(list: seq<seq<PaletteEntry>>) | SinglePalette(palette: seq<PaletteEntry>)

  /** A parsed structure file. */
  datatype StructureFile = StructureFile(size: Size, palettes: Palettes, blocks: seq<Block>)

  /**
   * `UNRESOLVED_STRUCTURE`, or a resolved result with its `blocks` record, as
   * the JSON body carries it, and its `structure` string.
   */
  datatype Resolution = Unresolved | Resolved(blocks: map<CodeUnit, string>, structure: seq<CodeUnit>)

  /** The `stateMapper` record as JSON: a key whose value is `undefined` is dropped. */
  function JsonRecord(record: map<CodeUnit, Option<string>>): map<CodeUnit, string>
  {
    map c | c in record && record[c].Some? :: record[c].value
  }

  /** The palette of the requested variant, or nothing when the variant index is out of bounds. */
  function SelectPalette(palettes: Palettes, variant: nat): (r: Option<seq<PaletteEntry>>)
    ensures palettes.Palettes? ==> (r.None? <==> variant >= |palettes.list|)
    ensures palettes.SinglePalette? ==> (r.None? <==> variant != 0)
  {
    match palettes
    case Palettes(list) => if variant >= |list| then None else Some(list[variant])
    case SinglePalette(p) => if variant != 0 then None else Some(p)
  }

  /**
   * `resolveStructure` after the download: `fetched` is `None` when the response
   * status is not 200. A failing write throws.
   */
  function Resolve(fetched: Option<StructureFile>, variant: nat): Result<Resolution, Fault>
  {
    if fetched.None? then Ok(Unresolved)
    else
      var file := fetched.value;
      match SelectPalette(file.palettes, variant)
      case None => Ok(Unresolved)
      case Some(palette) =>
        match GridFault(file.size, file.blocks)
        case Some(e) => Err(e)
        case None =>
          Ok(Resolved(JsonRecord(StateMap(palette)), GridText(GridOf(Dims(file.size).value, file.blocks, IndexMap(palette)))))
  }

  /** `resolveStructure`, from the downloaded file on. */
  method ResolveStructure(fetched: Option<StructureFile>, variant: nat) returns (r: Result<Resolution, Fault>)
    ensures r == Resolve(fetched, variant)
  {
    if fetched.None? {
      return Ok(Unresolved);
    }
    var file := fetched.value;
    var palette: seq<PaletteEntry>;
    match file.palettes {
      case Palettes(list) =>
        if variant >= |list| {
          return Ok(Unresolved);
        }
        palette := list[variant];
      case SinglePalette(p) =>
        if variant != 0 {
          return Ok(Unresolved);
        }
        palette := p;
    }
    var indexMapper, stateMapper := MapPalette(palette);
    var fault, mappedStructure := BuildGrid(file.size, file.blocks, indexMapper);
    if fault.Some? {
      return Err(fault.value);
    }
    ContentsOfFilled(mappedStructure, file.blocks, indexMapper);
    var structureStr := GridText(Contents(mappedStructure));
    r := Ok(Resolved(JsonRecord(stateMapper), structureStr));
  }

  /**
   * While no more than `NameCapacity` names are drawn, the `blocks` record sent
   * for a palette keys the character of each named entry to its state text,
   * unless that text is `undefined`, and holds no other key.
   */
  lemma ResolvedBlocks(palette: seq<PaletteEntry>)
    requires NamedCount(palette) <= NameCapacity
    ensures forall k :: 0 <= k < |palette| && MarkerOf(palette[k]).None? ==>
      (IndexMap(palette)[k] in JsonRecord(StateMap(palette)) <==> StateText(palette[k]).Some?)
    ensures forall k :: 0 <= k < |palette| && MarkerOf(palette[k]).None? && StateText(palette[k]).Some? ==>
      JsonRecord(StateMap(palette))[IndexMap(palette)[k]] == StateText(palette[k]).value
    ensures forall c :: c in JsonRecord(StateMap(palette)) ==>
      exists k :: 0 <= k < |palette| && MarkerOf(palette[k]).None? && IndexMap(palette)[k] == c
  {
    forall k | 0 <= k < |palette| && MarkerOf(palette[k]).None?
      ensures IndexMap(palette)[k] in StateMap(palette)
      ensures StateMap(palette)[IndexMap(palette)[k]] == StateText(palette[k])
    {
      StateMapEntry(palette, k);
    }
    forall c | c in JsonRecord(StateMap(palette))
      ensures exists k :: 0 <= k < |palette| && MarkerOf(palette[k]).None? && IndexMap(palette)[k] == c
    {
      StateMapKeys(palette, c);
      var i :| 0 <= i < NamedCount(palette) && c == NameAt(i);
      var k := NamedEntry(palette, i);
      IndexMapAt(palette, k);
    }
  }

  /** The result is unresolved exactly when the download failed or the variant index is out of bounds. */
  lemma UnresolvedIff(fetched: Option<StructureFile>, variant: nat)
    ensures Resolve(fetched, variant) == Ok(Unresolved) <==>
      fetched.None? ||
      (fetched.value.palettes.Palettes? && variant >= |fetched.value.palettes.list|) ||
      (fetched.value.palettes.SinglePalette? && variant != 0)
  {
  }

  /**
   * The `structure` string of a resolved file: `y` layers split by `;`, each of
   * `z` rows split by `,`, each row the `x` mapped characters of its cells, when
   * at most `NameCapacity` names are drawn and every block's state indexes the palette.
   */
  lemma ResolvedShape(file: StructureFile, variant: nat, palette: seq<PaletteEntry>)
    requires SelectPalette(file.palettes, variant) == Some(palette)
    requires GridFault(file.size, file.blocks).None?
    requires NamedCount(palette) <= NameCapacity
    requires forall n :: 0 <= n < |file.blocks| ==> 0 <= file.blocks[n].state < |palette|
    requires file.size.y > 0 && file.size.z > 0
    ensures Resolve(Some(file), variant).Ok? && Resolve(Some(file), variant).value.Resolved?
    ensures var text := Resolve(Some(file), variant).value.structure;
      Shaped(text, file.size.y, file.size.z, file.size.x)
  {
    var d := Dims(file.size).value;
    var grid: seq<seq<seq<Cell>>> := GridOf(d, file.blocks, IndexMap(palette));
    forall i, j, k | 0 <= i < d.0 && 0 <= j < d.1 && 0 <= k < d.2
      ensures grid[i][j][k].Some? && grid[i][j][k] != Some(Comma) && grid[i][j][k] != Some(Semicolon)
    {
      CellIsMapped(file.blocks, palette, i, j, k);
    }
    GridShape(grid, d.0, d.1, d.2);
  }

  /** `y` layers split by `;`, each of `z` rows split by `,`, each of `x` code units. */
  ghost predicate Shaped(text: seq<CodeUnit>, y: int, z: int, x: int)
  {
    var layers := Split(text, Semicolon);
    && |layers| == y
    && forall i :: 0 <= i < |layers| ==>
         var rows := Split(layers[i], Comma);
         |rows| == z && forall j :: 0 <= j < |rows| ==> |rows[j]| == x
  }

  /** A full `y` by `z` by `x` grid of defined non-separator cells prints in that shape. */
  lemma GridShape(grid: seq<seq<seq<Cell>>>, y: nat, z: nat, x: nat)
    requires y >= 1 && z >= 1 && |grid| == y
    requires forall i :: 0 <= i < y ==> |grid[i]| == z && forall j :: 0 <= j < z ==> |grid[i][j]| == x
    requires forall i, j, k :: 0 <= i < y && 0 <= j < z && 0 <= k < x ==>
      grid[i][j][k].Some? && grid[i][j][k] != Some(Comma) && grid[i][j][k] != Some(Semicolon)
    ensures Shaped(GridText(grid), y, z, x)
  {
    GridLayers(grid);
    var layers := Split(GridText(grid), Semicolon);
    forall i | 0 <= i < |layers|
      ensures var rows := Split(layers[i], Comma);
        |rows| == z && forall j :: 0 <= j < |rows| ==> |rows[j]| == x
    {
      assert layers[i] == LayerText(grid[i]);
      LayerShape(grid[i], z, x);
    }
  }

  lemma LayerShape(layer: seq<seq<Cell>>, z: nat, x: nat)
    requires z >= 1 && |layer| == z
    requires forall j :: 0 <= j < z ==> |layer[j]| == x
    requires forall j, k :: 0 <= j < z && 0 <= k < x ==> layer[j][k].Some? && layer[j][k] != Some(Comma)
    ensures var rows := Split(LayerText(layer), Comma);
      |rows| == z && forall j :: 0 <= j < |rows| ==> |rows[j]| == x
  {
    LayerRows(layer);
    forall j | 0 <= j < z ensures |RowText(layer[j])| == x {
      RowTextCells(layer[j]);
    }
  }

  /** Every cell of a grid whose blocks index the palette holds `-` or a mapped character, never a separator. */
  lemma CellIsMapped(blocks: seq<Block>, palette: seq<PaletteEntry>, i: int, j: int, k: int)
    requires NamedCount(palette) <= NameCapacity
    requires forall n :: 0 <= n < |blocks| ==> 0 <= blocks[n].state < |palette|
    ensures var c := CellAfter(blocks, IndexMap(palette), i, j, k);
      c.Some? && c != Some(Comma) && c != Some(Semicolon)
  {
    var index := IndexMap(palette);
    var c := CellAfter(blocks, index, i, j, k);
    var n := LastWriteAt(blocks, i, j, k);
    if n < 0 {
      CellUntouched(blocks, index, i, j, k);
    } else {
      CellLastWrite(blocks, index, n);
      var s := blocks[n].state;
      IndexMapAt(palette, s);
      NamedCountPrefix(palette, s);
      if MarkerOf(palette[s]).None? {
        NameAtRanges(NamedCount(palette[..s]));
      }
    }
  }

  /** The index of the last block written to `(i, j, k)`, or -1. */
  function LastWriteAt(blocks: seq<Block>, i: int, j: int, k: int): (n: int)
    ensures -1 <= n < |blocks|
    ensures n == -1 ==> forall m :: 0 <= m < |blocks| ==> !(blocks[m].y == i && blocks[m].z == j && blocks[m].x == k)
    ensures n >= 0 ==>
      && blocks[n].y == i && blocks[n].z == j && blocks[n].x == k
      && forall m :: n < m < |blocks| ==> !(blocks[m].y == i && blocks[m].z == j && blocks[m].x == k)
  {
    if |blocks| == 0 then -1
    else
      var b := blocks[|blocks| - 1];
      if b.y == i && b.z == j && b.x == k then |blocks| - 1
      else
        var init := blocks[..|blocks| - 1];
        assert forall m :: 0 <= m < |init| ==> init[m] == blocks[m];
        LastWriteAt(init, i, j, k)
  }

  // The GET handler --------------------------------------------------------------------

  /** The status the handler answers with: 200 for a resolved structure, 404 otherwise, 500 when resolving throws. */
  function Status(r: Result<Resolution, Fault>): (code: int)
    ensures code == 200 <==> r.Ok? && r.value.Resolved?
    ensures code == 404 <==> r.Ok? && r.value.Unresolved?
  {
    match r
    case Err(_) => 500
    case Ok(Unresolved) => 404
    case Ok(Resolved(_, _)) => 200
  }
}
