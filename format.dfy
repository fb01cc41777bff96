/**
 * The map text file at the level of tokens: what the editor's save writes
 * (map.h:1017-1048) and what load_map reads back (map.h:514-571).
 */
module MapFormat {
  import opened MapTypes
  import opened Adjacency

  /**
   * A token of the file: a header word such as `#layer1`, a decimal
   * integer, the end of a line, or a whole unit line. Unit lines print
   * `f32` fields with `%d`, so their content is left opaque.
   */
  datatype Token = Word(text: string) | Num(value: int) | UnitLine | Eol

  /** An integer the loader needs is missing: `fscanf` fails and the variable it reads into is never set. */
  datatype LoadError =
    | MissingNumber
      /** A width or height that create_map's `u16` loops cannot handle (the product must stay below 65536). */
    | BadSize
      /** Unit records are present; reading them with `%d` into `f32` fields is undefined. */
    | UnitRecords
      /** A building count is present; each building line has five conversions and three destinations. */
    | BuildingRecords

  /** A value read, and the position after it. */
  datatype Read<T> = Read(value: T, next: nat)

  /** What load_map gets out of a file it can read: the size and the three tile layers. */
  datatype Layout = Layout(width: nat, height: nat, layer1: seq<int>, layer2: seq<int>, layer3: seq<int>)

  // ---------------------------------------------------------------- save

  /** A layer line: every value followed by a space, which the tokens do not show. */
  function Ints(s: seq<int>): (r: seq<Token>)
    ensures |r| == |s| && forall j :: 0 <= j < |s| ==> r[j] == Num(s[j])
  {
    seq(|s|, j requires 0 <= j < |s| => Num(s[j]))
  }

  /** `n` unit lines. */
  function UnitLines(n: nat): (r: seq<Token>)
    ensures |r| == 2 * n
  {
    if n == 0 then [] else UnitLines(n - 1) + [UnitLine, Eol]
  }

  /** Everything save writes before the building lines. */
  function Header(w: int, h: int, g1: seq<int>, g2: seq<int>, g3: seq<int>, units: nat): seq<Token>
  {
    [Word("#map"), Eol, Word("#layer1"), Eol, Num(w), Eol, Num(h), Eol] + Ints(g1)
    + [Eol, Word("#layer2"), Eol] + Ints(g2)
    + [Eol, Word("#layer3"), Eol] + Ints(g3)
    + [Eol, Word("#units"), Eol, Num(units), Eol] + UnitLines(units)
    + [Word("#buildings"), Eol]
  }

  /** The building lines after `acc`, x outer and y inner: "x y hp" for every active cell, and no count. */
  function BuildingLines(ws: seq<Wall>, w: nat, h: nat, x: nat, y: nat, acc: seq<Token>): (r: seq<Token>)
    requires |ws| == w * h && x <= w && y <= h
    ensures |r| >= |acc| && r[..|acc|] == acc
    decreases w - x, h - y
  {
    if x == w then acc
    else if y == h then BuildingLines(ws, w, h, x + 1, 0, acc)
    else
      CellBounds(x, y, w, h);
      var k := Cell(x, y, w);
      var acc' := if ws[k].active then acc + [Num(x), Num(y), Num(ws[k].hp), Eol] else acc;
      var r := BuildingLines(ws, w, h, x, y + 1, acc');
      assert r[..|acc|] == r[..|acc'|][..|acc|];
      r
  }

  /** The file save writes for a map with `units` units. */
  function Encode(w: nat, h: nat, g1: seq<int>, g2: seq<int>, g3: seq<int>, units: nat, ws: seq<Wall>): seq<Token>
    requires |ws| == w * h
  {
    BuildingLines(ws, w, h, 0, 0, Header(w, h, g1, g2, g3, units))
  }

  // ---------------------------------------------------------------- load

  /** `fgets`: the position after the next end of line, or the end of the input. */
  function SkipLine(t: seq<Token>, p: nat): (r: nat)
    requires p <= |t|
    ensures p <= r <= |t|
    decreases |t| - p
  {
    if p == |t| then p else if t[p] == Eol then p + 1 else SkipLine(t, p + 1)
  }

  /** The white space `%d` skips. */
  function SkipBlank(t: seq<Token>, p: nat): (r: nat)
    requires p <= |t|
    ensures p <= r <= |t|
    decreases |t| - p
  {
    if p < |t| && t[p] == Eol then SkipBlank(t, p + 1) else p
  }

  /** `fscanf("%d")`: the integer after the white space, and the position after it. */
  function ReadInt(t: seq<Token>, p: nat): (r: Option<Read<int>>)
    requires p <= |t|
    ensures r.Some? ==> p < r.value.next <= |t|
  {
    var q := SkipBlank(t, p);
    if q < |t| && t[q].Num? then Some(Read(t[q].value, q + 1)) else None
  }

  /** `n` more values of a layer after `acc`, each stored into an `i16`. */
  function ReadLayer(t: seq<Token>, p: nat, n: nat, acc: seq<int>): (r: Option<Read<seq<int>>>)
    requires p <= |t|
    ensures r.Some? ==> p <= r.value.next <= |t| && |r.value.value| == |acc| + n
    decreases n
  {
    if n == 0 then Some(Read(acc, p))
    else
      match ReadInt(t, p)
      case None => None
      case Some(Read(v, q)) => ReadLayer(t, q, n - 1, acc + [I16(v)])
  }

  /** The two `fgets` calls load_map makes between sections. */
  function SkipTwo(t: seq<Token>, p: nat): (r: nat)
    requires p <= |t|
    ensures p <= r <= |t|
  {
    SkipLine(t, SkipLine(t, p))
  }

  /** Sizes create_map and load_map's `u16` counters handle. */
  predicate SizeOk(w: int, h: int)
  {
    0 <= w < U16_LIMIT && 0 <= h < U16_LIMIT && w * h < U16_LIMIT
  }

  /** The three layers from `p` on, `n` values each, with two `fgets` calls between one layer and the next. */
  function ReadGrids(t: seq<Token>, p: nat, n: nat): (r: Option<Read<(seq<int>, seq<int>, seq<int>)>>)
    requires p <= |t|
    ensures r.Some? ==> r.value.next <= |t|
    ensures r.Some? ==> |r.value.value.0| == n && |r.value.value.1| == n && |r.value.value.2| == n
  {
    match ReadLayer(t, p, n, [])
    case None => None
    case Some(Read(g1, p3)) =>
      match ReadLayer(t, SkipTwo(t, p3), n, [])
      case None => None
      case Some(Read(g2, p4)) =>
        match ReadLayer(t, SkipTwo(t, p4), n, [])
        case None => None
        case Some(Read(g3, p5)) => Some(Read((g1, g2, g3), p5))
  }

  /** load_map up to the unit count: the layout and the position after the three layers. */
  function DecodeLayers(t: seq<Token>): (r: Result<Read<Layout>, LoadError>)
    ensures r.Ok? ==> r.value.next <= |t| && SizeOk(r.value.value.width, r.value.value.height)
    ensures r.Ok? ==> var m := r.value.value; var n := m.width * m.height;
      |m.layer1| == n && |m.layer2| == n && |m.layer3| == n
  {
    match ReadInt(t, SkipTwo(t, 0))
    case None => Err(MissingNumber)
    case Some(Read(w, p1)) =>
      match ReadInt(t, p1)
      case None => Err(MissingNumber)
      case Some(Read(h, p2)) =>
        if !SizeOk(w, h) then Err(BadSize)
        else
          match ReadGrids(t, p2, w * h)
          case None => Err(MissingNumber)
          case Some(Read(g, p5)) => Ok(Read(Layout(w, h, g.0, g.1, g.2), p5))
  }

  /**
   * load_map after the layers end at `p5`: two `fgets` and the unit count;
   * then one `fgets` and the building count, which keeps the unit count
   * when no integer follows.
   */
  function DecodeRest(t: seq<Token>, layers: Result<Read<Layout>, LoadError>): Result<Layout, LoadError>
    requires layers.Ok? ==> layers.value.next <= |t|
  {
    match layers
    case Err(e) => Err(e)
    case Ok(Read(layout, p5)) =>
      match ReadInt(t, SkipTwo(t, p5))
      case None => Err(MissingNumber)
      case Some(Read(size, p6)) =>
        if size > 0 then Err(UnitRecords)
        else
          var count := match ReadInt(t, SkipLine(t, p6)) case None => size case Some(Read(n, _)) => n;
          if count > 0 then Err(BuildingRecords) else Ok(layout)
  }

  /** load_map. */
  function Decode(t: seq<Token>): Result<Layout, LoadError>
  {
    DecodeRest(t, DecodeLayers(t))
  }

  // ---------------------------------------------------------------- round trip

  predicate AllI16(s: seq<int>) { forall j :: 0 <= j < |s| ==> InI16(s[j]) }

  /** The first eight tokens: the `#map` and `#layer1` lines, the width and the height. */
  predicate SizeAt(t: seq<Token>, w: int, h: int)
  {
    && |t| >= 8 && t[0] == Word("#map") && t[1] == Eol && t[2] == Word("#layer1") && t[3] == Eol
    && t[4] == Num(w) && t[5] == Eol && t[6] == Num(h) && t[7] == Eol
  }

  /** The values of a layer, one token each, from position `q` on. */
  predicate LayerAt(t: seq<Token>, q: nat, g: seq<int>)
  {
    q + |g| <= |t| && forall j :: 0 <= j < |g| ==> t[q + j] == Num(g[j])
  }

  /** The end of a layer line at `p`, then the header line of the next section. */
  predicate HeaderAt(t: seq<Token>, p: nat, word: string)
  {
    p + 3 <= |t| && t[p] == Eol && t[p + 1] == Word(word) && t[p + 2] == Eol
  }

  /** The unit section at `p`: its header and count, and after the unit lines the `#buildings` line. */
  predicate UnitsAt(t: seq<Token>, p: nat, units: nat)
  {
    && p + 7 + 2 * units <= |t|
    && t[p] == Eol && t[p + 1] == Word("#units") && t[p + 2] == Eol && t[p + 3] == Num(units) && t[p + 4] == Eol
    && t[p + 5 + 2 * units] == Word("#buildings") && t[p + 6 + 2 * units] == Eol
  }

  /** The sections of a saved file, at their positions. */
  predicate Saved(t: seq<Token>, w: int, h: int, g1: seq<int>, g2: seq<int>, g3: seq<int>, units: nat)
  {
    var n := |g1|;
    && |g2| == n && |g3| == n && SizeAt(t, w, h)
    && LayerAt(t, 8, g1) && HeaderAt(t, 8 + n, "#layer2")
    && LayerAt(t, 11 + n, g2) && HeaderAt(t, 11 + 2 * n, "#layer3")
    && LayerAt(t, 14 + 2 * n, g3) && UnitsAt(t, 14 + 3 * n, units)
  }

  lemma SliceOfAppend(t: seq<Token>, x: seq<Token>, y: seq<Token>)
    requires |t| >= |x + y| && t[..|x + y|] == x + y
    ensures t[..|x|] == x && t[|x|..|x| + |y|] == y
  {
    assert t[..|x|] == (x + y)[..|x|];
    assert t[|x|..|x| + |y|] == (x + y)[|x|..];
  }

  /** A slice that holds a layer line. */
  lemma SliceLayer(t: seq<Token>, q: nat, g: seq<int>)
    requires q + |g| <= |t| && t[q..q + |g|] == Ints(g)
    ensures LayerAt(t, q, g)
  {
    forall j | 0 <= j < |g|
      ensures t[q + j] == Num(g[j])
    {
      assert t[q + j] == t[q..q + |g|][j];
    }
  }

  /** A slice that holds a section header after a layer line. */
  lemma SliceHeader(t: seq<Token>, p: nat, word: string)
    requires p + 3 <= |t| && t[p..p + 3] == [Eol, Word(word), Eol]
    ensures HeaderAt(t, p, word)
  {
    var x := t[p..p + 3];
    assert t[p] == x[0] && t[p + 1] == x[1] && t[p + 2] == x[2];
  }

  /** The sections of a saved file, as slices of the token list. */
  predicate SavedSlices(t: seq<Token>, w: int, h: int, g1: seq<int>, g2: seq<int>, g3: seq<int>, units: nat)
  {
    var n := |g1|;
    && |g2| == n && |g3| == n && |t| >= 21 + 3 * n + 2 * units
    && t[..8] == [Word("#map"), Eol, Word("#layer1"), Eol, Num(w), Eol, Num(h), Eol]
    && t[8..8 + n] == Ints(g1)
    && t[8 + n..11 + n] == [Eol, Word("#layer2"), Eol]
    && t[11 + n..11 + 2 * n] == Ints(g2)
    && t[11 + 2 * n..14 + 2 * n] == [Eol, Word("#layer3"), Eol]
    && t[14 + 2 * n..14 + 3 * n] == Ints(g3)
    && t[14 + 3 * n..19 + 3 * n] == [Eol, Word("#units"), Eol, Num(units), Eol]
    && t[19 + 3 * n + 2 * units..21 + 3 * n + 2 * units] == [Word("#buildings"), Eol]
  }

  /** The file save writes, section by section. */
  lemma EncodeSlices(w: nat, h: nat, g1: seq<int>, g2: seq<int>, g3: seq<int>, units: nat, ws: seq<Wall>)
    requires |ws| == w * h && |g1| == |g2| == |g3|
    ensures SavedSlices(Encode(w, h, g1, g2, g3, units, ws), w, h, g1, g2, g3, units)
  {
    var t := Encode(w, h, g1, g2, g3, units, ws);
    var a := [Word("#map"), Eol, Word("#layer1"), Eol, Num(w), Eol, Num(h), Eol];
    var b := [Eol, Word("#layer2"), Eol];
    var c := [Eol, Word("#layer3"), Eol];
    var d := [Eol, Word("#units"), Eol, Num(units), Eol];
    var e := [Word("#buildings"), Eol];
    var p1 := a + Ints(g1);
    var p2 := p1 + b;
    var p3 := p2 + Ints(g2);
    var p4 := p3 + c;
    var p5 := p4 + Ints(g3);
    var p6 := p5 + d;
    var p7 := p6 + UnitLines(units);
    assert Header(w, h, g1, g2, g3, units) == p7 + e;
    SliceOfAppend(t, p7, e);
    SliceOfAppend(t, p6, UnitLines(units));
    SliceOfAppend(t, p5, d);
    SliceOfAppend(t, p4, Ints(g3));
    SliceOfAppend(t, p3, c);
    SliceOfAppend(t, p2, Ints(g2));
    SliceOfAppend(t, p1, b);
    SliceOfAppend(t, a, Ints(g1));
  }

  /** The first eight tokens, one by one. */
  lemma SliceSize(t: seq<Token>, w: int, h: int)
    requires |t| >= 8 && t[..8] == [Word("#map"), Eol, Word("#layer1"), Eol, Num(w), Eol, Num(h), Eol]
    ensures SizeAt(t, w, h)
  {
    var x := t[..8];
    assert t[0] == x[0] && t[1] == x[1] && t[2] == x[2] && t[3] == x[3];
    assert t[4] == x[4] && t[5] == x[5] && t[6] == x[6] && t[7] == x[7];
  }

  /** The unit section, one token at a time. */
  lemma SliceUnits(t: seq<Token>, p: nat, q: nat, units: nat)
    requires q == p + 5 + 2 * units && q + 2 <= |t|
    requires t[p..p + 5] == [Eol, Word("#units"), Eol, Num(units), Eol] && t[q..q + 2] == [Word("#buildings"), Eol]
    ensures UnitsAt(t, p, units)
  {
    var x, y := t[p..p + 5], t[q..q + 2];
    assert t[p] == x[0] && t[p + 1] == x[1] && t[p + 2] == x[2] && t[p + 3] == x[3] && t[p + 4] == x[4];
    assert t[q] == y[0] && t[q + 1] == y[1];
  }

  /** The slices, token by token. */
  lemma SlicesSaved(t: seq<Token>, w: int, h: int, g1: seq<int>, g2: seq<int>, g3: seq<int>, units: nat)
    requires SavedSlices(t, w, h, g1, g2, g3, units)
    ensures Saved(t, w, h, g1, g2, g3, units)
  {
    var n := |g1|;
    SliceSize(t, w, h);
    SliceLayer(t, 8, g1);
    SliceHeader(t, 8 + n, "#layer2");
    SliceLayer(t, 11 + n, g2);
    SliceHeader(t, 11 + 2 * n, "#layer3");
    SliceLayer(t, 14 + 2 * n, g3);
    SliceUnits(t, 14 + 3 * n, 19 + 3 * n + 2 * units, units);
  }

  /** The file save writes has its sections where load_map looks for them. */
  lemma EncodeSaved(w: nat, h: nat, g1: seq<int>, g2: seq<int>, g3: seq<int>, units: nat, ws: seq<Wall>)
    requires |ws| == w * h && |g1| == |g2| == |g3|
    ensures Saved(Encode(w, h, g1, g2, g3, units, ws), w, h, g1, g2, g3, units)
  {
    EncodeSlices(w, h, g1, g2, g3, units, ws);
    SlicesSaved(Encode(w, h, g1, g2, g3, units, ws), w, h, g1, g2, g3, units);
  }

  /** Reading a layer line back gives its values, provided they fit into an `i16`. */
  lemma {:induction false} ReadLayerInts(t: seq<Token>, p: nat, q: nat, s: seq<int>, acc: seq<int>)
    requires |s| > 0 && p <= q && LayerAt(t, q, s) && SkipBlank(t, p) == q && AllI16(s)
    ensures ReadLayer(t, p, |s|, acc) == Some(Read(acc + s, q + |s|))
    decreases |s|
  {
    assert t[q + 0] == Num(s[0]);
    assert ReadInt(t, p) == Some(Read(s[0], q + 1));
    assert I16(s[0]) == s[0];
    if |s| > 1 {
      var s' := s[1..];
      assert t[q + 1] == Num(s[1]);
      assert SkipBlank(t, q + 1) == q + 1;
      forall j | 0 <= j < |s'|
        ensures t[q + 1 + j] == Num(s'[j])
      {
        assert s'[j] == s[j + 1] && t[q + 1 + j] == t[q + (j + 1)];
      }
      assert ReadLayer(t, p, |s|, acc) == ReadLayer(t, q + 1, |s'|, acc + [s[0]]);
      ReadLayerInts(t, q + 1, q + 1, s', acc + [s[0]]);
      assert acc + [s[0]] + s' == acc + s;
    } else {
      assert s == [s[0]];
    }
  }

  /** The two `fgets` calls step over the end of a layer line and the next section header. */
  lemma SkipSection(t: seq<Token>, p: nat, word: string)
    requires HeaderAt(t, p, word)
    ensures SkipTwo(t, p) == p + 3
  {
    assert SkipLine(t, p) == p + 1;
    assert SkipLine(t, p + 2) == p + 3;
  }

  /** The first two lines are skipped, then width and height are read. */
  lemma ReadSize(t: seq<Token>, w: int, h: int)
    requires SizeAt(t, w, h)
    ensures SkipTwo(t, 0) == 4 && ReadInt(t, 4) == Some(Read(w, 5)) && ReadInt(t, 5) == Some(Read(h, 7))
    ensures SkipBlank(t, 7) == SkipBlank(t, 8)
  {
    assert SkipLine(t, 1) == 2 && SkipLine(t, 3) == 4;
    assert SkipBlank(t, 6) == 6;
  }

  /** A layer of `n` values that start at `q` and end at `e`, right after the header of its section. */
  lemma ReadLayerAt(t: seq<Token>, p: nat, q: nat, e: nat, n: nat, g: seq<int>)
    requires |g| == n > 0 && p <= q && e == q + n && LayerAt(t, q, g) && AllI16(g)
    requires SkipBlank(t, p) == SkipBlank(t, q)
    ensures ReadLayer(t, p, n, []) == Some(Read(g, e))
  {
    assert t[q + 0] == Num(g[0]);
    assert SkipBlank(t, q) == q;
    ReadLayerInts(t, p, q, g, []);
    assert [] + g == g;
  }

  /** The first layer, right after the height. */
  lemma FirstLayer(t: seq<Token>, w: int, h: int, e: nat, n: nat, g: seq<int>)
    requires SizeAt(t, w, h) && |g| == n > 0 && e == 8 + n && LayerAt(t, 8, g) && AllI16(g)
    ensures ReadLayer(t, 7, n, []) == Some(Read(g, e))
  {
    ReadSize(t, w, h);
    ReadLayerAt(t, 7, 8, e, n, g);
  }

  /** A layer after the end of the previous one at `p` and the header of its section. */
  lemma NextLayer(t: seq<Token>, p: nat, q: nat, e: nat, n: nat, word: string, g: seq<int>)
    requires HeaderAt(t, p, word) && |g| == n > 0 && q == p + 3 && e == q + n && LayerAt(t, q, g) && AllI16(g)
    ensures ReadLayer(t, SkipTwo(t, p), n, []) == Some(Read(g, e))
  {
    SkipSection(t, p, word);
    ReadLayerAt(t, q, q, e, n, g);
  }

  /** The three layers, given where the read of each of them lands. */
  lemma GridsRead(t: seq<Token>, n: nat, g1: seq<int>, g2: seq<int>, g3: seq<int>, p: nat, p3: nat, p4: nat, p5: nat)
    requires p <= |t| && p3 <= |t| && p4 <= |t|
    requires ReadLayer(t, p, n, []) == Some(Read(g1, p3))
    requires ReadLayer(t, SkipTwo(t, p3), n, []) == Some(Read(g2, p4))
    requires ReadLayer(t, SkipTwo(t, p4), n, []) == Some(Read(g3, p5))
    ensures ReadGrids(t, p, n) == Some(Read((g1, g2, g3), p5))
  {
  }

  /** load_map reads the layers of a saved map with at least one cell back unchanged. */
  lemma SavedGrids(t: seq<Token>, w: int, h: int, g1: seq<int>, g2: seq<int>, g3: seq<int>, units: nat)
    requires Saved(t, w, h, g1, g2, g3, units) && |g1| > 0
    requires AllI16(g1) && AllI16(g2) && AllI16(g3)
    ensures |t| >= 8 && ReadGrids(t, 7, |g1|) == Some(Read((g1, g2, g3), 14 + 3 * |g1|))
  {
    var n := |g1|;
    FirstLayer(t, w, h, 8 + n, n, g1);
    NextLayer(t, 8 + n, 11 + n, 11 + 2 * n, n, "#layer2", g2);
    NextLayer(t, 11 + 2 * n, 14 + 2 * n, 14 + 3 * n, n, "#layer3", g3);
    GridsRead(t, n, g1, g2, g3, 7, 8 + n, 11 + 2 * n, 14 + 3 * n);
  }

  /** The unit section of a saved file: its count is read, and with no units no building count follows. */
  lemma UnitsSection(t: seq<Token>, p: nat, units: nat)
    requires UnitsAt(t, p, units)
    ensures p + 4 <= |t| && SkipTwo(t, p) == p + 3 && ReadInt(t, p + 3) == Some(Read(units, p + 4))
    ensures units == 0 ==> ReadInt(t, SkipLine(t, p + 4)) == None
  {
    assert SkipLine(t, p) == p + 1 && SkipLine(t, p + 2) == p + 3;
    assert SkipBlank(t, p + 3) == p + 3;
    if units == 0 {
      assert t[p + 5] == Word("#buildings");
      assert SkipLine(t, p + 4) == p + 5;
      assert SkipBlank(t, p + 5) == p + 5;
    }
  }

  /** load_map on a file whose size, layers and unit section land at the given positions. */
  lemma DecodeOfReads(t: seq<Token>, w: nat, h: nat, g: (seq<int>, seq<int>, seq<int>), p5: nat, units: nat)
    requires SizeOk(w, h) && |t| >= 8 && p5 + 4 <= |t|
    requires SkipTwo(t, 0) == 4 && ReadInt(t, 4) == Some(Read(w, 5)) && ReadInt(t, 5) == Some(Read(h, 7))
    requires ReadGrids(t, 7, w * h) == Some(Read(g, p5))
    requires SkipTwo(t, p5) == p5 + 3 && ReadInt(t, p5 + 3) == Some(Read(units, p5 + 4))
    requires units == 0 ==> ReadInt(t, SkipLine(t, p5 + 4)) == None
    ensures Decode(t) == if units > 0 then Err(UnitRecords) else Ok(Layout(w, h, g.0, g.1, g.2))
  {
    assert DecodeLayers(t) == Ok(Read(Layout(w, h, g.0, g.1, g.2), p5));
  }

  /** load_map on a saved map with at least one cell: the layers, then the unit count. */
  lemma SavedDecodes(t: seq<Token>, w: nat, h: nat, g1: seq<int>, g2: seq<int>, g3: seq<int>, units: nat)
    requires Saved(t, w, h, g1, g2, g3, units) && SizeOk(w, h) && |g1| == w * h > 0
    requires AllI16(g1) && AllI16(g2) && AllI16(g3)
    ensures Decode(t) == if units > 0 then Err(UnitRecords) else Ok(Layout(w, h, g1, g2, g3))
  {
    ReadSize(t, w, h);
    SavedGrids(t, w, h, g1, g2, g3, units);
    UnitsSection(t, 14 + 3 * |g1|, units);
    DecodeOfReads(t, w, h, (g1, g2, g3), 14 + 3 * |g1|, units);
  }

  /**
   * Saving and loading a map with at least one cell gives back its width,
   * height and three layers when it has no units, and fails on the unit
   * records when it has some. The building lines play no part: the loader
   * looks for a count at `#buildings`, finds none, and keeps the unit count
   * of 0, so every wall is lost.
   */
  lemma LayoutRoundTrip(w: nat, h: nat, g1: seq<int>, g2: seq<int>, g3: seq<int>, units: nat, ws: seq<Wall>)
    requires SizeOk(w, h) && w * h > 0 && |ws| == w * h
    requires |g1| == w * h && |g2| == w * h && |g3| == w * h
    requires AllI16(g1) && AllI16(g2) && AllI16(g3)
    ensures Decode(Encode(w, h, g1, g2, g3, units, ws)) ==
            if units > 0 then Err(UnitRecords) else Ok(Layout(w, h, g1, g2, g3))
  {
    EncodeSaved(w, h, g1, g2, g3, units, ws);
    SavedDecodes(Encode(w, h, g1, g2, g3, units, ws), w, h, g1, g2, g3, units);
  }

  /** Where load_map's reads land in a saved map with no cells: one line short each time. */
  lemma EmptySections(t: seq<Token>, w: int, h: int, units: nat)
    requires Saved(t, w, h, [], [], [], units)
    ensures |t| >= 16 && SkipTwo(t, 0) == 4 && ReadInt(t, 4) == Some(Read(w, 5)) && ReadInt(t, 5) == Some(Read(h, 7))
    ensures SkipTwo(t, 7) == 9 && SkipTwo(t, 9) == 12 && SkipTwo(t, 12) == 15 && ReadInt(t, 15) == None
  {
    ReadSize(t, w, h);
    assert SkipLine(t, 7) == 8 && SkipLine(t, 8) == 9;
    assert SkipLine(t, 10) == 11 && SkipLine(t, 9) == 11 && SkipLine(t, 11) == 12;
    assert SkipLine(t, 13) == 14 && SkipLine(t, 12) == 14 && SkipLine(t, 14) == 15;
    assert SkipBlank(t, 15) == 15;
  }

  /**
   * A map with no cells does not load: with empty layer lines the `fgets`
   * calls fall one line behind, and the unit count is looked for at
   * `#units`, where no integer stands.
   */
  lemma EmptyMapDoesNotLoad(w: nat, h: nat, units: nat, ws: seq<Wall>)
    requires SizeOk(w, h) && w * h == 0 && |ws| == 0
    ensures Decode(Encode(w, h, [], [], [], units, ws)) == Err(MissingNumber)
  {
    var t := Encode(w, h, [], [], [], units, ws);
    EncodeSaved(w, h, [], [], [], units, ws);
    EmptySections(t, w, h, units);
    GridsRead(t, 0, [], [], [], 7, 7, 9, 12);
    assert DecodeLayers(t) == Ok(Read(Layout(w, h, [], [], []), 12));
  }
}
