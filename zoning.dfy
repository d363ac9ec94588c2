/** Step 3 of the wizard: the blocks of the chosen locality are joined with
    the locality's zoning areas to give each block a land-use category, and
    the distinct categories are given palette colours for the block map. */
module Zoning {
  import opened Tables

  // ---------------------------------------------------------------------
  // Restriction to the selected locality
  // ---------------------------------------------------------------------

  /** `manzanas[manzanas["num_localidad"] == cod]`, in table order. */
  function BlocksOf(blocks: seq<Block>, cod: int): (r: seq<Block>)
    ensures |r| <= |blocks|
    ensures forall b :: b in r <==> b in blocks && b.locality == cod
    ensures forall b :: multiset(r)[b] == if b.locality == cod then multiset(blocks)[b] else 0
  {
    if blocks == [] then []
    else
      assert blocks == [blocks[0]] + blocks[1..];
      (if blocks[0].locality == cod then [blocks[0]] else []) + BlocksOf(blocks[1..], cod)
  }

  /** `areas[areas["num_localidad"] == cod]`, in table order. */
  function AreasOf(areas: seq<ZoningArea>, cod: int): (r: seq<ZoningArea>)
    ensures |r| <= |areas|
    ensures forall a :: a in r <==> a in areas && a.locality == cod
    ensures forall a :: multiset(r)[a] == if a.locality == cod then multiset(areas)[a] else 0
  {
    if areas == [] then []
    else
      assert areas == [areas[0]] + areas[1..];
      (if areas[0].locality == cod then [areas[0]] else []) + AreasOf(areas[1..], cod)
  }

  /** A block table with no block of the locality leaves it without blocks. */
  lemma {:induction false} BlocksOfNone(blocks: seq<Block>, cod: int)
    requires forall b :: b in blocks ==> b.locality != cod
    ensures BlocksOf(blocks, cod) == []
  {
    if blocks != [] {
      assert blocks[0] in blocks;
      BlocksOfNone(blocks[1..], cod);
    }
  }

  /** A zoning table with no area of the locality leaves it without areas. */
  lemma {:induction false} AreasOfNone(areas: seq<ZoningArea>, cod: int)
    requires forall a :: a in areas ==> a.locality != cod
    ensures AreasOf(areas, cod) == []
  {
    if areas != [] {
      assert areas[0] in areas;
      AreasOfNone(areas[1..], cod);
    }
  }

  // ---------------------------------------------------------------------
  // The left join on id_area
  // ---------------------------------------------------------------------

  /** One row of the merged table: a block and the joined usage (missing
      when nothing matched or the area's usage is null). */
  datatype Joined = Joined(block: Block, usage: Option<string>)

  /** Usage values of the areas whose id equals the key, in table order.
      A null key matches no area. */
  function Matches(areas: seq<ZoningArea>, key: Option<int>): seq<Option<string>>
  {
    if areas == [] || key.None? then []
    else (if areas[0].id == key.value then [areas[0].usage] else []) + Matches(areas[1..], key)
  }

  /** The merged rows of one block: one per matching area, or a single row
      with a missing usage when no area matches (`how="left"`). */
  function JoinBlock(b: Block, areas: seq<ZoningArea>): seq<Joined>
  {
    var m := Matches(areas, b.area);
    if m == [] then [Joined(b, None)]
    else seq(|m|, i requires 0 <= i < |m| => Joined(b, m[i]))
  }

  /** `manzanas_sel.merge(areas_sel[["id_area", "uso_pot_simplificado"]], on="id_area", how="left")`:
      left rows in order, each expanded to its matches in right-table order. */
  function LeftJoin(blocks: seq<Block>, areas: seq<ZoningArea>): seq<Joined>
  {
    if blocks == [] then [] else JoinBlock(blocks[0], areas) + LeftJoin(blocks[1..], areas)
  }

  /** `fillna(fill)` on the usage column. */
  function FillNa(rows: seq<Joined>, fill: string): seq<ClassifiedBlock>
  {
    seq(|rows|, i requires 0 <= i < |rows| => ClassifiedBlock(rows[i].block, rows[i].usage.GetOr(fill)))
  }

  /** The classified table of a locality: with no zoning areas every block is
      `Unclassified`; otherwise the left join followed by `fillna`. */
  function Classify(blocks: seq<Block>, areas: seq<ZoningArea>): seq<ClassifiedBlock>
  {
    if areas == [] then seq(|blocks|, i requires 0 <= i < |blocks| => ClassifiedBlock(blocks[i], Unclassified))
    else FillNa(LeftJoin(blocks, areas), Unclassified)
  }

  /** Reference lookup: the usage of the first area whose id is the key;
      missing when the key is null, nothing matches or the usage is null. */
  function Lookup(areas: seq<ZoningArea>, key: Option<int>): Option<string>
  {
    if areas == [] || key.None? then None
    else if areas[0].id == key.value then areas[0].usage
    else Lookup(areas[1..], key)
  }

  /** True when no two zoning areas share an id. */
  predicate IdsDistinct(areas: seq<ZoningArea>)
  {
    forall i, j :: 0 <= i < j < |areas| ==> areas[i].id != areas[j].id
  }

  lemma {:induction false} MatchesNone(areas: seq<ZoningArea>, key: Option<int>)
    requires key.Some? ==> forall j :: 0 <= j < |areas| ==> areas[j].id != key.value
    ensures Matches(areas, key) == []
    ensures Lookup(areas, key) == None
  {
    if areas != [] && key.Some? {
      MatchesNone(areas[1..], key);
    }
  }

  /** With distinct area ids a block has at most one match, and the match is
      the reference lookup. */
  lemma {:induction false} MatchesDistinct(areas: seq<ZoningArea>, key: Option<int>)
    requires IdsDistinct(areas)
    ensures Matches(areas, key) == [] || Matches(areas, key) == [Lookup(areas, key)]
    ensures Matches(areas, key) == [] ==> Lookup(areas, key) == None
  {
    if areas != [] && key.Some? {
      if areas[0].id == key.value {
        MatchesNone(areas[1..], key);
      } else {
        MatchesDistinct(areas[1..], key);
      }
    }
  }

  lemma {:induction false} LeftJoinDistinct(blocks: seq<Block>, areas: seq<ZoningArea>)
    requires IdsDistinct(areas)
    ensures |LeftJoin(blocks, areas)| == |blocks|
    ensures forall i :: 0 <= i < |blocks| ==>
      LeftJoin(blocks, areas)[i].block == blocks[i] &&
      LeftJoin(blocks, areas)[i].usage == Lookup(areas, blocks[i].area)
  {
    if blocks != [] {
      MatchesDistinct(areas, blocks[0].area);
      LeftJoinDistinct(blocks[1..], areas);
      var head := JoinBlock(blocks[0], areas);
      assert head == [Joined(blocks[0], Lookup(areas, blocks[0].area))];
      forall i | 1 <= i < |blocks|
        ensures LeftJoin(blocks, areas)[i] == LeftJoin(blocks[1..], areas)[i - 1]
      {
      }
    }
  }

  /** With distinct area ids the join keeps one row per block, in order, and
      each block's category is the matched area's usage, or `Unclassified`
      when the locality has no areas, the block has no area, nothing matches
      or the usage is null. */
  lemma ClassifyDistinct(blocks: seq<Block>, areas: seq<ZoningArea>)
    requires IdsDistinct(areas)
    ensures |Classify(blocks, areas)| == |blocks|
    ensures forall i :: 0 <= i < |blocks| ==>
      Classify(blocks, areas)[i] == ClassifiedBlock(blocks[i], Lookup(areas, blocks[i].area).GetOr(Unclassified))
  {
    if areas != [] {
      LeftJoinDistinct(blocks, areas);
    }
  }

  /** A locality without zoning areas: every block is `Unclassified`. */
  lemma ClassifyNoAreas(blocks: seq<Block>)
    ensures |Classify(blocks, [])| == |blocks|
    ensures forall r :: r in Classify(blocks, []) ==> r.category == Unclassified
  {
  }

  lemma {:induction false} JoinBlockSound(b: Block, areas: seq<ZoningArea>, k: nat)
    requires k < |JoinBlock(b, areas)|
    ensures JoinBlock(b, areas)[k].block == b
    ensures JoinBlock(b, areas)[k].usage.Some? ==>
      exists j :: 0 <= j < |areas| && Some(areas[j].id) == b.area && areas[j].usage == JoinBlock(b, areas)[k].usage
  {
    var m := Matches(areas, b.area);
    if m != [] {
      MatchesSound(areas, b.area, k);
    }
  }

  lemma {:induction false} MatchesSound(areas: seq<ZoningArea>, key: Option<int>, k: nat)
    requires k < |Matches(areas, key)|
    ensures exists j :: 0 <= j < |areas| && Some(areas[j].id) == key && areas[j].usage == Matches(areas, key)[k]
  {
    var first := if areas[0].id == key.value then [areas[0].usage] else [];
    if k < |first| {
      assert Some(areas[0].id) == key && areas[0].usage == Matches(areas, key)[k];
    } else {
      MatchesSound(areas[1..], key, k - |first|);
      var j :| 0 <= j < |areas[1..]| && Some(areas[1..][j].id) == key && areas[1..][j].usage == Matches(areas[1..], key)[k - |first|];
      assert Some(areas[j + 1].id) == key && areas[j + 1].usage == Matches(areas, key)[k];
    }
  }

  lemma {:induction false} LeftJoinSound(blocks: seq<Block>, areas: seq<ZoningArea>, k: nat)
    requires k < |LeftJoin(blocks, areas)|
    ensures LeftJoin(blocks, areas)[k].block in blocks
    ensures LeftJoin(blocks, areas)[k].usage.Some? ==>
      exists j :: 0 <= j < |areas| && Some(areas[j].id) == LeftJoin(blocks, areas)[k].block.area
               && areas[j].usage == LeftJoin(blocks, areas)[k].usage
  {
    var head := JoinBlock(blocks[0], areas);
    if k < |head| {
      JoinBlockSound(blocks[0], areas, k);
    } else {
      LeftJoinSound(blocks[1..], areas, k - |head|);
    }
  }

  lemma {:induction false} LeftJoinCovers(blocks: seq<Block>, areas: seq<ZoningArea>, i: nat)
    requires i < |blocks|
    ensures exists k :: 0 <= k < |LeftJoin(blocks, areas)| && LeftJoin(blocks, areas)[k].block == blocks[i]
  {
    var head := JoinBlock(blocks[0], areas);
    assert head[0].block == blocks[0];
    if i == 0 {
      assert LeftJoin(blocks, areas)[0].block == blocks[0];
    } else {
      LeftJoinCovers(blocks[1..], areas, i - 1);
      var k :| 0 <= k < |LeftJoin(blocks[1..], areas)| && LeftJoin(blocks[1..], areas)[k].block == blocks[1..][i - 1];
      assert LeftJoin(blocks, areas)[|head| + k].block == blocks[i];
    }
  }

  /** For any zoning table (ids repeated or not): every row of the classified
      table is a block of the locality whose category is `Unclassified` or
      the usage of an area carrying the block's id_area. */
  lemma ClassifySound(blocks: seq<Block>, areas: seq<ZoningArea>, k: nat)
    requires k < |Classify(blocks, areas)|
    ensures Classify(blocks, areas)[k].block in blocks
    ensures Classify(blocks, areas)[k].category == Unclassified ||
      exists j :: 0 <= j < |areas| && Some(areas[j].id) == Classify(blocks, areas)[k].block.area
               && areas[j].usage == Some(Classify(blocks, areas)[k].category)
  {
    if areas != [] {
      LeftJoinSound(blocks, areas, k);
    }
  }

  /** For any zoning table: no block of the locality is lost by the join. */
  lemma ClassifyCovers(blocks: seq<Block>, areas: seq<ZoningArea>, i: nat)
    requires i < |blocks|
    ensures exists k :: 0 <= k < |Classify(blocks, areas)| && Classify(blocks, areas)[k].block == blocks[i]
  {
    if areas == [] {
      assert Classify(blocks, areas)[i].block == blocks[i];
    } else {
      LeftJoinCovers(blocks, areas, i);
      var k :| 0 <= k < |LeftJoin(blocks, areas)| && LeftJoin(blocks, areas)[k].block == blocks[i];
      assert Classify(blocks, areas)[k].block == blocks[i];
    }
  }

  // ---------------------------------------------------------------------
  // Distinct categories and the colour map
  // ---------------------------------------------------------------------

  /** `px.colors.qualitative.Plotly`. */
  const PlotlyPalette: seq<string> :=
    ["#636EFA", "#EF553B", "#00CC96", "#AB63FA", "#FFA15A", "#19D3F3", "#FF6692", "#B6E880", "#FF97FF", "#FECB52"]

  predicate NoDup(s: seq<string>)
  {
    forall i, j :: 0 <= i < j < |s| ==> s[i] != s[j]
  }

  /** Position of the first occurrence of `x` in `s`. */
  function FirstIndex(s: seq<string>, x: string): (k: nat)
    requires x in s
    ensures k < |s| && s[k] == x
    ensures forall j :: 0 <= j < k ==> s[j] != x
  {
    if s[0] == x then 0 else 1 + FirstIndex(s[1..], x)
  }

  /** `Series.unique()`: each value once, in order of first appearance. */
  function Distinct(s: seq<string>): (d: seq<string>)
    ensures NoDup(d)
    ensures forall x :: x in d <==> x in s
  {
    if s == [] then []
    else
      var p := Distinct(s[..|s| - 1]);
      if s[|s| - 1] in p then p else p + [s[|s| - 1]]
  }

  lemma {:induction false} FirstIndexPrefix(s: seq<string>, n: nat, x: string)
    requires n <= |s| && x in s[..n]
    ensures FirstIndex(s, x) == FirstIndex(s[..n], x)
  {
    if s[0] != x {
      assert s[1..][..n - 1] == s[..n][1..];
      FirstIndexPrefix(s[1..], n - 1, x);
    }
  }

  /** The distinct values are listed in the order of their first appearance. */
  lemma {:induction false} DistinctOrder(s: seq<string>)
    ensures forall i, j :: 0 <= i < j < |Distinct(s)| ==>
      FirstIndex(s, Distinct(s)[i]) < FirstIndex(s, Distinct(s)[j])
  {
    if s != [] {
      var n := |s| - 1;
      var pre := s[..n];
      var p := Distinct(pre);
      DistinctOrder(pre);
      forall x | x in p ensures FirstIndex(s, x) == FirstIndex(pre, x) < n {
        assert s[..n] == pre;
        FirstIndexPrefix(s, n, x);
      }
      if s[n] !in p {
        assert s[n] !in pre;
        assert FirstIndex(s, s[n]) == n;
      }
    }
  }

  /** The dict comprehension `{cat: palette[i % len(palette)] for i, cat in enumerate(cats)}`,
      as the sequence of insertions it performs. */
  function PaletteAssign(cats: seq<string>, palette: seq<string>): map<string, string>
    requires |palette| > 0
  {
    if cats == [] then map[]
    else PaletteAssign(cats[..|cats| - 1], palette)[cats[|cats| - 1] := palette[(|cats| - 1) % |palette|]]
  }

  /** The colour map: palette colours for the categories, then the dedicated
      colour for `Unclassified` only if it did not get one already. */
  function ColorMap(cats: seq<string>, palette: seq<string>): map<string, string>
    requires |palette| > 0
  {
    var m := PaletteAssign(cats, palette);
    if Unclassified in m then m else m[Unclassified := UnclassifiedColor]
  }

  lemma {:induction false} PaletteAssignSpec(cats: seq<string>, palette: seq<string>)
    requires |palette| > 0 && NoDup(cats)
    ensures forall x :: x in PaletteAssign(cats, palette) <==> x in cats
    ensures forall i :: 0 <= i < |cats| ==> PaletteAssign(cats, palette)[cats[i]] == palette[i % |palette|]
  {
    if cats != [] {
      var n := |cats| - 1;
      PaletteAssignSpec(cats[..n], palette);
    }
  }

  /** The i-th distinct category gets `palette[i mod |palette|]`; the map has
      exactly the categories and `Unclassified`; `Unclassified` gets the
      dedicated colour only when it is not one of the categories. */
  lemma ColorMapSpec(cats: seq<string>, palette: seq<string>)
    requires |palette| > 0 && NoDup(cats)
    ensures forall x :: x in ColorMap(cats, palette) <==> x in cats || x == Unclassified
    ensures forall i :: 0 <= i < |cats| ==> ColorMap(cats, palette)[cats[i]] == palette[i % |palette|]
    ensures Unclassified !in cats ==> ColorMap(cats, palette)[Unclassified] == UnclassifiedColor
  {
    PaletteAssignSpec(cats, palette);
  }

  /** `color_map.get(category, "#2b2b2b")`. */
  function BlockColor(category: string, colors: map<string, string>): string
  {
    if category in colors then colors[category] else UnclassifiedColor
  }

  /** The colour map of step 3, over the distinct categories of the table. */
  function LocalityColors(rows: seq<ClassifiedBlock>): map<string, string>
  {
    ColorMap(Distinct(Categories(rows)), PlotlyPalette)
  }

  /** Every block's category is in the colour map (the fallback of
      `BlockColor` is never taken), and its colour is the palette entry of
      the category's rank in first-appearance order. */
  lemma RowColor(rows: seq<ClassifiedBlock>, i: nat)
    requires i < |rows|
    ensures rows[i].category in LocalityColors(rows)
    ensures rows[i].category in Distinct(Categories(rows))
    ensures BlockColor(rows[i].category, LocalityColors(rows)) ==
      PlotlyPalette[FirstIndex(Distinct(Categories(rows)), rows[i].category) % |PlotlyPalette|]
  {
    var cats := Distinct(Categories(rows));
    assert Categories(rows)[i] == rows[i].category;
    ColorMapSpec(cats, PlotlyPalette);
  }

  lemma {:induction false} DistinctConstant(s: seq<string>, c: string)
    requires s != [] && forall i :: 0 <= i < |s| ==> s[i] == c
    ensures Distinct(s) == [c]
  {
    var pre := s[..|s| - 1];
    if pre != [] {
      DistinctConstant(pre, c);
    }
  }

  /** A locality without zoning areas: `Unclassified` is its only category,
      so it takes the first palette colour and the dedicated dark colour is
      never used. */
  lemma NoAreasColor(blocks: seq<Block>)
    requires blocks != []
    ensures LocalityColors(Classify(blocks, [])) == map[Unclassified := PlotlyPalette[0]]
    ensures forall r :: r in Classify(blocks, []) ==>
      BlockColor(r.category, LocalityColors(Classify(blocks, []))) == "#636EFA"
  {
    var rows := Classify(blocks, []);
    var cats := Categories(rows);
    var d := Distinct(cats);
    DistinctConstant(cats, Unclassified);
    ColorMapSpec(d, PlotlyPalette);
    assert (map[Unclassified := PlotlyPalette[0]]).Keys == ColorMap(d, PlotlyPalette).Keys;
  }

  // ---------------------------------------------------------------------
  // The table of step 3 for a chosen locality
  // ---------------------------------------------------------------------

  /** `manzanas_sel` after the join: the locality's blocks classified
      against the locality's own zoning areas. */
  function LocalityTable(blocks: seq<Block>, areas: seq<ZoningArea>, cod: int): seq<ClassifiedBlock>
  {
    Classify(BlocksOf(blocks, cod), AreasOf(areas, cod))
  }

  /** With distinct ids among the locality's areas, the table has one row
      per block of the locality, in table order, whose category is the usage
      of the locality's area with the block's id_area, or `Unclassified`. */
  lemma LocalityTableRows(blocks: seq<Block>, areas: seq<ZoningArea>, cod: int)
    requires IdsDistinct(AreasOf(areas, cod))
    ensures |LocalityTable(blocks, areas, cod)| == |BlocksOf(blocks, cod)|
    ensures forall i :: 0 <= i < |BlocksOf(blocks, cod)| ==>
      LocalityTable(blocks, areas, cod)[i] ==
        ClassifiedBlock(BlocksOf(blocks, cod)[i], Lookup(AreasOf(areas, cod), BlocksOf(blocks, cod)[i].area).GetOr(Unclassified))
  {
    ClassifyDistinct(BlocksOf(blocks, cod), AreasOf(areas, cod));
  }

  /** A locality of which the zoning table has no area (`areas_sel.empty`)
      and which has blocks: every block is `Unclassified` and drawn in the
      first palette colour, whatever the other localities' areas are. */
  lemma LocalityWithoutAreas(blocks: seq<Block>, areas: seq<ZoningArea>, cod: int, b: Block)
    requires forall a :: a in areas ==> a.locality != cod
    requires b in blocks && b.locality == cod
    ensures |LocalityTable(blocks, areas, cod)| == |BlocksOf(blocks, cod)|
    ensures forall r :: r in LocalityTable(blocks, areas, cod) ==> r.category == Unclassified
    ensures LocalityColors(LocalityTable(blocks, areas, cod)) == map[Unclassified := PlotlyPalette[0]]
  {
    AreasOfNone(areas, cod);
    assert b in BlocksOf(blocks, cod);
    ClassifyNoAreas(BlocksOf(blocks, cod));
    NoAreasColor(BlocksOf(blocks, cod));
  }

  // ---------------------------------------------------------------------
  // The features of the block map
  // ---------------------------------------------------------------------

  /** A GeoJSON feature of the block map (geometry left out). */
  datatype Feature = Feature(id: string, color: string)

  /** The color column and the `manzanas_features` loop: one feature per
      row, in order, carrying the block id and the row's colour. */
  method BuildFeatures(rows: seq<ClassifiedBlock>, colors: map<string, string>) returns (features: seq<Feature>)
    ensures |features| == |rows|
    ensures forall i :: 0 <= i < |rows| ==>
      features[i].id == rows[i].block.id && features[i].color == BlockColor(rows[i].category, colors)
  {
    features := [];
    var k := 0;
    while k < |rows|
      invariant 0 <= k <= |rows|
      invariant |features| == k
      invariant forall i :: 0 <= i < k ==>
        features[i].id == rows[i].block.id && features[i].color == BlockColor(rows[i].category, colors)
    {
      var color := BlockColor(rows[k].category, colors);
      features := features + [Feature(rows[k].block.id, color)];
      k := k + 1;
    }
  }

  /** The block map of a locality: each feature's colour is its category's
      palette colour by first-appearance rank. */
  method LocalityFeatures(rows: seq<ClassifiedBlock>) returns (features: seq<Feature>)
    ensures |features| == |rows|
    ensures forall i :: 0 <= i < |rows| ==>
      features[i].id == rows[i].block.id &&
      rows[i].category in Distinct(Categories(rows)) &&
      features[i].color == PlotlyPalette[FirstIndex(Distinct(Categories(rows)), rows[i].category) % |PlotlyPalette|]
  {
    features := BuildFeatures(rows, LocalityColors(rows));
    forall i | 0 <= i < |rows|
      ensures rows[i].category in Distinct(Categories(rows))
      ensures features[i].color == PlotlyPalette[FirstIndex(Distinct(Categories(rows)), rows[i].category) % |PlotlyPalette|]
    {
      RowColor(rows, i);
    }
  }
}
