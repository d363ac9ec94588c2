/** Step 5 of the wizard: the selected block's value per square metre is
    compared with the mean over its zoning area and over a 300 m ring, and
    the land-use mix of a 500 m ring is counted. Ring membership is a
    geometric test whose outcome the caller supplies as a predicate. */
module Comparison {
  import opened Tables
  import Zoning

  // ---------------------------------------------------------------------
  // Row filters
  // ---------------------------------------------------------------------

  /** Index of the first row with the id, or |rows| when there is none. */
  function FirstRow(rows: seq<ClassifiedBlock>, id: string): (k: nat)
    ensures k <= |rows|
    ensures k < |rows| ==> rows[k].block.id == id
    ensures forall j :: 0 <= j < k ==> rows[j].block.id != id
  {
    if rows == [] then 0
    else if rows[0].block.id == id then 0
    else 1 + FirstRow(rows[1..], id)
  }

  /** `manzanas_sel[manzanas_sel["id_manzana_unif"] == id]`: its `values[0]`
      is the first row of the table with that id. */
  function WithId(rows: seq<ClassifiedBlock>, id: string): (r: seq<ClassifiedBlock>)
    ensures forall x :: x in r <==> x in rows && x.block.id == id
    ensures forall x :: multiset(r)[x] == if x.block.id == id then multiset(rows)[x] else 0
    ensures FirstRow(rows, id) < |rows| ==> r != [] && r[0] == rows[FirstRow(rows, id)]
  {
    if rows == [] then []
    else
      assert rows == [rows[0]] + rows[1..];
      var rest := WithId(rows[1..], id);
      if rows[0].block.id == id then [rows[0]] + rest
      else
        assert FirstRow(rows, id) == 1 + FirstRow(rows[1..], id);
        rest
  }

  /** `manzanas_sel[manzanas_sel["id_area"] == a]`: a null id_area never equals a value. */
  function WithArea(rows: seq<ClassifiedBlock>, a: int): (r: seq<ClassifiedBlock>)
    ensures forall x :: x in r <==> x in rows && x.block.area == Some(a)
    ensures forall x :: multiset(r)[x] == if x.block.area == Some(a) then multiset(rows)[x] else 0
  {
    if rows == [] then []
    else
      assert rows == [rows[0]] + rows[1..];
      (if rows[0].block.area == Some(a) then [rows[0]] else []) + WithArea(rows[1..], a)
  }

  /** `manzanas_sel[manzanas_sel["id_area"].isna()]`. */
  function WithoutArea(rows: seq<ClassifiedBlock>): (r: seq<ClassifiedBlock>)
    ensures forall x :: x in r <==> x in rows && x.block.area.None?
    ensures forall x :: multiset(r)[x] == if x.block.area.None? then multiset(rows)[x] else 0
  {
    if rows == [] then []
    else
      assert rows == [rows[0]] + rows[1..];
      (if rows[0].block.area.None? then [rows[0]] else []) + WithoutArea(rows[1..])
  }

  /** The blocks of the selected block's zoning area: equal id_area when the
      selected one has an id_area, every null-id_area block otherwise. */
  function SameArea(rows: seq<ClassifiedBlock>, key: Option<int>): seq<ClassifiedBlock>
  {
    if key.Some? then WithArea(rows, key.value) else WithoutArea(rows)
  }

  /** Null-aware matching: the same-area set is the blocks whose id_area
      equals the key, missing included; so a block of the table always lies
      in its own same-area set. */
  lemma SameAreaMembers(rows: seq<ClassifiedBlock>, key: Option<int>)
    ensures forall x :: x in SameArea(rows, key) <==> x in rows && x.block.area == key
  {
  }

  lemma SameAreaHasSelected(rows: seq<ClassifiedBlock>, sel: ClassifiedBlock)
    requires sel in rows
    ensures sel in SameArea(rows, sel.block.area)
    ensures SameArea(rows, sel.block.area) != []
  {
    SameAreaMembers(rows, sel.block.area);
  }

  /** The rows for which the caller's ring test holds (the `intersects`
      filter against a buffer), in table order. */
  function InRing(rows: seq<ClassifiedBlock>, ring: ClassifiedBlock -> bool): (r: seq<ClassifiedBlock>)
    ensures forall x :: x in r <==> x in rows && ring(x)
    ensures forall x :: multiset(r)[x] == if ring(x) then multiset(rows)[x] else 0
  {
    if rows == [] then []
    else
      assert rows == [rows[0]] + rows[1..];
      (if ring(rows[0]) then [rows[0]] else []) + InRing(rows[1..], ring)
  }

  // ---------------------------------------------------------------------
  // "Mean, or 0 when empty"
  // ---------------------------------------------------------------------

  /** The valor_m2 column of a filtered table. */
  function Values(rows: seq<ClassifiedBlock>): (vs: seq<Option<real>>)
    ensures |vs| == |rows|
    ensures forall i :: 0 <= i < |rows| ==> vs[i] == rows[i].block.valueM2
  {
    seq(|rows|, i requires 0 <= i < |rows| => rows[i].block.valueM2)
  }

  function PresentSum(vs: seq<Option<real>>): real
  {
    if vs == [] then 0.0 else (if vs[0].Some? then vs[0].value else 0.0) + PresentSum(vs[1..])
  }

  function PresentCount(vs: seq<Option<real>>): nat
  {
    if vs == [] then 0 else (if vs[0].Some? then 1 else 0) + PresentCount(vs[1..])
  }

  /** `s.mean() if not s.empty else 0`: pandas' mean skips missing values and
      is itself missing (NaN, here `None`) when every value is missing. */
  function MeanOrZero(vs: seq<Option<real>>): Option<real>
  {
    if vs == [] then Some(0.0)
    else if PresentCount(vs) == 0 then None
    else Some(PresentSum(vs) / PresentCount(vs) as real)
  }

  lemma {:induction false} PresentCountZero(vs: seq<Option<real>>)
    ensures PresentCount(vs) == 0 <==> forall i :: 0 <= i < |vs| ==> vs[i].None?
  {
    if vs != [] {
      PresentCountZero(vs[1..]);
      assert forall i :: 1 <= i < |vs| ==> vs[i] == vs[1..][i - 1];
    }
  }

  lemma {:induction false} PresentSumBounds(vs: seq<Option<real>>, lo: real, hi: real)
    requires forall i :: 0 <= i < |vs| && vs[i].Some? ==> lo <= vs[i].value <= hi
    ensures PresentCount(vs) as real * lo <= PresentSum(vs) <= PresentCount(vs) as real * hi
  {
    if vs != [] {
      assert forall i :: 1 <= i < |vs| ==> vs[1..][i - 1] == vs[i];
      PresentSumBounds(vs[1..], lo, hi);
    }
  }

  /** The average is 0 exactly on an empty set, missing exactly when every
      value of a non-empty set is missing, and otherwise lies between the
      smallest and the largest value present. */
  lemma MeanOrZeroSpec(vs: seq<Option<real>>, lo: real, hi: real)
    requires forall i :: 0 <= i < |vs| && vs[i].Some? ==> lo <= vs[i].value <= hi
    ensures vs == [] ==> MeanOrZero(vs) == Some(0.0)
    ensures MeanOrZero(vs).None? <==> vs != [] && forall i :: 0 <= i < |vs| ==> vs[i].None?
    ensures MeanOrZero(vs).Some? && vs != [] ==> lo <= MeanOrZero(vs).value <= hi
  {
    PresentCountZero(vs);
    if vs != [] && PresentCount(vs) > 0 {
      PresentSumBounds(vs, lo, hi);
      QuotientBetween(PresentSum(vs), PresentCount(vs) as real, lo, hi);
    }
  }

  lemma QuotientBetween(s: real, n: real, lo: real, hi: real)
    requires n > 0.0 && n * lo <= s <= n * hi
    ensures lo <= s / n <= hi
  {
    assert (s / n) * n == s;
  }

  /** A set whose present values all equal v averages to v. */
  lemma MeanOfEqualValues(vs: seq<Option<real>>, v: real)
    requires forall i :: 0 <= i < |vs| ==> vs[i] == Some(v)
    requires vs != []
    ensures MeanOrZero(vs) == Some(v)
  {
    MeanOrZeroSpec(vs, v, v);
  }

  // ---------------------------------------------------------------------
  // Frequency count of categories and the majority
  // ---------------------------------------------------------------------

  /** One row of `value_counts().reset_index()`: ["uso", "cantidad"]. */
  datatype UsageCount = UsageCount(usage: string, count: nat)

  /** Occurrences of x in s. */
  function Occurrences(s: seq<string>, x: string): nat
  {
    if s == [] then 0
    else Occurrences(s[..|s| - 1], x) + (if s[|s| - 1] == x then 1 else 0)
  }

  /** The count of every key, keys in the given order. */
  function Tally(keys: seq<string>, s: seq<string>): (t: seq<UsageCount>)
    ensures |t| == |keys|
    ensures forall i :: 0 <= i < |keys| ==> t[i] == UsageCount(keys[i], Occurrences(s, keys[i]))
  {
    seq(|keys|, i requires 0 <= i < |keys| => UsageCount(keys[i], Occurrences(s, keys[i])))
  }

  function SumCounts(cs: seq<UsageCount>): nat
  {
    if cs == [] then 0 else cs[0].count + SumCounts(cs[1..])
  }

  function Usages(cs: seq<UsageCount>): (us: seq<string>)
    ensures |us| == |cs|
    ensures forall i :: 0 <= i < |cs| ==> us[i] == cs[i].usage
  {
    seq(|cs|, i requires 0 <= i < |cs| => cs[i].usage)
  }

  predicate NonIncreasing(cs: seq<UsageCount>)
  {
    forall i, j :: 0 <= i < j < |cs| ==> cs[i].count >= cs[j].count
  }

  /** Inserts c into a count-descending list, before the first entry whose
      count does not exceed c's. */
  function InsertByCount(c: UsageCount, cs: seq<UsageCount>): (r: seq<UsageCount>)
    ensures |r| == |cs| + 1
    ensures forall e :: e in r <==> e == c || e in cs
  {
    if cs == [] || cs[0].count <= c.count then [c] + cs
    else [cs[0]] + InsertByCount(c, cs[1..])
  }

  lemma {:induction false} InsertByCountSum(c: UsageCount, cs: seq<UsageCount>)
    ensures SumCounts(InsertByCount(c, cs)) == c.count + SumCounts(cs)
  {
    if cs != [] && cs[0].count > c.count {
      InsertByCountSum(c, cs[1..]);
    }
  }

  lemma {:induction false} InsertByCountSorted(c: UsageCount, cs: seq<UsageCount>)
    requires NonIncreasing(cs)
    ensures NonIncreasing(InsertByCount(c, cs))
  {
    if cs != [] && cs[0].count > c.count {
      InsertByCountSorted(c, cs[1..]);
      var r := InsertByCount(c, cs);
      assert r == [cs[0]] + InsertByCount(c, cs[1..]);
      forall e | e in InsertByCount(c, cs[1..]) ensures e.count <= cs[0].count {
        if e != c {
          var k :| 0 <= k < |cs[1..]| && cs[1..][k] == e;
          assert cs[k + 1] == e;
        }
      }
      forall i, j | 0 <= i < j < |r| ensures r[i].count >= r[j].count {
        if i == 0 {
          assert r[j] in InsertByCount(c, cs[1..]);
        } else {
          assert r[i] == InsertByCount(c, cs[1..])[i - 1];
          assert r[j] == InsertByCount(c, cs[1..])[j - 1];
        }
      }
    }
  }

  lemma {:induction false} InsertByCountUsages(c: UsageCount, cs: seq<UsageCount>)
    ensures forall u :: u in Usages(InsertByCount(c, cs)) <==> u == c.usage || u in Usages(cs)
    ensures Zoning.NoDup(Usages(cs)) && c.usage !in Usages(cs) ==> Zoning.NoDup(Usages(InsertByCount(c, cs)))
  {
    var r := InsertByCount(c, cs);
    if cs == [] || cs[0].count <= c.count {
      assert Usages(r) == [c.usage] + Usages(cs);
    } else {
      InsertByCountUsages(c, cs[1..]);
      assert Usages(cs) == [cs[0].usage] + Usages(cs[1..]);
      assert Usages(r) == [cs[0].usage] + Usages(InsertByCount(c, cs[1..]));
      if Zoning.NoDup(Usages(cs)) && c.usage !in Usages(cs) {
        assert Zoning.NoDup(Usages(cs[1..]));
        assert c.usage !in Usages(cs[1..]);
        assert cs[0].usage !in Usages(cs[1..]);
        assert cs[0].usage !in Usages(InsertByCount(c, cs[1..]));
        var u := Usages(r);
        forall i, j | 0 <= i < j < |u| ensures u[i] != u[j] {
          if i == 0 {
            assert u[j] == Usages(InsertByCount(c, cs[1..]))[j - 1];
          }
        }
      }
    }
  }

  /** Count-descending order (stable for equal counts). */
  function SortByCount(cs: seq<UsageCount>): (r: seq<UsageCount>)
    ensures |r| == |cs|
    ensures forall e :: e in r <==> e in cs
  {
    if cs == [] then [] else InsertByCount(cs[0], SortByCount(cs[1..]))
  }

  /** Sorting keeps the sum of the counts and the set of categories, leaves
      the counts non-increasing and repeats no category that was not
      repeated. */
  lemma {:induction false} SortByCountSpec(cs: seq<UsageCount>)
    ensures SumCounts(SortByCount(cs)) == SumCounts(cs)
    ensures NonIncreasing(SortByCount(cs))
    ensures forall u :: u in Usages(SortByCount(cs)) <==> u in Usages(cs)
    ensures Zoning.NoDup(Usages(cs)) ==> Zoning.NoDup(Usages(SortByCount(cs)))
  {
    if cs != [] {
      var rest := SortByCount(cs[1..]);
      SortByCountSpec(cs[1..]);
      InsertByCountSum(cs[0], rest);
      InsertByCountSorted(cs[0], rest);
      InsertByCountUsages(cs[0], rest);
      assert Usages(cs) == [cs[0].usage] + Usages(cs[1..]);
    }
  }

  /** `value_counts()` over a category column: one entry per distinct
      category, sorted by count, largest first. */
  function ValueCounts(cats: seq<string>): seq<UsageCount>
  {
    SortByCount(Tally(Zoning.Distinct(cats), cats))
  }

  /** The majority: the first entry of the counts, or `UnclassifiedPot` when
      the ring holds no block. */
  function Majority(counts: seq<UsageCount>): string
  {
    if counts == [] then UnclassifiedPot else counts[0].usage
  }

  lemma {:induction false} SumCountsSnoc(cs: seq<UsageCount>, e: UsageCount)
    ensures SumCounts(cs + [e]) == SumCounts(cs) + e.count
  {
    if cs != [] {
      assert (cs + [e])[1..] == cs[1..] + [e];
      SumCountsSnoc(cs[1..], e);
    }
  }

  lemma {:induction false} OccurrencesPositive(s: seq<string>, x: string)
    requires x in s
    ensures Occurrences(s, x) > 0
  {
    var n := |s| - 1;
    if s[n] != x {
      assert x in s[..n] by {
        var k :| 0 <= k < |s| && s[k] == x;
        assert s[..n][k] == x;
      }
      OccurrencesPositive(s[..n], x);
    }
  }

  lemma {:induction false} OccurrencesAbsent(s: seq<string>, x: string)
    requires x !in s
    ensures Occurrences(s, x) == 0
  {
    if s != [] {
      var n := |s| - 1;
      assert x !in s[..n] by {
        forall k | 0 <= k < n ensures s[..n][k] != x { assert s[..n][k] == s[k]; }
      }
      OccurrencesAbsent(s[..n], x);
    }
  }

  /** Extending the counted column by x adds one to the sum exactly when x
      is one of the (distinct) keys. */
  lemma {:induction false} TallySnocColumn(keys: seq<string>, s: seq<string>, x: string)
    requires Zoning.NoDup(keys)
    ensures SumCounts(Tally(keys, s + [x])) == SumCounts(Tally(keys, s)) + (if x in keys then 1 else 0)
  {
    if keys != [] {
      var n := |keys| - 1;
      var pre := keys[..n];
      var k := keys[n];
      assert Zoning.NoDup(pre);
      TallySnocColumn(pre, s, x);
      assert (s + [x])[..|s|] == s;
      assert Occurrences(s + [x], k) == Occurrences(s, k) + (if x == k then 1 else 0);
      assert Tally(keys, s + [x]) == Tally(pre, s + [x]) + [UsageCount(k, Occurrences(s + [x], k))];
      assert Tally(keys, s) == Tally(pre, s) + [UsageCount(k, Occurrences(s, k))];
      SumCountsSnoc(Tally(pre, s + [x]), UsageCount(k, Occurrences(s + [x], k)));
      SumCountsSnoc(Tally(pre, s), UsageCount(k, Occurrences(s, k)));
      assert x in keys <==> x in pre || x == k;
      assert x == k ==> x !in pre;
    }
  }

  /** The counts of the distinct categories sum to the number of rows. */
  lemma {:induction false} TallySum(s: seq<string>)
    ensures SumCounts(Tally(Zoning.Distinct(s), s)) == |s|
  {
    if s != [] {
      var n := |s| - 1;
      var pre := s[..n];
      var x := s[n];
      var p := Zoning.Distinct(pre);
      assert pre + [x] == s;
      TallySum(pre);
      TallySnocColumn(p, pre, x);
      if x !in p {
        var d := p + [x];
        assert d == Zoning.Distinct(s);
        assert Tally(d, s) == Tally(p, s) + [UsageCount(x, Occurrences(s, x))];
        SumCountsSnoc(Tally(p, s), UsageCount(x, Occurrences(s, x)));
        assert x !in pre;
        OccurrencesAbsent(pre, x);
      }
    }
  }

  /** The usage counts: non-increasing, one entry per distinct category of
      the ring, each the category's number of blocks, summing to the number
      of blocks in the ring. */
  lemma ValueCountsSpec(cats: seq<string>)
    ensures NonIncreasing(ValueCounts(cats))
    ensures Zoning.NoDup(Usages(ValueCounts(cats)))
    ensures forall u :: u in Usages(ValueCounts(cats)) <==> u in cats
    ensures forall e :: e in ValueCounts(cats) ==> e.count == Occurrences(cats, e.usage) && e.count > 0
    ensures SumCounts(ValueCounts(cats)) == |cats|
  {
    var d := Zoning.Distinct(cats);
    var t := Tally(d, cats);
    assert Usages(t) == d;
    TallySum(cats);
    SortByCountSpec(t);
    forall e | e in ValueCounts(cats) ensures e.count == Occurrences(cats, e.usage) && e.count > 0 {
      var k :| 0 <= k < |t| && t[k] == e;
      assert d[k] in cats;
      OccurrencesPositive(cats, e.usage);
    }
  }

  /** The majority of an empty ring is `UnclassifiedPot`; otherwise it is a
      category of the ring with the largest number of blocks. */
  lemma MajoritySpec(cats: seq<string>)
    ensures cats == [] ==> Majority(ValueCounts(cats)) == UnclassifiedPot
    ensures cats != [] ==> Majority(ValueCounts(cats)) in cats
    ensures forall x :: x in cats ==> Occurrences(cats, x) <= Occurrences(cats, Majority(ValueCounts(cats)))
  {
    var vc := ValueCounts(cats);
    ValueCountsSpec(cats);
    if cats != [] {
      assert cats[0] in cats;
      assert |vc| > 0;
      assert vc[0].usage == Usages(vc)[0];
      assert vc[0] in vc;
      forall x | x in cats ensures Occurrences(cats, x) <= Occurrences(cats, vc[0].usage) {
        var j :| 0 <= j < |vc| && Usages(vc)[j] == x;
        assert vc[j] in vc;
      }
    }
  }

  // ---------------------------------------------------------------------
  // The comparison of step 5
  // ---------------------------------------------------------------------

  datatype Comparative = Comparative(
    own: Option<real>,           // valor_manzana
    areaAverage: Option<real>,   // promedio_area
    ringAverage: Option<real>,   // promedio_buffer (300 m)
    usage: seq<UsageCount>,      // conteo_uso (500 m)
    majority: string             // uso_pot_mayoritario
  )

  /** The step-5 figures of block `id` within its locality's classified
      table. `None` when the id is not in that table: the step reads
      `values[0]` of an empty selection there. */
  function Compare(rows: seq<ClassifiedBlock>, id: string,
                   ring300: ClassifiedBlock -> bool, ring500: ClassifiedBlock -> bool): Option<Comparative>
  {
    var sel := WithId(rows, id);
    if sel == [] then None
    else
      var b := sel[0].block;
      var usage := ValueCounts(Categories(InRing(rows, ring500)));
      Some(Comparative(
        b.valueM2,
        MeanOrZero(Values(SameArea(rows, b.area))),
        MeanOrZero(Values(InRing(rows, ring300))),
        usage,
        Majority(usage)))
  }

  /** The comparison exists exactly when the id is a block of the locality.
      Then the block is the first row with that id (the row `values[0]`
      reads, even when the join repeated the id), the area average is
      missing exactly when every same-area value is missing (the block is in
      its own area set, so that set is never empty), and a ring that no block
      meets averages to 0. */
  lemma CompareSpec(rows: seq<ClassifiedBlock>, id: string,
                    ring300: ClassifiedBlock -> bool, ring500: ClassifiedBlock -> bool)
    ensures Compare(rows, id, ring300, ring500).Some? <==> exists x :: x in rows && x.block.id == id
    ensures Compare(rows, id, ring300, ring500).Some? ==>
      var c := Compare(rows, id, ring300, ring500).value;
      var sel := WithId(rows, id)[0];
      && FirstRow(rows, id) < |rows| && sel == rows[FirstRow(rows, id)]
      && sel in rows && sel.block.id == id
      && c.own == sel.block.valueM2
      && (c.areaAverage.None? <==> forall x :: x in rows && x.block.area == sel.block.area ==> x.block.valueM2.None?)
      && ((forall x :: x in rows ==> !ring300(x)) ==> c.ringAverage == Some(0.0))
  {
    var sel := WithId(rows, id);
    if sel != [] {
      var s := sel[0];
      assert s in sel;
      var m :| 0 <= m < |rows| && rows[m] == s;
      assert FirstRow(rows, id) <= m;
      AreaAverageMissing(rows, s);
      EmptyRingAverage(rows, ring300);
    }
  }

  /** The area average of a block of the table is missing exactly when every
      value of its same-area set is missing. */
  lemma AreaAverageMissing(rows: seq<ClassifiedBlock>, s: ClassifiedBlock)
    requires s in rows
    ensures MeanOrZero(Values(SameArea(rows, s.block.area))).None? <==>
      forall x :: x in rows && x.block.area == s.block.area ==> x.block.valueM2.None?
  {
    var area := SameArea(rows, s.block.area);
    SameAreaHasSelected(rows, s);
    SameAreaMembers(rows, s.block.area);
    var vs := Values(area);
    PresentCountZero(vs);
    assert (forall i :: 0 <= i < |vs| ==> vs[i].None?) <==>
           (forall x :: x in area ==> x.block.valueM2.None?) by {
      forall x | x in area ensures (forall i :: 0 <= i < |vs| ==> vs[i].None?) ==> x.block.valueM2.None? {
        var k :| 0 <= k < |area| && area[k] == x;
      }
    }
  }

  /** A ring that no block meets averages to 0. */
  lemma EmptyRingAverage(rows: seq<ClassifiedBlock>, ring: ClassifiedBlock -> bool)
    ensures (forall x :: x in rows ==> !ring(x)) ==> MeanOrZero(Values(InRing(rows, ring))) == Some(0.0)
  {
    var r := InRing(rows, ring);
    if r != [] {
      assert r[0] in r;
    }
  }

  /** Step 5 finds the code exactly when a block of the chosen locality has
      it; step 4 drops the locality condition (`Facilities.BlockContext`). */
  lemma StepFiveFound(blocks: seq<Block>, areas: seq<ZoningArea>, cod: int, id: string,
                      ring300: ClassifiedBlock -> bool, ring500: ClassifiedBlock -> bool)
    ensures Compare(Zoning.LocalityTable(blocks, areas, cod), id, ring300, ring500).Some? <==>
      exists j :: 0 <= j < |blocks| && blocks[j].id == id && blocks[j].locality == cod
  {
    CompareSpec(Zoning.LocalityTable(blocks, areas, cod), id, ring300, ring500);
    var rows := Zoning.LocalityTable(blocks, areas, cod);
    if exists x :: x in rows && x.block.id == id {
      var x :| x in rows && x.block.id == id;
      LocalityRowIsLocalityBlock(blocks, areas, cod, x);
      var j :| 0 <= j < |blocks| && blocks[j] == x.block;
    }
    if exists j :: 0 <= j < |blocks| && blocks[j].id == id && blocks[j].locality == cod {
      LocalityBlockHasRow(blocks, areas, cod, id);
    }
  }

  /** Every row of a locality's table is a block of that locality. */
  lemma LocalityRowIsLocalityBlock(blocks: seq<Block>, areas: seq<ZoningArea>, cod: int, x: ClassifiedBlock)
    requires x in Zoning.LocalityTable(blocks, areas, cod)
    ensures x.block in blocks && x.block.locality == cod
  {
    var rows := Zoning.LocalityTable(blocks, areas, cod);
    var k :| 0 <= k < |rows| && rows[k] == x;
    Zoning.ClassifySound(Zoning.BlocksOf(blocks, cod), Zoning.AreasOf(areas, cod), k);
  }

  lemma LocalityBlockHasRow(blocks: seq<Block>, areas: seq<ZoningArea>, cod: int, id: string)
    requires exists j :: 0 <= j < |blocks| && blocks[j].id == id && blocks[j].locality == cod
    ensures exists x :: x in Zoning.LocalityTable(blocks, areas, cod) && x.block.id == id
  {
    var mine := Zoning.BlocksOf(blocks, cod);
    var rows := Zoning.Classify(mine, Zoning.AreasOf(areas, cod));
    var j :| 0 <= j < |blocks| && blocks[j].id == id && blocks[j].locality == cod;
    assert blocks[j] in mine;
    var i :| 0 <= i < |mine| && mine[i] == blocks[j];
    Zoning.ClassifyCovers(mine, Zoning.AreasOf(areas, cod), i);
    var k :| 0 <= k < |rows| && rows[k].block == blocks[j];
    assert rows[k] in rows;
  }

  /** A block that is the only one meeting the 300 m ring test gets its own
      value as the ring average. */
  lemma RingAverageOfLoneBlock(rows: seq<ClassifiedBlock>, sel: ClassifiedBlock, ring: ClassifiedBlock -> bool, v: real)
    requires sel in rows && ring(sel) && sel.block.valueM2 == Some(v)
    requires forall x :: x in rows && ring(x) ==> x == sel
    ensures MeanOrZero(Values(InRing(rows, ring))) == Some(v)
  {
    var r := InRing(rows, ring);
    assert sel in r;
    forall i | 0 <= i < |r| ensures Values(r)[i] == Some(v) {
      assert r[i] in r;
    }
    MeanOfEqualValues(Values(r), v);
  }

  /** Step 4 finds the pasted code in the whole block table, step 5 looks
      for it among the blocks of the chosen locality only: the code of a
      block of another locality passes step 4 and has no comparison. */
  lemma ForeignCodePassesStepFour()
    ensures
      var here := Block("A", 1, None, Some(1.0), None, None, None, None, None, None);
      var there := Block("B", 2, None, Some(2.0), None, None, None, None, None, None);
      var rows := Zoning.Classify(Zoning.BlocksOf([here, there], 1), []);
      (exists j :: 0 <= j < |[here, there]| && [here, there][j].id == "B") &&
      Compare(rows, "B", x => true, x => true).None?
  {
    var here := Block("A", 1, None, Some(1.0), None, None, None, None, None, None);
    var there := Block("B", 2, None, Some(2.0), None, None, None, None, None, None);
    assert [here, there][1].id == "B";
    var mine := Zoning.BlocksOf([here, there], 1);
    assert [here, there][1..] == [there] && [there][1..] == [];
    assert Zoning.BlocksOf([there], 1) == [];
    assert mine == [here];
    var rows := Zoning.Classify(mine, []);
    assert rows == [ClassifiedBlock(here, Unclassified)];
    assert WithId(rows, "B") == [];
  }
}

