/** Step 4: the station points of the block's transit group and the school
    points of its school group, drawn inside the 800 m and 1000 m buffers
    (the buffers themselves are geometry and left out). */
module Facilities {
  import opened Tables

  // ---------------------------------------------------------------------
  // Schools
  // ---------------------------------------------------------------------

  /** What one geometry adds to the school points: its members for a
      multipoint, itself for a point, nothing for any other kind. */
  function GeomPoints(g: Geometry): seq<Point>
  {
    match g
    case MultiPointGeom(ps) => ps
    case PointGeom(p) => [p]
    case OtherGeom => []
  }

  /** The in-order concatenation of the points of each geometry. */
  function Flatten(gs: seq<Geometry>): seq<Point>
  {
    if gs == [] then [] else Flatten(gs[..|gs| - 1]) + GeomPoints(gs[|gs| - 1])
  }

  /** `colegios[colegios["id_com_colegios"] == id].geometry`, in table order
      (a null group id never equals a value). */
  function MatchingGeoms(rows: seq<SchoolRow>, id: int): (gs: seq<Geometry>)
    ensures |gs| <= |rows|
  {
    if rows == [] then []
    else (if rows[0].access == Some(id) then [rows[0].geom] else []) + MatchingGeoms(rows[1..], id)
  }

  /** The `puntos_colegios` loop over the matching rows' geometries; a null
      school-group id gives no points. */
  method SchoolPoints(rows: seq<SchoolRow>, access: Option<int>) returns (points: seq<Point>)
    ensures access.None? ==> points == []
    ensures access.Some? ==> points == Flatten(MatchingGeoms(rows, access.value))
  {
    points := [];
    if access.Some? {
      var gs := MatchingGeoms(rows, access.value);
      var k := 0;
      while k < |gs|
        invariant 0 <= k <= |gs|
        invariant points == Flatten(gs[..k])
      {
        assert gs[..k + 1][..k] == gs[..k];
        match gs[k] {
          case MultiPointGeom(ps) =>
            points := points + ps;
          case PointGeom(p) =>
            points := points + [p];
          case OtherGeom =>
        }
        k := k + 1;
      }
      assert gs[..|gs|] == gs;
    }
  }

  /** Flattening distributes over concatenation: the points of two lists of
      geometries are the points of the first followed by those of the second. */
  lemma {:induction false} FlattenAppend(a: seq<Geometry>, b: seq<Geometry>)
    ensures Flatten(a + b) == Flatten(a) + Flatten(b)
  {
    if b != [] {
      var n := |b| - 1;
      assert (a + b)[..|a + b| - 1] == a + b[..n];
      assert (a + b)[|a + b| - 1] == b[n];
      FlattenAppend(a, b[..n]);
      calc {
        Flatten(a + b);
        Flatten(a + b[..n]) + GeomPoints(b[n]);
        Flatten(a) + Flatten(b[..n]) + GeomPoints(b[n]);
        Flatten(a) + (Flatten(b[..n]) + GeomPoints(b[n]));
        Flatten(a) + Flatten(b);
      }
    } else {
      assert a + b == a;
    }
  }

  /** Every collected point comes from some geometry. */
  lemma {:induction false} FlattenSource(gs: seq<Geometry>, p: Point) returns (i: nat)
    requires p in Flatten(gs)
    ensures i < |gs| && p in GeomPoints(gs[i])
  {
    var n := |gs| - 1;
    if p in Flatten(gs[..n]) {
      i := FlattenSource(gs[..n], p);
      assert gs[..n][i] == gs[i];
    } else {
      i := n;
    }
  }

  /** Every point of every geometry is collected. */
  lemma {:induction false} FlattenCollects(gs: seq<Geometry>, i: nat, p: Point)
    requires i < |gs| && p in GeomPoints(gs[i])
    ensures p in Flatten(gs)
  {
    var n := |gs| - 1;
    if i < n {
      assert gs[..n][i] == gs[i];
      FlattenCollects(gs[..n], i, p);
    }
  }

  /** A point is collected exactly when some geometry contributes it. */
  lemma FlattenMembers(gs: seq<Geometry>, p: Point)
    ensures p in Flatten(gs) <==> exists i :: 0 <= i < |gs| && p in GeomPoints(gs[i])
  {
    if p in Flatten(gs) {
      var i := FlattenSource(gs, p);
    }
    if exists i :: 0 <= i < |gs| && p in GeomPoints(gs[i]) {
      var i :| 0 <= i < |gs| && p in GeomPoints(gs[i]);
      FlattenCollects(gs, i, p);
    }
  }

  /** The geometries that are points or multipoints, in order. */
  function PointKinds(gs: seq<Geometry>): (r: seq<Geometry>)
    ensures forall g :: g in r ==> !g.OtherGeom?
  {
    if gs == [] then []
    else PointKinds(gs[..|gs| - 1]) + (if gs[|gs| - 1].OtherGeom? then [] else [gs[|gs| - 1]])
  }

  /** Geometries of any other kind contribute nothing: dropping them leaves
      the collected points unchanged. */
  lemma {:induction false} OtherKindsIgnored(gs: seq<Geometry>)
    ensures Flatten(PointKinds(gs)) == Flatten(gs)
  {
    if gs != [] {
      var n := |gs| - 1;
      OtherKindsIgnored(gs[..n]);
      var tail := if gs[n].OtherGeom? then [] else [gs[n]];
      FlattenAppend(PointKinds(gs[..n]), tail);
      assert Flatten(tail) == GeomPoints(gs[n]) by {
        if tail != [] {
          assert tail[..0] == [];
        }
      }
    }
  }

  /** The geometries matched for a group are those of the rows carrying it. */
  lemma {:induction false} MatchingGeomsMembers(rows: seq<SchoolRow>, id: int, g: Geometry)
    ensures g in MatchingGeoms(rows, id) <==> exists j :: 0 <= j < |rows| && rows[j].access == Some(id) && rows[j].geom == g
  {
    if rows != [] {
      MatchingGeomsMembers(rows[1..], id, g);
      if exists j :: 0 <= j < |rows| && rows[j].access == Some(id) && rows[j].geom == g {
        var j :| 0 <= j < |rows| && rows[j].access == Some(id) && rows[j].geom == g;
        if j > 0 {
          assert rows[1..][j - 1] == rows[j];
        }
      }
      if g in MatchingGeoms(rows[1..], id) {
        var j :| 0 <= j < |rows[1..]| && rows[1..][j].access == Some(id) && rows[1..][j].geom == g;
        assert rows[j + 1] == rows[1..][j];
      }
    }
  }

  // ---------------------------------------------------------------------
  // Transit
  // ---------------------------------------------------------------------

  /** Index of the first row of the group, or |rows| when there is none. */
  function FirstMatch(rows: seq<TransitRow>, id: int): (k: nat)
    ensures k <= |rows|
    ensures k < |rows| ==> rows[k].access == Some(id)
    ensures forall j :: 0 <= j < k ==> rows[j].access != Some(id)
  {
    if rows == [] then 0
    else if rows[0].access == Some(id) then 0
    else 1 + FirstMatch(rows[1..], id)
  }

  /** `list(multipunto_transporte.iloc[0].geoms)`: the stations of the first
      row of the block's transit group only; none when the group id is null
      or no row carries it. */
  function TransitPoints(rows: seq<TransitRow>, access: Option<int>): (points: seq<Point>)
    ensures access.None? ==> points == []
    ensures access.Some? && (forall j :: 0 <= j < |rows| ==> rows[j].access != access) ==> points == []
    ensures forall k :: (0 <= k < |rows| && access.Some? && rows[k].access == access &&
      (forall j :: 0 <= j < k ==> rows[j].access != access)) ==> points == rows[k].stations
  {
    if access.None? then []
    else
      var k := FirstMatch(rows, access.value);
      if k < |rows| then rows[k].stations else []
  }

  /** Rows after the first one of the group are never looked at. */
  lemma TransitIgnoresLaterRows(rows: seq<TransitRow>, more: seq<TransitRow>, access: Option<int>)
    requires exists j :: 0 <= j < |rows| && rows[j].access == access
    ensures TransitPoints(rows + more, access) == TransitPoints(rows, access)
  {
    if access.Some? {
      var k := FirstMatch(rows, access.value);
      assert (rows + more)[k] == rows[k];
    }
  }

  // ---------------------------------------------------------------------
  // The spatial context of step 4
  // ---------------------------------------------------------------------

  /** Index of the first block with the id, or |blocks| when there is none. */
  function FirstBlock(blocks: seq<Block>, id: string): (k: nat)
    ensures k <= |blocks|
    ensures k < |blocks| ==> blocks[k].id == id
    ensures forall j :: 0 <= j < k ==> blocks[j].id != id
  {
    if blocks == [] then 0
    else if blocks[0].id == id then 0
    else 1 + FirstBlock(blocks[1..], id)
  }

  /** Step 4 for a pasted code, looked up in the whole block table: whether
      the block was found (the "continue" button is disabled otherwise), and
      the station and school points of its `iloc[0]` row. */
  method BlockContext(blocks: seq<Block>, id: string, transit: seq<TransitRow>, schools: seq<SchoolRow>)
    returns (found: bool, stations: seq<Point>, schoolPoints: seq<Point>)
    ensures found <==> exists j :: 0 <= j < |blocks| && blocks[j].id == id
    ensures !found ==> stations == [] && schoolPoints == []
    ensures found ==>
      var b := blocks[FirstBlock(blocks, id)];
      && stations == TransitPoints(transit, b.transitAccess)
      && (b.schoolAccess.None? ==> schoolPoints == [])
      && (b.schoolAccess.Some? ==> schoolPoints == Flatten(MatchingGeoms(schools, b.schoolAccess.value)))
  {
    var k := FirstBlock(blocks, id);
    found := k < |blocks|;
    stations, schoolPoints := [], [];
    if found {
      var b := blocks[k];
      stations := TransitPoints(transit, b.transitAccess);
      schoolPoints := SchoolPoints(schools, b.schoolAccess);
    }
  }
}
