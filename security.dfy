/** Step 6: the security table. Every locality is flagged as the block's own
    locality or not, labelled with its risk level when it is, and the table is
    sorted in place by number of crimes, smallest first. */
module Security {
  import opened Tables

  /** One row of `df_seguridad`. */
  datatype SecurityRow = SecurityRow(
    name: string,       // nombre_localidad
    num: int,           // num_localidad
    crimes: int,        // cantidad_delitos
    risk: string,       // nivel_riesgo_delictivo
    current: bool,      // es_localidad_actual
    tag: string         // etiqueta
  )

  /** The flag and the label of one locality, given the block's locality code. */
  function Labelled(l: Locality, cod: int): SecurityRow
  {
    var current := l.num == cod;
    SecurityRow(l.name, l.num, l.crimes, l.risk, current, if current then l.risk else "")
  }

  /** The table before sorting: one labelled row per locality, in order. */
  function SecurityTable(ls: seq<Locality>, cod: int): seq<SecurityRow>
  {
    seq(|ls|, i requires 0 <= i < |ls| => Labelled(ls[i], cod))
  }

  predicate SortedByCrimes(s: seq<SecurityRow>)
  {
    forall i, j :: 0 <= i < j < |s| ==> s[i].crimes <= s[j].crimes
  }

  method Swap(a: array<SecurityRow>, i: int, j: int)
    requires 0 <= i < a.Length && 0 <= j < a.Length
    modifies a
    ensures a[i] == old(a[j]) && a[j] == old(a[i])
    ensures forall k :: 0 <= k < a.Length && k != i && k != j ==> a[k] == old(a[k])
    ensures multiset(a[..]) == multiset(old(a[..]))
  {
    a[i], a[j] := a[j], a[i];
  }

  /** `sort_values("cantidad_delitos", ascending=True, inplace=True)`, as an
      insertion sort: ascending by crimes and a permutation of the rows. */
  method SortByCrimes(a: array<SecurityRow>)
    modifies a
    ensures SortedByCrimes(a[..])
    ensures multiset(a[..]) == multiset(old(a[..]))
  {
    var i := 0;
    while i < a.Length
      invariant 0 <= i <= a.Length
      invariant forall p, q :: 0 <= p < q < i ==> a[p].crimes <= a[q].crimes
      invariant multiset(a[..]) == multiset(old(a[..]))
    {
      var j := i;
      while j > 0 && a[j - 1].crimes > a[j].crimes
        invariant 0 <= j <= i
        invariant forall p, q :: 0 <= p < q <= i && q != j ==> a[p].crimes <= a[q].crimes
        invariant forall q :: j < q <= i ==> a[j].crimes <= a[q].crimes
        invariant multiset(a[..]) == multiset(old(a[..]))
      {
        Swap(a, j - 1, j);
        j := j - 1;
      }
      i := i + 1;
    }
    assert a[..] == a[..a.Length];
  }

  /** The security table of step 6: the labelled rows, sorted by crimes. */
  method BuildSecurityTable(ls: seq<Locality>, cod: int) returns (a: array<SecurityRow>)
    ensures fresh(a)
    ensures SortedByCrimes(a[..])
    ensures multiset(a[..]) == multiset(SecurityTable(ls, cod))
  {
    var rows := SecurityTable(ls, cod);
    a := new SecurityRow[|rows|](i requires 0 <= i < |rows| => rows[i]);
    assert a[..] == rows;
    SortByCrimes(a);
  }

  /** In any order of the labelled rows: every row is a labelled locality, a
      row is flagged exactly when it is the block's locality, and only a
      flagged row shows its risk level. */
  lemma TableRows(ls: seq<Locality>, cod: int, t: seq<SecurityRow>, r: SecurityRow)
    requires multiset(t) == multiset(SecurityTable(ls, cod))
    requires r in t
    ensures exists i :: 0 <= i < |ls| && r == Labelled(ls[i], cod)
    ensures r.current <==> r.num == cod
    ensures r.tag == (if r.current then r.risk else "")
  {
    assert r in multiset(t);
    assert r in SecurityTable(ls, cod);
  }

  /** The security snapshot of the report: the first row of the sorted table
      for the block's locality (`df_seguridad[num == cod].iloc[0]`). */
  function Snapshot(t: seq<SecurityRow>, cod: int): Option<SecurityRow>
  {
    if t == [] then None
    else if t[0].num == cod then Some(t[0])
    else Snapshot(t[1..], cod)
  }

  lemma {:induction false} SnapshotFound(t: seq<SecurityRow>, cod: int, k: nat)
    requires k < |t| && t[k].num == cod
    ensures Snapshot(t, cod).Some? && Snapshot(t, cod).value in t && Snapshot(t, cod).value.num == cod
  {
    if t[0].num != cod {
      SnapshotFound(t[1..], cod, k - 1);
    }
  }

  /** For the sorted table: the snapshot exists exactly when some locality
      has the block's code, and it carries that locality's crime count and
      risk level, flagged and labelled. */
  lemma SnapshotSpec(ls: seq<Locality>, cod: int, t: seq<SecurityRow>)
    requires multiset(t) == multiset(SecurityTable(ls, cod))
    ensures Snapshot(t, cod).Some? <==> exists i :: 0 <= i < |ls| && ls[i].num == cod
    ensures Snapshot(t, cod).Some? ==>
      var r := Snapshot(t, cod).value;
      r.current && r.tag == r.risk &&
      exists i :: 0 <= i < |ls| && ls[i].num == cod && r.crimes == ls[i].crimes && r.risk == ls[i].risk
  {
    if exists i :: 0 <= i < |ls| && ls[i].num == cod {
      var i :| 0 <= i < |ls| && ls[i].num == cod;
      var row := SecurityTable(ls, cod)[i];
      assert row in multiset(SecurityTable(ls, cod));
      assert row in t;
      var k :| 0 <= k < |t| && t[k] == row;
      SnapshotFound(t, cod, k);
    }
    if Snapshot(t, cod).Some? {
      SnapshotSound(t, cod);
      TableRows(ls, cod, t, Snapshot(t, cod).value);
    }
  }

  lemma {:induction false} SnapshotSound(t: seq<SecurityRow>, cod: int)
    requires Snapshot(t, cod).Some?
    ensures Snapshot(t, cod).value in t && Snapshot(t, cod).value.num == cod
  {
    if t[0].num != cod {
      SnapshotSound(t[1..], cod);
    }
  }
}
