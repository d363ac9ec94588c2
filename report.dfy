/** Step 7, the executive report: the lookups it makes for the selected
    block, any of which raises in the source when it finds nothing. The
    report's text and images are left out; what is modelled is whether it
    gets built, because the page's last buttons come after it. */
module Report {
  import opened Tables
  import Projection
  import Security

  /** `areas[areas["id_area"] == id_area]["..."].values[0]` over the whole
      zoning table: the first area with the block's id_area. None for a null
      id_area (a missing value equals nothing) or no match, where the source
      raises IndexError. */
  function AreaOfBlock(areas: seq<ZoningArea>, key: Option<int>): (r: Option<ZoningArea>)
    ensures r.Some? <==> key.Some? && exists j :: 0 <= j < |areas| && areas[j].id == key.value
    ensures r.Some? ==> r.value in areas && Some(r.value.id) == key
  {
    if areas == [] || key.None? then None
    else if areas[0].id == key.value then Some(areas[0])
    else
      var r := AreaOfBlock(areas[1..], key);
      assert forall j :: 1 <= j < |areas| ==> areas[j] == areas[1..][j - 1];
      r
  }

  /** The report is built when none of its lookups raises: the block's
      zoning area, the security row of its locality in the step-6 table, and
      the projection chart image, which step 5 stores only for a complete
      projection unless one stored earlier is still in the session. */
  predicate ReportBuilt(b: Block, areas: seq<ZoningArea>, security: seq<Security.SecurityRow>, chartStored: bool)
  {
    && AreaOfBlock(areas, b.area).Some?
    && Security.Snapshot(security, b.locality).Some?
    && (Projection.ProjectionChart(b).Chart? || chartStored)
  }

  /** The report is built exactly when the block has an id_area that some
      zoning area carries, some security row has the block's locality, and a
      chart image is at hand: all five projection values present, or one
      stored before. */
  lemma ReportBuiltSpec(b: Block, areas: seq<ZoningArea>, security: seq<Security.SecurityRow>, chartStored: bool)
    ensures ReportBuilt(b, areas, security, chartStored) <==>
      && b.area.Some? && (exists j :: 0 <= j < |areas| && areas[j].id == b.area.value)
      && (exists k :: 0 <= k < |security| && security[k].num == b.locality)
      && ((b.valueM2.Some? && b.value2025S1.Some? && b.value2025S2.Some? && b.value2026S1.Some? && b.value2026S2.Some?)
          || chartStored)
  {
    if exists k :: 0 <= k < |security| && security[k].num == b.locality {
      var k :| 0 <= k < |security| && security[k].num == b.locality;
      Security.SnapshotFound(security, b.locality, k);
    }
    if Security.Snapshot(security, b.locality).Some? {
      Security.SnapshotSound(security, b.locality);
      var r := Security.Snapshot(security, b.locality).value;
      var k :| 0 <= k < |security| && security[k] == r;
    }
  }

  /** A block without a zoning area never gets a report. */
  lemma NullAreaBlocksReport(b: Block, areas: seq<ZoningArea>, security: seq<Security.SecurityRow>, chartStored: bool)
    requires b.area.None?
    ensures !ReportBuilt(b, areas, security, chartStored)
  {
  }

  /** An incomplete projection gets no report unless a chart image from
      earlier is still stored. */
  lemma IncompleteProjectionBlocksReport(b: Block, areas: seq<ZoningArea>, security: seq<Security.SecurityRow>, chartStored: bool)
    requires Projection.ProjectionChart(b) == Projection.Incomplete && !chartStored
    ensures !ReportBuilt(b, areas, security, chartStored)
  {
  }
}
