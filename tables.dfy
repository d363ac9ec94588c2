/** The records of the tables the valuation wizard loads (localities, zoning
    areas, blocks, transit groups, school groups), with every geometry reduced
    to what the core rules look at. A missing pandas value (NaN / None) is
    `None`. */
module Tables {

  datatype Option<T> = None | Some(value: T) {
    /** The value, or `default` when missing (pandas `fillna`). */
    function GetOr(default: T): T {
      if Some? then value else default
    }
  }

  /** Category given to a block whose zoning join finds nothing (step 3). */
  const Unclassified: string := "Sin clasificación"
  /** Majority label reported when the 500 m ring is empty (step 5). */
  const UnclassifiedPot: string := "Sin clasificación POT"
  /** Colour reserved for `Unclassified` when no palette colour was given to it. */
  const UnclassifiedColor: string := "#2b2b2b"

  /** A cadastral block ("manzana"): one row of the fact table. */
  datatype Block = Block(
    id: string,                   // id_manzana_unif
    locality: int,                // num_localidad
    area: Option<int>,            // id_area, nullable
    valueM2: Option<real>,        // valor_m2
    value2025S1: Option<real>,    // valor_2025_s1
    value2025S2: Option<real>,    // valor_2025_s2
    value2026S1: Option<real>,    // valor_2026_s1
    value2026S2: Option<real>,    // valor_2026_s2
    transitAccess: Option<int>,   // id_combi_acceso, nullable
    schoolAccess: Option<int>     // id_com_colegios, nullable
  )

  /** A zoning area of the territorial plan (POT). */
  datatype ZoningArea = ZoningArea(
    id: int,                      // id_area
    locality: int,                // num_localidad
    usage: Option<string>         // uso_pot_simplificado, nullable
  )

  /** A locality with its security figures. */
  datatype Locality = Locality(
    name: string,                 // nombre_localidad
    num: int,                     // num_localidad
    crimes: int,                  // cantidad_delitos
    risk: string                  // nivel_riesgo_delictivo
  )

  datatype Point = Point(x: real, y: real)

  /** The geometry kinds a school row can carry; every polygonal or linear
      kind is `OtherGeom`. */
  datatype Geometry = PointGeom(p: Point) | MultiPointGeom(points: seq<Point>) | OtherGeom

  /** A transit group: the stations sharing one access id, as a multipoint. */
  datatype TransitRow = TransitRow(access: Option<int>, stations: seq<Point>)

  /** A school group row. */
  datatype SchoolRow = SchoolRow(access: Option<int>, geom: Geometry)

  /** A block of the selected locality after the zoning join: the block and
      its non-missing land-use category (uso_pot_simplificado). */
  datatype ClassifiedBlock = ClassifiedBlock(block: Block, category: string)

  /** The category column of a classified table. */
  function Categories(rows: seq<ClassifiedBlock>): (cs: seq<string>)
    ensures |cs| == |rows|
    ensures forall i :: 0 <= i < |rows| ==> cs[i] == rows[i].category
  {
    seq(|rows|, i requires 0 <= i < |rows| => rows[i].category)
  }
}
