# AVM Bogotá wizard: the rules between the screens, in Dafny

The application is a seven-step Streamlit wizard. The user loads the city's
tables, clicks a locality, pastes the code of a cadastral block ("manzana")
and then reads a series of comparisons about that block: its transit and
school context, its value per square metre against its zoning area and a
300 m ring, the land-use mix of a 500 m ring, a five-period value projection,
and the security figures of its locality. This project models the
deterministic rules inside those steps. Each table becomes a sequence of
records and geometry is abstracted away. The project proves what those rules
guarantee.

- `tables.dfy` (`Tables`) holds the records of the five tables: `Block`,
  `ZoningArea`, `Locality`, transit and school rows. It also holds the
  classified block and the two "unclassified" labels, which are kept
  distinct as in the code: `"Sin clasificación"` for the join and
  `"Sin clasificación POT"` for the majority.
- `zoning.dfy` (`Zoning`) covers step 3. A left join of the locality's blocks
  to its zoning areas on `id_area` (pandas `merge(how="left")`, where a block
  matching several areas yields several rows) is followed by `fillna`. Then
  come the distinct categories in first-appearance order, the palette colour
  map, and the loop that builds the map features.
- `facilities.dfy` (`Facilities`) covers step 4. The block is looked up in
  the whole table. Transit points are the members of the first matching
  transit row only. School points flatten every matching row's points and
  multipoints and drop any other geometry kind.
- `comparison.dfy` (`Comparison`) covers step 5. It holds the null-aware
  same-area filter and the "mean, or 0 when empty" average; pandas skips
  missing values, and a mean over only missing values is missing (`None`).
  It also holds the ring filters, with ring membership a predicate given by
  the caller, and `value_counts` with its majority.
- `projection.dfy` (`Projection`) covers the projection series against the
  five fixed period labels. A chart is produced only when no value is
  missing.
- `security.dfy` (`Security`) covers step 6. Each locality is flagged and
  labelled, and the table is sorted in place by crime count on an array.
  The report's one-row security lookup is here too.
- `wizard.dfy` (`Wizard`) holds the step machine. A pure transition function
  `Next` gives the effect of each button. The class `Session` keeps the
  session fields, and each of its handler methods rewrites them exactly as
  `Next` says. Lemmas show that the selection guards hold along every run.

Where the written description of the system and the code disagree, the model
follows the code:

- A locality without zoning areas gives every block the category
  `"Sin clasificación"`. That category is then in the list of distinct
  categories, so it gets the first palette colour `#636EFA`. The dedicated
  `#2b2b2b` is added only when the category is absent
  (tfmapp.py:236-240; `Zoning.NoAreasColor`).
- Transit points come from the first matching row only (tfmapp.py:409).
- The same-area average includes the selected block, because it is one of
  the filtered rows (tfmapp.py:503-524; `Comparison.SameAreaHasSelected`).
- Step 4 checks the pasted code against the whole block table
  (tfmapp.py:372-374). Step 5 reads `values[0]` of the same code among the
  chosen locality's blocks (tfmapp.py:503, 512). A code from another
  locality therefore passes step 4 and has no step-5 row, and the source
  would raise. `Comparison.Compare` returns `None` for that case, and
  `Comparison.ForeignCodePassesStepFour` exhibits it. The raise comes before
  the page draws its buttons, so the session stays at step 5. The two
  step-5 buttons carry a `found` flag, like those of steps 6 and 7, and move
  only when it holds; `Wizard.ForeignCodeStuckAtStepFive` runs the case
  through the step machine.

## Model

| member | source | states |
|---|---|---|
| `Zoning.BlocksOf` | tfmapp.py:211 | the locality's blocks are exactly the table's blocks whose `num_localidad` is the selected code, each as many times as in the table |
| `Zoning.AreasOf` | tfmapp.py:210 | the locality's zoning areas are exactly the areas whose `num_localidad` is the selected code, each as many times as in the table |
| `Zoning.AreasOfNone` | tfmapp.py:210 | a zoning table with no area of the locality leaves the locality without areas (`areas_sel.empty`) |
| `Zoning.ClassifyDistinct` | tfmapp.py:225-234 | with distinct area ids the join keeps one row per block, in order, and each category is the matched area's usage, or `"Sin clasificación"` when the locality has no areas, `id_area` is null, nothing matches or the usage is null |
| `Zoning.ClassifyNoAreas` | tfmapp.py:231-234 | a locality without zoning areas: one row per block, every category `"Sin clasificación"` |
| `Zoning.ClassifySound` | tfmapp.py:225-234 | for any zoning table: each row is a block of the locality, and its category is `"Sin clasificación"` or the non-null usage of an area whose id is the block's `id_area` |
| `Zoning.ClassifyCovers` | tfmapp.py:225-230 | the left join loses no block of the locality |
| `Zoning.LocalityTableRows` | tfmapp.py:210-234 | the step-3 table built from the whole block and zoning tables: with distinct ids among the locality's areas, one row per block of the locality, in order, categorised by the locality's area with the block's `id_area`, or `"Sin clasificación"` |
| `Zoning.LocalityWithoutAreas` | tfmapp.py:210-240 | a locality with blocks but no zoning area in the whole zoning table: every row is `"Sin clasificación"` and the colour map is `{"Sin clasificación": "#636EFA"}` |
| `Zoning.Distinct` | tfmapp.py:236 | `unique()` lists every category once and nothing else |
| `Zoning.DistinctOrder` | tfmapp.py:236 | the distinct categories appear in the order of their first occurrence |
| `Zoning.ColorMapSpec` | tfmapp.py:237-240 | the i-th distinct category gets `palette[i mod len(palette)]`; the keys are the categories plus `"Sin clasificación"`; `#2b2b2b` only when `"Sin clasificación"` is not a category |
| `Zoning.RowColor` | tfmapp.py:236-242 | every block's category is in the colour map, so the `get` fallback is never taken, and its colour is the palette entry of the category's first-appearance rank |
| `Zoning.NoAreasColor` | tfmapp.py:232-240 | in a locality without areas the map is `{"Sin clasificación": "#636EFA"}` and every block is drawn in `#636EFA` |
| `Zoning.BuildFeatures` | tfmapp.py:242-254 | the feature loop yields one feature per row, in order, with the row's block id and `color_map.get(category, "#2b2b2b")` |
| `Zoning.LocalityFeatures` | tfmapp.py:236-254 | the map features of a locality carry the palette colour of their category's first-appearance rank |
| `Comparison.WithId` | tfmapp.py:503 | the selection by code is the rows with that `id_manzana_unif`, each as many times as in the table, and it starts with the table's first row with that code (the row `values[0]` reads) |
| `Comparison.WithArea` | tfmapp.py:519-520 | the rows whose `id_area` equals the value, each as many times as in the table (join duplicates count twice in the mean) |
| `Comparison.WithoutArea` | tfmapp.py:521-522 | the rows whose `id_area` is null, each as many times as in the table |
| `Comparison.SameAreaMembers` | tfmapp.py:517-522 | null-aware matching: the same-area set is exactly the rows whose `id_area` equals the selected one's, both null included |
| `Comparison.SameAreaHasSelected` | tfmapp.py:503-522 | the selected block is in its own same-area set, so that set is never empty |
| `Comparison.InRing` | tfmapp.py:527-528 | the ring set is exactly the rows that meet the ring test, each as many times as in the table |
| `Comparison.MeanOrZeroSpec` | tfmapp.py:524 | an empty set averages to 0; the average is missing exactly when the set is non-empty and every value is missing; an average that is present lies between the smallest and largest value present |
| `Comparison.MeanOfEqualValues` | tfmapp.py:529 | a set whose values all equal v averages to v |
| `Comparison.RingAverageOfLoneBlock` | tfmapp.py:527-529 | a block that is the only one meeting the 300 m ring test has its own `valor_m2` as ring average |
| `Comparison.SortByCountSpec` | tfmapp.py:549 | sorting the counts keeps their sum and categories, makes counts non-increasing and adds no repeated category |
| `Comparison.ValueCountsSpec` | tfmapp.py:549-550 | the usage counts are non-increasing, list each distinct ring category once with its number of blocks, and sum to the number of blocks in the ring |
| `Comparison.MajoritySpec` | tfmapp.py:576-580 | an empty ring's majority is `"Sin clasificación POT"`; otherwise it is a ring category with the largest count |
| `Comparison.CompareSpec` | tfmapp.py:503-529 | the step-5 figures exist exactly when the code is in the locality's table; they are those of the table's first row with the code: its own value, an area average that is missing exactly when every same-area value is, and a ring that no block meets averages to 0 |
| `Comparison.AreaAverageMissing` | tfmapp.py:517-524 | the area average of a block of the table is missing exactly when every value of its same-area set is missing |
| `Comparison.EmptyRingAverage` | tfmapp.py:527-529 | a ring that no block meets averages to 0 |
| `Comparison.LocalityRowIsLocalityBlock` | tfmapp.py:211-234 | every row of the locality's step-3 table is a block of the whole table with that locality's code |
| `Comparison.StepFiveFound` | tfmapp.py:503-512 | built from the whole tables, the step-5 comparison exists exactly when a block of the chosen locality has the code |
| `Comparison.ForeignCodePassesStepFour` | tfmapp.py:503-512 | a code of another locality's block is in the whole table yet has no step-5 comparison |
| `Projection.ProjectionChart` | tfmapp.py:567-618 | a chart exists if and only if none of the five values is missing, and then its points pair `2024-S2 … 2026-S2` with `valor_m2, valor_2025_s1 … valor_2026_s2` in that order |
| `Projection.MissingValueSuppressesChart` | tfmapp.py:611-618 | one missing value in any position gives the incomplete outcome, with no substitute value |
| `Facilities.SchoolPoints` | tfmapp.py:436-446 | a null school-group id gives no points; otherwise the points are the in-order flattening of the matching rows' geometries |
| `Facilities.FlattenAppend` | tfmapp.py:440-445 | the collected points of two row lists are the first list's followed by the second's |
| `Facilities.FlattenMembers` | tfmapp.py:440-445 | a point is collected exactly when some geometry contributes it |
| `Facilities.OtherKindsIgnored` | tfmapp.py:441-445 | geometries other than points and multipoints contribute nothing |
| `Facilities.MatchingGeomsMembers` | tfmapp.py:438 | the matched geometries are those of the rows carrying the block's school-group id |
| `Facilities.TransitPoints` | tfmapp.py:405-409 | no points for a null transit id or no matching row; otherwise exactly the stations of the first matching row |
| `Facilities.TransitIgnoresLaterRows` | tfmapp.py:409 | rows after the first one of the group never change the transit points |
| `Facilities.BlockContext` | tfmapp.py:372-446 | the block is found exactly when the whole table has the code; then the points are those of its first row's transit and school groups, and none otherwise |
| `Security.SortByCrimes` | tfmapp.py:656 | the in-place sort leaves the rows in ascending crime order and is a permutation of them |
| `Security.BuildSecurityTable` | tfmapp.py:651-656 | the table is the labelled localities, permuted into ascending crime order |
| `Security.TableRows` | tfmapp.py:651-655 | in any order of the table, a row is flagged exactly when it is the block's locality, and only a flagged row carries its risk level as label |
| `Security.SnapshotSpec` | tfmapp.py:825-828 | the security lookup finds a row exactly when a locality has the block's code (otherwise the source's `iloc[0]` raises, modelled as `None`), and returns that locality's crimes and risk level, flagged and labelled |
| `Wizard.NextValid` | tfmapp.py:101-154 | every button keeps the session valid: step in 1..7; past step 1 the data are stored; past step 2 a locality is confirmed; past step 3 a non-empty code is kept |
| `Wizard.ForwardGuards` | tfmapp.py:101-692 | 1→2 needs a successful load, 2→3 a clicked locality, 3→4 a non-empty code (an empty one warns and stays), 4→5 a block found in the whole table, 5→6 and 6→7 a block found among the locality's; no button skips a step forward |
| `Wizard.StepFiveNeedsFound` | tfmapp.py:512-629 | step 5 is left, forwards or backwards, only on a page for which the code is among the locality's blocks; otherwise nothing changes |
| `Wizard.ReachStepFive` | tfmapp.py:101-476 | load, click and confirm a locality, confirm a non-empty code and continue: the session is at step 5 with that locality and code |
| `Wizard.ForeignCodeStuckAtStepFive` | tfmapp.py:372-629 | for a code that only other localities' blocks carry, the whole-table lookup lets the session reach step 5, and the locality lookup that guards both step-5 buttons keeps it there |
| `Wizard.RunValid` | tfmapp.py:88-154 | validity holds along every sequence of button presses |
| `Wizard.RunProgress` | tfmapp.py:88-698 | after n presses the step has risen by at most n |
| `Wizard.SelectionBeforeAnalysis` | tfmapp.py:328-335 | from a fresh session, reaching step 4 or later takes at least three presses and leaves a confirmed locality and a non-empty block code |
| `Wizard.Session.constructor` | tfmapp.py:88-89 | a fresh session is at step 1 with nothing else set |
| `Wizard.Session.StartAnalysis` | tfmapp.py:101-108 | "Iniciar Análisis" stores the data and moves 1→2 only after a successful load |
| `Wizard.Session.ClickMap` | tfmapp.py:136-147 | a map click on step 2 records the clicked locality, or none |
| `Wizard.Session.ConfirmLocality` | tfmapp.py:149-154 | confirming copies the clicked locality and moves 2→3 only for a non-empty click |
| `Wizard.Session.ConfirmBlock` | tfmapp.py:328-335 | a non-empty code is kept and moves 3→4; an empty one warns and changes nothing |
| `Wizard.Session.ContinueToComparison` | tfmapp.py:475-480 | 4→5 only when the block was found |
| `Wizard.Session.ContinueToSecurity` | tfmapp.py:627-629 | 5→6 only on a page where the code is among the locality's blocks (otherwise the page raises at tfmapp.py:512 before drawing the button) |
| `Wizard.Session.Finish` | tfmapp.py:691-693 | 6→7 only on a page where the block was found |
| `Wizard.Session.BackToStart` | tfmapp.py:156-158 | "Volver al Inicio" moves to step 1 and keeps the selections: always from step 2; from step 3 (tfmapp.py:343-345) and step 4 (tfmapp.py:471-473) only on a page that gets as far as drawing it |
| `Wizard.Session.BackToLocality` | tfmapp.py:339-341 | 3→2 |
| `Wizard.Session.BackToBlock` | tfmapp.py:467-469 | 4→3 |
| `Wizard.Session.BackToContext` | tfmapp.py:623-625 | 5→4 only on a page where the code is among the locality's blocks (otherwise the page raises at tfmapp.py:512 before drawing the button) |
| `Wizard.Session.BackToComparison` | tfmapp.py:643-647 | 6→5 always (also tfmapp.py:687-689); 7→5 on the page where the block was not found (tfmapp.py:767-769) |
| `Wizard.Session.BackToSecurity` | tfmapp.py:925-927 | 7→6, only on a page that gets past the report to its last buttons |
| `Wizard.Session.Reset` | tfmapp.py:695-699 | deletes every session field and sets step 1, from step 6 with the block found or from step 7 on a page that reaches its last buttons (tfmapp.py:929-933) |
| `Wizard.UnknownCodeOnlyBackToBlock` | tfmapp.py:460-480 | at step 4 with a code no block carries, "Volver al Inicio" and "Continuar" are not drawn (the page raises at its second "Volver a Selección de Manzana") and only the move back to step 3 remains |
| `Wizard.BlocklessLocalityNoBackToStart` | tfmapp.py:205-345 | at step 3 for a locality without blocks, "Volver al Inicio" is not drawn (the page raises at its second "Volver a Selección de Localidad") and only the move back to step 2 remains |
| `Wizard.FailedReportStuckAtStepSeven` | tfmapp.py:770-933 | at step 7 with a block that has no zoning area, or an incomplete projection and no chart stored, the report is not built and neither last button nor the not-found button moves the session |
| `Zoning.BlocksOfNone` | tfmapp.py:211 | a block table with no block of the locality gives it no blocks |
| `Report.AreaOfBlock` | tfmapp.py:798-801 | the report's zoning-area lookup finds an area exactly when the block has an id_area that some area carries, and the area found has that id (otherwise the source's `values[0]` raises, modelled as `None`) |
| `Report.ReportBuiltSpec` | tfmapp.py:798-859 | the report is built exactly when the block's id_area is in the zoning table, a security row has its locality, and all five projection values are present or a chart image was stored before |
| `Report.NullAreaBlocksReport` | tfmapp.py:798-801 | a block with a null id_area never gets a report |
| `Report.IncompleteProjectionBlocksReport` | tfmapp.py:610-616 | an incomplete projection stores no chart image, and with none stored before the report (which reads it at tfmapp.py:859) is never built |

## Left out

- Dataset download with retries and JSON parsing (tfmapp.py:38-85). This is
  network I/O, so the load result is the `loadOk` parameter. The retry path
  calls `time.sleep` without importing `time` (line 73).
- Geometry: reprojection, `buffer(300/500/800/1000)`, `intersects`,
  `contains` and `centroid`. These are floating-point library calls. Ring
  membership is a predicate the caller supplies. The clicked locality is an
  input to `ClickMap`.
- Rendering (folium, plotly, Leaflet HTML/JS), kaleido PNG export and the pie
  colours `color_map.get(uso, "gray")`. These are presentation and foreign
  libraries.
- The HTML report, currency formatting, base64 embedding and download
  (tfmapp.py:777-921). This is templating. Whether the report gets built is
  modelled by `Report.ReportBuilt` for three of its lookups: the zoning area
  (tfmapp.py:798-801), the security row (tfmapp.py:826) and the projection
  chart image (tfmapp.py:859, stored only at tfmapp.py:616). Its other ways
  to raise are not modelled: `int()` of a missing `estrato`, `colegio_cerca`
  or `estaciones_cerca` (tfmapp.py:770-774), and the other chart buffers
  (tfmapp.py:851-858), which earlier steps store unconditionally or under
  conditions the model does not track. Whether a chart image or an earlier
  `informe_html` is still in the session is a parameter (`chartStored`, and
  the `drawn` flag at step 7 for a block not found).
- Wizard.Session.ContinueToSecurity: does not model the raise at
  tfmapp.py:582 of a step-5 page whose 500 m ring holds no block and no pie
  image is stored; a block always lies in its own ring, so the ring of a
  found block is never empty in the source's geometry, which the model
  leaves to the caller's ring predicate.
- `hexToRgb` (tfmapp.py:350-352): it is defined but never called.
- Streamlit reruns and session persistence. `Session` keeps only the fields
  the navigation reads; the stored tables, colour map and chart buffers are
  not fields. Lines 347-348 store the colour map on every render of step 3.
  For a locality without blocks they are never reached, because the page
  raises at its second "Volver a Selección de Localidad" (tfmapp.py:339).
  Streamlit's duplicate-element error itself is not modelled; it appears
  only as the `drawn` flag of the buttons after it.
- The step-5 refill of missing categories with `"Sin clasificación POT"`
  (tfmapp.py:505-510, 546-547) is a no-op after step 3, because every
  category is already filled. The model's category is a plain string.
- The lookups of the locality code by name (tfmapp.py:182) and of the name
  by code (tfmapp.py:513) are direct one-row table lookups and are not
  modelled.
- Zoning area ids are never null in the model, and the block table is
  assumed to lack its own `uso_pot_simplificado` column. Pandas would match
  null keys in `merge`, and the column would get `_x`/`_y` suffixes.
- Numbers are exact `real`s; floating-point rounding of the means is not
  modelled.
- Comparison.MajoritySpec: when several categories tie for the largest
  count, it does not say which one is the majority. This is weaker because
  pandas does not fix the order of ties in `value_counts`. The model sorts
  stably, so ties keep first-appearance order.
- Security.Snapshot: its `None` stands for the IndexError that
  `df_seguridad[...].iloc[0]` raises (tfmapp.py:826) when no locality has
  the block's code; the report is not produced in that case.
- Security.SortByCrimes: the order of localities with equal crime counts is
  not stated. `sort_values` uses quicksort by default, which is not stable.
- Projection.ProjectionChart: it charts one block row. When repeated zoning
  ids make the join duplicate the selected block, the source flattens every
  copy into one longer series (tfmapp.py:567).
- Facilities.TransitPoints: transit rows are typed as multipoints. A first
  matching row of another kind, on which the source's `.geoms` would fail,
  cannot be represented.
