/** The seven-step navigation of the wizard. The session keeps a `step`
    field that every button handler rewrites; a page offers only its own
    buttons, so a handler has an effect only on its own step. */
module Wizard {
  import opened Tables
  import Zoning
  import Comparison
  import Report
  import Projection
  import Security

  /** What the navigation reads and writes of the session. */
  datatype SessionView = SessionView(
    step: int,                 // st.session_state.step
    loaded: bool,              // the datasets are stored in the session
    clicked: Option<string>,   // localidad_clic
    locality: Option<string>,  // localidad_sel
    block: Option<string>      // manzana_sel
  )

  /** The buttons (and the map click) of the seven pages. A parameter is
      what the page has computed when the button is drawn. Every `found` of
      steps 5 to 7 says that the code is among the chosen locality's blocks:
      step 5 reads `values[0]` of that selection before drawing any button,
      so without it the page raises and offers none; steps 6 and 7 test
      `manzana_sel.empty`. The `found` of step 4 is a lookup in the whole
      block table instead.

      A `drawn` flag says that the page gets as far as drawing the button.
      Two buttons with the same label and no key make Streamlit raise at the
      second one, so a step-3 page for a locality without blocks stops at its
      second "Volver a Selección de Localidad", and a step-4 page for a code
      the block table lacks stops at its second "Volver a Selección de
      Manzana". The last buttons of step 7 are drawn only when the report
      is built, or, for a block not found, when an earlier report is still
      stored (`Report.ReportBuilt`). */
  datatype Event =
    | StartAnalysis(loadOk: bool)        // step 1: "Iniciar Análisis", shown once loading succeeded
    | ClickMap(hit: Option<string>)      // step 2: the locality containing the clicked point, if any
    | ConfirmLocality                    // step 2: "Confirmar selección", shown for a clicked locality
    | ConfirmBlock(code: string)         // step 3: "Confirmar Manzana Seleccionada" with the pasted code
    | ContinueToComparison(found: bool)  // step 4: disabled when the block is not found
    | ContinueToSecurity(found: bool)    // step 5: drawn only when the code is among the locality's blocks
    | Finish(found: bool)                // step 6: shown only when the block is found
    | BackToStart(drawn: bool)           // step 2 always; step 3 when the locality has blocks; step 4 when the code is in the table
    | BackToLocality                     // step 3
    | BackToBlock                        // step 4
    | BackToContext(found: bool)         // step 5: drawn only when the code is among the locality's blocks
    | BackToComparison(found: bool)      // step 6 always; step 7 only when the block is not found
    | BackToSecurity(drawn: bool)        // step 7, when the page reaches its last buttons
    | Reset(drawn: bool)                 // step 6 when the block is found; step 7 as BackToSecurity

  /** A fresh session: only `step` is set, to 1. */
  const Initial: SessionView := SessionView(1, false, None, None, None)

  /** A clicked locality can be confirmed when it is present and non-empty. */
  predicate Confirmable(clicked: Option<string>)
  {
    clicked.Some? && clicked.value != ""
  }

  /** The effect of one event on the session. */
  function Next(v: SessionView, e: Event): SessionView
  {
    match e
    case StartAnalysis(ok) => if v.step == 1 && ok then v.(loaded := true, step := 2) else v
    case ClickMap(hit) => if v.step == 2 then v.(clicked := hit) else v
    case ConfirmLocality =>
      if v.step == 2 && Confirmable(v.clicked) then v.(locality := v.clicked, step := 3) else v
    case ConfirmBlock(code) => if v.step == 3 && code != "" then v.(block := Some(code), step := 4) else v
    case ContinueToComparison(found) => if v.step == 4 && found then v.(step := 5) else v
    case ContinueToSecurity(found) => if v.step == 5 && found then v.(step := 6) else v
    case Finish(found) => if v.step == 6 && found then v.(step := 7) else v
    case BackToStart(drawn) => if v.step == 2 || (3 <= v.step <= 4 && drawn) then v.(step := 1) else v
    case BackToLocality => if v.step == 3 then v.(step := 2) else v
    case BackToBlock => if v.step == 4 then v.(step := 3) else v
    case BackToContext(found) => if v.step == 5 && found then v.(step := 4) else v
    case BackToComparison(found) =>
      if v.step == 6 || (v.step == 7 && !found) then v.(step := 5) else v
    case BackToSecurity(drawn) => if v.step == 7 && drawn then v.(step := 6) else v
    case Reset(drawn) => if (v.step == 6 || v.step == 7) && drawn then Initial else v
  }

  /** Confirming an empty block code issues a warning. */
  predicate Warns(v: SessionView, e: Event)
  {
    v.step == 3 && e == ConfirmBlock("")
  }

  /** The guarded selections behind each step: a step past 1 has the data,
      past 2 a confirmed locality, past 3 a non-empty block code. */
  predicate Valid(v: SessionView)
  {
    && 1 <= v.step <= 7
    && (v.step >= 2 ==> v.loaded)
    && (v.step >= 3 ==> Confirmable(v.locality))
    && (v.step >= 4 ==> v.block.Some? && v.block.value != "")
  }

  /** Every handler keeps the session valid. */
  lemma NextValid(v: SessionView, e: Event)
    requires Valid(v)
    ensures Valid(Next(v, e))
  {
  }

  /** The forward moves and their guards: 1 to 2 needs a successful load,
      2 to 3 a clicked locality, 3 to 4 a non-empty code (an empty one warns
      and stays), 4 to 5 a found block; no event skips a step forward. */
  lemma ForwardGuards(v: SessionView, e: Event)
    ensures Next(v, e).step <= v.step + 1 || Next(v, e).step == 1
    ensures v.step == 1 && Next(v, e).step == 2 ==> e == StartAnalysis(true)
    ensures v.step == 2 && Next(v, e).step == 3 ==> e == ConfirmLocality && Confirmable(v.clicked)
    ensures v.step == 3 && Next(v, e).step == 4 ==> e.ConfirmBlock? && e.code != "" && Next(v, e).block == Some(e.code)
    ensures Warns(v, e) ==> Next(v, e) == v
    ensures v.step == 4 && Next(v, e).step == 5 ==> e == ContinueToComparison(true)
    ensures v.step == 5 && Next(v, e).step == 6 ==> e == ContinueToSecurity(true)
    ensures v.step == 6 && Next(v, e).step == 7 ==> e == Finish(true)
  {
  }

  /** Step 5 is left, forwards or backwards, only on a page for which the
      code is among the locality's blocks; otherwise nothing changes. */
  lemma StepFiveNeedsFound(v: SessionView, e: Event)
    requires v.step == 5
    ensures Next(v, e) != v ==> e == ContinueToSecurity(true) || e == BackToContext(true)
    ensures Next(v, ContinueToSecurity(false)) == v && Next(v, BackToContext(false)) == v
  {
  }

  /** The session after a sequence of events. */
  function Run(v: SessionView, es: seq<Event>): SessionView
    decreases |es|
  {
    if es == [] then v else Run(Next(v, es[0]), es[1..])
  }

  /** Validity holds from the first page through any sequence of events. */
  lemma {:induction false} RunValid(v: SessionView, es: seq<Event>)
    requires Valid(v)
    ensures Valid(Run(v, es))
    decreases |es|
  {
    if es != [] {
      NextValid(v, es[0]);
      RunValid(Next(v, es[0]), es[1..]);
    }
  }

  /** Steps are entered one at a time: after n events a session that began
      at step s is at most at step s + n. */
  lemma {:induction false} RunProgress(v: SessionView, es: seq<Event>)
    requires v.step >= 1
    ensures Run(v, es).step <= v.step + |es|
    decreases |es|
  {
    if es != [] {
      ForwardGuards(v, es[0]);
      RunProgress(Next(v, es[0]), es[1..]);
    }
  }

  /** Whatever the user did, a session at the spatial-context step or later
      holds a non-empty block code and a confirmed locality. */
  lemma SelectionBeforeAnalysis(es: seq<Event>)
    ensures Run(Initial, es).step >= 4 ==>
      Run(Initial, es).block.Some? && Run(Initial, es).block.value != "" && Confirmable(Run(Initial, es).locality)
    ensures Run(Initial, es).step >= 4 ==> |es| >= 3
  {
    RunValid(Initial, es);
    RunProgress(Initial, es);
  }

  /** A code that only blocks of other localities carry: step 4's lookup in
      the whole table finds it, so the session reaches step 5, where the
      lookup among the chosen locality's blocks does not; the page raises
      before drawing its buttons and the session stays at step 5. */
  lemma ForeignCodeStuckAtStepFive(blocks: seq<Block>, areas: seq<ZoningArea>, cod: int, hit: Option<string>,
                                   code: string, ring300: ClassifiedBlock -> bool, ring500: ClassifiedBlock -> bool)
    requires Confirmable(hit) && code != ""
    requires exists j :: 0 <= j < |blocks| && blocks[j].id == code
    requires forall j :: 0 <= j < |blocks| && blocks[j].id == code ==> blocks[j].locality != cod
    ensures
      var inTable := exists j :: 0 <= j < |blocks| && blocks[j].id == code;
      var inLocality := Comparison.Compare(Zoning.LocalityTable(blocks, areas, cod), code, ring300, ring500).Some?;
      var v := Run(Initial, [StartAnalysis(true), ClickMap(hit), ConfirmLocality, ConfirmBlock(code),
                             ContinueToComparison(inTable)]);
      && inTable && !inLocality
      && v.step == 5
      && Next(v, ContinueToSecurity(inLocality)) == v
      && Next(v, BackToContext(inLocality)) == v
  {
    var inTable := exists j :: 0 <= j < |blocks| && blocks[j].id == code;
    assert inTable;
    var inLocality := Comparison.Compare(Zoning.LocalityTable(blocks, areas, cod), code, ring300, ring500).Some?;
    assert !inLocality by {
      Comparison.StepFiveFound(blocks, areas, cod, code, ring300, ring500);
    }
    ReachStepFive(hit, code);
    var es := [StartAnalysis(true), ClickMap(hit), ConfirmLocality, ConfirmBlock(code), ContinueToComparison(inTable)];
    assert es == [StartAnalysis(true), ClickMap(hit), ConfirmLocality, ConfirmBlock(code), ContinueToComparison(true)];
    StepFiveNeedsFound(Run(Initial, es), ContinueToSecurity(false));
  }

  /** Load, click and confirm a locality, confirm a code and continue: the
      session is at step 5 with that locality and code. */
  lemma ReachStepFive(hit: Option<string>, code: string)
    requires Confirmable(hit) && code != ""
    ensures
      var v := Run(Initial, [StartAnalysis(true), ClickMap(hit), ConfirmLocality, ConfirmBlock(code),
                             ContinueToComparison(true)]);
      v.step == 5 && v.locality == hit && v.block == Some(code)
  {
    var es := [StartAnalysis(true), ClickMap(hit), ConfirmLocality, ConfirmBlock(code), ContinueToComparison(true)];
    var v1 := Next(Initial, es[0]);
    var v2 := Next(v1, es[1]);
    var v3 := Next(v2, es[2]);
    var v4 := Next(v3, es[3]);
    var v5 := Next(v4, es[4]);
    assert v5.step == 5 && v5.locality == hit && v5.block == Some(code);
    assert es[1..][1..][1..][1..][1..] == [];
    assert Run(v4, es[4..]) == v5;
    assert Run(v3, es[3..]) == v5;
    assert Run(v2, es[2..]) == v5;
    assert Run(v1, es[1..]) == v5;
  }

  /** A step-4 page for a code the block table lacks raises at its second
      "Volver a Selección de Manzana": the only button it draws is the first
      one, back to step 3. */
  lemma UnknownCodeOnlyBackToBlock(v: SessionView, blocks: seq<Block>, code: string)
    requires v.step == 4
    requires forall j :: 0 <= j < |blocks| ==> blocks[j].id != code
    ensures
      var found := exists j :: 0 <= j < |blocks| && blocks[j].id == code;
      && !found
      && Next(v, BackToStart(found)) == v
      && Next(v, ContinueToComparison(found)) == v
      && Next(v, BackToBlock).step == 3
  {
  }

  /** A step-3 page for a locality without blocks raises at its second
      "Volver a Selección de Localidad", before "Volver al Inicio". */
  lemma BlocklessLocalityNoBackToStart(v: SessionView, blocks: seq<Block>, cod: int)
    requires v.step == 3
    requires forall b :: b in blocks ==> b.locality != cod
    ensures
      var drawn := Zoning.BlocksOf(blocks, cod) != [];
      && !drawn
      && Next(v, BackToStart(drawn)) == v
      && Next(v, BackToLocality).step == 2
  {
    Zoning.BlocksOfNone(blocks, cod);
  }

  /** A report that cannot be built (a block without a zoning area, or an
      incomplete projection and no chart stored before) leaves the step-7
      page without its last buttons; with the block found it draws no other
      button either, so the session stays at step 7. */
  lemma FailedReportStuckAtStepSeven(v: SessionView, b: Block, areas: seq<ZoningArea>,
                                     security: seq<Security.SecurityRow>, chartStored: bool)
    requires v.step == 7
    requires b.area.None? || (Projection.ProjectionChart(b) == Projection.Incomplete && !chartStored)
    ensures
      var drawn := Report.ReportBuilt(b, areas, security, chartStored);
      && !drawn
      && Next(v, BackToSecurity(drawn)) == v
      && Next(v, Reset(drawn)) == v
      && Next(v, BackToComparison(true)) == v
  {
    if b.area.None? {
      Report.NullAreaBlocksReport(b, areas, security, chartStored);
    } else {
      Report.IncompleteProjectionBlocksReport(b, areas, security, chartStored);
    }
  }

  /** The session state, rewritten in place by the button handlers. */
  class Session {
    var step: int
    var loaded: bool
    var clicked: Option<string>
    var locality: Option<string>
    var block: Option<string>

    function View(): SessionView
      reads this
    {
      SessionView(step, loaded, clicked, locality, block)
    }

    /** `if "step" not in st.session_state: st.session_state.step = 1`. */
    constructor ()
      ensures View() == Initial
    {
      step, loaded, clicked, locality, block := 1, false, None, None, None;
    }

    /** "Iniciar Análisis": store the datasets and move to step 2. */
    method StartAnalysis(loadOk: bool)
      modifies this
      ensures View() == Next(old(View()), Event.StartAnalysis(loadOk))
    {
      if step == 1 && loadOk {
        loaded := true;
        step := 2;
      }
    }

    /** The map click of step 2. */
    method ClickMap(hit: Option<string>)
      modifies this
      ensures View() == Next(old(View()), Event.ClickMap(hit))
    {
      if step == 2 {
        clicked := hit;
      }
    }

    /** "Confirmar selección". */
    method ConfirmLocality()
      modifies this
      ensures View() == Next(old(View()), Event.ConfirmLocality)
    {
      if step == 2 && clicked.Some? && clicked.value != "" {
        locality := clicked;
        step := 3;
      }
    }

    /** "Confirmar Manzana Seleccionada": an empty code warns and stays. */
    method ConfirmBlock(code: string) returns (warned: bool)
      modifies this
      ensures View() == Next(old(View()), Event.ConfirmBlock(code))
      ensures warned == Warns(old(View()), Event.ConfirmBlock(code))
    {
      warned := false;
      if step == 3 {
        if code != "" {
          block := Some(code);
          step := 4;
        } else {
          warned := true;
        }
      }
    }

    /** "Continuar al Análisis Comparativo", disabled when the block is not found. */
    method ContinueToComparison(found: bool)
      modifies this
      ensures View() == Next(old(View()), Event.ContinueToComparison(found))
    {
      if step == 4 && found {
        step := 5;
      }
    }

    /** "Continuar al Análisis de Seguridad", drawn only when the page found the block. */
    method ContinueToSecurity(found: bool)
      modifies this
      ensures View() == Next(old(View()), Event.ContinueToSecurity(found))
    {
      if step == 5 && found {
        step := 6;
      }
    }

    /** "Finalizar y Descargar Informe". */
    method Finish(found: bool)
      modifies this
      ensures View() == Next(old(View()), Event.Finish(found))
    {
      if step == 6 && found {
        step := 7;
      }
    }

    /** "Volver al Inicio" of steps 2, 3 and 4, where the page draws it. */
    method BackToStart(drawn: bool)
      modifies this
      ensures View() == Next(old(View()), Event.BackToStart(drawn))
    {
      if step == 2 || (3 <= step <= 4 && drawn) {
        step := 1;
      }
    }

    /** "Volver a Selección de Localidad". */
    method BackToLocality()
      modifies this
      ensures View() == Next(old(View()), Event.BackToLocality)
    {
      if step == 3 {
        step := 2;
      }
    }

    /** "Volver a Selección de Manzana". */
    method BackToBlock()
      modifies this
      ensures View() == Next(old(View()), Event.BackToBlock)
    {
      if step == 4 {
        step := 3;
      }
    }

    /** "Volver al Análisis de Transporte y Educación", drawn only when the page found the block. */
    method BackToContext(found: bool)
      modifies this
      ensures View() == Next(old(View()), Event.BackToContext(found))
    {
      if step == 5 && found {
        step := 4;
      }
    }

    /** "Volver al Análisis Comparativo" / "Volver al Bloque Anterior". */
    method BackToComparison(found: bool)
      modifies this
      ensures View() == Next(old(View()), Event.BackToComparison(found))
    {
      if step == 6 || (step == 7 && !found) {
        step := 5;
      }
    }

    /** "Volver al Análisis de Seguridad", drawn when the report page gets that far. */
    method BackToSecurity(drawn: bool)
      modifies this
      ensures View() == Next(old(View()), Event.BackToSecurity(drawn))
    {
      if step == 7 && drawn {
        step := 6;
      }
    }

    /** "Reiniciar": delete every session key, then set the step to 1; drawn
        at step 6 when the block is found, at step 7 as the other last button. */
    method Reset(drawn: bool)
      modifies this
      ensures View() == Next(old(View()), Event.Reset(drawn))
      ensures (old(step) == 6 || old(step) == 7) && drawn ==> View() == Initial
    {
      if (step == 6 || step == 7) && drawn {
        loaded, clicked, locality, block := false, None, None, None;
        step := 1;
      }
    }
  }
}
