/** The five-step curation wizard that records one evidence point from a
    source (`evidence/CurationWorkbench.tsx`, and the older
    `CurationWorkbench.tsx`, which has the same steps and gates but no PDF
    viewer and a different pilot filter). */
module Curation {
  import opened Wrappers
  import opened Materials
  import Text
  import Seqs
  import Units
  import Evidence

  /** The source a curator picked: `id`, `citation` and `title`, with an
      absent string written as "". */
  datatype Picked = Picked(id: string, citation: string, title: string)

  /** `MIUFormData`: every input is a string, as the form holds it. */
  datatype Form = Form(
    materialId: string,
    parameterCode: string,
    snippet: string,
    rawValue: string,
    rawUnit: string,
    sourceRef: string,
    citation: string,
    pageNumber: string,
    figureNumber: string,
    tableNumber: string,
    confidence: Level,
    notes: string)

  const EmptyForm := Form("", "", "", "", "", "", "", "", "", "", Medium, "")

  /** The wizard: the current step, the selected source and the form. */
  datatype Wizard = Wizard(step: int, source: Option<Picked>, form: Form)

  /** The state the wizard opens in, and returns to after a submission. */
  const Initial := Wizard(1, None, EmptyForm)

  /** `canProceedToStep(step)`: step 2 needs a source, 3 a material, 4 a
      parameter, 5 a snippet, a value and a unit; any other step is open. */
  predicate CanProceed(w: Wizard, step: int) {
    if step == 2 then w.source.Some?
    else if step == 3 then w.form.materialId != ""
    else if step == 4 then w.form.parameterCode != ""
    else if step == 5 then w.form.snippet != "" && w.form.rawValue != "" && w.form.rawUnit != ""
    else true
  }

  /** What the wizard's controls can do. */
  datatype Action =
    | SelectSource(picked: Picked)
    | SetMaterial(materialId: string)
    | SetParameter(parameterCode: string)
    | SetSnippet(snippet: string)
    | SetRawValue(rawValue: string)
    | SetRawUnit(rawUnit: string)
    | SetMetadata(pageNumber: string, figureNumber: string, tableNumber: string,
                  confidence: Level, notes: string)
    | PdfText(text: string, page: nat)
    | Previous
    | Next
    | Circle(target: int)
    | Submit(signedIn: bool, created: bool)

  /** `handleSourceSelect`: the source reference is the source's id and the
      citation its `citation || title || ""`. */
  function SelectSourceIn(w: Wizard, p: Picked): (r: Wizard)
    ensures r.source == Some(p) && r.form.sourceRef == p.id
    ensures r.form.citation == (if p.citation != "" then p.citation else p.title)
    ensures r.step == w.step
    ensures r.form.(sourceRef := w.form.sourceRef, citation := w.form.citation) == w.form
  {
    Wizard(w.step, Some(p),
           w.form.(sourceRef := p.id, citation := if p.citation != "" then p.citation else p.title))
  }

  /** One action. Every input is disabled off its own step, the footer's
      Next is disabled unless the next step may be entered, a step circle
      responds only for a completed or the active step, the PDF viewer
      hands over only a non-empty selection, and a submission that the
      server accepts resets the form and returns to step 1. */
  function Apply(w: Wizard, a: Action): (r: Wizard)
    ensures 1 <= w.step <= 5 ==> 1 <= r.step <= 5
  {
    match a
    case SelectSource(p) => SelectSourceIn(w, p)
    case SetMaterial(v) => if w.step == 2 then w.(form := w.form.(materialId := v)) else w
    case SetParameter(v) => if w.step == 3 then w.(form := w.form.(parameterCode := v)) else w
    case SetSnippet(v) => if w.step == 4 then w.(form := w.form.(snippet := v)) else w
    case SetRawValue(v) => if w.step == 4 then w.(form := w.form.(rawValue := v)) else w
    case SetRawUnit(v) => if w.step == 4 then w.(form := w.form.(rawUnit := v)) else w
    case SetMetadata(p, f, t, c, n) =>
      if w.step == 5 then
        w.(form := w.form.(pageNumber := p, figureNumber := f, tableNumber := t, confidence := c, notes := n))
      else w
    case PdfText(text, page) =>
      if text != "" then w.(form := w.form.(snippet := text, pageNumber := Text.NatToString(page))) else w
    case Previous => w.(step := if w.step - 1 > 1 then w.step - 1 else 1)
    case Next => if w.step < 5 && CanProceed(w, w.step + 1) then w.(step := w.step + 1) else w
    case Circle(k) => if 1 <= k <= 5 && k <= w.step then w.(step := k) else w
    case Submit(signedIn, created) =>
      if w.step == 5 && CanProceed(w, 5) && signedIn && created then Initial else w
  }

  /** Every step up to the current one may be entered: what the wizard's
      gates keep true. */
  predicate Reached(w: Wizard) {
    1 <= w.step <= 5 && forall k :: 1 <= k <= w.step ==> CanProceed(w, k)
  }

  /** Next moves forward exactly when the next step's gate is open. */
  lemma NextGate(w: Wizard)
    requires 1 <= w.step <= 5
    ensures Apply(w, Next).step == w.step + 1 <==> w.step < 5 && CanProceed(w, w.step + 1)
    ensures Apply(w, Next).step != w.step + 1 ==> Apply(w, Next) == w
  {
  }

  /** A step circle never moves past the current step. */
  lemma CircleBackOnly(w: Wizard, k: int)
    requires 1 <= w.step <= 5
    ensures Apply(w, Circle(k)).step <= w.step
    ensures Apply(w, Circle(k)).step == (if 1 <= k <= w.step then k else w.step)
  {
  }

  /** A submission the server accepts starts over. */
  lemma SubmitResets(w: Wizard)
    requires w.step == 5 && CanProceed(w, 5)
    ensures Apply(w, Submit(true, true)) == Initial
    ensures Apply(w, Submit(true, false)) == w && Apply(w, Submit(false, true)) == w
  {
  }

  /** A field edited on step `s` only matters to the gates beyond `s`. */
  lemma EditKeepsLowerGates(w: Wizard, a: Action, k: int)
    requires 1 <= k <= w.step && CanProceed(w, k)
    requires !a.Previous? && !a.Next? && !a.Circle? && !a.Submit?
    ensures CanProceed(Apply(w, a), k)
  {
  }

  /** Every action keeps every reached step enterable. */
  lemma ApplyKeepsReached(w: Wizard, a: Action)
    requires Reached(w)
    ensures Reached(Apply(w, a))
  {
    var r := Apply(w, a);
    if a.Submit? {
      assert r == Initial || r == w;
    } else if a.Previous? || a.Next? || a.Circle? {
      assert r.form == w.form && r.source == w.source;
      assert r.step <= w.step || CanProceed(w, r.step);
      forall k | 1 <= k <= r.step ensures CanProceed(r, k) {
        assert CanProceed(w, k);
      }
    } else {
      forall k | 1 <= k <= r.step ensures CanProceed(r, k) {
        EditKeepsLowerGates(w, a, k);
      }
    }
  }

  /** The state after a run of actions. */
  function Run(w: Wizard, actions: seq<Action>): Wizard
    decreases |actions|
  {
    if |actions| == 0 then w else Run(Apply(w, actions[0]), actions[1..])
  }

  /** From the opening state, whatever the curator does, every step up to
      the current one may be entered, and the step stays in [1, 5]. */
  lemma {:induction false} RunKeepsReached(w: Wizard, actions: seq<Action>)
    requires Reached(w)
    ensures Reached(Run(w, actions))
    decreases |actions|
  {
    if |actions| > 0 {
      ApplyKeepsReached(w, actions[0]);
      RunKeepsReached(Apply(w, actions[0]), actions[1..]);
    }
  }

  // ---------------------------------------------------------------------
  // Units
  // ---------------------------------------------------------------------

  /** `getAllowedUnits(code)`: [] without an ontology, a code or an entry. */
  function AllowedUnits(ontology: Option<Units.Ontology>, code: string): (r: seq<string>)
    ensures ontology.None? || code == "" || code !in ontology.value ==> r == []
    ensures ontology.Some? && code != "" && code in ontology.value ==> r == ontology.value[code].allowed
  {
    if ontology.None? || code == "" || code !in ontology.value then [] else ontology.value[code].allowed
  }

  /** `getCanonicalUnit(code)`: "" without an ontology, a code or an entry. */
  function CanonicalUnit(ontology: Option<Units.Ontology>, code: string): (r: string)
    ensures ontology.None? || code == "" || code !in ontology.value ==> r == ""
    ensures ontology.Some? && code != "" && code in ontology.value ==> r == ontology.value[code].canonical
  {
    if ontology.None? || code == "" || code !in ontology.value then "" else ontology.value[code].canonical
  }

  /** The unit-validation effect: no error while the parameter, the unit
      or the ontology is missing or the parameter is unknown; otherwise an
      error exactly when the unit is not allowed. */
  function UnitError(ontology: Option<Units.Ontology>, code: string, unit: string): (r: string)
    ensures ontology.None? || code == "" || unit == "" || code !in ontology.value ==> r == ""
    ensures ontology.Some? && code != "" && unit != "" && code in ontology.value ==>
      (r != "" <==> unit !in ontology.value[code].allowed)
  {
    if ontology.None? || code == "" || unit == "" || code !in ontology.value then ""
    else
      var allowed := ontology.value[code].allowed;
      if unit in allowed then ""
      else "Invalid unit for parameter " + code + ". Allowed units: " + Text.Join(allowed, ", ")
  }

  /** With the shipped ontology a yield in "%" passes and one in "kg" is
      flagged. */
  lemma YieldUnitChecks()
    ensures UnitError(Some(Units.UnitsTable), "Y", "%") == ""
    ensures UnitError(Some(Units.UnitsTable), "Y", "kg") != ""
  {
    Units.AllThirteenPresent("Y");
    assert "Y" in Evidence.AllParams;
    Units.YieldUnitCases();
  }

  // ---------------------------------------------------------------------
  // Pilot materials
  // ---------------------------------------------------------------------

  /** `PILOT_MATERIAL_PATTERNS`. */
  const PilotPatterns: seq<string> := ["cardboard", "pet", "hdpe", "paper", "glass"]

  /** A pilot material of the newer wizard: a non-empty name containing
      one of the patterns, ignoring case. */
  predicate IsPilot(m: Material) {
    m.name != "" && exists i :: 0 <= i < |PilotPatterns| && Text.Contains(Text.Lower(m.name), PilotPatterns[i])
  }

  /** `pilotMaterials` of the newer wizard. */
  function Pilots(ms: seq<Material>): (r: seq<Material>)
    ensures forall i :: 0 <= i < |r| ==> IsPilot(r[i]) && r[i] in ms
    ensures forall i :: 0 <= i < |ms| && IsPilot(ms[i]) ==> ms[i] in r
  {
    Seqs.Filter(IsPilot, ms)
  }

  /** `PILOT_MATERIALS` of the older wizard. */
  const PilotIds: seq<string> := ["aluminum", "pet", "cardboard"]

  /** A pilot material of the older wizard: its lower-cased id is listed. */
  predicate IsPilotId(m: Material) {
    Text.Lower(m.id) in PilotIds
  }

  /** `pilotMaterials` of the older wizard. */
  function PilotsById(ms: seq<Material>): (r: seq<Material>)
    ensures forall i :: 0 <= i < |r| ==> IsPilotId(r[i]) && r[i] in ms
    ensures forall i :: 0 <= i < |ms| && IsPilotId(ms[i]) ==> ms[i] in r
  {
    Seqs.Filter(IsPilotId, ms)
  }
}
