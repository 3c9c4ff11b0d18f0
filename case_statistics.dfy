/**
 * The stage-progress panel of a case (CaseStatistics): a fixed list of stages,
 * each a checklist of weighted activities; the progress of a stage in percent;
 * and the optimistic checkbox toggle that is rolled back when saving fails.
 */
module CaseStatistics {
  import opened Wrappers

  datatype Activity = Activity(key: string, caption: string, weight: nat)

  /** `special` marks the `type: 'SPECIAL_DOCS'` stage, scored by uploaded documents. */
  datatype Stage = Stage(id: string, title: string, special: bool, activities: seq<Activity>)

  /** `STAGES_CONFIG`. */
  const STAGES: seq<Stage> := [
    Stage("pendientes", "Pendientes", false, [
      Activity("cliente_creado", "Cliente Creado", 30),
      Activity("busqueda_familiares", "Búsqueda de posibles familiares", 70)]),
    Stage("ubicado", "Ubicado", false, [
      Activity("sube_ubica", "Se sube el Ubica", 40),
      Activity("asignacion_asesor", "Asignación Asesor", 60)]),
    Stage("contactado", "Contactado", false, [
      Activity("carta_presentacion", "Enviar carta de presentación", 50),
      Activity("contacto_efectivo", "Contacto efectivo", 50)]),
    Stage("contrato_enviado", "Contrato Enviado", false, [
      Activity("descargar_enviar", "Descargar contrato y enviarlo (PDF)", 100)]),
    Stage("contrato_firmado", "Contrato Firmado", false, [
      Activity("recibir_firmado", "Recibir contrato Firmado", 70),
      Activity("subir_software_contrato", "Subirlo al Software", 30)]),
    Stage("documentos", "Documentos", true, [
      Activity("docs_subido_software", "Subirlo al Software", 20)]),
    Stage("radicado", "Radicado Entidad", false, [
      Activity("conformacion", "Se hace Conformación", 30),
      Activity("pedir_cita", "Pedir Cita", 10),
      Activity("asistir_cita", "Asistir a la cita", 10),
      Activity("radicar", "Radicar", 50)])
  ]

  /** The special stage reads its checkbox from its first activity. */
  predicate WellFormed(stage: Stage) {
    stage.special ==> |stage.activities| > 0
  }

  /** Document counts from the backend; the panel starts from `{ total: 1, uploaded: 0 }`. */
  datatype DocStats = DocStats(total: nat, uploaded: nat)

  const INITIAL_DOC_STATS: DocStats := DocStats(1, 0)

  type Checklist = map<string, bool>

  /** `checklist[key]` is truthy: present and true. */
  predicate Checked(c: Checklist, key: string) {
    key in c && c[key]
  }

  function TotalWeight(acts: seq<Activity>): nat {
    if acts == [] then 0 else TotalWeight(acts[..|acts| - 1]) + acts[|acts| - 1].weight
  }

  /** Sum of the weights of the checked activities. */
  function WeightSum(acts: seq<Activity>, c: Checklist): nat {
    if acts == [] then 0
    else WeightSum(acts[..|acts| - 1], c) + (if Checked(c, acts[|acts| - 1].key) then acts[|acts| - 1].weight else 0)
  }

  /** `Math.round`: the integer nearest to `x`, halves rounded up. */
  function Round(x: real): (r: int)
    ensures r as real - 0.5 <= x < r as real + 0.5
  {
    (x + 0.5).Floor
  }

  function Min(a: int, b: int): int {
    if a <= b then a else b
  }

  /**
   * The documents stage: `80 * uploaded / total` plus 20 when its checkbox is
   * ticked, rounded and capped at 100. With no documents at all the ratio is NaN
   * and counts as 0; uploads against a total of 0 give Infinity, capped at 100.
   */
  function DocsProgress(docs: DocStats, checked: bool): int {
    var checkboxScore: real := if checked then 20.0 else 0.0;
    if docs.total == 0 then
      if docs.uploaded == 0 then Min(Round(checkboxScore), 100) else 100
    else
      Min(Round((docs.uploaded as real / docs.total as real) * 100.0 * 0.8 + checkboxScore), 100)
  }

  /** What `calculateProgress(stage)` returns. */
  function StageProgress(stage: Stage, c: Checklist, docs: DocStats): int
    requires WellFormed(stage)
  {
    if stage.special then DocsProgress(docs, Checked(c, stage.activities[0].key))
    else Min(WeightSum(stage.activities, c), 100)
  }

  /** `calculateProgress`: for an ordinary stage, accumulates the weights of the checked activities. */
  method CalculateProgress(stage: Stage, c: Checklist, docs: DocStats) returns (p: int)
    requires WellFormed(stage)
    ensures p == StageProgress(stage, c, docs)
  {
    if stage.special {
      var checkboxScore: real := if Checked(c, stage.activities[0].key) then 20.0 else 0.0;
      if docs.total == 0 {
        if docs.uploaded == 0 {
          p := Min(Round(checkboxScore), 100);
        } else {
          p := 100;
        }
      } else {
        var mathScore := (docs.uploaded as real / docs.total as real) * 100.0 * 0.8;
        p := Min(Round(mathScore + checkboxScore), 100);
      }
      return;
    }
    var progress := 0;
    var i := 0;
    var acts := stage.activities;
    while i < |acts|
      invariant 0 <= i <= |acts|
      invariant progress == WeightSum(acts[..i], c)
    {
      assert acts[..i + 1][..i] == acts[..i];
      if Checked(c, acts[i].key) {
        progress := progress + acts[i].weight;
      }
      i := i + 1;
    }
    assert acts[..i] == acts;
    p := Min(progress, 100);
  }

  /** `isComplete`. */
  predicate IsComplete(progress: int) {
    progress >= 99
  }

  lemma TotalWeightUnrolled(acts: seq<Activity>)
    requires 1 <= |acts| <= 4
    ensures |acts| == 1 ==> TotalWeight(acts) == acts[0].weight
    ensures |acts| == 2 ==> TotalWeight(acts) == acts[0].weight + acts[1].weight
    ensures |acts| == 4 ==> TotalWeight(acts) == acts[0].weight + acts[1].weight + acts[2].weight + acts[3].weight
  {
    assert acts[..|acts| - 1][..0] == [];
    if |acts| >= 2 {
      assert acts[..|acts| - 1][..|acts| - 2] == acts[..|acts| - 2];
    }
    if |acts| == 4 {
      assert acts[..3][..2][..1] == acts[..1];
      assert acts[..1][..0] == [];
    }
  }

  /** Every stage of the table is well formed, and every ordinary stage's weights add up to 100. */
  lemma StagesWeightsSumTo100()
    ensures forall s :: s in STAGES ==> WellFormed(s)
    ensures forall s :: s in STAGES && !s.special ==> TotalWeight(s.activities) == 100
  {
    forall i | 0 <= i < |STAGES|
      ensures !STAGES[i].special ==> TotalWeight(STAGES[i].activities) == 100
    {
      TotalWeightUnrolled(STAGES[i].activities);
    }
  }

  lemma {:induction false} WeightSumBounds(acts: seq<Activity>, c: Checklist)
    ensures WeightSum(acts, c) <= TotalWeight(acts)
  {
    if acts != [] {
      WeightSumBounds(acts[..|acts| - 1], c);
    }
  }

  /** Progress is always a percentage. */
  lemma ProgressInRange(stage: Stage, c: Checklist, docs: DocStats)
    requires WellFormed(stage)
    ensures 0 <= StageProgress(stage, c, docs) <= 100
  {
    if stage.special && docs.total > 0 {
      var ratio := docs.uploaded as real / docs.total as real;
      assert ratio >= 0.0;
    }
  }

  lemma {:induction false} AllChecked(acts: seq<Activity>, c: Checklist)
    requires forall i :: 0 <= i < |acts| ==> Checked(c, acts[i].key)
    ensures WeightSum(acts, c) == TotalWeight(acts)
  {
    if acts != [] {
      AllChecked(acts[..|acts| - 1], c);
    }
  }

  lemma {:induction false} NoneChecked(acts: seq<Activity>, c: Checklist)
    requires forall i :: 0 <= i < |acts| ==> !Checked(c, acts[i].key)
    ensures WeightSum(acts, c) == 0
  {
    if acts != [] {
      NoneChecked(acts[..|acts| - 1], c);
    }
  }

  /** An ordinary stage of the table is at 100 with every activity checked and at 0 with none. */
  lemma FullAndEmptyStages(stage: Stage, c: Checklist, docs: DocStats)
    requires stage in STAGES && !stage.special
    ensures (forall i :: 0 <= i < |stage.activities| ==> Checked(c, stage.activities[i].key)) ==>
              StageProgress(stage, c, docs) == 100 && IsComplete(StageProgress(stage, c, docs))
    ensures (forall i :: 0 <= i < |stage.activities| ==> !Checked(c, stage.activities[i].key)) ==>
              StageProgress(stage, c, docs) == 0
  {
    StagesWeightsSumTo100();
    if forall i :: 0 <= i < |stage.activities| ==> Checked(c, stage.activities[i].key) {
      AllChecked(stage.activities, c);
    }
    if forall i :: 0 <= i < |stage.activities| ==> !Checked(c, stage.activities[i].key) {
      NoneChecked(stage.activities, c);
    }
  }

  /** Every document uploaded and the checkbox ticked completes the documents stage; nothing at all scores 0. */
  lemma DocsStageExtremes(docs: DocStats)
    ensures docs.total > 0 && docs.uploaded == docs.total ==> DocsProgress(docs, true) == 100
    ensures docs.uploaded == 0 ==> DocsProgress(docs, false) == 0
  {
    if docs.total > 0 && docs.uploaded == docs.total {
      assert docs.uploaded as real / docs.total as real == 1.0;
    }
  }

  /** `c2` checks at least what `c1` checks. */
  ghost predicate ChecksMore(c1: Checklist, c2: Checklist) {
    forall k :: Checked(c1, k) ==> Checked(c2, k)
  }

  lemma {:induction false} WeightSumMonotone(acts: seq<Activity>, c1: Checklist, c2: Checklist)
    requires ChecksMore(c1, c2)
    ensures WeightSum(acts, c1) <= WeightSum(acts, c2)
  {
    if acts != [] {
      WeightSumMonotone(acts[..|acts| - 1], c1, c2);
    }
  }

  /** Checking more activities never lowers a stage's progress. */
  lemma ProgressMonotone(stage: Stage, c1: Checklist, c2: Checklist, docs: DocStats)
    requires WellFormed(stage) && ChecksMore(c1, c2)
    ensures StageProgress(stage, c1, docs) <= StageProgress(stage, c2, docs)
  {
    if !stage.special {
      WeightSumMonotone(stage.activities, c1, c2);
    }
  }

  /** Only the truthiness of each entry matters to the progress. */
  lemma {:induction false} WeightSumSameChecks(acts: seq<Activity>, c1: Checklist, c2: Checklist)
    requires forall k :: Checked(c1, k) == Checked(c2, k)
    ensures WeightSum(acts, c1) == WeightSum(acts, c2)
  {
    if acts != [] {
      WeightSumSameChecks(acts[..|acts| - 1], c1, c2);
    }
  }

  /** The panel's `checklist` and `docStats` state. */
  class StatsPanel {
    var checklist: Checklist
    var docStats: DocStats

    /**
     * The panel after its statistics request: the checklist and document counts
     * the backend sent, or, when the request fails, an empty checklist and the
     * initial counts.
     */
    constructor (response: Option<(Checklist, DocStats)>)
      ensures response.Some? ==> checklist == response.value.0 && docStats == response.value.1
      ensures response.None? ==> checklist == map[] && docStats == INITIAL_DOC_STATS
    {
      if response.Some? {
        checklist := response.value.0;
        docStats := response.value.1;
      } else {
        checklist := map[];
        docStats := INITIAL_DOC_STATS;
      }
    }

    /**
     * `handleToggle(key)`: writes the negated value at once, then writes its
     * negation back when the save (`saved`) fails.
     */
    method Toggle(key: string, saved: bool)
      modifies this
      ensures docStats == old(docStats)
      ensures saved ==> checklist == old(checklist)[key := !Checked(old(checklist), key)]
      ensures !saved ==> checklist == old(checklist)[key := Checked(old(checklist), key)]
    {
      var newValue := !Checked(checklist, key);
      checklist := checklist[key := newValue];
      if !saved {
        checklist := checklist[key := !newValue];
      }
    }
  }

  /** A successful toggle flips the chosen key and no other. */
  lemma ToggleFlipsOne(c: Checklist, key: string)
    ensures Checked(c[key := !Checked(c, key)], key) == !Checked(c, key)
    ensures forall k :: k != key ==> Checked(c[key := !Checked(c, key)], k) == Checked(c, k)
  {
  }

  /** A rolled-back toggle leaves every stage's progress as it was. */
  lemma RollbackKeepsProgress(stage: Stage, c: Checklist, key: string, docs: DocStats)
    requires WellFormed(stage)
    ensures StageProgress(stage, c[key := Checked(c, key)], docs) == StageProgress(stage, c, docs)
  {
    var c' := c[key := Checked(c, key)];
    assert forall k :: Checked(c', k) == Checked(c, k);
    WeightSumSameChecks(stage.activities, c', c);
  }
}
