// The parts of a lab that its validation reads (internal/content/content.go).

module Labs {
  import opened Parameters
  import opened Cases

  datatype Localized = Localized(zh: string, en: string)

  datatype Checkpoint = Checkpoint(id: string, title: Localized, node: string, visible: bool, needs: seq<string>)

  datatype TutorialStep = TutorialStep(checkpoint: string, instruction: Localized)

  datatype Lab = Lab(modes: seq<string>, ticket: Localized, params: seq<Param>, cases: seq<Case>,
                     checkpoints: seq<Checkpoint>, tutorial: seq<TutorialStep>, nodes: set<string>)

  function Ids(cps: seq<Checkpoint>): (ids: seq<string>)
    ensures |ids| == |cps| && forall i | 0 <= i < |cps| :: ids[i] == cps[i].id
  {
    seq(|cps|, i requires 0 <= i < |cps| => cps[i].id)
  }
}
