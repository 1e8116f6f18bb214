// Tutorial steps (internal/content/validate_rules.go): the checks, and the order a lab
// that passes them is taught in.

module Tutorial {
  import opened Lists
  import opened Wrappers
  import opened Templates
  import opened Cases
  import opened Labs
  import opened LabChecks
  import R = Requires

  // The index of the first step for a checkpoint.
  function Position(steps: seq<TutorialStep>, id: string): (i: Option<nat>)
    ensures i.Some? ==> i.value < |steps| && steps[i.value].checkpoint == id && forall j | 0 <= j < i.value :: steps[j].checkpoint != id
    ensures i.None? ==> forall j | 0 <= j < |steps| :: steps[j].checkpoint != id
  {
    if steps == [] then None
    else
      var n := |steps| - 1;
      var before := Position(steps[..n], id);
      if before.Some? then before else if steps[n].checkpoint == id then Some(n) else None
  }

  predicate IsRepeat(steps: seq<TutorialStep>, i: nat)
    requires i < |steps|
  {
    exists j :: 0 <= j < i && steps[j].checkpoint == steps[i].checkpoint
  }

  predicate IsVisible(lab: Lab, id: string) {
    exists k :: 0 <= k < |lab.checkpoints| && lab.checkpoints[k].visible && lab.checkpoints[k].id == id
  }

  // ----- the complaints that are due

  ghost predicate InstructionDue(lab: Lab, sets: seq<ParamSet>, i: nat, lang: Lang, e: Complaint)
    requires i < |lab.tutorial|
  {
    var text := In(lab.tutorial[i].instruction, lang);
    if text == "" then e == EmptyInstruction(i, lang)
    else exists k :: 0 <= k < |sets| && TextDue(Instruction(i, lang), text, sets[k], e)
  }

  ghost predicate StepDue(lab: Lab, sets: seq<ParamSet>, i: nat, e: Complaint)
    requires i < |lab.tutorial|
  {
    if IsRepeat(lab.tutorial, i) then e == DuplicateStep(i)
    else
      || (e == NotACheckpoint(i) && !IsVisible(lab, lab.tutorial[i].checkpoint))
      || InstructionDue(lab, sets, i, Zh, e)
      || InstructionDue(lab, sets, i, En, e)
  }

  // A checkpoint whose step comes before that of one it requires.
  predicate IsOutOfOrder(lab: Lab, k: nat, id: string)
    requires k < |lab.checkpoints|
  {
    var step, required := Position(lab.tutorial, lab.checkpoints[k].id), Position(lab.tutorial, id);
    id in lab.checkpoints[k].needs && step.Some? && required.Some? && required.value > step.value
  }

  ghost predicate TutorialDue(lab: Lab, sets: seq<ParamSet>, e: Complaint) {
    if TUTORIAL_MODE !in lab.modes then e == TutorialNotAllowed && lab.tutorial != []
    else
      || (e.NotVisible? && e.checkpoint < |lab.checkpoints| && !lab.checkpoints[e.checkpoint].visible)
      || if lab.tutorial == [] then e == NoSteps
         else
           || (exists i :: 0 <= i < |lab.tutorial| && StepDue(lab, sets, i, e))
           || (e.NoStepFor? && IsVisible(lab, e.id) && Position(lab.tutorial, e.id).None?)
           || (e.OutOfOrder? && e.checkpoint < |lab.checkpoints| && IsOutOfOrder(lab, e.checkpoint, e.required))
  }

  // ----- the check

  method CheckVisible(lab: Lab) returns (errs: seq<Complaint>, visible: seq<string>)
    ensures forall e :: e in errs <==> e.NotVisible? && e.checkpoint < |lab.checkpoints| && !lab.checkpoints[e.checkpoint].visible
    ensures forall id :: id in visible <==> IsVisible(lab, id)
  {
    errs, visible := [], [];
    for i := 0 to |lab.checkpoints|
      invariant forall e :: e in errs <==> e.NotVisible? && e.checkpoint < i && !lab.checkpoints[e.checkpoint].visible
      invariant forall id :: id in visible <==> exists k :: 0 <= k < i && lab.checkpoints[k].visible && lab.checkpoints[k].id == id
    {
      if !lab.checkpoints[i].visible {
        errs := errs + [NotVisible(i)];
      } else {
        visible := visible + [lab.checkpoints[i].id];
      }
    }
  }

  method CheckInstruction(lab: Lab, sets: seq<ParamSet>, i: nat, lang: Lang) returns (errs: seq<Complaint>)
    requires i < |lab.tutorial|
    ensures forall e :: e in errs <==> InstructionDue(lab, sets, i, lang, e)
  {
    var text := In(lab.tutorial[i].instruction, lang);
    if text == "" { return [EmptyInstruction(i, lang)]; }
    errs := [];
    for k := 0 to |sets|
      invariant forall e :: e in errs <==> exists j :: 0 <= j < k && TextDue(Instruction(i, lang), text, sets[j], e)
    {
      var own := CheckText(Instruction(i, lang), text, sets[k]);
      errs := errs + own;
    }
  }

  method CheckStep(lab: Lab, sets: seq<ParamSet>, visible: seq<string>, seen: bool, i: nat) returns (errs: seq<Complaint>)
    requires i < |lab.tutorial| && (seen <==> IsRepeat(lab.tutorial, i)) && forall id :: id in visible <==> IsVisible(lab, id)
    ensures forall e :: e in errs <==> StepDue(lab, sets, i, e)
  {
    if seen { return [DuplicateStep(i)]; }
    errs := if lab.tutorial[i].checkpoint !in visible then [NotACheckpoint(i)] else [];
    var zh := CheckInstruction(lab, sets, i, Zh);
    var en := CheckInstruction(lab, sets, i, En);
    errs := errs + zh + en;
  }

  // The map holds the first position of every checkpoint with a step.
  ghost predicate IsPositions(steps: seq<TutorialStep>, position: map<string, nat>) {
    forall id :: Position(steps, id) == if id in position then Some(position[id]) else None
  }

  lemma PositionsNext(steps: seq<TutorialStep>, i: nat, position: map<string, nat>)
    requires i < |steps| && IsPositions(steps[..i], position)
    ensures steps[i].checkpoint in position <==> IsRepeat(steps, i)
    ensures IsPositions(steps[..i + 1], if steps[i].checkpoint in position then position else position[steps[i].checkpoint := i])
  {
    assert steps[..i + 1][..i] == steps[..i];
    var before := Position(steps[..i], steps[i].checkpoint);
    if before.Some? {
      assert steps[before.value].checkpoint == steps[i].checkpoint;
    }
  }

  method CheckSteps(lab: Lab, sets: seq<ParamSet>, visible: seq<string>) returns (errs: seq<Complaint>, position: map<string, nat>)
    requires forall id :: id in visible <==> IsVisible(lab, id)
    ensures forall e :: e in errs <==> exists i :: 0 <= i < |lab.tutorial| && StepDue(lab, sets, i, e)
    ensures IsPositions(lab.tutorial, position)
  {
    errs, position := [], map[];
    for i := 0 to |lab.tutorial|
      invariant forall e :: e in errs <==> exists j :: 0 <= j < i && StepDue(lab, sets, j, e)
      invariant IsPositions(lab.tutorial[..i], position)
    {
      PositionsNext(lab.tutorial, i, position);
      var id := lab.tutorial[i].checkpoint;
      var own := CheckStep(lab, sets, visible, id in position, i);
      if id !in position {
        position := position[id := i];
      }
      errs := errs + own;
    }
    assert lab.tutorial[..|lab.tutorial|] == lab.tutorial;
  }

  method CheckCovered(visible: seq<string>, position: map<string, nat>) returns (errs: seq<Complaint>)
    ensures forall e :: e in errs <==> e.NoStepFor? && e.id in visible && e.id !in position
  {
    errs := [];
    for i := 0 to |visible|
      invariant forall e :: e in errs <==> e.NoStepFor? && e.id in visible[..i] && e.id !in position
    {
      assert visible[..i + 1] == visible[..i] + [visible[i]];
      if visible[i] !in position {
        errs := errs + [NoStepFor(visible[i])];
      }
    }
    assert visible[..|visible|] == visible;
  }

  // The ids checkpoint k requires whose steps come after its own.
  method CheckNeedsOrder(lab: Lab, position: map<string, nat>, k: nat) returns (errs: seq<Complaint>)
    requires k < |lab.checkpoints| && IsPositions(lab.tutorial, position)
    ensures forall e :: e in errs <==> e.OutOfOrder? && e.checkpoint == k && IsOutOfOrder(lab, k, e.required)
  {
    errs := [];
    var cp := lab.checkpoints[k];
    if cp.id !in position { return; }
    for j := 0 to |cp.needs|
      invariant forall e :: e in errs <==> e.OutOfOrder? && e.checkpoint == k && e.required in cp.needs[..j] && IsOutOfOrder(lab, k, e.required)
    {
      assert cp.needs[..j + 1] == cp.needs[..j] + [cp.needs[j]];
      if cp.needs[j] in position && position[cp.needs[j]] > position[cp.id] {
        errs := errs + [OutOfOrder(k, cp.needs[j])];
      }
    }
    assert cp.needs[..|cp.needs|] == cp.needs;
  }

  method CheckOrder(lab: Lab, position: map<string, nat>) returns (errs: seq<Complaint>)
    requires IsPositions(lab.tutorial, position)
    ensures forall e :: e in errs <==> e.OutOfOrder? && e.checkpoint < |lab.checkpoints| && IsOutOfOrder(lab, e.checkpoint, e.required)
  {
    errs := [];
    for k := 0 to |lab.checkpoints|
      invariant forall e :: e in errs <==> e.OutOfOrder? && e.checkpoint < k && IsOutOfOrder(lab, e.checkpoint, e.required)
    {
      var own := CheckNeedsOrder(lab, position, k);
      errs := errs + own;
    }
  }

  method CheckTutorial(lab: Lab, rng: Rng) returns (errs: seq<Complaint>)
    ensures forall e :: e in errs <==> TutorialDue(lab, SetsOf(lab, rng), e)
  {
    if TUTORIAL_MODE !in lab.modes {
      return if |lab.tutorial| > 0 then [TutorialNotAllowed] else [];
    }
    var visible;
    errs, visible := CheckVisible(lab);
    if |lab.tutorial| == 0 { return errs + [NoSteps]; }
    var sets := ParamSets(lab, rng);
    var steps, position := CheckSteps(lab, sets, visible);
    var covered := CheckCovered(visible, position);
    var order := CheckOrder(lab, position);
    errs := errs + steps + covered + order;
  }

  // ----- the order of an accepted tutorial

  function StepIds(steps: seq<TutorialStep>): (ids: seq<string>)
    ensures |ids| == |steps| && forall i | 0 <= i < |steps| :: ids[i] == steps[i].checkpoint
  {
    seq(|steps|, i requires 0 <= i < |steps| => steps[i].checkpoint)
  }

  lemma {:induction false} CountsOnce(s: seq<string>, x: string)
    requires Distinct(s)
    ensures multiset(s)[x] == if x in s then 1 else 0
  {
    if s != [] {
      var n := |s| - 1;
      CountsOnce(s[..n], x);
      assert s == s[..n] + [s[n]];
    }
  }

  lemma SameElements(s: seq<string>, t: seq<string>)
    requires Distinct(s) && Distinct(t) && forall x :: x in s <==> x in t
    ensures multiset(s) == multiset(t)
  {
    forall x
      ensures multiset(s)[x] == multiset(t)[x]
    {
      CountsOnce(s, x);
      CountsOnce(t, x);
    }
  }

  // The lab passes the three checks, in tutorial mode.
  ghost predicate Accepted(lab: Lab, rng: Rng) {
    && TUTORIAL_MODE in lab.modes
    && (forall i, e | 0 <= i < |lab.checkpoints| :: !CheckpointDue(lab, SetsOf(lab, rng), i, e))
    && R.RequireErrors(lab.checkpoints) == []
    && (forall e :: !TutorialDue(lab, SetsOf(lab, rng), e))
  }

  lemma IdsAreDistinct(lab: Lab, rng: Rng)
    requires Accepted(lab, rng)
    ensures Distinct(Ids(lab.checkpoints))
  {
    var ids := Ids(lab.checkpoints);
    forall i, j | 0 <= i < j < |ids|
      ensures ids[i] != ids[j]
    {
      assert !CheckpointDue(lab, SetsOf(lab, rng), j, DuplicateId(j));
      assert ids[..j][i] == ids[i];
    }
  }

  lemma StepsAreDistinct(lab: Lab, rng: Rng)
    requires Accepted(lab, rng)
    ensures Distinct(StepIds(lab.tutorial))
  {
    forall i, j | 0 <= i < j < |lab.tutorial|
      ensures lab.tutorial[i].checkpoint != lab.tutorial[j].checkpoint
    {
      assert !TutorialDue(lab, SetsOf(lab, rng), DuplicateStep(j));
      assert !StepDue(lab, SetsOf(lab, rng), j, DuplicateStep(j));
      assert !IsRepeat(lab.tutorial, j);
    }
  }

  lemma EveryIdHasStep(lab: Lab, rng: Rng, id: string)
    requires Accepted(lab, rng)
    ensures id in Ids(lab.checkpoints) <==> id in StepIds(lab.tutorial)
  {
    var sets := SetsOf(lab, rng);
    if id in Ids(lab.checkpoints) {
      var k :| 0 <= k < |lab.checkpoints| && lab.checkpoints[k].id == id;
      if lab.tutorial == [] { assert TutorialDue(lab, sets, NoSteps); }
      assert !TutorialDue(lab, sets, NotVisible(k));
      assert IsVisible(lab, id);
      assert !TutorialDue(lab, sets, NoStepFor(id));
      var at := Position(lab.tutorial, id).value;
      assert StepIds(lab.tutorial)[at] == id;
    }
    if id in StepIds(lab.tutorial) {
      var i :| 0 <= i < |lab.tutorial| && lab.tutorial[i].checkpoint == id;
      StepsAreDistinct(lab, rng);
      StepShows(lab, rng, i);
    }
  }

  lemma StepShows(lab: Lab, rng: Rng, i: nat)
    requires Accepted(lab, rng) && i < |lab.tutorial| && Distinct(StepIds(lab.tutorial))
    ensures IsVisible(lab, lab.tutorial[i].checkpoint)
  {
    forall j | 0 <= j < i
      ensures lab.tutorial[j].checkpoint != lab.tutorial[i].checkpoint
    {
      assert StepIds(lab.tutorial)[j] != StepIds(lab.tutorial)[i];
    }
    var e := NotACheckpoint(i);
    if !IsVisible(lab, lab.tutorial[i].checkpoint) {
      assert StepDue(lab, SetsOf(lab, rng), i, e);
      assert TutorialDue(lab, SetsOf(lab, rng), e);
    }
  }

  lemma {:induction false} KnownNeeds(cps: seq<Checkpoint>, k: nat)
    requires k < |cps| && Distinct(Ids(cps))
    ensures cps[k].id in R.Known(cps) && R.Known(cps)[cps[k].id] == cps[k].needs
  {
    var n := |cps| - 1;
    if k < n {
      KnownNeeds(cps[..n], k);
      assert Ids(cps)[k] != Ids(cps)[n];
    }
  }

  // A checkpoint that requires itself is reported, the one without an id excepted.
  lemma NoSelfRequirement(lab: Lab, rng: Rng, k: nat)
    requires Accepted(lab, rng) && k < |lab.checkpoints| && lab.checkpoints[k].id in lab.checkpoints[k].needs
    ensures lab.checkpoints[k].id == ""
  {
    var cps, id := lab.checkpoints, lab.checkpoints[k].id;
    IdsAreDistinct(lab, rng);
    KnownNeeds(cps, k);
    assert R.IsCycle(R.Known(cps), [id, id]);
    R.SilenceMeansEmptyId(cps, [id, id]);
  }

  // The steps of an accepted tutorial are its checkpoints in some order, each once.
  lemma StepsArePermutation(lab: Lab, rng: Rng)
    requires Accepted(lab, rng)
    ensures multiset(StepIds(lab.tutorial)) == multiset(Ids(lab.checkpoints))
    ensures Distinct(StepIds(lab.tutorial))
  {
    IdsAreDistinct(lab, rng);
    StepsAreDistinct(lab, rng);
    forall id
      ensures id in Ids(lab.checkpoints) <==> id in StepIds(lab.tutorial)
    {
      EveryIdHasStep(lab, rng, id);
    }
    SameElements(StepIds(lab.tutorial), Ids(lab.checkpoints));
  }

  // And every required checkpoint comes strictly earlier; the one exception is a
  // checkpoint without an id that requires itself.
  lemma RequiredComeEarlier(lab: Lab, rng: Rng, k: nat, id: string)
    requires Accepted(lab, rng) && k < |lab.checkpoints| && id in lab.checkpoints[k].needs
    ensures var step, required := Position(lab.tutorial, lab.checkpoints[k].id), Position(lab.tutorial, id);
            step.Some? && required.Some? && (required.value < step.value <==> !(id == "" == lab.checkpoints[k].id))
  {
    var cp := lab.checkpoints[k];
    R.NoneMissing(R.Known(lab.checkpoints), lab.checkpoints);
    R.KnownIds(lab.checkpoints);
    EveryIdHasStep(lab, rng, id);
    assert Ids(lab.checkpoints)[k] == cp.id;
    EveryIdHasStep(lab, rng, cp.id);
    var step, required := Position(lab.tutorial, cp.id), Position(lab.tutorial, id);
    HasPosition(lab.tutorial, id);
    HasPosition(lab.tutorial, cp.id);
    assert !TutorialDue(lab, SetsOf(lab, rng), OutOfOrder(k, id));
    if id == cp.id { NoSelfRequirement(lab, rng, k); }
  }

  // A lab of one checkpoint, whose id is empty and which requires itself.
  const SELF_REQUIRING := Lab(
    [TUTORIAL_MODE], Localized("t", "t"), [], [],
    R.SelfRequiring([""]), [TutorialStep("", Localized("t", "t"))], {""})

  lemma SelfRequiringPassesRequires()
    ensures R.RequireErrors(SELF_REQUIRING.checkpoints) == []
  {
    var cps := R.SelfRequiring([""]);
    R.EmptyIdMisses([""]);
    R.KnownIds(cps);
    R.NoneMissing(R.Known(cps), cps);
  }

  lemma PlainTextRenders(text: string, params: Params)
    requires text == "" || text == "t"
    ensures Rendered(text, params).Ok?
  {
    if text == "" { RenderSucceeds("", params); } else { RenderSucceeds("t", params); }
  }

  lemma SelfRequiringPassesCheckpoints(sets: seq<ParamSet>, e: Complaint)
    requires forall k | 0 <= k < |sets| :: Rendered("", sets[k].params).Ok?
    ensures !CheckpointDue(SELF_REQUIRING, sets, 0, e)
  {
    assert SELF_REQUIRING.checkpoints[..0] == [];
  }

  lemma SelfRequiringPassesTutorial(sets: seq<ParamSet>, e: Complaint)
    requires forall k | 0 <= k < |sets| :: Rendered("t", sets[k].params).Ok?
    ensures !TutorialDue(SELF_REQUIRING, sets, e)
  {
    var lab := SELF_REQUIRING;
    assert lab.tutorial[..0] == [];
    assert Position(lab.tutorial, "") == Some(0);
    assert lab.checkpoints[0].visible;
    assert IsVisible(lab, "");
  }

  // The exception is real: such a lab draws no complaint.
  lemma SelfRequiringIsAccepted(rng: Rng)
    ensures Accepted(SELF_REQUIRING, rng)
    ensures "" in SELF_REQUIRING.checkpoints[0].needs && SELF_REQUIRING.checkpoints[0].id == ""
  {
    var lab := SELF_REQUIRING;
    var sets := SetsOf(lab, rng);
    SelfRequiringPassesRequires();
    forall k | 0 <= k < |sets|
      ensures Rendered("", sets[k].params).Ok? && Rendered("t", sets[k].params).Ok?
    {
      PlainTextRenders("", sets[k].params);
      PlainTextRenders("t", sets[k].params);
    }
    forall e
      ensures !CheckpointDue(lab, sets, 0, e) && !TutorialDue(lab, sets, e)
    {
      SelfRequiringPassesCheckpoints(sets, e);
      SelfRequiringPassesTutorial(sets, e);
    }
  }

  lemma HasPosition(steps: seq<TutorialStep>, id: string)
    requires id in StepIds(steps)
    ensures Position(steps, id).Some?
  {
    var i :| 0 <= i < |steps| && StepIds(steps)[i] == id;
  }

  // Its instructions render at every seed for which the lab resolves.
  lemma InstructionsRenderAtEverySeed(lab: Lab, rng: Rng, seed: nat, r: Resolved, at: nat, lang: Lang)
    requires Accepted(lab, rng) && at < |lab.tutorial| && ResolvesTo(lab.params, lab.cases, rng, seed, Ok(r))
    ensures In(lab.tutorial[at].instruction, lang) != "" && Rendered(In(lab.tutorial[at].instruction, lang), r.params).Ok?
  {
    var sets, text := SetsOf(lab, rng), In(lab.tutorial[at].instruction, lang);
    StepsAreDistinct(lab, rng);
    assert !IsRepeat(lab.tutorial, at) by {
      forall j | 0 <= j < at
        ensures lab.tutorial[j].checkpoint != lab.tutorial[at].checkpoint
      {
        assert StepIds(lab.tutorial)[j] != StepIds(lab.tutorial)[at];
      }
    }
    NoInstructionDue(lab, rng, at, lang);
    forall k | 0 <= k < |sets|
      ensures Rendered(text, sets[k].params).Ok?
    {
      var got := Rendered(text, sets[k].params);
      if got.Err? {
        var e := Unrenderable(Instruction(at, lang), sets[k].caseId, got.error);
        assert TextDue(Instruction(at, lang), text, sets[k], e);
        assert InstructionDue(lab, sets, at, lang, e);
      }
    }
    RendersAtEverySeed(lab, rng, text, seed, r);
  }

  lemma NoInstructionDue(lab: Lab, rng: Rng, at: nat, lang: Lang)
    requires Accepted(lab, rng) && at < |lab.tutorial| && !IsRepeat(lab.tutorial, at)
    ensures In(lab.tutorial[at].instruction, lang) != "" && forall e :: !InstructionDue(lab, SetsOf(lab, rng), at, lang, e)
  {
    var sets := SetsOf(lab, rng);
    forall e
      ensures !InstructionDue(lab, sets, at, lang, e)
    {
      if InstructionDue(lab, sets, at, lang, e) {
        assert StepDue(lab, sets, at, e);
        assert TutorialDue(lab, sets, e);
      }
    }
    assert !InstructionDue(lab, sets, at, lang, EmptyInstruction(at, lang));
  }

  // ----- which labs are accepted

  // Checkpoints of which no two share an id, each visible on a known node.
  ghost predicate ProperCheckpoints(lab: Lab) {
    && Distinct(Ids(lab.checkpoints))
    && forall k | 0 <= k < |lab.checkpoints| :: lab.checkpoints[k].visible && lab.checkpoints[k].node in lab.nodes
  }

  // One step for each of them, and none before that of a checkpoint it requires.
  ghost predicate ProperSteps(lab: Lab) {
    && lab.tutorial != [] && Distinct(StepIds(lab.tutorial))
    && (forall id :: id in Ids(lab.checkpoints) <==> id in StepIds(lab.tutorial))
    && forall k, i, j | 0 <= k < |lab.checkpoints| && 0 <= i < |lab.tutorial| && 0 <= j < |lab.tutorial|
                        && lab.tutorial[j].checkpoint == lab.checkpoints[k].id
                        && lab.tutorial[i].checkpoint in lab.checkpoints[k].needs :: i <= j
  }

  ghost predicate RendersAll(text: Localized, sets: seq<ParamSet>) {
    RendersIn(text.zh, sets) && RendersIn(text.en, sets)
  }

  // All titles and instructions render for every case; no instruction is empty.
  ghost predicate ProperTexts(lab: Lab, sets: seq<ParamSet>) {
    && (forall k | 0 <= k < |lab.checkpoints| :: RendersAll(lab.checkpoints[k].title, sets))
    && forall i | 0 <= i < |lab.tutorial| ::
         lab.tutorial[i].instruction.zh != "" && lab.tutorial[i].instruction.en != "" && RendersAll(lab.tutorial[i].instruction, sets)
  }

  ghost predicate Proper(lab: Lab, rng: Rng) {
    && TUTORIAL_MODE in lab.modes && R.RequireErrors(lab.checkpoints) == []
    && ProperCheckpoints(lab) && ProperSteps(lab) && ProperTexts(lab, SetsOf(lab, rng))
  }

  lemma TitleDueIff(lab: Lab, sets: seq<ParamSet>, k: nat)
    requires k < |lab.checkpoints|
    ensures (forall e :: !TitleDue(lab, sets, k, |sets|, e)) <==> RendersAll(lab.checkpoints[k].title, sets)
  {
    var title := lab.checkpoints[k].title;
    forall j | 0 <= j < |sets|
      ensures Rendered(title.zh, sets[j].params).Err? ==> exists e :: TitleDue(lab, sets, k, |sets|, e)
      ensures Rendered(title.en, sets[j].params).Err? ==> exists e :: TitleDue(lab, sets, k, |sets|, e)
    {
      var zh, en := Rendered(title.zh, sets[j].params), Rendered(title.en, sets[j].params);
      if zh.Err? { assert TitleDue(lab, sets, k, |sets|, Unrenderable(Title(k, Zh), sets[j].caseId, zh.error)); }
      if en.Err? { assert TitleDue(lab, sets, k, |sets|, Unrenderable(Title(k, En), sets[j].caseId, en.error)); }
    }
  }

  lemma InstructionDueIff(lab: Lab, sets: seq<ParamSet>, i: nat, lang: Lang)
    requires i < |lab.tutorial|
    ensures var text := In(lab.tutorial[i].instruction, lang);
            (forall e :: !InstructionDue(lab, sets, i, lang, e)) <==> text != "" && RendersIn(text, sets)
  {
    var text := In(lab.tutorial[i].instruction, lang);
    assert text == "" ==> InstructionDue(lab, sets, i, lang, EmptyInstruction(i, lang));
    forall j | 0 <= j < |sets| && text != ""
      ensures Rendered(text, sets[j].params).Err? ==> exists e :: InstructionDue(lab, sets, i, lang, e)
    {
      var r := Rendered(text, sets[j].params);
      if r.Err? {
        assert TextDue(Instruction(i, lang), text, sets[j], Unrenderable(Instruction(i, lang), sets[j].caseId, r.error));
        assert InstructionDue(lab, sets, i, lang, Unrenderable(Instruction(i, lang), sets[j].caseId, r.error));
      }
    }
  }

  lemma ProperDrawsNoCheckpointDue(lab: Lab, sets: seq<ParamSet>, k: nat, e: Complaint)
    requires k < |lab.checkpoints| && ProperCheckpoints(lab) && ProperTexts(lab, sets)
    ensures !CheckpointDue(lab, sets, k, e)
  {
    TitleDueIff(lab, sets, k);
    var ids := Ids(lab.checkpoints);
    DistinctTake(ids, k);
  }

  lemma ProperDrawsNoStepDue(lab: Lab, sets: seq<ParamSet>, i: nat, e: Complaint)
    requires i < |lab.tutorial| && ProperCheckpoints(lab) && ProperSteps(lab) && ProperTexts(lab, sets)
    ensures !StepDue(lab, sets, i, e)
  {
    InstructionDueIff(lab, sets, i, Zh);
    InstructionDueIff(lab, sets, i, En);
    var ids, id := StepIds(lab.tutorial), lab.tutorial[i].checkpoint;
    DistinctTake(ids, i);
    forall j | 0 <= j < i ensures lab.tutorial[j].checkpoint != id {
      assert ids[j] in ids[..i];
    }
    assert ids[i] in ids && id in Ids(lab.checkpoints);
    var k :| 0 <= k < |lab.checkpoints| && Ids(lab.checkpoints)[k] == id;
    assert lab.checkpoints[k].visible;
    assert IsVisible(lab, id);
  }

  lemma ProperIsInOrder(lab: Lab, k: nat, id: string)
    requires k < |lab.checkpoints| && ProperSteps(lab)
    ensures !IsOutOfOrder(lab, k, id)
  {
  }

  lemma ProperHasStep(lab: Lab, id: string)
    requires ProperSteps(lab) && IsVisible(lab, id)
    ensures Position(lab.tutorial, id).Some?
  {
    var k :| 0 <= k < |lab.checkpoints| && lab.checkpoints[k].visible && lab.checkpoints[k].id == id;
    assert Ids(lab.checkpoints)[k] == id;
    HasPosition(lab.tutorial, id);
  }

  lemma ProperDrawsNone(lab: Lab, sets: seq<ParamSet>, e: Complaint)
    requires TUTORIAL_MODE in lab.modes && ProperCheckpoints(lab) && ProperSteps(lab) && ProperTexts(lab, sets)
    ensures !TutorialDue(lab, sets, e)
  {
    forall i | 0 <= i < |lab.tutorial| ensures !StepDue(lab, sets, i, e) {
      ProperDrawsNoStepDue(lab, sets, i, e);
    }
    if e.NoStepFor? && IsVisible(lab, e.id) { ProperHasStep(lab, e.id); }
    if e.OutOfOrder? && e.checkpoint < |lab.checkpoints| { ProperIsInOrder(lab, e.checkpoint, e.required); }
  }

  lemma ProperIsAccepted(lab: Lab, rng: Rng)
    requires Proper(lab, rng)
    ensures Accepted(lab, rng)
  {
    var sets := SetsOf(lab, rng);
    forall i, e | 0 <= i < |lab.checkpoints| ensures !CheckpointDue(lab, sets, i, e) {
      ProperDrawsNoCheckpointDue(lab, sets, i, e);
    }
    forall e ensures !TutorialDue(lab, sets, e) {
      ProperDrawsNone(lab, sets, e);
    }
  }

  lemma AcceptedCheckpoints(lab: Lab, rng: Rng)
    requires Accepted(lab, rng)
    ensures ProperCheckpoints(lab)
  {
    var sets := SetsOf(lab, rng);
    IdsAreDistinct(lab, rng);
    forall k | 0 <= k < |lab.checkpoints| ensures lab.checkpoints[k].visible && lab.checkpoints[k].node in lab.nodes {
      assert !CheckpointDue(lab, sets, k, UnknownNode(k));
      assert !TutorialDue(lab, sets, NotVisible(k));
    }
  }

  lemma AcceptedSteps(lab: Lab, rng: Rng)
    requires Accepted(lab, rng)
    ensures ProperSteps(lab)
  {
    var sets := SetsOf(lab, rng);
    StepsAreDistinct(lab, rng);
    assert !TutorialDue(lab, sets, NoSteps);
    forall id ensures id in Ids(lab.checkpoints) <==> id in StepIds(lab.tutorial) {
      EveryIdHasStep(lab, rng, id);
    }
    forall k, i, j | 0 <= k < |lab.checkpoints| && 0 <= i < |lab.tutorial| && 0 <= j < |lab.tutorial|
                     && lab.tutorial[j].checkpoint == lab.checkpoints[k].id
                     && lab.tutorial[i].checkpoint in lab.checkpoints[k].needs
      ensures i <= j
    {
      PositionIs(lab.tutorial, i);
      PositionIs(lab.tutorial, j);
      assert !TutorialDue(lab, sets, OutOfOrder(k, lab.tutorial[i].checkpoint));
    }
  }

  lemma {:induction false} PositionIs(steps: seq<TutorialStep>, i: nat)
    requires i < |steps| && Distinct(StepIds(steps))
    ensures Position(steps, steps[i].checkpoint) == Some(i)
  {
    assert StepIds(steps)[i] in StepIds(steps);
    HasPosition(steps, steps[i].checkpoint);
    OnlyPosition(steps, i, Position(steps, steps[i].checkpoint).value);
  }

  lemma OnlyPosition(steps: seq<TutorialStep>, i: nat, at: nat)
    requires i < |steps| && Distinct(StepIds(steps)) && at < |steps| && steps[at].checkpoint == steps[i].checkpoint
    ensures at == i
  {
    assert StepIds(steps)[at] == StepIds(steps)[i];
  }

  lemma AcceptedTexts(lab: Lab, rng: Rng)
    requires Accepted(lab, rng)
    ensures ProperTexts(lab, SetsOf(lab, rng))
  {
    var sets := SetsOf(lab, rng);
    forall k | 0 <= k < |lab.checkpoints| ensures RendersAll(lab.checkpoints[k].title, sets) {
      TitleDueIff(lab, sets, k);
      forall e ensures !TitleDue(lab, sets, k, |sets|, e) {
        assert !CheckpointDue(lab, sets, k, e);
      }
    }
    StepsAreDistinct(lab, rng);
    forall i | 0 <= i < |lab.tutorial|
      ensures lab.tutorial[i].instruction.zh != "" && lab.tutorial[i].instruction.en != "" && RendersAll(lab.tutorial[i].instruction, sets)
    {
      PositionIs(lab.tutorial, i);
      NoInstructionDue(lab, rng, i, Zh);
      NoInstructionDue(lab, rng, i, En);
      InstructionDueIff(lab, sets, i, Zh);
      InstructionDueIff(lab, sets, i, En);
    }
  }

  // A lab is accepted in tutorial mode if and only if its checkpoints, steps and texts
  // are as they should be and its requires relation draws no error.
  lemma AcceptedIffProper(lab: Lab, rng: Rng)
    ensures Accepted(lab, rng) <==> Proper(lab, rng)
  {
    if Accepted(lab, rng) {
      AcceptedCheckpoints(lab, rng);
      AcceptedSteps(lab, rng);
      AcceptedTexts(lab, rng);
    }
    if Proper(lab, rng) { ProperIsAccepted(lab, rng); }
  }
}
