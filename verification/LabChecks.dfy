// Validation of a lab's texts, checkpoints and tutorial at one seed
// (internal/content/validate.go and validate_rules.go). Each check is specified by the
// complaints it must make: no others, and none left out.

module LabChecks {
  import opened Wrappers
  import opened Templates
  import opened Resolution
  import opened Cases
  import opened Labs

  const VALIDATION_SEED := 1
  const TUTORIAL_MODE := "tutorial"

  datatype Lang = Zh | En

  function In(text: Localized, lang: Lang): string {
    if lang.Zh? then text.zh else text.en
  }

  datatype Field = Ticket(lang: Lang) | Title(checkpoint: nat, lang: Lang) | Instruction(step: nat, lang: Lang)

  datatype Complaint =
    | Unrenderable(field: Field, caseId: string, names: seq<string>)
    | DuplicateId(checkpoint: nat)
    | UnknownNode(checkpoint: nat)
    | TutorialNotAllowed
    | NotVisible(checkpoint: nat)
    | NoSteps
    | DuplicateStep(step: nat)
    | NotACheckpoint(step: nat)
    | EmptyInstruction(step: nat, lang: Lang)
    | NoStepFor(id: string)
    | OutOfOrder(checkpoint: nat, required: string)

  // ----- the parameters validation renders with

  datatype ParamSet = ParamSet(caseId: string, params: Params)

  function SetsOf(lab: Lab, rng: Rng): seq<ParamSet> {
    if lab.cases == [] then [ParamSet("", AfterParams(Steps(rng(VALIDATION_SEED, PARAM_STREAM)), lab.params).resolved)]
    else seq(|lab.cases|, i requires 0 <= i < |lab.cases| =>
               ParamSet(lab.cases[i].id, ParamsOf(lab.params, lab.cases[i], rng, VALIDATION_SEED).resolved))
  }

  // Errors are ignored: what did resolve is kept.
  method ParamSets(lab: Lab, rng: Rng) returns (sets: seq<ParamSet>)
    ensures sets == SetsOf(lab, rng)
  {
    if |lab.cases| == 0 {
      var params, _ := Resolve(lab.params, rng(VALIDATION_SEED, PARAM_STREAM));
      return [ParamSet("", params)];
    }
    sets := [];
    for i := 0 to |lab.cases|
      invariant |sets| == i && sets == SetsOf(lab, rng)[..i]
    {
      var merged := MergeParams(lab.params, lab.cases[i].params);
      var params, _ := Resolve(merged, rng(VALIDATION_SEED, PARAM_STREAM));
      sets := sets + [ParamSet(lab.cases[i].id, params)];
    }
  }

  // ----- texts

  predicate TextDue(field: Field, text: string, under: ParamSet, e: Complaint) {
    var r := Rendered(text, under.params);
    r.Err? && e == Unrenderable(field, under.caseId, r.error)
  }

  method CheckText(field: Field, text: string, under: ParamSet) returns (errs: seq<Complaint>)
    ensures forall e :: e in errs <==> TextDue(field, text, under, e)
  {
    var r := Render(text, under.params);
    return if r.Err? then [Unrenderable(field, under.caseId, r.error)] else [];
  }

  ghost predicate TicketDue(lab: Lab, sets: seq<ParamSet>, n: nat, e: Complaint)
    requires n <= |sets|
  {
    exists i :: 0 <= i < n
      && (TextDue(Ticket(Zh), lab.ticket.zh, sets[i], e) || TextDue(Ticket(En), lab.ticket.en, sets[i], e))
  }

  method CheckTicket(lab: Lab, sets: seq<ParamSet>) returns (errs: seq<Complaint>)
    ensures forall e :: e in errs <==> TicketDue(lab, sets, |sets|, e)
  {
    errs := [];
    for i := 0 to |sets|
      invariant forall e :: e in errs <==> TicketDue(lab, sets, i, e)
    {
      var zh := CheckText(Ticket(Zh), lab.ticket.zh, sets[i]);
      var en := CheckText(Ticket(En), lab.ticket.en, sets[i]);
      errs := errs + zh + en;
    }
  }

  // ----- checkpoints

  ghost predicate TitleDue(lab: Lab, sets: seq<ParamSet>, i: nat, n: nat, e: Complaint)
    requires i < |lab.checkpoints| && n <= |sets|
  {
    var title := lab.checkpoints[i].title;
    exists k :: 0 <= k < n && (TextDue(Title(i, Zh), title.zh, sets[k], e) || TextDue(Title(i, En), title.en, sets[k], e))
  }

  ghost predicate CheckpointDue(lab: Lab, sets: seq<ParamSet>, i: nat, e: Complaint)
    requires i < |lab.checkpoints|
  {
    || (e == DuplicateId(i) && lab.checkpoints[i].id in Ids(lab.checkpoints)[..i])
    || (e == UnknownNode(i) && lab.checkpoints[i].node !in lab.nodes)
    || TitleDue(lab, sets, i, |sets|, e)
  }

  method CheckTitles(lab: Lab, sets: seq<ParamSet>, i: nat) returns (errs: seq<Complaint>)
    requires i < |lab.checkpoints|
    ensures forall e :: e in errs <==> TitleDue(lab, sets, i, |sets|, e)
  {
    errs := [];
    var title := lab.checkpoints[i].title;
    for k := 0 to |sets|
      invariant forall e :: e in errs <==> TitleDue(lab, sets, i, k, e)
    {
      var zh := CheckText(Title(i, Zh), title.zh, sets[k]);
      var en := CheckText(Title(i, En), title.en, sets[k]);
      errs := errs + zh + en;
    }
  }

  method CheckCheckpoints(lab: Lab, sets: seq<ParamSet>) returns (errs: seq<Complaint>)
    ensures forall e :: e in errs <==> exists i :: 0 <= i < |lab.checkpoints| && CheckpointDue(lab, sets, i, e)
  {
    errs := [];
    var seen := {};
    for i := 0 to |lab.checkpoints|
      invariant forall id :: id in seen <==> id in Ids(lab.checkpoints)[..i]
      invariant forall e :: e in errs <==> exists j :: 0 <= j < i && CheckpointDue(lab, sets, j, e)
    {
      var cp := lab.checkpoints[i];
      var own := if cp.id in seen then [DuplicateId(i)] else [];
      seen := seen + {cp.id};
      if cp.node !in lab.nodes {
        own := own + [UnknownNode(i)];
      }
      var titles := CheckTitles(lab, sets, i);
      own := own + titles;
      assert forall e :: e in own <==> CheckpointDue(lab, sets, i, e);
      errs := errs + own;
      assert Ids(lab.checkpoints)[..i + 1] == Ids(lab.checkpoints)[..i] + [cp.id];
    }
  }

  // ----- one seed for all

  predicate RendersIn(text: string, sets: seq<ParamSet>) {
    forall i | 0 <= i < |sets| :: Rendered(text, sets[i].params).Ok?
  }

  // What renders for every case with whatever resolved at the validation seed renders at
  // every seed for which the lab resolves.
  lemma RendersAtEverySeed(lab: Lab, rng: Rng, text: string, seed: nat, r: Resolved)
    requires RendersIn(text, SetsOf(lab, rng)) && ResolvesTo(lab.params, lab.cases, rng, seed, Ok(r))
    ensures Rendered(text, r.params).Ok?
  {
    ResolveForBinds(lab.params, lab.cases, rng, seed, r);
    var c :| (c in lab.cases || (lab.cases == [] && c == DEFAULT_CASE)) && r.params.Keys == NamesOf(lab.params) + NamesOf(c.params);
    var at := CaseSet(lab, rng, c);
    RenderSucceeds(text, SetsOf(lab, rng)[at].params);
    RenderSucceeds(text, r.params);
  }

  lemma CaseSet(lab: Lab, rng: Rng, c: Case) returns (at: nat)
    requires c in lab.cases || (lab.cases == [] && c == DEFAULT_CASE)
    ensures at < |SetsOf(lab, rng)| && SetsOf(lab, rng)[at].params == ParamsOf(lab.params, c, rng, VALIDATION_SEED).resolved
    ensures SetsOf(lab, rng)[at].params.Keys <= NamesOf(lab.params) + NamesOf(c.params)
  {
    at := 0;
    if c in lab.cases {
      at :| 0 <= at < |lab.cases| && lab.cases[at] == c;
    }
    ResolveBinds(Steps(rng(VALIDATION_SEED, PARAM_STREAM)), Merged(lab.params, c.params));
    MergedNames(lab.params, c.params);
  }

  // When every case resolves at the validation seed, a text passes exactly when each case
  // declares all the names it uses.
  lemma RendersIffDeclared(lab: Lab, rng: Rng, text: string)
    requires forall c | c in lab.cases || (lab.cases == [] && c == DEFAULT_CASE) :: ParamsOf(lab.params, c, rng, VALIDATION_SEED).failed == []
    ensures RendersIn(text, SetsOf(lab, rng))
       <==> forall c | c in lab.cases || (lab.cases == [] && c == DEFAULT_CASE) :: Names(text) <= NamesOf(lab.params) + NamesOf(c.params)
  {
    forall c | c in lab.cases || (lab.cases == [] && c == DEFAULT_CASE)
      ensures RendersIn(text, SetsOf(lab, rng)) ==> Names(text) <= NamesOf(lab.params) + NamesOf(c.params)
    {
      var at := CaseSet(lab, rng, c);
      RenderSucceeds(text, SetsOf(lab, rng)[at].params);
    }
    forall i | 0 <= i < |SetsOf(lab, rng)|
      ensures exists c :: (c in lab.cases || (lab.cases == [] && c == DEFAULT_CASE))
                          && (Rendered(text, SetsOf(lab, rng)[i].params).Ok? <==> Names(text) <= NamesOf(lab.params) + NamesOf(c.params))
    {
      var c := if lab.cases == [] then DEFAULT_CASE else lab.cases[i];
      assert SetsOf(lab, rng)[i].params == ParamsOf(lab.params, c, rng, VALIDATION_SEED).resolved;
      ResolveBinds(Steps(rng(VALIDATION_SEED, PARAM_STREAM)), Merged(lab.params, c.params));
      MergedNames(lab.params, c.params);
      RenderSucceeds(text, SetsOf(lab, rng)[i].params);
    }
  }

  // A lab whose ticket and titles draw no complaint renders them at every such seed.
  lemma TicketRendersAtEverySeed(lab: Lab, rng: Rng, seed: nat, r: Resolved, lang: Lang)
    requires forall e :: !TicketDue(lab, SetsOf(lab, rng), |SetsOf(lab, rng)|, e)
    requires ResolvesTo(lab.params, lab.cases, rng, seed, Ok(r))
    ensures Rendered(In(lab.ticket, lang), r.params).Ok?
  {
    var sets, text := SetsOf(lab, rng), In(lab.ticket, lang);
    forall i | 0 <= i < |sets|
      ensures Rendered(text, sets[i].params).Ok?
    {
      var got := Rendered(text, sets[i].params);
      if got.Err? {
        var e := Unrenderable(Ticket(lang), sets[i].caseId, got.error);
        assert TextDue(Ticket(lang), text, sets[i], e);
        assert TicketDue(lab, sets, |sets|, e);
      }
    }
    RendersAtEverySeed(lab, rng, text, seed, r);
  }

  lemma TitlesRenderAtEverySeed(lab: Lab, rng: Rng, seed: nat, r: Resolved, at: nat, lang: Lang)
    requires at < |lab.checkpoints| && forall e :: !CheckpointDue(lab, SetsOf(lab, rng), at, e)
    requires ResolvesTo(lab.params, lab.cases, rng, seed, Ok(r))
    ensures Rendered(In(lab.checkpoints[at].title, lang), r.params).Ok?
  {
    var sets, text := SetsOf(lab, rng), In(lab.checkpoints[at].title, lang);
    forall i | 0 <= i < |sets|
      ensures Rendered(text, sets[i].params).Ok?
    {
      var got := Rendered(text, sets[i].params);
      if got.Err? {
        var e := Unrenderable(Title(at, lang), sets[i].caseId, got.error);
        assert TextDue(Title(at, lang), text, sets[i], e);
        assert TitleDue(lab, sets, at, |sets|, e);
        assert CheckpointDue(lab, sets, at, e);
      }
    }
    RendersAtEverySeed(lab, rng, text, seed, r);
  }
}
