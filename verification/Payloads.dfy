/** The payloads a command seals, and the cross-field rules their schemas check. */
module Payloads {
  import opened EvidenceGate
  import opened Organizer
  import opened Text
  import opened Wrappers

  // ----- review -----

  function ReviewTypeOf(reason: Reason): ReviewType {
    match reason
    case DuplicateSuggestion => DuplicateSuggestionReview
    case PlannerAmbiguity => LowConfidence
    case RevisionConflict => RevisionConflictReview
    case ExplicitDestinationUnavailable => StructureConflict
    case ExpansionPending => PendingExpansion
  }

  function ProposalFor(input: Input, reason: Reason, duplicates: seq<DuplicateNote>): Proposal {
    match reason
    case DuplicateSuggestion => DuplicateNotes(duplicates)
    case RevisionConflict => Conflict(RevisionReason)
    case ExplicitDestinationUnavailable => Conflict(CandidateEligibility)
    case ExpansionPending =>
      if input.plan.block.None? then Conflict(ConsentControls) else BlockProposal(input.plan.block.value.blockId)
    case PlannerAmbiguity => RouteCapture(input.plan.validated)
  }

  const MAX_ALTERNATIVES := 2
  const MAX_OPERATIONS := 5
  const MAX_REASON_CODES := 5

  const ALLOWED_CODES := {
    "explicit_shopping_intent", "explicit_destination", "routing_rule_match", "open_daily_list", "same_day_log",
    "alias_match", "semantic_match", "recent_destination", "type_match", "no_candidate_fit", "ambiguous_intent",
    "duplicate_suspected", "low_information", "parser_override"
  }

  predicate AllowedCodes(codes: seq<string>) {
    |codes| <= MAX_REASON_CODES && forall i | 0 <= i < |codes| :: codes[i] in ALLOWED_CODES
  }

  /** The limits of the plan schema. */
  predicate PlanAccepted(plan: ValidatedPlan) {
    |plan.alternatives| <= MAX_ALTERNATIVES && |plan.operations| <= MAX_OPERATIONS && AllowedCodes(plan.reasonCodes)
  }

  /** The schema of a proposal: two or three duplicate notes, all different; or a plan within its limits. */
  predicate ProposalAccepted(p: Proposal) {
    && (p.DuplicateNotes? ==> 2 <= |p.notes| <= 3 && NotesDistinct(p.notes))
    && (p.RouteCapture? ==> PlanAccepted(p.plan))
  }

  /** The lookups of the alternatives come first, whatever the reason; then the schema decides. */
  function ReviewPayload(input: Input): Result<Proposal> {
    if input.reason.None? then Err(UNAVAILABLE)
    else
      var notes := Resolve(input.candidates, input.plan.validated.alternatives);
      if notes.None? then Err(UNAVAILABLE)
      else
        var p := ProposalFor(input, input.reason.value, notes.value);
        if ProposalAccepted(p) && input.services.shapesFit then Ok(p) else Err(UNAVAILABLE)
  }

  /** The operational type of a Review and its proposal, as the shared contract pairs them. */
  predicate ProposalMatchesType(t: ReviewType, p: Proposal) {
    match t
    case LowConfidence => p.RouteCapture?
    case RevisionConflictReview => p == Conflict(RevisionReason)
    case DuplicateSuggestionReview => p.DuplicateNotes?
    case PendingExpansion => p.BlockProposal? || p == Conflict(ConsentControls)
    case StructureConflict => p == Conflict(CandidateEligibility)
  }

  /**
    Behind the evidence gate, fields of the right shape given, the payload of a plan within its limits fails
    for one cause only: a duplicate suggestion that does not offer two different alternatives.
   */
  lemma ReviewPayloadMeaning(input: Input)
    requires EvidenceBound(input) && input.reason.Some? && PlanAccepted(input.plan.validated)
    ensures ReviewPayload(input).Ok? <==>
              && input.services.shapesFit
              && (input.reason.value.DuplicateSuggestion? ==>
                    |input.plan.validated.alternatives| == 2 && NoRepeats(input.plan.validated.alternatives))
    ensures ReviewPayload(input).Ok? ==>
        ProposalMatchesType(ReviewTypeOf(input.reason.value), ReviewPayload(input).value)
  {
    hide EvidenceBound, Resolve, NotesDistinct, NoRepeats;
    AlternativesResolve(input);
    ResolveMeaning(input.candidates, input.plan.validated.alternatives);
  }

  // ----- receipts -----

  function CapturedItems(ids: seq<string>): seq<Inserted> {
    seq(|ids|, i requires 0 <= i < |ids| => Captured(Some(ids[i])))
  }

  function RoutedReceipt(input: Input, applied: Applied): Receipt {
    var ids := input.preparation.ids;
    var captured :=
      if applied.insertedItemIds == [] then [Captured(None)]
      else CapturedItems(applied.insertedItemIds);
    Receipt(
      actions := [
        OpenNote(applied.noteId),
        MoveCapture(ids.decisionId, applied.noteId),
        UndoMutation(applied.currentRevision, ids.mutationId)
      ],
      captureId := input.job.captureId,
      createdAt := input.job.occurredAt,
      decisionId := ids.decisionId,
      destination := Some((applied.noteId, applied.title)),
      inserted := captured + if input.plan.block.None? then [] else [AiGenerated(input.plan.block.value.blockId)],
      jobId := input.job.jobId,
      mutationId := Some(ids.mutationId),
      outcome := if input.plan.Create? then CreatedNote else AddedToNote,
      reasonCodes := input.plan.validated.reasonCodes,
      reviewItemId := if input.plan.block.None? then None else Some(ids.reviewItemId),
      undoTargets := [UndoTarget(applied.currentRevision, ids.mutationId, applied.noteId)])
  }

  function DeferredReceipt(input: Input): Receipt {
    Receipt(
      actions := [],
      captureId := input.job.captureId,
      createdAt := input.job.occurredAt,
      decisionId := input.preparation.ids.decisionId,
      destination := None,
      inserted := [],
      jobId := input.job.jobId,
      mutationId := None,
      outcome := NeedsReview,
      reasonCodes := input.plan.validated.reasonCodes,
      reviewItemId := Some(input.preparation.ids.reviewItemId),
      undoTargets := [])
  }

  function ActionTag(a: Action): nat {
    match a
    case OpenNote(_) => 0
    case MoveCapture(_, _) => 1
    case UndoMutation(_, _) => 2
  }

  /** Action types differ, and each action names the receipt's own destination, decision or mutation. */
  predicate ActionsAgree(r: Receipt) {
    && (forall i, j | 0 <= i < j < |r.actions| :: ActionTag(r.actions[i]) != ActionTag(r.actions[j]))
    && forall i | 0 <= i < |r.actions| ::
         match r.actions[i]
         case OpenNote(note) => r.destination.Some? && r.destination.value.0 == note
         case MoveCapture(decision, note) =>
           r.destination.Some? && r.destination.value.0 == note && decision == r.decisionId
         case UndoMutation(_, mutation) => r.mutationId == Some(mutation)
  }

  /** Undo targets ascend by note, and no mutation comes twice. */
  predicate TargetsOrdered(targets: seq<UndoTarget>) {
    && (forall i | 0 < i < |targets| :: Before(targets[i - 1].noteId, targets[i].noteId))
    && forall i, j | 0 <= i < j < |targets| :: targets[i].mutationId != targets[j].mutationId
  }

  function FirstUndo(actions: seq<Action>): Option<Action> {
    if actions == [] then None
    else if actions[0].UndoMutation? then Some(actions[0])
    else FirstUndo(actions[1..])
  }

  /** The first undo target that names the receipt's own note and mutation. */
  function PrimaryTarget(r: Receipt, targets: seq<UndoTarget>): Option<UndoTarget> {
    if targets == [] then None
    else if r.destination.Some? && targets[0].noteId == r.destination.value.0
      && r.mutationId == Some(targets[0].mutationId)
    then Some(targets[0])
    else PrimaryTarget(r, targets[1..])
  }

  const USER_UNDO := "user_undo"

  /** The receipt of a route that its owner took back. */
  predicate TerminalUndo(r: Receipt) {
    && r.outcome.AddedToNote?
    && r.reasonCodes == [USER_UNDO]
    && |r.actions| == 2
    && (exists i | 0 <= i < |r.actions| :: r.actions[i].OpenNote?)
    && exists i | 0 <= i < |r.actions| :: r.actions[i].MoveCapture?
  }

  predicate UndoAgrees(r: Receipt) {
    if TerminalUndo(r) then FirstUndo(r.actions).None? && r.undoTargets == []
    else
      && USER_UNDO !in r.reasonCodes
      && var primary, undo := PrimaryTarget(r, r.undoTargets), FirstUndo(r.actions);
      && primary.Some?
      && undo.Some?
      && undo.value.UndoMutation?
      && undo.value.mutationId == primary.value.mutationId
      && undo.value.expectedRevision == primary.value.expectedRevision
  }

  predicate RoutedShape(r: Receipt) {
    r.destination.Some? && r.mutationId.Some? && r.inserted != [] && UndoAgrees(r)
  }

  predicate UnroutedShape(r: Receipt) {
    r.destination.None? && r.mutationId.None? && r.inserted == [] && r.actions == [] && r.undoTargets == []
  }

  /** The cross-field rules of a version 2 receipt, with its list limits. */
  predicate ReceiptAccepted(r: Receipt) {
    && |r.actions| <= 3 && |r.inserted| <= 500 && |r.reasonCodes| <= 20 && |r.undoTargets| <= 16
    && ActionsAgree(r)
    && (if r.outcome.CreatedNote? || r.outcome.AddedToNote? then RoutedShape(r) else UnroutedShape(r))
    && TargetsOrdered(r.undoTargets)
    && (r.outcome.NeedsReview? ==> r.reviewItemId.Some?)
  }

  /** An allowed code is never the owner's own undo, so a plan within its limits leaves a receipt no cause
      for refusal but the number of items. */
  lemma PlanCodesFitReceipts(plan: ValidatedPlan)
    requires PlanAccepted(plan)
    ensures |plan.reasonCodes| <= 20 && USER_UNDO !in plan.reasonCodes
  {
    UndoNotAllowed();
  }

  lemma UndoNotAllowed()
    ensures USER_UNDO !in ALLOWED_CODES
  {
    var u := USER_UNDO;
    assert |u| == 9;
    assert u != "type_match" && u != "alias_match";
  }

  /**
    The receipt of a routed command meets every rule about notes, decisions, mutations and undo
    whatever the input; only its list sizes and the owner's own undo code can refuse it.
   */
  lemma RoutedReceiptAccepted(input: Input, applied: Applied)
    ensures ReceiptAccepted(RoutedReceipt(input, applied)) <==>
              && |RoutedReceipt(input, applied).inserted| <= 500
              && |input.plan.validated.reasonCodes| <= 20
              && USER_UNDO !in input.plan.validated.reasonCodes
  {
    hide Before;
    var r := RoutedReceipt(input, applied);
    assert r.inserted != [];
    assert FirstUndo(r.actions[1..]) == FirstUndo(r.actions[1..][1..]);
    assert FirstUndo(r.actions) == Some(r.actions[2]);
    assert PrimaryTarget(r, r.undoTargets) == Some(r.undoTargets[0]);
  }

  lemma DeferredReceiptAccepted(input: Input)
    ensures ReceiptAccepted(DeferredReceipt(input)) <==> |input.plan.validated.reasonCodes| <= 20
  {
    hide Before, FirstUndo, PrimaryTarget;
  }

  // ----- which receipts can be read -----

  /** Of the kind: opening, moving or undoing, each at most once. */
  predicate EachOnce(actions: seq<Action>) {
    forall i, j | 0 <= i < j < |actions| ::
      && !(actions[i].OpenNote? && actions[j].OpenNote?)
      && !(actions[i].MoveCapture? && actions[j].MoveCapture?)
      && !(actions[i].UndoMutation? && actions[j].UndoMutation?)
  }

  /** The receipt of a route: where the capture went, and how its owner can still move it or take it back. */
  ghost predicate TellsRoute(r: Receipt) {
    && r.destination.Some? && r.mutationId.Some? && r.inserted != []
    && if "user_undo" in r.reasonCodes then
         && r.outcome == AddedToNote && r.reasonCodes == ["user_undo"] && r.undoTargets == []
         && var opens, moves := OpenNote(r.destination.value.0), MoveCapture(r.decisionId, r.destination.value.0);
         && r.actions in {[opens, moves], [moves, opens]}
       else
         exists revision ::
           && UndoMutation(revision, r.mutationId.value) in r.actions
           && UndoTarget(revision, r.mutationId.value, r.destination.value.0) in r.undoTargets
  }

  ghost predicate Readable(r: Receipt) {
    && |r.actions| <= 3 && |r.inserted| <= 500 && |r.reasonCodes| <= 20 && |r.undoTargets| <= 16
    && EachOnce(r.actions)
    && (forall note | OpenNote(note) in r.actions :: r.destination.Some? && note == r.destination.value.0)
    && (forall decision, note | MoveCapture(decision, note) in r.actions ::
          decision == r.decisionId && r.destination.Some? && note == r.destination.value.0)
    && (forall revision, mutation | UndoMutation(revision, mutation) in r.actions :: r.mutationId == Some(mutation))
    && (forall i | 0 < i < |r.undoTargets| :: Before(r.undoTargets[i - 1].noteId, r.undoTargets[i].noteId))
    && (forall i, j | 0 <= i < j < |r.undoTargets| :: r.undoTargets[i].mutationId != r.undoTargets[j].mutationId)
    && (r.outcome == NeedsReview ==>
          && r.reviewItemId != None && r.destination == None && r.mutationId == None
          && r.inserted == [] && r.actions == [] && r.undoTargets == [])
    && (r.outcome != NeedsReview ==> TellsRoute(r))
  }

  lemma {:induction false} FirstUndoMeaning(actions: seq<Action>)
    ensures FirstUndo(actions).Some? <==> exists a | a in actions :: a.UndoMutation?
    ensures FirstUndo(actions).Some? ==> FirstUndo(actions).value in actions && FirstUndo(actions).value.UndoMutation?
  {
    if actions != [] {
      FirstUndoMeaning(actions[1..]);
      assert actions == [actions[0]] + actions[1..];
    }
  }

  lemma {:induction false} PrimaryTargetMeaning(r: Receipt, targets: seq<UndoTarget>)
    requires r.destination.Some? && r.mutationId.Some?
    ensures var note, mutation := r.destination.value.0, r.mutationId.value;
            && (PrimaryTarget(r, targets).None? ==>
                  forall revision :: UndoTarget(revision, mutation, note) !in targets)
            && (PrimaryTarget(r, targets).Some? ==>
                  var t := PrimaryTarget(r, targets).value;
                  t in targets && t.mutationId == mutation && t.noteId == note)
  {
    if targets != [] {
      PrimaryTargetMeaning(r, targets[1..]);
      assert targets == [targets[0]] + targets[1..];
    }
  }

  lemma ActionsMeaning(r: Receipt)
    ensures ActionsAgree(r) <==>
              && EachOnce(r.actions)
              && (forall note | OpenNote(note) in r.actions :: r.destination.Some? && note == r.destination.value.0)
              && (forall decision, note | MoveCapture(decision, note) in r.actions ::
                    decision == r.decisionId && r.destination.Some? && note == r.destination.value.0)
              && (forall revision, mutation | UndoMutation(revision, mutation) in r.actions ::
                    r.mutationId == Some(mutation))
  {
    assert forall i | 0 <= i < |r.actions| :: r.actions[i] in r.actions;
  }

  lemma UndoMeaning(r: Receipt)
    requires ActionsAgree(r) && TargetsOrdered(r.undoTargets)
    requires r.destination.Some? && r.mutationId.Some? && r.inserted != []
    ensures "user_undo" !in r.reasonCodes ==> (UndoAgrees(r) <==> TellsRoute(r))
  {
    hide Before;
    FirstUndoMeaning(r.actions);
    PrimaryTargetMeaning(r, r.undoTargets);
    var first, primary := FirstUndo(r.actions), PrimaryTarget(r, r.undoTargets);
    assert TerminalUndo(r) ==> r.reasonCodes[0] == USER_UNDO;
    if revision :|
      && UndoMutation(revision, r.mutationId.value) in r.actions
      && UndoTarget(revision, r.mutationId.value, r.destination.value.0) in r.undoTargets
    {
      var i :| 0 <= i < |r.actions| && r.actions[i] == UndoMutation(revision, r.mutationId.value);
      var j :| 0 <= j < |r.actions| && r.actions[j] == first.value;
      assert i == j;
      assert primary.value == UndoTarget(revision, r.mutationId.value, r.destination.value.0);
    }
  }

  lemma TakenBackMeaning(r: Receipt)
    requires ActionsAgree(r) && "user_undo" in r.reasonCodes
    requires r.destination.Some? && r.mutationId.Some? && r.inserted != []
    ensures UndoAgrees(r) <==> TellsRoute(r)
  {
    FirstUndoMeaning(r.actions);
    var opens, moves := OpenNote(r.destination.value.0), MoveCapture(r.decisionId, r.destination.value.0);
    if |r.actions| == 2 {
      assert r.actions == [r.actions[0], r.actions[1]];
    }
    if TerminalUndo(r) {
      assert r.actions in {[opens, moves], [moves, opens]};
    }
    if r.actions in {[opens, moves], [moves, opens]} {
      assert r.actions[0].OpenNote? || r.actions[1].OpenNote?;
      assert r.actions[0].MoveCapture? || r.actions[1].MoveCapture?;
    }
  }

  /** The reader takes exactly the receipts whose parts tell one story. */
  lemma ReadableExactly(r: Receipt)
    ensures ReceiptAccepted(r) <==> Readable(r)
  {
    hide ActionsAgree, EachOnce, UndoAgrees, TellsRoute, Before;
    ActionsMeaning(r);
    if r.outcome != NeedsReview {
      RouteNeeds(r);
      if ActionsAgree(r) && TargetsOrdered(r.undoTargets)
         && r.destination.Some? && r.mutationId.Some? && r.inserted != [] {
        if "user_undo" in r.reasonCodes {
          TakenBackMeaning(r);
        } else {
          UndoMeaning(r);
        }
      }
    }
  }

  lemma RouteNeeds(r: Receipt)
    ensures TellsRoute(r) ==> r.destination.Some? && r.mutationId.Some? && r.inserted != []
  {
  }

  // ----- the other payloads -----

  function DecisionPayload(input: Input): Decision {
    Decision(
      band := if input.routing.Some? then input.routing.value.band else if input.plan.Review? then "review" else "auto",
      candidates := seq(|input.candidates|,
          i requires 0 <= i < |input.candidates| => input.candidates[i].encrypted.noteId),
      generationId := input.generationId,
      blockId := if input.plan.block.None? then None else Some(input.plan.block.value.blockId),
      plan := input.plan.validated)
  }

  function LogicalRequest(input: Input): WriteRequest {
    WriteRequest(
      expectedRevision := input.preparation.expectedRevision,
      captureId := input.job.captureId,
      decisionId := input.preparation.ids.decisionId,
      jobId := input.job.jobId,
      scope := input.preparation.mode,
      targetResourceId := input.preparation.noteId)
  }

  function ResponsePayload(input: Input, applied: Applied): WriteResponse {
    WriteResponse(
      jobId := input.job.jobId,
      mutationId := input.preparation.ids.mutationId,
      noteId := applied.noteId,
      revision := applied.currentRevision)
  }
}
