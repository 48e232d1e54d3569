/** What is in a sealed command, and when there is one, read off the input field by field. */
module SealContents {
  import opened EvidenceGate
  import opened Organizer
  import opened Payloads
  import opened SealCoherence
  import opened Sealing
  import opened Wrappers

  // ----- routed commands -----

  /** The sealed decision: the plan as validated, the candidates it was made from, and its band. */
  ghost predicate DecisionHolds(input: Input, s: Seal<Decision>, band: string) {
    && s.surface == OrganizationDecision && s.resource == input.plan.decisionId && s.version == 1
    && s.reservation == Single(input.preparation.reservations.decision)
    && s.payload.band == band
    && s.payload.plan == input.plan.validated
    && s.payload.generationId == input.generationId
    && (s.payload.blockId.Some? <==> input.plan.block.Some?)
    && (input.plan.block.Some? ==> s.payload.blockId.value == input.plan.block.value.blockId)
    && |s.payload.candidates| == |input.candidates|
    && forall i | 0 <= i < |input.candidates| :: s.payload.candidates[i] == input.candidates[i].encrypted.noteId
  }

  /** The sealed receipt: where the capture went, what was captured, and how to undo it. */
  ghost predicate RoutedReceiptHolds(input: Input, applied: Applied, s: Seal<Receipt>)
    requires !input.plan.Review?
  {
    var r, plan := s.payload, input.plan;
    var captured := if applied.insertedItemIds == [] then 1 else |applied.insertedItemIds|;
    && s.surface == CaptureReceipt && s.resource == input.job.captureId && s.version == 1
    && s.reservation == Single(input.preparation.reservations.receipt)
    && (r.outcome == CreatedNote <==> plan.Create?) && (r.outcome == AddedToNote <==> plan.Append?)
    && r.destination == Some((plan.noteId, applied.title))
    && r.captureId == input.job.captureId && r.jobId == input.job.jobId && r.createdAt == input.job.occurredAt
    && r.decisionId == plan.decisionId && r.mutationId == Some(plan.mutationId)
    && r.reasonCodes == plan.validated.reasonCodes
    && r.actions == [OpenNote(plan.noteId), MoveCapture(plan.decisionId, plan.noteId),
                     UndoMutation(plan.afterRevision, plan.mutationId)]
    && r.undoTargets == [UndoTarget(plan.afterRevision, plan.mutationId, plan.noteId)]
    && |r.inserted| == captured + (if plan.block.Some? then 1 else 0)
    && (applied.insertedItemIds == [] ==> r.inserted[0] == Captured(None))
    && (forall i | 0 <= i < |applied.insertedItemIds| :: r.inserted[i] == Captured(Some(applied.insertedItemIds[i])))
    && (plan.block.Some? ==> r.inserted[captured] == AiGenerated(plan.block.value.blockId))
    && (if plan.block.Some? then r.reviewItemId == Some(input.preparation.ids.reviewItemId) else r.reviewItemId == None)
  }

  /** The four sealed note records and what goes with them. */
  ghost predicate NoteWriteHolds(input: Input, applied: Applied, w: NoteWrite)
    requires !input.plan.Review?
  {
    var plan, grouped := input.plan, input.preparation.reservations.noteWrite;
    && w.note == Seal(NoteContent, plan.noteId, plan.afterRevision, applied.noteContent, Grouped(grouped, 4, 0))
    && w.revision == Seal(NoteRevision, plan.revisionId, plan.afterRevision, applied.noteRevision,
                          Grouped(grouped, 4, 1))
    && w.mutation == Seal(NoteMutation, plan.mutationId, plan.afterRevision, applied.noteMutation,
                          Grouped(grouped, 4, 2))
    && w.response == Seal(IdempotencyResponse, "organizer:" + input.job.jobId, 1,
                          WriteResponse(input.job.jobId, plan.mutationId, plan.noteId, plan.afterRevision),
                          Grouped(grouped, 4, 3))
    && w.revisionId == plan.revisionId && w.mutationId == plan.mutationId
    && w.mutationDecisionId == (if plan.Create? then None else Some(plan.decisionId))
    && w.request.expectedRevision == (if plan.Create? then None else Some(plan.expectedRevision))
    && w.request.captureId == input.job.captureId && w.request.decisionId == plan.decisionId
    && w.request.jobId == input.job.jobId && w.request.targetResourceId == plan.noteId
    && (w.request.scope == CreateMode <==> plan.Create?)
  }

  /** A generated block and the review of it, both or neither. */
  ghost predicate ExpansionHolds(input: Input, c: Command)
    requires !input.plan.Review?
  {
    match input.plan.block
    case None => c.block == None && c.review == None && c.reason == None
    case Some(block) =>
      && c.block == Some(Seal(GeneratedBlock, block.blockId, 1, block.text,
                              Single(input.preparation.reservations.block)))
      && c.review == Some((PendingExpansion,
                           Seal(ReviewItem, input.preparation.ids.reviewItemId, 1, BlockProposal(block.blockId),
                                Single(input.preparation.reservations.review))))
      && c.reason == Some(ExpansionPending)
  }

  /** Everything in a routed command comes from the plan, the applied note and the job as it should. */
  lemma RoutedContents(input: Input, applied: Option<Applied>)
    requires Sealed(input, applied).Ok? && !input.plan.Review?
    ensures applied.Some?
    ensures var c := Sealed(input, applied).value;
            && c.band == "auto"
            && (c.outcome == Created <==> input.plan.Create?) && (c.outcome == Appended <==> input.plan.Append?)
            && DecisionHolds(input, c.decision, "auto")
            && RoutedReceiptHolds(input, applied.value, c.receipt)
            && c.noteWrite.Some? && NoteWriteHolds(input, applied.value, c.noteWrite.value)
            && ExpansionHolds(input, c)
  {
    hide EvidenceBound, KeysUsable, CurrentNoteAgrees, ReceiptAccepted, PlanAccepted, ProposalAccepted, Resolve,
      DecisionHolds, RoutedReceiptHolds, NoteWriteHolds, ExpansionHolds;
    assert RoutedBinding(input) && SharedBinding(input) && AppliedAgrees(input, applied.value);
    RoutedDecision(input);
    RoutedReceiptContents(input, applied.value);
    NoteWriteContents(input, applied.value);
    ExpansionContents(input, applied);
  }

  lemma RoutedDecision(input: Input)
    requires SharedBinding(input) && !input.plan.Review? && RoutedBinding(input)
    ensures DecisionHolds(input,
        SealFor(input, OrganizationDecision, input.preparation.ids.decisionId, 1, DecisionPayload(input)), "auto")
  {
  }

  lemma RoutedReceiptContents(input: Input, applied: Applied)
    requires !input.plan.Review? && SharedBinding(input) && RoutedBinding(input) && AppliedAgrees(input, applied)
    ensures RoutedReceiptHolds(input, applied,
        SealFor(input, CaptureReceipt, input.job.captureId, 1, RoutedReceipt(input, applied)))
  {
  }

  lemma NoteWriteContents(input: Input, applied: Applied)
    requires !input.plan.Review? && SharedBinding(input) && RoutedBinding(input) && AppliedAgrees(input, applied)
    ensures NoteWriteHolds(input, applied, NoteWriteFor(input, applied))
  {
  }

  lemma ExpansionContents(input: Input, applied: Option<Applied>)
    requires Sealed(input, applied).Ok? && !input.plan.Review?
    ensures ExpansionHolds(input, Sealed(input, applied).value)
  {
    hide EvidenceBound, KeysUsable, CurrentNoteAgrees, ReceiptAccepted, PlanAccepted, ProposalAccepted, Resolve,
      RoutedReceipt, NoteWriteFor, DecisionPayload, AppliedAgrees, SharedBinding, RoutedBinding, MacOf;
  }

  // ----- reviews -----

  /** The type of a review and what it proposes, by the reason for it. */
  ghost predicate ProposalHolds(input: Input, reason: Reason, t: ReviewType, p: Proposal) {
    match reason
    case PlannerAmbiguity => t == LowConfidence && p == RouteCapture(input.plan.validated)
    case RevisionConflict => t == RevisionConflictReview && p == Conflict(RevisionReason)
    case ExplicitDestinationUnavailable => t == StructureConflict && p == Conflict(CandidateEligibility)
    case ExpansionPending =>
      && t == PendingExpansion
      && p == (match input.plan.block
               case None => Conflict(ConsentControls)
               case Some(block) => BlockProposal(block.blockId))
    case DuplicateSuggestion =>
      && t == DuplicateSuggestionReview && p.DuplicateNotes?
      && |p.notes| == |input.plan.validated.alternatives|
      && forall k | 0 <= k < |p.notes| ::
           ProposesCandidate(input.candidates, input.plan.validated.alternatives[k], p.notes[k])
  }

  /** The note proposed is the candidate of that id, at its revision. */
  ghost predicate ProposesCandidate(candidates: seq<Candidate>, candidateId: string, n: DuplicateNote) {
    exists i | 0 <= i < |candidates| ::
      candidates[i].encrypted.candidateId == candidateId
      && n == DuplicateNote(candidates[i].encrypted.noteId, candidates[i].encrypted.revision)
  }

  ghost predicate DeferredReceiptHolds(input: Input, s: Seal<Receipt>) {
    var r := s.payload;
    && s.surface == CaptureReceipt && s.resource == input.job.captureId && s.version == 1
    && s.reservation == Single(input.preparation.reservations.receipt)
    && r.outcome == NeedsReview && r.destination == None && r.mutationId == None
    && r.actions == [] && r.inserted == [] && r.undoTargets == []
    && r.captureId == input.job.captureId && r.jobId == input.job.jobId && r.createdAt == input.job.occurredAt
    && r.decisionId == input.plan.decisionId && r.reasonCodes == input.plan.validated.reasonCodes
    && r.reviewItemId == Some(input.preparation.ids.reviewItemId)
  }

  /** Everything in a review's command does too. */
  lemma ReviewContents(input: Input, applied: Option<Applied>)
    requires Sealed(input, applied).Ok? && input.plan.Review?
    ensures input.reason.Some?
    ensures var c := Sealed(input, applied).value;
            && c.band == "review" && c.outcome == Reviewed && c.reason == input.reason
            && c.block == None && c.noteWrite == None
            && DecisionHolds(input, c.decision, if input.routing.Some? then input.routing.value.band else "review")
            && DeferredReceiptHolds(input, c.receipt)
            && c.review.Some?
            && (var s := c.review.value.1;
                && s.surface == ReviewItem && s.resource == input.preparation.ids.reviewItemId && s.version == 1
                && s.reservation == Single(input.preparation.reservations.review)
                && ProposalHolds(input, input.reason.value, c.review.value.0, s.payload))
  {
    hide EvidenceBound, KeysUsable, ReceiptAccepted, PlanAccepted, ProposalAccepted, Resolve, MacOf, ProposalHolds;
    assert ReviewBinding(input) && SharedBinding(input) && EvidenceBound(input);
    ProposalContents(input);
  }

  lemma ProposalContents(input: Input)
    requires EvidenceBound(input) && input.reason.Some? && ReviewPayload(input).Ok?
    ensures ProposalHolds(input, input.reason.value, ReviewTypeOf(input.reason.value), ReviewPayload(input).value)
  {
    hide EvidenceBound, ProposalAccepted, Resolve, ProposesCandidate;
    var alternatives := input.plan.validated.alternatives;
    AlternativesProposed(input);
  }

  lemma AlternativesProposed(input: Input)
    requires EvidenceBound(input)
    ensures var alternatives := input.plan.validated.alternatives;
            var notes := Resolve(input.candidates, alternatives);
            notes.Some? ==>
              && |notes.value| == |alternatives|
              && forall k | 0 <= k < |alternatives| ::
                   ProposesCandidate(input.candidates, alternatives[k], notes.value[k])
  {
    var alternatives := input.plan.validated.alternatives;
    ResolveMeaning(input.candidates, alternatives);
  }

  // ----- when there is a command -----

  predicate LetterOrDigit(c: char) {
    '0' <= c <= '9' || 'A' <= c <= 'Z' || 'a' <= c <= 'z'
  }

  /** A candidate as opened and as stored is one live, open note, whose source is itself. */
  predicate OneLiveNote(c: Candidate) {
    var d, e := c.decrypted, c.encrypted;
    && d.candidateId == e.candidateId && d.noteId == e.noteId && d.noteType == e.noteType
    && d.revision == e.revision && d.isOpen && e.isOpen
    && e.archivedAt == None && e.deletedAt == None
    && e.sourceResourceId == e.noteId && e.sourceRecordVersion == e.revision
  }

  /** Some candidate has the id. */
  predicate Disclosed(input: Input, candidateId: string) {
    exists i | 0 <= i < |input.candidates| :: input.candidates[i].encrypted.candidateId == candidateId
  }

  /** At most eight different live candidates, and the plan speaks of no others. */
  ghost predicate EvidenceInOrder(input: Input) {
    var plan, cs := input.plan.validated, input.candidates;
    && (input.generationId.Some? ==>
          var g := input.generationId.value;
          && 1 <= |g| <= 128 && LetterOrDigit(g[0])
          && forall i | 0 <= i < |g| :: LetterOrDigit(g[i]) || g[i] in {'.', '_', ':', '-'})
    && |cs| <= 8
    && (forall i | 0 <= i < |cs| :: OneLiveNote(cs[i]))
    && (forall i, j | 0 <= i < j < |cs| ::
          cs[i].encrypted.candidateId != cs[j].encrypted.candidateId
          && cs[i].encrypted.noteId != cs[j].encrypted.noteId)
    && (plan.destination.Some? ==> Disclosed(input, plan.destination.value))
    && (forall k | 0 <= k < |plan.alternatives| :: Disclosed(input, plan.alternatives[k]))
    && (forall k | 0 <= k < |plan.operations| && plan.operations[k].AddRelation? ::
          Disclosed(input, plan.operations[k].toCandidateId))
    && (if input.plan.Append? then
          && input.destination.Some?
          && (exists i | 0 <= i < |cs| :: cs[i] == input.destination.value)
          && input.destination.value.encrypted.candidateId == input.plan.candidateId
        else input.destination == None)
  }

  /** Job, preparation, ids, controls and plan are about one and the same write. */
  predicate OneWrite(input: Input) {
    var plan, p, ids, stable := input.plan, input.preparation, input.preparation.ids, input.stable;
    && p.jobId == input.job.jobId
    && p.replanCount == input.activeReplanCount && input.job.replanCount <= input.activeReplanCount
    && plan.decisionId == ids.decisionId && stable.decisionId == ids.decisionId
    && (match plan.block
        case None => stable.blockId == None
        case Some(block) => stable.blockId == Some(ids.blockId) && block.blockId == ids.blockId)
    && input.captureControls == input.controls && input.job.controls == input.controls
    && match plan
       case Review(_, _, _, reviewItemId) =>
         && (input.routing.Some? ==> !input.routing.value.autoApply)
         && stable.createdNoteId == None && stable.revisionId == None && stable.mutationId == None
         && reviewItemId == Some(ids.reviewItemId) && stable.reviewItemId == Some(ids.reviewItemId)
       case Append(_, _, block, _, noteId, expected, after, revisionId, mutationId) =>
         && input.routing == Some(Routing(true, "auto"))
         && p.mode == AppendMode && p.noteId == noteId && p.expectedRevision == Some(expected)
         && p.targetRevision == after && ids.revisionId == revisionId && ids.mutationId == mutationId
         && stable.revisionId == Some(revisionId) && stable.mutationId == Some(mutationId)
         && stable.reviewItemId == (if block.Some? then Some(ids.reviewItemId) else None)
         && stable.createdNoteId == None
       case Create(_, _, block, noteId, after, revisionId, mutationId) =>
         && input.routing == Some(Routing(true, "auto"))
         && p.mode == CreateMode && p.noteId == noteId && p.expectedRevision == None
         && p.targetRevision == after && ids.revisionId == revisionId && ids.mutationId == mutationId
         && stable.revisionId == Some(revisionId) && stable.mutationId == Some(mutationId)
         && stable.reviewItemId == (if block.Some? then Some(ids.reviewItemId) else None)
         && stable.createdNoteId == Some(noteId)
  }

  lemma EvidenceExactly(input: Input)
    ensures EvidenceBound(input) <==> EvidenceInOrder(input)
  {
    var plan, cs := input.plan.validated, input.candidates;
    assert forall i | 0 <= i < |cs| :: Eligible(cs[i]) <==> OneLiveNote(cs[i]);
    ReferencesExactly(input);
    if input.generationId.Some? {
      GenerationExactly(input);
    }
  }

  lemma GenerationExactly(input: Input)
    requires input.generationId.Some?
    ensures var g := input.generationId.value;
            GenerationName(g) <==>
              && 1 <= |g| <= 128 && LetterOrDigit(g[0])
              && forall i | 0 <= i < |g| :: LetterOrDigit(g[i]) || g[i] in {'.', '_', ':', '-'}
  {
  }

  lemma ReferencesExactly(input: Input)
    ensures var plan := input.plan.validated;
            (forall id | id in References(plan) :: Offered(input.candidates, id)) <==>
              && (plan.destination.Some? ==> Disclosed(input, plan.destination.value))
              && (forall k | 0 <= k < |plan.alternatives| :: Disclosed(input, plan.alternatives[k]))
              && (forall k | 0 <= k < |plan.operations| && plan.operations[k].AddRelation? ::
                    Disclosed(input, plan.operations[k].toCandidateId))
  {
    hide Relations;
    var plan := input.plan.validated;
    forall id ensures Offered(input.candidates, id) <==> Disclosed(input, id) {
    }
    forall id ensures id in Relations(plan.operations) <==> AddRelation(id) in plan.operations {
      RelationsComplete(plan.operations, id);
    }
    forall k | 0 <= k < |plan.operations| && plan.operations[k].AddRelation?
      ensures plan.operations[k].toCandidateId in References(plan)
    {
      assert plan.operations[k] == AddRelation(plan.operations[k].toCandidateId);
      assert plan.operations[k] in plan.operations;
    }
    forall k | 0 <= k < |plan.alternatives| ensures plan.alternatives[k] in References(plan) {
      assert plan.alternatives[k] in plan.alternatives;
    }
    if plan.destination.Some? {
      assert plan.destination.value in [plan.destination.value];
    }
  }

  lemma BoundExactly(input: Input)
    ensures PreparationBound(input) <==> EvidenceInOrder(input) && OneWrite(input)
  {
    hide EvidenceBound, EvidenceInOrder;
    EvidenceExactly(input);
  }

  /** Two active keys of the job's owner, one for MACs and one for wrapping. */
  predicate OwnersKeys(input: Input) {
    var mac, wrap := input.preparation.contentMac, input.preparation.objectWrap;
    && mac == Key(input.job.ownerId, "ai_assisted", "content_mac", "active")
    && wrap == Key(input.job.ownerId, "ai_assisted", "object_wrap", "active")
  }

  /** The plan is within the limits of its schema. */
  predicate WithinLimits(plan: ValidatedPlan) {
    && |plan.alternatives| <= 2 && |plan.operations| <= 5 && |plan.reasonCodes| <= 5
    && forall k | 0 <= k < |plan.reasonCodes| :: KnownCode(plan.reasonCodes[k])
  }

  predicate KnownCode(code: string) {
    || code == "explicit_shopping_intent" || code == "explicit_destination" || code == "routing_rule_match"
    || code == "open_daily_list" || code == "same_day_log" || code == "alias_match" || code == "semantic_match"
    || code == "recent_destination" || code == "type_match" || code == "no_candidate_fit"
    || code == "ambiguous_intent" || code == "duplicate_suspected" || code == "low_information"
    || code == "parser_override"
  }

  /** The services go along: shapes fit, the custodian answers, and nobody aborts. */
  predicate ServicesGoAlong(s: Services) {
    s.shapesFit && s.custody && !s.abortedBefore && !s.abortedAfter
  }

  lemma LimitsExactly(plan: ValidatedPlan)
    ensures PlanAccepted(plan) <==> WithinLimits(plan)
  {
    forall k | 0 <= k < |plan.reasonCodes|
      ensures plan.reasonCodes[k] in ALLOWED_CODES <==> KnownCode(plan.reasonCodes[k])
    {
    }
  }

  lemma KeysExactly(input: Input)
    ensures KeysUsable(input.preparation) && input.job.ownerId == input.preparation.objectWrap.ownerId <==>
            OwnersKeys(input)
  {
  }

  /** A review is sealed exactly then. */
  lemma ReviewSealedExactly(input: Input, applied: Option<Applied>)
    requires input.plan.Review?
    ensures Sealed(input, applied).Ok? <==>
              && EvidenceInOrder(input) && OneWrite(input) && OwnersKeys(input)
              && WithinLimits(input.plan.validated) && ServicesGoAlong(input.services)
              && input.reason.Some?
              && (input.reason.value.DuplicateSuggestion? ==>
                    var two := input.plan.validated.alternatives; |two| == 2 && two[0] != two[1])
  {
    hide Sealed, PreparationBound, EvidenceInOrder, OneWrite, KeysUsable, OwnersKeys, PlanAccepted, WithinLimits;
    BoundExactly(input);
    KeysExactly(input);
    LimitsExactly(input.plan.validated);
    if PreparationBound(input) {
      BoundReviewSealed(input, applied);
    } else {
      UnboundRefused(input, applied);
    }
  }

  lemma UnboundRefused(input: Input, applied: Option<Applied>)
    requires !PreparationBound(input)
    ensures Sealed(input, applied).Err?
  {
    hide PreparationBound;
  }

  lemma AppliedExactly(input: Input, applied: Applied)
    requires !input.plan.Review? && OneWrite(input)
    ensures AppliedAgrees(input, applied) <==>
              && applied.noteId == input.plan.noteId && applied.currentRevision == input.plan.afterRevision
              && applied.revisionId == input.plan.revisionId && applied.mutationId == input.plan.mutationId
  {
  }

  lemma InsertedExactly(input: Input, applied: Applied)
    ensures |RoutedReceipt(input, applied).inserted| <= 500 <==>
            |applied.insertedItemIds| + (if input.plan.block.Some? then 1 else 0) <= 500
  {
  }

  /** A routed plan is sealed exactly then. */
  lemma RoutedSealedExactly(input: Input, applied: Option<Applied>)
    requires !input.plan.Review?
    ensures Sealed(input, applied).Ok? <==>
              && EvidenceInOrder(input) && OneWrite(input) && OwnersKeys(input)
              && WithinLimits(input.plan.validated) && ServicesGoAlong(input.services)
              && (input.plan.block.Some? <==> input.reason == Some(ExpansionPending))
              && (input.plan.block.Some? ==> 1 <= |input.plan.block.value.text| <= 600)
              && applied.Some?
              && applied.value.noteId == input.plan.noteId
              && applied.value.currentRevision == input.plan.afterRevision
              && applied.value.revisionId == input.plan.revisionId
              && applied.value.mutationId == input.plan.mutationId
              && |applied.value.insertedItemIds| + (if input.plan.block.Some? then 1 else 0) <= 500
  {
    hide Sealed, PreparationBound, EvidenceInOrder, OneWrite, KeysUsable, OwnersKeys, PlanAccepted, WithinLimits,
      AppliedAgrees, RoutedReceipt;
    BoundExactly(input);
    KeysExactly(input);
    LimitsExactly(input.plan.validated);
    if PreparationBound(input) {
      BoundRoutedSealed(input, applied);
      if applied.Some? {
        AppliedExactly(input, applied.value);
        InsertedExactly(input, applied.value);
      }
    } else {
      UnboundRefused(input, applied);
    }
  }

  // ----- which commands the drain publishes -----

  /** The command is a review, a write, or a write with a block to consent to, as the plan is. */
  predicate CommandFor(c: Command, plan: Plan, reason: Option<Reason>) {
    if plan.Review? then
      && c.outcome == Reviewed && c.noteWrite == None && c.block == None && c.review != None
      && reason != None && c.reason == reason
    else
      && c.outcome == (if plan.Create? then Created else Appended) && c.noteWrite != None && c.reason == reason
      && match plan.block
         case None => c.block == None && c.review == None && reason == None
         case Some(_) => c.block != None && c.review != None && reason != None
  }

  /** The drain takes exactly the command that goes with its plan and its reason. */
  lemma DrainExactly(c: Command, plan: Plan, reason: Option<Reason>)
    ensures DrainAccepts(c, plan, reason) <==> CommandFor(c, plan, reason)
  {
    match plan {
      case Review(_, _, _, _) =>
      case _ =>
    }
  }
}
