/** What holds of every command that sealing returns. */
module SealCoherence {
  import opened EvidenceGate
  import opened Organizer
  import opened Payloads
  import opened Sealing
  import opened Wrappers

  // ----- when a command is returned -----

  /** The signal was never seen aborted, and the custodian answers. */
  predicate Undisturbed(input: Input) {
    !input.services.abortedBefore && !input.services.abortedAfter && input.services.custody
  }

  /** Once its bindings hold, a review is refused only for these causes. */
  lemma BoundReviewSealed(input: Input, applied: Option<Applied>)
    requires PreparationBound(input) && input.plan.Review?
    ensures Sealed(input, applied).Ok? <==>
              && input.reason.Some?
              && PlanAccepted(input.plan.validated)
              && (input.reason.value.DuplicateSuggestion? ==>
                    |input.plan.validated.alternatives| == 2 && NoRepeats(input.plan.validated.alternatives))
              && KeysUsable(input.preparation)
              && input.job.ownerId == input.preparation.objectWrap.ownerId
              && input.services.shapesFit && Undisturbed(input)
  {
    hide PreparationBound, ReviewPayload, ReceiptAccepted, DeferredReceipt, KeysUsable, NoRepeats, PlanAccepted;
    ReviewBound(input);
    if PlanAccepted(input.plan.validated) {
      PlanCodesFitReceipts(input.plan.validated);
      if input.reason.Some? {
        ReviewPayloadMeaning(input);
      }
    }
    DeferredReceiptAccepted(input);
  }

  lemma ReviewBound(input: Input)
    requires PreparationBound(input) && input.plan.Review?
    ensures EvidenceBound(input) && input.destination.None?
  {
  }

  /** Once its bindings hold, a routed plan is refused only for these causes; verifying its MACs and opening
      its records again are not among them. */
  lemma BoundRoutedSealed(input: Input, applied: Option<Applied>)
    requires PreparationBound(input) && !input.plan.Review?
    ensures Sealed(input, applied).Ok? <==>
              && (input.plan.block.Some? <==> input.reason == Some(ExpansionPending))
              && applied.Some?
              && AppliedAgrees(input, applied.value)
              && PlanAccepted(input.plan.validated)
              && BlockAccepted(input.plan)
              && KeysUsable(input.preparation)
              && input.job.ownerId == input.preparation.objectWrap.ownerId
              && |RoutedReceipt(input, applied.value).inserted| <= 500
              && input.services.shapesFit && Undisturbed(input)
  {
    hide EvidenceBound, ReviewPayload, ReceiptAccepted, RoutedReceipt, KeysUsable, AppliedAgrees, CurrentNoteAgrees,
      NoRepeats, SharedBinding, RoutedBinding, PlanAccepted;
    DestinationOfAppends(input);
    if input.plan.Append? {
      CurrentNoteNeverRefuses(input);
    }
    if PlanAccepted(input.plan.validated) {
      PlanCodesFitReceipts(input.plan.validated);
      if input.reason == Some(ExpansionPending) {
        ReviewPayloadMeaning(input);
      }
    }
    if applied.Some? {
      RoutedReceiptAccepted(input, applied.value);
    }
  }

  lemma DestinationOfAppends(input: Input)
    requires EvidenceBound(input)
    ensures input.destination.Some? <==> input.plan.Append?
  {
  }

  // ----- reservations -----

  /** The surfaces of a command in the order they are sealed. */
  function Surfaces(plan: Plan): seq<Surface> {
    if plan.Review? then [OrganizationDecision, ReviewItem, CaptureReceipt]
    else
      [NoteContent, NoteRevision, NoteMutation, IdempotencyResponse, OrganizationDecision, CaptureReceipt]
      + if plan.block.Some? then [GeneratedBlock, ReviewItem] else []
  }

  function ReservationPlan(input: Input): seq<Reservation> {
    if input.plan.Review? then ReviewReservations(input.preparation)
    else RoutedReservations(input.preparation, input.plan.block.Some?)
  }

  function Stamp<P>(s: Seal<P>): (Surface, Reservation) {
    (s.surface, s.reservation)
  }

  /** Surface and reservation of every seal in a command. */
  function Spent(c: Command): seq<(Surface, Reservation)> {
    if c.noteWrite.None? then
      [Stamp(c.decision)] + (if c.review.Some? then [Stamp(c.review.value.1)] else []) + [Stamp(c.receipt)]
    else
      var w := c.noteWrite.value;
      [Stamp(w.note), Stamp(w.revision), Stamp(w.mutation), Stamp(w.response), Stamp(c.decision), Stamp(c.receipt)]
      + (if c.block.Some? then [Stamp(c.block.value)] else [])
      + if c.review.Some? then [Stamp(c.review.value.1)] else []
  }

  /** The plan sets aside one reservation for each surface, in the order the surfaces are sealed. */
  lemma PlanMatchesSurfaces(input: Input)
    ensures var plan, surfaces := ReservationPlan(input), Surfaces(input.plan);
            && |plan| == |surfaces| == (if input.plan.Review? then 3 else if input.plan.block.None? then 6 else 8)
            && forall k | 0 <= k < |plan| :: plan[k] == ReservedFor(input.preparation, surfaces[k])
  {
  }

  lemma SpentBySurface(input: Input, applied: Option<Applied>)
    requires Sealed(input, applied).Ok?
    ensures var c, surfaces := Sealed(input, applied).value, Surfaces(input.plan);
            && |Spent(c)| == |surfaces|
            && forall k | 0 <= k < |surfaces| ::
                Spent(c)[k] == (surfaces[k], ReservedFor(input.preparation, surfaces[k]))
  {
    hide PreparationBound, KeysUsable, AppliedAgrees, CurrentNoteAgrees, ReviewPayload, ReceiptAccepted, RoutedReceipt,
      DeferredReceipt, DecisionPayload, LogicalRequest, ResponsePayload, ReservedFor;
  }

  /** The k-th seal is of the k-th surface, under the k-th reservation, and no reservation is left. */
  lemma ReservationsSpentInOrder(input: Input, applied: Option<Applied>)
    requires Sealed(input, applied).Ok?
    ensures var c, plan, surfaces := Sealed(input, applied).value, ReservationPlan(input), Surfaces(input.plan);
            && |plan| == |surfaces| == |Spent(c)|
            && |plan| == (if input.plan.Review? then 3 else if input.plan.block.None? then 6 else 8)
            && forall k | 0 <= k < |plan| ::
                 Spent(c)[k] == (surfaces[k], plan[k]) && plan[k] == ReservedFor(input.preparation, surfaces[k])
  {
    hide Sealed, Spent, ReservationPlan, Surfaces, ReservedFor;
    PlanMatchesSurfaces(input);
    SpentBySurface(input, applied);
  }

  function Ids(r: ReservationIds): seq<string> {
    [r.decision, r.block, r.noteWrite, r.receipt, r.review]
  }

  /** Two surfaces share a reservation only if the prepared ids repeat. */
  lemma ReservedApart(p: Preparation, s: Surface, t: Surface)
    requires NoRepeats(Ids(p.reservations)) && s != t
    ensures ReservedFor(p, s) != ReservedFor(p, t)
  {
    var ids := Ids(p.reservations);
    assert ids[0] != ids[1] && ids[0] != ids[2] && ids[0] != ids[3] && ids[0] != ids[4];
    assert ids[1] != ids[2] && ids[1] != ids[3] && ids[1] != ids[4];
    assert ids[2] != ids[3] && ids[2] != ids[4] && ids[3] != ids[4];
  }

  /** With five different prepared reservations, no wrap key is used by two seals. */
  lemma NoReservationTwice(input: Input, applied: Option<Applied>)
    requires Sealed(input, applied).Ok? && NoRepeats(Ids(input.preparation.reservations))
    ensures forall i, j | 0 <= i < j < |Spent(Sealed(input, applied).value)| ::
              Spent(Sealed(input, applied).value)[i].1 != Spent(Sealed(input, applied).value)[j].1
  {
    hide Sealed, Spent, ReservedFor, NoRepeats, ReservationPlan, Ids;
    ReservationsSpentInOrder(input, applied);
    var spent, surfaces := Spent(Sealed(input, applied).value), Surfaces(input.plan);
    forall i, j | 0 <= i < j < |spent|
      ensures spent[i].1 != spent[j].1
    {
      ReservedApart(input.preparation, surfaces[i], surfaces[j]);
    }
  }

  /** The grouped reservation of a note write is used for operations 0 to 3, once each. */
  lemma GroupedOnceEach(input: Input, applied: Option<Applied>, k: nat)
    requires Sealed(input, applied).Ok? && !input.plan.Review? && k < |Spent(Sealed(input, applied).value)|
    ensures var used := Spent(Sealed(input, applied).value)[k].1;
            if k < GROUPED_OPERATIONS then
              used == Grouped(input.preparation.reservations.noteWrite, GROUPED_OPERATIONS, k)
            else
              used.Single?
  {
    hide Sealed, Spent;
    ReservationsSpentInOrder(input, applied);
  }

  // ----- verification MACs -----

  predicate Covers<P(==)>(m: Option<Mac<P>>, s: Option<Seal<P>>) {
    m == if s.None? then None else Some(MacOf(s.value))
  }

  /** Every record of a sealed command that has a verification MAC has one for its own surface, resource,
      version and payload, and no MAC is there without its record. */
  lemma MacsCoverSeals(input: Input, applied: Option<Applied>)
    requires Sealed(input, applied).Ok?
    ensures var c := Sealed(input, applied).value;
            && c.macs.decision == MacOf(c.decision) && c.macs.receipt == MacOf(c.receipt)
            && Covers(c.macs.block, c.block)
            && Covers(c.macs.review, if c.review.None? then None else Some(c.review.value.1))
            && (c.macs.noteWrite.Some? <==> c.noteWrite.Some?)
            && (c.noteWrite.Some? ==>
                  var w := c.noteWrite.value;
                  c.macs.noteWrite.value == NoteMacs(MacOf(w.note), MacOf(w.mutation), MacOf(w.response)))
  {
    hide PreparationBound, KeysUsable, AppliedAgrees, CurrentNoteAgrees, ReviewPayload, ReceiptAccepted, RoutedReceipt,
      DeferredReceipt, DecisionPayload, LogicalRequest, ResponsePayload, ReservedFor, PlanAccepted;
  }

  // ----- one set of ids -----

  function OptionSet<T(==)>(o: Option<T>): set<T> {
    if o.None? then {} else {o.value}
  }

  function ActionDecisions(a: Action): set<string> {
    if a.MoveCapture? then {a.decisionId} else {}
  }

  function ActionNotes(a: Action): set<string> {
    if a.UndoMutation? then {} else {a.noteId}
  }

  function ActionMutations(a: Action): set<string> {
    if a.UndoMutation? then {a.mutationId} else {}
  }

  function ActionRevisions(a: Action): set<nat> {
    if a.UndoMutation? then {a.expectedRevision} else {}
  }

  /** Every decision id that a command holds. */
  function Decisions(c: Command): set<string> {
    {c.decision.resource, c.receipt.payload.decisionId}
    + (set a, d | a in c.receipt.payload.actions && d in ActionDecisions(a) :: d)
    + if c.noteWrite.None? then {}
      else OptionSet(c.noteWrite.value.mutationDecisionId) + {c.noteWrite.value.request.decisionId}
  }

  /** Every note id that a command writes or points back to; proposals are not counted. */
  function Notes(c: Command): set<string> {
    (set a, n | a in c.receipt.payload.actions && n in ActionNotes(a) :: n)
    + (set t | t in c.receipt.payload.undoTargets :: t.noteId)
    + (if c.receipt.payload.destination.None? then {} else {c.receipt.payload.destination.value.0})
    + if c.noteWrite.None? then {}
      else
        var w := c.noteWrite.value;
        {w.note.resource, w.request.targetResourceId, w.response.payload.noteId}
  }

  function Mutations(c: Command): set<string> {
    (set a, m | a in c.receipt.payload.actions && m in ActionMutations(a) :: m)
    + (set t | t in c.receipt.payload.undoTargets :: t.mutationId)
    + OptionSet(c.receipt.payload.mutationId)
    + if c.noteWrite.None? then {}
      else
        var w := c.noteWrite.value;
        {w.mutation.resource, w.mutationId, w.response.payload.mutationId}
  }

  /** Every record of the revision that a command writes. */
  function RevisionIds(c: Command): set<string> {
    if c.noteWrite.None? then {} else {c.noteWrite.value.revision.resource, c.noteWrite.value.revisionId}
  }

  /** Every revision number a command writes under or offers to undo. */
  function RevisionNumbers(c: Command): set<nat> {
    (set a, n | a in c.receipt.payload.actions && n in ActionRevisions(a) :: n)
    + (set t | t in c.receipt.payload.undoTargets :: t.expectedRevision)
    + if c.noteWrite.None? then {}
      else
        var w := c.noteWrite.value;
        {w.note.version, w.revision.version, w.mutation.version, w.response.payload.revision}
  }

  function ReviewItems(c: Command): set<string> {
    OptionSet(c.receipt.payload.reviewItemId) + if c.review.None? then {} else {c.review.value.1.resource}
  }

  function InsertedBlocks(i: Inserted): set<string> {
    if i.AiGenerated? then {i.blockId} else {}
  }

  /** Every generated block that a command stores, lists or proposes. */
  function Blocks(c: Command): set<string> {
    (if c.block.None? then {} else {c.block.value.resource})
    + (set i, b | i in c.receipt.payload.inserted && b in InsertedBlocks(i) :: b)
    + OptionSet(c.decision.payload.blockId)
    + if c.review.Some? && c.review.value.1.payload.BlockProposal? then {c.review.value.1.payload.blockId} else {}
  }

  /** Every job a command names, and every capture. */
  function Jobs(c: Command): set<string> {
    {c.receipt.payload.jobId}
    + if c.noteWrite.None? then {} else {c.noteWrite.value.request.jobId, c.noteWrite.value.response.payload.jobId}
  }

  function Captures(c: Command): set<string> {
    {c.receipt.resource, c.receipt.payload.captureId}
    + if c.noteWrite.None? then {} else {c.noteWrite.value.request.captureId}
  }

  /** Decision, job, capture, review item and block each take one value, and it is the plan's own. */
  predicate RecordsCoherent(input: Input, c: Command) {
    && Decisions(c) == {input.plan.decisionId}
    && Jobs(c) == {input.job.jobId} == {input.preparation.jobId}
    && Captures(c) == {input.job.captureId}
    && ReviewItems(c) == OptionSet(input.stable.reviewItemId)
    && Blocks(c) == OptionSet(BlockId(input.plan)) == OptionSet(input.stable.blockId)
  }

  /** So do note, mutation, revision and revision number, of which a review has none. */
  predicate WritesCoherent(input: Input, c: Command) {
    if input.plan.Review? then Notes(c) == {} && Mutations(c) == {} && RevisionIds(c) == {} && RevisionNumbers(c) == {}
    else
      && Notes(c) == {input.plan.noteId}
      && Mutations(c) == {input.plan.mutationId}
      && RevisionIds(c) == {input.plan.revisionId}
      && RevisionNumbers(c) == {input.plan.afterRevision}
  }

  predicate Coherent(input: Input, c: Command) {
    RecordsCoherent(input, c) && WritesCoherent(input, c)
  }

  lemma ReviewCommandCoherent(input: Input, applied: Option<Applied>)
    requires Sealed(input, applied).Ok? && input.plan.Review?
    ensures Coherent(input, Sealed(input, applied).value)
  {
    hide EvidenceBound, KeysUsable, ReceiptAccepted, Resolve, ProposalAccepted;
    assert ReviewBinding(input) && SharedBinding(input);
  }

  /** The receipt of a routed command names the ids it was built from and no others. */
  lemma RoutedReceiptIds(input: Input, applied: Applied)
    ensures var r, ids := RoutedReceipt(input, applied), input.preparation.ids;
            && (set a, d | a in r.actions && d in ActionDecisions(a) :: d) == {ids.decisionId}
            && (set a, n | a in r.actions && n in ActionNotes(a) :: n) == {applied.noteId}
            && (set a, m | a in r.actions && m in ActionMutations(a) :: m) == {ids.mutationId}
            && (set a, n | a in r.actions && n in ActionRevisions(a) :: n) == {applied.currentRevision}
            && (set t | t in r.undoTargets :: t.noteId) == {applied.noteId}
            && (set t | t in r.undoTargets :: t.mutationId) == {ids.mutationId}
            && (set t | t in r.undoTargets :: t.expectedRevision) == {applied.currentRevision}
  {
    var r, ids := RoutedReceipt(input, applied), input.preparation.ids;
    assert r.actions[1] in r.actions && ids.decisionId in ActionDecisions(r.actions[1]);
    assert r.actions[0] in r.actions && applied.noteId in ActionNotes(r.actions[0]);
    assert r.actions[2] in r.actions && ids.mutationId in ActionMutations(r.actions[2]);
    assert applied.currentRevision in ActionRevisions(r.actions[2]);
    assert r.undoTargets[0] in r.undoTargets;
  }

  lemma RoutedReceiptBlocks(input: Input, applied: Applied)
    ensures (set i, b | i in RoutedReceipt(input, applied).inserted && b in InsertedBlocks(i) :: b)
            == OptionSet(BlockId(input.plan))
  {
    var inserted := RoutedReceipt(input, applied).inserted;
    var captured := if input.plan.block.Some? then inserted[..|inserted| - 1] else inserted;
    assert forall k | 0 <= k < |captured| :: captured[k].Captured?;
    if input.plan.block.Some? {
      assert inserted == captured + [AiGenerated(input.plan.block.value.blockId)];
      assert inserted[|captured|] in inserted && input.plan.block.value.blockId in InsertedBlocks(inserted[|captured|]);
    }
  }

  lemma RoutedRecordsCoherent(input: Input, applied: Option<Applied>)
    requires Sealed(input, applied).Ok? && !input.plan.Review?
    ensures RecordsCoherent(input, Sealed(input, applied).value)
  {
    hide EvidenceBound, KeysUsable, CurrentNoteAgrees, ReceiptAccepted, Resolve, ProposalAccepted, AppliedAgrees,
      PlanAccepted, BlockAccepted, MacOf, ReservedFor;
    assert RoutedBinding(input) && SharedBinding(input);
    RoutedReceiptIds(input, applied.value);
    RoutedReceiptBlocks(input, applied.value);
    if input.plan.block.Some? {
      assert ReviewPayload(input).value == BlockProposal(input.plan.block.value.blockId);
    }
  }

  lemma RoutedWritesCoherent(input: Input, applied: Option<Applied>)
    requires Sealed(input, applied).Ok? && !input.plan.Review?
    ensures WritesCoherent(input, Sealed(input, applied).value)
  {
    hide EvidenceBound, KeysUsable, CurrentNoteAgrees, ReceiptAccepted, ReviewPayload, DecisionPayload, SharedBinding,
      ActionNotes, ActionMutations, ActionRevisions;
    assert RoutedBinding(input) && AppliedAgrees(input, applied.value);
    RoutedReceiptIds(input, applied.value);
  }

  /** Every sealed command is coherent. */
  lemma SealedIsCoherent(input: Input, applied: Option<Applied>)
    requires Sealed(input, applied).Ok?
    ensures Coherent(input, Sealed(input, applied).value)
  {
    hide Sealed, RecordsCoherent, WritesCoherent;
    if input.plan.Review? {
      ReviewCommandCoherent(input, applied);
    } else {
      RoutedRecordsCoherent(input, applied);
      RoutedWritesCoherent(input, applied);
    }
  }

  // ----- what its consumers check -----

  predicate HasExpansion(plan: Plan) {
    !plan.Review? && plan.block.Some?
  }

  /** The check of the drain before it publishes a command. */
  predicate DrainAccepts(c: Command, plan: Plan, reason: Option<Reason>) {
    && c.outcome == (if plan.Append? then Appended else if plan.Create? then Created else Reviewed)
    && c.reason == reason
    && (plan.Review? <==> c.noteWrite.None?)
    && (plan.Review? || HasExpansion(plan) <==> c.review.Some?)
    && (HasExpansion(plan) <==> c.block.Some?)
    && (plan.Review? || HasExpansion(plan) <==> reason.Some?)
  }

  /** The shape the database accepts. */
  predicate AtomicShape(c: Command) {
    if c.outcome.Reviewed? then c.reason.Some? && c.block.None? && c.noteWrite.None? && c.review.Some?
    else if c.reason == Some(ExpansionPending) then c.block.Some? && c.noteWrite.Some? && c.review.Some?
    else c.reason.None? && c.block.None? && c.noteWrite.Some? && c.review.None?
  }

  /** The type a sealed Review carries in the clear agrees with the proposal sealed inside it. */
  predicate ReviewAgrees(c: Command) {
    c.review.Some? ==>
      ProposalMatchesType(c.review.value.0, c.review.value.1.payload) && ProposalAccepted(c.review.value.1.payload)
  }

  /**
    Every sealed command has the shape the database accepts. The drain accepts it too unless a routed
    plan came with a reason other than a pending expansion, which sealing drops and the drain then
    misses.
   */
  lemma SealedIsAccepted(input: Input, applied: Option<Applied>)
    requires Sealed(input, applied).Ok?
    ensures AtomicShape(Sealed(input, applied).value)
    ensures ReviewAgrees(Sealed(input, applied).value)
    ensures ReceiptAccepted(Sealed(input, applied).value.receipt.payload)
    ensures var c := Sealed(input, applied).value;
            && (c.receipt.payload.outcome == CreatedNote <==> c.outcome == Created)
            && (c.receipt.payload.outcome == AddedToNote <==> c.outcome == Appended)
            && (c.receipt.payload.outcome == NeedsReview <==> c.outcome == Reviewed)
    ensures DrainAccepts(Sealed(input, applied).value, input.plan, input.reason) <==>
              input.plan.Review? || input.reason == None || input.reason == Some(ExpansionPending)
  {
    hide EvidenceBound, SharedBinding, RoutedBinding, KeysUsable, CurrentNoteAgrees, AppliedAgrees, ReceiptAccepted,
      RoutedReceipt, DeferredReceipt, NotesDistinct, Resolve, NoRepeats, PlanAccepted;
    if input.reason.Some? {
      ReviewPayloadMeaning(input);
    }
    ReceiptsTellOutcome(input);
    if applied.Some? {
      RoutedReceiptsTellOutcome(input, applied.value);
    }
  }

  lemma ReceiptsTellOutcome(input: Input)
    ensures DeferredReceipt(input).outcome == NeedsReview
  {
  }

  lemma RoutedReceiptsTellOutcome(input: Input, applied: Applied)
    ensures RoutedReceipt(input, applied).outcome == if input.plan.Create? then CreatedNote else AddedToNote
  {
  }

  /** Sealing gives a routed plan without a block the same command under any other reason, and the drain
      then refuses it. */
  lemma OtherReasonsAreDropped(input: Input, applied: Option<Applied>, reason: Reason)
    requires !input.plan.Review? && input.plan.block.None? && input.reason.None?
    requires Sealed(input, applied).Ok? && reason != ExpansionPending
    ensures Sealed(input.(reason := Some(reason)), applied) == Sealed(input, applied)
    ensures !DrainAccepts(Sealed(input, applied).value, input.plan, Some(reason))
  {
    hide DrainAccepts;
    var other := input.(reason := Some(reason));
    SameGates(input, other);
    SameCommand(input, other, applied);
    SealedIsAccepted(other, applied);
  }

  lemma SameGates(input: Input, other: Input)
    requires !input.plan.Review? && other == input.(reason := other.reason)
    ensures PreparationBound(other) <==> PreparationBound(input)
  {
  }

  lemma SameCommand(input: Input, other: Input, applied: Option<Applied>)
    requires !input.plan.Review? && input.plan.block.None? && input.reason.None?
    requires other == input.(reason := other.reason) && other.reason != Some(ExpansionPending)
    requires PreparationBound(other) <==> PreparationBound(input)
    ensures Sealed(other, applied) == Sealed(input, applied)
  {
    hide PreparationBound;
    if applied.Some? {
      assert RoutedReceipt(other, applied.value) == RoutedReceipt(input, applied.value);
    }
    assert DecisionPayload(other) == DecisionPayload(input);
  }

  /** Such an input: a created note for a capture of its own. */
  function PlainCreate(): Input {
    var controls := Controls(false, None, None);
    var key := (purpose: string) => Key("owner", "ai_assisted", purpose, "active");
    var ids := PreparedIds("dec", "blk", "mut", "rvw", "rev");
    var preparation := Preparation("job", 0, CreateMode, "note", None, 1, ids,
                                   ReservationIds("1", "2", "3", "4", "5"), key("content_mac"), key("object_wrap"));
    Input(0, [], controls, controls, None, Job("job", "owner", "cap", "now", 0, controls),
          Create("dec", ValidatedPlan(None, [], [], []), None, "note", 1, "rev", "mut"),
          preparation, None, None, Some(Routing(true, "auto")),
          StableIds("dec", Some("note"), Some("rev"), Some("mut"), None, None),
          Services(true, true, false, false))
  }

  lemma DroppedReasonExists()
    ensures exists input, applied ::
              Sealed(input, applied).Ok? && !DrainAccepts(Sealed(input, applied).value, input.plan, input.reason)
  {
    hide Sealed, DrainAccepts;
    var input := PlainCreate();
    var applied := Some(Applied("note", "", 1, "rev", "mut", [], "", "", ""));
    PlainCreateSealed(applied);
    OtherReasonsAreDropped(input, applied, PlannerAmbiguity);
    var other := input.(reason := Some(PlannerAmbiguity));
    assert Sealed(other, applied).Ok? && !DrainAccepts(Sealed(other, applied).value, other.plan, other.reason);
  }

  lemma PlainCreateSealed(applied: Option<Applied>)
    requires applied == Some(Applied("note", "", 1, "rev", "mut", [], "", "", ""))
    ensures Sealed(PlainCreate(), applied).Ok?
  {
    var input := PlainCreate();
    assert References(input.plan.validated) == [];
    assert EvidenceBound(input);
    assert SharedBinding(input) && RoutedBinding(input);
    BoundRoutedSealed(input, applied);
  }
}
