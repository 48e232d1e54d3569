/**
  Sealing an organizer command: the preparation gate, the reservations consumed one seal at a time,
  and the command built from one set of ids.
 */
module Sealing {
  import opened EvidenceGate
  import opened Organizer
  import opened Payloads
  import opened Wrappers

  const GROUPED_OPERATIONS := 4
  const AI_ASSISTED := "ai_assisted"

  // ----- gates -----

  function BlockId(plan: Plan): Option<string> {
    if plan.block.None? then None else Some(plan.block.value.blockId)
  }

  /** Job, replan count, decision, block and controls agree between plan, preparation, ids and capture. */
  predicate SharedBinding(input: Input) {
    var plan, preparation, stable := input.plan, input.preparation, input.stable;
    && preparation.jobId == input.job.jobId
    && preparation.replanCount == input.activeReplanCount
    && input.activeReplanCount >= input.job.replanCount
    && stable.decisionId == preparation.ids.decisionId
    && stable.decisionId == plan.decisionId
    && stable.blockId == BlockId(plan)
    && (plan.block.Some? ==> stable.blockId == Some(preparation.ids.blockId))
    && input.controls == input.captureControls
    && input.controls == input.job.controls
  }

  predicate ReviewBinding(input: Input)
    requires input.plan.Review?
  {
    && !(input.routing.Some? && input.routing.value.autoApply)
    && input.stable.createdNoteId == None
    && input.stable.revisionId == None
    && input.stable.mutationId == None
    && input.stable.reviewItemId == input.plan.reviewItemId
    && input.stable.reviewItemId == Some(input.preparation.ids.reviewItemId)
  }

  predicate RoutedBinding(input: Input)
    requires !input.plan.Review?
  {
    var plan, preparation, stable := input.plan, input.preparation, input.stable;
    && input.routing.Some?
    && input.routing.value.autoApply
    && input.routing.value.band == "auto"
    && preparation.mode == (if plan.Create? then CreateMode else AppendMode)
    && preparation.noteId == plan.noteId
    && preparation.expectedRevision == (if plan.Create? then None else Some(plan.expectedRevision))
    && preparation.targetRevision == plan.afterRevision
    && preparation.ids.revisionId == plan.revisionId
    && preparation.ids.mutationId == plan.mutationId
    && stable.revisionId == Some(plan.revisionId)
    && stable.mutationId == Some(plan.mutationId)
    && stable.reviewItemId == (if plan.block.None? then None else Some(preparation.ids.reviewItemId))
    && stable.createdNoteId == (if plan.Create? then Some(plan.noteId) else None)
  }

  predicate PreparationBound(input: Input) {
    && EvidenceBound(input)
    && SharedBinding(input)
    && (if input.plan.Review? then ReviewBinding(input) else RoutedBinding(input))
  }

  /** Two active keys of one owner, for content MACs and for wrapping. */
  predicate KeysUsable(p: Preparation) {
    && p.contentMac.ownerId == p.objectWrap.ownerId
    && p.contentMac.keyClass == AI_ASSISTED
    && p.contentMac.purpose == "content_mac"
    && p.contentMac.status == "active"
    && p.objectWrap.keyClass == AI_ASSISTED
    && p.objectWrap.purpose == "object_wrap"
    && p.objectWrap.status == "active"
  }

  /** The destination's two halves agree; the note built from them is not part of this model. */
  predicate CurrentNoteAgrees(c: Candidate) {
    && c.encrypted.noteId == c.decrypted.noteId
    && c.encrypted.candidateId == c.decrypted.candidateId
    && c.encrypted.noteType == c.decrypted.noteType
    && c.encrypted.revision == c.decrypted.revision
    && c.encrypted.isOpen == c.decrypted.isOpen
  }

  lemma CurrentNoteNeverRefuses(input: Input)
    requires EvidenceBound(input) && input.plan.Append?
    ensures CurrentNoteAgrees(input.destination.value)
  {
    var i :| 0 <= i < |input.candidates| && input.candidates[i] == input.destination.value;
    assert Eligible(input.candidates[i]);
  }

  predicate AppliedAgrees(input: Input, applied: Applied) {
    && applied.noteId == input.preparation.noteId
    && applied.currentRevision == input.preparation.targetRevision
    && applied.revisionId == input.preparation.ids.revisionId
    && applied.mutationId == input.preparation.ids.mutationId
  }

  // ----- reservations -----

  /** The reservation set aside for a surface. */
  function ReservedFor(p: Preparation, s: Surface): Reservation {
    match s
    case NoteContent => Grouped(p.reservations.noteWrite, GROUPED_OPERATIONS, 0)
    case NoteRevision => Grouped(p.reservations.noteWrite, GROUPED_OPERATIONS, 1)
    case NoteMutation => Grouped(p.reservations.noteWrite, GROUPED_OPERATIONS, 2)
    case IdempotencyResponse => Grouped(p.reservations.noteWrite, GROUPED_OPERATIONS, 3)
    case OrganizationDecision => Single(p.reservations.decision)
    case CaptureReceipt => Single(p.reservations.receipt)
    case GeneratedBlock => Single(p.reservations.block)
    case ReviewItem => Single(p.reservations.review)
  }

  function GroupedReservation(p: Preparation, operationIndex: nat): Reservation {
    Grouped(p.reservations.noteWrite, GROUPED_OPERATIONS, operationIndex)
  }

  function ReviewReservations(p: Preparation): seq<Reservation> {
    [Single(p.reservations.decision), Single(p.reservations.review), Single(p.reservations.receipt)]
  }

  function RoutedReservations(p: Preparation, hasBlock: bool): seq<Reservation> {
    [
      GroupedReservation(p, 0),
      GroupedReservation(p, 1),
      GroupedReservation(p, 2),
      GroupedReservation(p, 3),
      Single(p.reservations.decision),
      Single(p.reservations.receipt)
    ] + if hasBlock then [Single(p.reservations.block), Single(p.reservations.review)] else []
  }

  /** The reservations of one command, handed out in order to its owner, one to a seal. */
  class Ledger {
    const reservations: seq<Reservation>
    const owner: string
    var index: nat

    ghost predicate Valid()
      reads this
    {
      index <= |reservations|
    }

    constructor (reservations: seq<Reservation>, owner: string)
      ensures Valid() && index == 0 && this.reservations == reservations && this.owner == owner
    {
      this.reservations, this.owner, index := reservations, owner, 0;
    }

    /** A spent plan, a foreign owner or a foreign key class is refused and consumes nothing. */
    method Reserve(ownerId: string, keyClass: string) returns (r: Option<Reservation>)
      requires Valid()
      modifies this`index
      ensures Valid()
      ensures r.Some? <==> old(index) < |reservations| && ownerId == owner && keyClass == AI_ASSISTED
      ensures r.Some? ==> r.value == reservations[old(index)] && index == old(index) + 1
      ensures r.None? ==> index == old(index)
    {
      if index >= |reservations| || ownerId != owner || keyClass != AI_ASSISTED {
        return None;
      }
      r := Some(reservations[index]);
      index := index + 1;
    }

    /** Each seal asks for one wrap key. */
    method SealNext<P>(ownerId: string, surface: Surface, resource: string, version: nat, payload: P)
      returns (r: Option<Seal<P>>)
      requires Valid()
      modifies this`index
      ensures Valid()
      ensures r.Some? <==> old(index) < |reservations| && ownerId == owner
      ensures r.Some? ==>
                && r.value == Seal(surface, resource, version, payload, reservations[old(index)])
                && index == old(index) + 1
      ensures r.None? ==> index == old(index)
    {
      var reservation := Reserve(ownerId, AI_ASSISTED);
      if reservation.None? {
        return None;
      }
      r := Some(Seal(surface, resource, version, payload, reservation.value));
    }

    predicate Consumed()
      reads this
    {
      index == |reservations|
    }
  }

  // ----- commands -----

  function SealFor<P>(input: Input, surface: Surface, resource: string, version: nat, payload: P): Seal<P> {
    Seal(surface, resource, version, payload, ReservedFor(input.preparation, surface))
  }

  function MacOf<P>(s: Seal<P>): Mac<P> {
    Mac(s.surface, s.resource, s.version, s.payload)
  }

  /** When a review plan is sealed. */
  predicate ReviewSealable(input: Input)
    requires input.plan.Review?
  {
    && input.reason.Some?
    && PlanAccepted(input.plan.validated)
    && input.destination.None?
    && KeysUsable(input.preparation)
    && input.job.ownerId == input.preparation.objectWrap.ownerId
    && ReviewPayload(input).Ok?
    && ReceiptAccepted(DeferredReceipt(input))
    && input.services.custody
  }

  function ReviewCommand(input: Input): Command
    requires input.plan.Review? && ReviewSealable(input)
  {
    var ids := input.preparation.ids;
    var decision := SealFor(input, OrganizationDecision, ids.decisionId, 1, DecisionPayload(input));
    var receipt := SealFor(input, CaptureReceipt, input.job.captureId, 1, DeferredReceipt(input));
    var review := SealFor(input, ReviewItem, ids.reviewItemId, 1, ReviewPayload(input).value);
    Command(
      band := "review",
      decision := decision,
      block := None,
      noteWrite := None,
      outcome := Reviewed,
      receipt := receipt,
      review := Some((ReviewTypeOf(input.reason.value), review)),
      reason := input.reason,
      macs := Macs(MacOf(decision), MacOf(receipt), Some(MacOf(review)), None, None))
  }

  method SealReviewCommand(input: Input) returns (r: Result<Command>)
    requires input.plan.Review?
    ensures r == if ReviewSealable(input) then Ok(ReviewCommand(input)) else Err(UNAVAILABLE)
  {
    hide ReviewPayload, ReceiptAccepted, DecisionPayload, DeferredReceipt, ReviewTypeOf, PlanAccepted, KeysUsable;
    r := Err(UNAVAILABLE);
    if input.reason.None? || input.destination.Some? {
      return;
    }
    if !KeysUsable(input.preparation) {
      return;
    }
    var ledger := new Ledger(ReviewReservations(input.preparation), input.preparation.objectWrap.ownerId);
    var owner, ids := input.job.ownerId, input.preparation.ids;
    var decisionValue, reviewValue, receiptValue := DecisionPayload(input), ReviewPayload(input),
        DeferredReceipt(input);
    if !PlanAccepted(input.plan.validated) || reviewValue.Err? || !ReceiptAccepted(receiptValue) {
      return;
    }
    var decision := ledger.SealNext(owner, OrganizationDecision, ids.decisionId, 1, decisionValue);
    var review := ledger.SealNext(owner, ReviewItem, ids.reviewItemId, 1, reviewValue.value);
    var receipt := ledger.SealNext(owner, CaptureReceipt, input.job.captureId, 1, receiptValue);
    if decision.None? || review.None? || receipt.None? {
      return;
    }
    if !ledger.Consumed() || !input.services.custody {
      return;
    }
    var decisionMac := Mac(OrganizationDecision, ids.decisionId, 1, decisionValue);
    var reviewMac := Mac(ReviewItem, ids.reviewItemId, 1, reviewValue.value);
    var receiptMac := Mac(CaptureReceipt, input.job.captureId, 1, receiptValue);
    if !Verifies(decisionMac, OrganizationDecision, ids.decisionId, 1, decisionValue)
      || !Verifies(reviewMac, ReviewItem, ids.reviewItemId, 1, reviewValue.value)
      || !Verifies(receiptMac, CaptureReceipt, input.job.captureId, 1, receiptValue) {
      return;
    }
    r := Ok(Command(
      band := "review",
      decision := decision.value,
      block := None,
      noteWrite := None,
      outcome := Reviewed,
      receipt := receipt.value,
      review := Some((ReviewTypeOf(input.reason.value), review.value)),
      reason := input.reason,
      macs := Macs(decisionMac, receiptMac, Some(reviewMac), None, None)));
  }

  predicate BlockAccepted(plan: Plan) {
    plan.block.Some? ==> 1 <= |plan.block.value.text| <= 600
  }

  /** When a routed plan is sealed; `applied` is what applying it gave, if that did not fail. */
  predicate RoutedSealable(input: Input, applied: Option<Applied>)
    requires !input.plan.Review?
  {
    && (input.plan.block.Some? <==> input.reason == Some(ExpansionPending))
    && (input.plan.Append? <==> input.destination.Some?)
    && (input.plan.Append? ==> CurrentNoteAgrees(input.destination.value))
    && applied.Some?
    && AppliedAgrees(input, applied.value)
    && PlanAccepted(input.plan.validated)
    && BlockAccepted(input.plan)
    && (input.plan.block.Some? ==> ReviewPayload(input).Ok?)
    && KeysUsable(input.preparation)
    && input.job.ownerId == input.preparation.objectWrap.ownerId
    && ReceiptAccepted(RoutedReceipt(input, applied.value))
    && input.services.shapesFit
    && input.services.custody
  }

  function IdempotencyKey(input: Input): string {
    "organizer:" + input.job.jobId
  }

  function NoteWriteFor(input: Input, applied: Applied): NoteWrite {
    var ids, revision := input.preparation.ids, applied.currentRevision;
    NoteWrite(
      note := SealFor(input, NoteContent, applied.noteId, revision, applied.noteContent),
      revision := SealFor(input, NoteRevision, ids.revisionId, revision, applied.noteRevision),
      revisionId := ids.revisionId,
      mutation := SealFor(input, NoteMutation, ids.mutationId, revision, applied.noteMutation),
      mutationId := ids.mutationId,
      mutationDecisionId := if input.preparation.mode.CreateMode? then None else Some(ids.decisionId),
      request := LogicalRequest(input),
      response := SealFor(input, IdempotencyResponse, IdempotencyKey(input), 1, ResponsePayload(input, applied)))
  }

  function RoutedCommand(input: Input, applied: Applied): Command
    requires !input.plan.Review? && RoutedSealable(input, Some(applied))
  {
    var ids := input.preparation.ids;
    var decision := SealFor(input, OrganizationDecision, ids.decisionId, 1, DecisionPayload(input));
    var receipt := SealFor(input, CaptureReceipt, input.job.captureId, 1, RoutedReceipt(input, applied));
    var block :=
      if input.plan.block.None? then None
      else Some(SealFor(input, GeneratedBlock, input.plan.block.value.blockId, 1, input.plan.block.value.text));
    var review :=
      if input.plan.block.None? then None
      else Some(SealFor(input, ReviewItem, ids.reviewItemId, 1, ReviewPayload(input).value));
    var noteWrite := NoteWriteFor(input, applied);
    Command(
      band := "auto",
      decision := decision,
      block := block,
      noteWrite := Some(noteWrite),
      outcome := if input.plan.Create? then Created else Appended,
      receipt := receipt,
      review := if review.None? then None else Some((PendingExpansion, review.value)),
      reason := if input.plan.block.None? then None else Some(ExpansionPending),
      macs := Macs(
        MacOf(decision),
        MacOf(receipt),
        if review.None? then None else Some(MacOf(review.value)),
        if block.None? then None else Some(MacOf(block.value)),
        Some(NoteMacs(MacOf(noteWrite.note), MacOf(noteWrite.mutation), MacOf(noteWrite.response)))))
  }

  method SealNoteWrite(ledger: Ledger, input: Input, applied: Applied) returns (w: Option<NoteWrite>)
    requires ledger.Valid() && ledger.index == 0
    requires ledger.owner == input.preparation.objectWrap.ownerId
    requires ledger.reservations == RoutedReservations(input.preparation, input.plan.block.Some?)
    modifies ledger`index
    ensures ledger.Valid()
    ensures w.Some? <==> input.job.ownerId == ledger.owner
    ensures w.Some? ==> w.value == NoteWriteFor(input, applied) && ledger.index == GROUPED_OPERATIONS
  {
    hide LogicalRequest, ResponsePayload;
    var owner, ids, revision := input.job.ownerId, input.preparation.ids, applied.currentRevision;
    var noteCipher := ledger.SealNext(owner, NoteContent, applied.noteId, revision, applied.noteContent);
    var noteRevision := ledger.SealNext(owner, NoteRevision, ids.revisionId, revision, applied.noteRevision);
    var mutation := ledger.SealNext(owner, NoteMutation, ids.mutationId, revision, applied.noteMutation);
    var responseValue := ResponsePayload(input, applied);
    var response := ledger.SealNext(owner, IdempotencyResponse, IdempotencyKey(input), 1, responseValue);
    if noteCipher.None? || noteRevision.None? || mutation.None? || response.None? {
      return None;
    }
    w := Some(NoteWrite(
      note := noteCipher.value,
      revision := noteRevision.value,
      revisionId := ids.revisionId,
      mutation := mutation.value,
      mutationId := ids.mutationId,
      mutationDecisionId := if input.preparation.mode.CreateMode? then None else Some(ids.decisionId),
      request := LogicalRequest(input),
      response := response.value));
  }

  /** Opens the sealed note records under the contexts they are read under, and compares. */
  method ReopensAsSealed(w: NoteWrite, input: Input, applied: Applied) returns (same: bool)
    requires w == NoteWriteFor(input, applied)
    ensures same
  {
    hide LogicalRequest, ResponsePayload;
    var ids, revision := input.preparation.ids, applied.currentRevision;
    var note := Open(w.note, NoteContent, applied.noteId, revision);
    var noteRevision := Open(w.revision, NoteRevision, ids.revisionId, revision);
    var mutation := Open(w.mutation, NoteMutation, ids.mutationId, revision);
    var response := Open(w.response, IdempotencyResponse, IdempotencyKey(input), 1);
    same := note == Some(applied.noteContent) && noteRevision == Some(applied.noteRevision)
            && mutation == Some(applied.noteMutation) && response == Some(ResponsePayload(input, applied));
  }

  /** The verification MACs of the note records, each verified once made. */
  method MacNoteWrite(input: Input, applied: Applied) returns (m: Option<NoteMacs>)
    ensures var w := NoteWriteFor(input, applied);
            m == Some(NoteMacs(MacOf(w.note), MacOf(w.mutation), MacOf(w.response)))
  {
    hide LogicalRequest, ResponsePayload;
    var ids, revision := input.preparation.ids, applied.currentRevision;
    var note := Mac(NoteContent, applied.noteId, revision, applied.noteContent);
    var mutation := Mac(NoteMutation, ids.mutationId, revision, applied.noteMutation);
    var responseValue := ResponsePayload(input, applied);
    var response := Mac(IdempotencyResponse, IdempotencyKey(input), 1, responseValue);
    if !Verifies(note, NoteContent, applied.noteId, revision, applied.noteContent)
      || !Verifies(mutation, NoteMutation, ids.mutationId, revision, applied.noteMutation)
      || !Verifies(response, IdempotencyResponse, IdempotencyKey(input), 1, responseValue) {
      return None;
    }
    m := Some(NoteMacs(note, mutation, response));
  }

  method SealRoutedCommand(input: Input, applied: Option<Applied>) returns (r: Result<Command>)
    requires !input.plan.Review?
    ensures r == if RoutedSealable(input, applied) then Ok(RoutedCommand(input, applied.value)) else Err(UNAVAILABLE)
  {
    hide ReviewPayload, ReceiptAccepted, DecisionPayload, RoutedReceipt, NoteWriteFor, BlockAccepted, PlanAccepted,
      KeysUsable, AppliedAgrees, CurrentNoteAgrees;
    r := Err(UNAVAILABLE);
    var hasGeneratedBlock := input.plan.block.Some?;
    if hasGeneratedBlock != (input.reason == Some(ExpansionPending))
      || (input.plan.Append? && input.destination.None?)
      || (input.plan.Create? && input.destination.Some?) {
      return;
    }
    if input.plan.Append? && !CurrentNoteAgrees(input.destination.value) {
      return;
    }
    if applied.None? || !AppliedAgrees(input, applied.value) {
      return;
    }
    if !input.services.shapesFit || !BlockAccepted(input.plan) {
      return;
    }
    var reviewValue := if hasGeneratedBlock then ReviewPayload(input) else Err("");
    if hasGeneratedBlock && reviewValue.Err? {
      return;
    }
    if !KeysUsable(input.preparation) {
      return;
    }
    r := SealRecords(input, applied.value, reviewValue);
  }

  /** The seals of a routed command besides those of its note records. */
  datatype OtherSeals = OtherSeals(
    decision: Seal<Decision>,
    receipt: Seal<Receipt>,
    block: Option<Seal<string>>,
    review: Option<Seal<Proposal>>)

  function OthersFor(input: Input, applied: Applied, reviewValue: Result<Proposal>): OtherSeals
    requires !input.plan.Review? && (reviewValue.Ok? <==> input.plan.block.Some?)
  {
    var ids := input.preparation.ids;
    OtherSeals(
      SealFor(input, OrganizationDecision, ids.decisionId, 1, DecisionPayload(input)),
      SealFor(input, CaptureReceipt, input.job.captureId, 1, RoutedReceipt(input, applied)),
      if input.plan.block.None? then None
      else Some(SealFor(input, GeneratedBlock, input.plan.block.value.blockId, 1, input.plan.block.value.text)),
      if input.plan.block.None? then None
      else Some(SealFor(input, ReviewItem, ids.reviewItemId, 1, reviewValue.value)))
  }

  method SealOthers(ledger: Ledger, input: Input, applied: Applied, reviewValue: Result<Proposal>)
    returns (o: Option<OtherSeals>)
    requires ledger.Valid() && ledger.index == GROUPED_OPERATIONS
    requires ledger.owner == input.preparation.objectWrap.ownerId == input.job.ownerId
    requires ledger.reservations == RoutedReservations(input.preparation, input.plan.block.Some?)
    requires !input.plan.Review? && (reviewValue.Ok? <==> input.plan.block.Some?)
    modifies ledger`index
    ensures ledger.Valid()
    ensures o.Some? <==> PlanAccepted(input.plan.validated) && ReceiptAccepted(RoutedReceipt(input, applied))
    ensures o.Some? ==> o.value == OthersFor(input, applied, reviewValue) && ledger.Consumed()
  {
    hide ReceiptAccepted, DecisionPayload, RoutedReceipt, PlanAccepted;
    if !PlanAccepted(input.plan.validated) {
      return None;
    }
    var owner, ids := input.job.ownerId, input.preparation.ids;
    var decision := ledger.SealNext(owner, OrganizationDecision, ids.decisionId, 1, DecisionPayload(input));
    var receiptValue := RoutedReceipt(input, applied);
    if decision.None? || !ReceiptAccepted(receiptValue) {
      return None;
    }
    var receipt := ledger.SealNext(owner, CaptureReceipt, input.job.captureId, 1, receiptValue);
    var block: Option<Seal<string>>, review: Option<Seal<Proposal>> := None, None;
    if input.plan.block.Some? {
      block := ledger.SealNext(owner, GeneratedBlock, input.plan.block.value.blockId, 1, input.plan.block.value.text);
      review := ledger.SealNext(owner, ReviewItem, ids.reviewItemId, 1, reviewValue.value);
    }
    if receipt.None? || (input.plan.block.Some? && (block.None? || review.None?)) || !ledger.Consumed() {
      return None;
    }
    o := Some(OtherSeals(decision.value, receipt.value, block, review));
  }

  /** The seals, MACs and checks of a routed command, once its payloads are there. */
  method SealRecords(input: Input, applied: Applied, reviewValue: Result<Proposal>) returns (r: Result<Command>)
    requires !input.plan.Review?
    requires reviewValue == if input.plan.block.Some? then ReviewPayload(input) else Err("")
    requires reviewValue.Ok? <==> input.plan.block.Some?
    ensures r.Ok? <==>
              && input.job.ownerId == input.preparation.objectWrap.ownerId
              && PlanAccepted(input.plan.validated) && ReceiptAccepted(RoutedReceipt(input, applied))
              && input.services.custody
    ensures r.Ok? && RoutedSealable(input, Some(applied)) ==> r.value == RoutedCommand(input, applied)
    ensures r.Err? ==> r.code == UNAVAILABLE
  {
    hide ReviewPayload, ReceiptAccepted, DecisionPayload, RoutedReceipt, NoteWriteFor, BlockAccepted, PlanAccepted,
      KeysUsable, AppliedAgrees, CurrentNoteAgrees, RoutedReservations;
    r := Err(UNAVAILABLE);
    var ledger := new Ledger(RoutedReservations(input.preparation, input.plan.block.Some?),
        input.preparation.objectWrap.ownerId);
    var noteWrite := SealNoteWrite(ledger, input, applied);
    if noteWrite.None? {
      return;
    }
    var others := SealOthers(ledger, input, applied, reviewValue);
    if others.None? || !input.services.custody {
      return;
    }
    var macs := MacRecords(input, applied, reviewValue);
    var same := ReopensAsSealed(noteWrite.value, input, applied);
    if macs.None? || !same {
      return;
    }
    var o := others.value;
    r := Ok(Command(
      band := "auto",
      decision := o.decision,
      block := o.block,
      noteWrite := noteWrite,
      outcome := if input.plan.Create? then Created else Appended,
      receipt := o.receipt,
      review := if o.review.None? then None else Some((PendingExpansion, o.review.value)),
      reason := if input.plan.block.Some? then Some(ExpansionPending) else None,
      macs := macs.value));
  }

  /** The verification MACs of a routed command. */
  method MacRecords(input: Input, applied: Applied, reviewValue: Result<Proposal>) returns (m: Option<Macs>)
    requires !input.plan.Review? && (reviewValue.Ok? <==> input.plan.block.Some?)
    ensures var w, ids := NoteWriteFor(input, applied), input.preparation.ids;
            m == Some(Macs(
              Mac(OrganizationDecision, ids.decisionId, 1, DecisionPayload(input)),
              Mac(CaptureReceipt, input.job.captureId, 1, RoutedReceipt(input, applied)),
              if reviewValue.Err? then None else Some(Mac(ReviewItem, ids.reviewItemId, 1, reviewValue.value)),
              if input.plan.block.None? then None
              else Some(Mac(GeneratedBlock, input.plan.block.value.blockId, 1, input.plan.block.value.text)),
              Some(NoteMacs(MacOf(w.note), MacOf(w.mutation), MacOf(w.response)))))
  {
    hide DecisionPayload, RoutedReceipt, NoteWriteFor, MacOf;
    var ids := input.preparation.ids;
    var noteMacs := MacNoteWrite(input, applied);
    var decisionValue, receiptValue := DecisionPayload(input), RoutedReceipt(input, applied);
    var decision := Mac(OrganizationDecision, ids.decisionId, 1, decisionValue);
    var receipt := Mac(CaptureReceipt, input.job.captureId, 1, receiptValue);
    if noteMacs.None? || !Verifies(decision, OrganizationDecision, ids.decisionId, 1, decisionValue)
      || !Verifies(receipt, CaptureReceipt, input.job.captureId, 1, receiptValue) {
      return None;
    }
    var block: Option<Mac<string>>, review: Option<Mac<Proposal>> := None, None;
    if input.plan.block.Some? {
      var b := Mac(GeneratedBlock, input.plan.block.value.blockId, 1, input.plan.block.value.text);
      var v := Mac(ReviewItem, ids.reviewItemId, 1, reviewValue.value);
      if !Verifies(b, GeneratedBlock, input.plan.block.value.blockId, 1, input.plan.block.value.text)
        || !Verifies(v, ReviewItem, ids.reviewItemId, 1, reviewValue.value) {
        return None;
      }
      block, review := Some(b), Some(v);
    }
    m := Some(Macs(decision, receipt, review, block, noteMacs));
  }

  /** The command of an input, when every gate holds. */
  function Sealed(input: Input, applied: Option<Applied>): Result<Command> {
    if !PreparationBound(input) || input.services.abortedBefore || input.services.abortedAfter then Err(UNAVAILABLE)
    else if input.plan.Review? then
      if ReviewSealable(input) then Ok(ReviewCommand(input)) else Err(UNAVAILABLE)
    else
      if RoutedSealable(input, applied) then Ok(RoutedCommand(input, applied.value)) else Err(UNAVAILABLE)
  }

  method SealCommand(input: Input, applied: Option<Applied>) returns (r: Result<Command>)
    ensures r == Sealed(input, applied)
  {
    hide EvidenceBound, SharedBinding, ReviewBinding, RoutedBinding, ReviewSealable, RoutedSealable, ReviewCommand,
      RoutedCommand;
    if input.services.abortedBefore {
      return Err(UNAVAILABLE);
    }
    var evidence := AssertCandidateEvidenceBinding(input);
    if !evidence || !SharedBinding(input) {
      return Err(UNAVAILABLE);
    }
    if !(if input.plan.Review? then ReviewBinding(input) else RoutedBinding(input)) {
      return Err(UNAVAILABLE);
    }
    if input.plan.Review? {
      r := SealReviewCommand(input);
    } else {
      r := SealRoutedCommand(input, applied);
    }
    if input.services.abortedAfter {
      return Err(UNAVAILABLE);
    }
  }
}
