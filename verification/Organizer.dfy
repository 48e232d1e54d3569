/** What the organizer's sealing step is given, and the command it returns. */
module Organizer {
  import opened Wrappers

  const UNAVAILABLE := "organizer_unavailable"

  // ----- candidates -----

  datatype EncryptedCandidate = EncryptedCandidate(
    candidateId: string,
    noteId: string,
    noteType: string,
    revision: nat,
    isOpen: bool,
    archivedAt: Option<string>,
    deletedAt: Option<string>,
    sourceResourceId: string,
    sourceRecordVersion: nat)

  datatype DecryptedCandidate = DecryptedCandidate(
    candidateId: string,
    noteId: string,
    noteType: string,
    revision: nat,
    isOpen: bool,
    title: string,
    bodyMarkdown: string)

  datatype Candidate = Candidate(decrypted: DecryptedCandidate, encrypted: EncryptedCandidate)

  // ----- plans -----

  datatype Operation = AddRelation(toCandidateId: string) | OtherOperation(text: string)

  datatype ValidatedPlan = ValidatedPlan(
    destination: Option<string>,
    alternatives: seq<string>,
    operations: seq<Operation>,
    reasonCodes: seq<string>)

  datatype Block = Block(blockId: string, kind: string, text: string)

  datatype Plan =
    | Append(
        decisionId: string,
        validated: ValidatedPlan,
        block: Option<Block>,
        candidateId: string,
        noteId: string,
        expectedRevision: nat,
        afterRevision: nat,
        revisionId: string,
        mutationId: string)
    | Create(
        decisionId: string,
        validated: ValidatedPlan,
        block: Option<Block>,
        noteId: string,
        afterRevision: nat,
        revisionId: string,
        mutationId: string)
    | Review(
        decisionId: string,
        validated: ValidatedPlan,
        block: Option<Block>,
        reviewItemId: Option<string>)

  datatype Reason =
    | DuplicateSuggestion
    | ExplicitDestinationUnavailable
    | ExpansionPending
    | PlannerAmbiguity
    | RevisionConflict

  // ----- what the database prepared -----

  datatype Mode = AppendMode | CreateMode

  datatype PreparedIds = PreparedIds(
    decisionId: string,
    blockId: string,
    mutationId: string,
    reviewItemId: string,
    revisionId: string)

  datatype ReservationIds = ReservationIds(
    decision: string,
    block: string,
    noteWrite: string,
    receipt: string,
    review: string)

  datatype Key = Key(ownerId: string, keyClass: string, purpose: string, status: string)

  datatype Preparation = Preparation(
    jobId: string,
    replanCount: nat,
    mode: Mode,
    noteId: string,
    expectedRevision: Option<nat>,
    targetRevision: nat,
    ids: PreparedIds,
    reservations: ReservationIds,
    contentMac: Key,
    objectWrap: Key)

  datatype StableIds = StableIds(
    decisionId: string,
    createdNoteId: Option<string>,
    revisionId: Option<string>,
    mutationId: Option<string>,
    reviewItemId: Option<string>,
    blockId: Option<string>)

  datatype Controls = Controls(
    expansionDisabled: bool,
    explicitDestination: Option<string>,
    ruleMatch: Option<string>)

  datatype Job = Job(
    jobId: string,
    ownerId: string,
    captureId: string,
    occurredAt: string,
    replanCount: nat,
    controls: Controls)

  datatype Routing = Routing(autoApply: bool, band: string)

  /** What the services outside this model answer: whether the payload schemas accept every field's shape,
      whether the key custodian lets seals, MACs and openings go through, and when the signal aborts. */
  datatype Services = Services(shapesFit: bool, custody: bool, abortedBefore: bool, abortedAfter: bool)

  datatype Input = Input(
    activeReplanCount: nat,
    candidates: seq<Candidate>,
    captureControls: Controls,
    controls: Controls,
    destination: Option<Candidate>,
    job: Job,
    plan: Plan,
    preparation: Preparation,
    generationId: Option<string>,
    reason: Option<Reason>,
    routing: Option<Routing>,
    stable: StableIds,
    services: Services)

  /** What applying the plan to the note gave. */
  datatype Applied = Applied(
    noteId: string,
    title: string,
    currentRevision: nat,
    revisionId: string,
    mutationId: string,
    insertedItemIds: seq<string>,
    noteContent: string,
    noteRevision: string,
    noteMutation: string)

  // ----- sealed records -----

  datatype Surface =
    | NoteContent
    | NoteRevision
    | NoteMutation
    | IdempotencyResponse
    | OrganizationDecision
    | CaptureReceipt
    | GeneratedBlock
    | ReviewItem

  datatype Reservation = Grouped(id: string, operationCount: nat, operationIndex: nat) | Single(id: string)

  /** A payload bound to its surface, resource and version, under the wrap key of one reservation. */
  datatype Seal<+P> = Seal(surface: Surface, resource: string, version: nat, payload: P, reservation: Reservation)

  /** The verification MAC of a payload under its surface, resource and version. */
  datatype Mac<+P> = Mac(surface: Surface, resource: string, version: nat, payload: P)

  /** A seal opens under the context it was made for, and only there. */
  function Open<P>(s: Seal<P>, surface: Surface, resource: string, version: nat): Option<P> {
    if s.surface == surface && s.resource == resource && s.version == version then Some(s.payload) else None
  }

  /** A MAC verifies for the payload and context it was made for, and for no other. */
  predicate Verifies<P(==)>(m: Mac<P>, surface: Surface, resource: string, version: nat, payload: P) {
    m == Mac(surface, resource, version, payload)
  }

  // ----- payloads -----

  datatype DuplicateNote = DuplicateNote(noteId: string, revision: nat)
  datatype ConflictReason = RevisionReason | CandidateEligibility | ConsentControls

  datatype Proposal =
    | DuplicateNotes(notes: seq<DuplicateNote>)
    | Conflict(reason: ConflictReason)
    | BlockProposal(blockId: string)
    | RouteCapture(plan: ValidatedPlan)

  datatype ReviewType =
    | DuplicateSuggestionReview
    | LowConfidence
    | RevisionConflictReview
    | StructureConflict
    | PendingExpansion

  datatype Action =
    | OpenNote(noteId: string)
    | MoveCapture(decisionId: string, noteId: string)
    | UndoMutation(expectedRevision: nat, mutationId: string)

  datatype Inserted = Captured(itemId: Option<string>) | AiGenerated(blockId: string)
  datatype UndoTarget = UndoTarget(expectedRevision: nat, mutationId: string, noteId: string)
  datatype ReceiptOutcome = CreatedNote | AddedToNote | NeedsReview

  datatype Receipt = Receipt(
    actions: seq<Action>,
    captureId: string,
    createdAt: string,
    decisionId: string,
    destination: Option<(string, string)>,
    inserted: seq<Inserted>,
    jobId: string,
    mutationId: Option<string>,
    outcome: ReceiptOutcome,
    reasonCodes: seq<string>,
    reviewItemId: Option<string>,
    undoTargets: seq<UndoTarget>)

  datatype WriteResponse = WriteResponse(jobId: string, mutationId: string, noteId: string, revision: nat)

  datatype WriteRequest = WriteRequest(
    expectedRevision: Option<nat>,
    captureId: string,
    decisionId: string,
    jobId: string,
    scope: Mode,
    targetResourceId: string)

  datatype Decision = Decision(
    band: string,
    candidates: seq<string>,
    generationId: Option<string>,
    blockId: Option<string>,
    plan: ValidatedPlan)

  // ----- the command -----

  datatype NoteWrite = NoteWrite(
    note: Seal<string>,
    revision: Seal<string>,
    revisionId: string,
    mutation: Seal<string>,
    mutationId: string,
    mutationDecisionId: Option<string>,
    request: WriteRequest,
    response: Seal<WriteResponse>)

  datatype Outcome = Appended | Created | Reviewed

  datatype Command = Command(
    band: string,
    decision: Seal<Decision>,
    block: Option<Seal<string>>,
    noteWrite: Option<NoteWrite>,
    outcome: Outcome,
    receipt: Seal<Receipt>,
    review: Option<(ReviewType, Seal<Proposal>)>,
    reason: Option<Reason>,
    macs: Macs)

  datatype NoteMacs = NoteMacs(note: Mac<string>, mutation: Mac<string>, response: Mac<WriteResponse>)

  /** The verification MACs that go with the records of a command. */
  datatype Macs = Macs(
    decision: Mac<Decision>,
    receipt: Mac<Receipt>,
    review: Option<Mac<Proposal>>,
    block: Option<Mac<string>>,
    noteWrite: Option<NoteMacs>)
}
