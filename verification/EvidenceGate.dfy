/** The gate that binds a plan to the candidates it was made from, and what passing it gives. */
module EvidenceGate {
  import opened Wrappers
  import opened Organizer

  const MAX_CANDIDATES := 8

  predicate Alphanumeric(c: char) {
    'A' <= c <= 'Z' || 'a' <= c <= 'z' || '0' <= c <= '9'
  }

  /** 1 to 128 characters, the first a letter or digit, the others also `.`, `_`, `:` or `-`. */
  predicate GenerationName(s: string) {
    && 1 <= |s| <= 128
    && Alphanumeric(s[0])
    && forall i | 0 <= i < |s| :: Alphanumeric(s[i]) || s[i] in "._:-"
  }

  /** A live, open candidate whose opened and stored halves agree and whose source is its own note. */
  predicate Eligible(c: Candidate) {
    && c.encrypted.candidateId == c.decrypted.candidateId
    && c.encrypted.noteId == c.decrypted.noteId
    && c.encrypted.noteType == c.decrypted.noteType
    && c.encrypted.revision == c.decrypted.revision
    && c.encrypted.isOpen == c.decrypted.isOpen
    && c.encrypted.isOpen
    && c.encrypted.archivedAt == None
    && c.encrypted.deletedAt == None
    && c.encrypted.sourceResourceId == c.encrypted.noteId
    && c.encrypted.sourceRecordVersion == c.encrypted.revision
  }

  predicate Distinct(cs: seq<Candidate>) {
    forall i, j | 0 <= i < j < |cs| ::
      cs[i].encrypted.candidateId != cs[j].encrypted.candidateId && cs[i].encrypted.noteId != cs[j].encrypted.noteId
  }

  predicate Offered(cs: seq<Candidate>, candidateId: string) {
    exists i | 0 <= i < |cs| :: cs[i].encrypted.candidateId == candidateId
  }

  function Relations(operations: seq<Operation>): seq<string> {
    if operations == [] then []
    else (if operations[0].AddRelation? then [operations[0].toCandidateId] else []) + Relations(operations[1..])
  }

  /** Every candidate id the plan mentions. */
  function References(plan: ValidatedPlan): seq<string> {
    (if plan.destination.Some? then [plan.destination.value] else []) + plan.alternatives + Relations(plan.operations)
  }

  lemma {:induction false} RelationsComplete(operations: seq<Operation>, candidateId: string)
    ensures candidateId in Relations(operations) <==> AddRelation(candidateId) in operations
  {
    if operations != [] {
      RelationsComplete(operations[1..], candidateId);
      assert operations == [operations[0]] + operations[1..];
    }
  }

  predicate CandidatesSound(cs: seq<Candidate>) {
    && |cs| <= MAX_CANDIDATES
    && Distinct(cs)
    && forall i | 0 <= i < |cs| :: Eligible(cs[i])
  }

  /** What the gate promises about the evidence of a plan. */
  predicate EvidenceBound(input: Input) {
    && (input.generationId.Some? ==> GenerationName(input.generationId.value))
    && CandidatesSound(input.candidates)
    && (forall id | id in References(input.plan.validated) :: Offered(input.candidates, id))
    && (if input.plan.Append? then
          && input.destination.Some?
          && input.destination.value in input.candidates
          && input.destination.value.decrypted.candidateId == input.plan.candidateId
        else
          input.destination == None)
  }

  /** The first candidate opened under an id. */
  function Find(cs: seq<Candidate>, candidateId: string): (c: Option<Candidate>)
    ensures c.Some? ==> c.value in cs && c.value.decrypted.candidateId == candidateId
    ensures c.None? ==> forall i | 0 <= i < |cs| :: cs[i].decrypted.candidateId != candidateId
  {
    if cs == [] then None
    else if cs[0].decrypted.candidateId == candidateId then Some(cs[0])
    else Find(cs[1..], candidateId)
  }

  /** Among sound candidates a lookup gives the one candidate of that id. */
  lemma FindsTheOne(cs: seq<Candidate>, i: nat)
    requires i < |cs| && CandidatesSound(cs)
    ensures Find(cs, cs[i].decrypted.candidateId) == Some(cs[i])
  {
    hide Find;
    var found := Find(cs, cs[i].decrypted.candidateId);
    if found.Some? {
      var j :| 0 <= j < |cs| && cs[j] == found.value;
      assert Eligible(cs[i]) && Eligible(cs[j]);
    }
  }

  lemma OfferedIsFound(cs: seq<Candidate>, candidateId: string)
    requires CandidatesSound(cs)
    ensures Offered(cs, candidateId) <==> Find(cs, candidateId).Some?
  {
    hide Find;
    if Offered(cs, candidateId) {
      var i :| 0 <= i < |cs| && cs[i].encrypted.candidateId == candidateId;
      assert Eligible(cs[i]);
      FindsTheOne(cs, i);
    }
    if Find(cs, candidateId).Some? {
      var i :| 0 <= i < |cs| && cs[i] == Find(cs, candidateId).value;
      assert Eligible(cs[i]);
    }
  }

  /**
    The gate. The sets of ids seen so far grow with the candidates; the destination of an append must
    be, field for field, the candidate the plan names.
   */
  method AssertCandidateEvidenceBinding(input: Input) returns (ok: bool)
    ensures ok <==> EvidenceBound(input)
  {
    hide Find, References, GenerationName;
    var cs := input.candidates;
    if |cs| > MAX_CANDIDATES || (input.generationId.Some? && !GenerationName(input.generationId.value)) {
      return false;
    }
    var candidateIds: set<string>, noteIds: set<string> := {}, {};
    for i := 0 to |cs|
      invariant Distinct(cs[..i])
      invariant forall j | 0 <= j < i :: Eligible(cs[j])
      invariant forall id :: id in candidateIds <==> Offered(cs[..i], id)
      invariant forall id :: id in noteIds <==> exists j | 0 <= j < i :: cs[j].encrypted.noteId == id
    {
      assert cs[..i + 1] == cs[..i] + [cs[i]];
      if cs[i].encrypted.candidateId in candidateIds {
        SeenTwice(cs, i);
        return false;
      }
      if cs[i].encrypted.noteId in noteIds || !Eligible(cs[i]) {
        return false;
      }
      OfferedNext(cs, i);
      candidateIds := candidateIds + {cs[i].encrypted.candidateId};
      noteIds := noteIds + {cs[i].encrypted.noteId};
    }
    assert cs[..|cs|] == cs;
    if exists id | id in References(input.plan.validated) :: id !in candidateIds {
      return false;
    }
    if !input.plan.Append? {
      return input.destination.None?;
    }
    var evidence := Find(cs, input.plan.candidateId);
    if input.destination.Some? && input.destination.value in cs {
      var k :| 0 <= k < |cs| && cs[k] == input.destination.value;
      FindsTheOne(cs, k);
      assert Offered(cs, cs[k].encrypted.candidateId);
    }
    return
      && input.destination.Some?
      && evidence.Some?
      && input.destination.value.decrypted.candidateId == input.plan.candidateId
      && input.destination.value.decrypted.candidateId in candidateIds
      && input.destination.value == evidence.value;
  }

  lemma SeenTwice(cs: seq<Candidate>, i: nat)
    requires i < |cs| && Offered(cs[..i], cs[i].encrypted.candidateId)
    ensures !Distinct(cs)
  {
    var j :| 0 <= j < i && cs[..i][j].encrypted.candidateId == cs[i].encrypted.candidateId;
    assert cs[j].encrypted.candidateId == cs[i].encrypted.candidateId;
  }

  lemma OfferedNext(cs: seq<Candidate>, i: nat)
    requires i < |cs|
    ensures forall id :: Offered(cs[..i + 1], id) <==> Offered(cs[..i], id) || id == cs[i].encrypted.candidateId
  {
    assert cs[..i + 1][i] == cs[i];
    forall id
      ensures Offered(cs[..i + 1], id) <==> Offered(cs[..i], id) || id == cs[i].encrypted.candidateId
    {
      if Offered(cs[..i], id) {
        var j :| 0 <= j < i && cs[..i][j].encrypted.candidateId == id;
        assert cs[..i + 1][j].encrypted.candidateId == id;
      }
      if Offered(cs[..i + 1], id) {
        var j :| 0 <= j < i + 1 && cs[..i + 1][j].encrypted.candidateId == id;
        if j < i {
          assert cs[..i][j].encrypted.candidateId == id;
        }
      }
    }
  }

  // ----- resolution -----

  /** Behind the gate, candidates and notes name each other one to one. */
  lemma ResolutionInjective(cs: seq<Candidate>, a: string, b: string)
    requires CandidatesSound(cs) && Find(cs, a).Some? && Find(cs, b).Some?
    ensures Find(cs, a).value.encrypted.noteId == Find(cs, b).value.encrypted.noteId <==> a == b
  {
    hide Find;
    var x, y := Find(cs, a).value, Find(cs, b).value;
    var i :| 0 <= i < |cs| && cs[i] == x;
    var j :| 0 <= j < |cs| && cs[j] == y;
    assert i < j || j < i || i == j;
  }

  /** Behind the gate, every id that the plan mentions resolves to a live note. */
  lemma ReferencesResolve(input: Input, id: string)
    requires EvidenceBound(input)
    requires || input.plan.validated.destination == Some(id)
             || id in input.plan.validated.alternatives
             || AddRelation(id) in input.plan.validated.operations
    ensures Find(input.candidates, id).Some? && Eligible(Find(input.candidates, id).value)
  {
    hide Find, Eligible;
    RelationsComplete(input.plan.validated.operations, id);
    assert id in References(input.plan.validated);
    OfferedIsFound(input.candidates, id);
    var i :| 0 <= i < |input.candidates| && input.candidates[i] == Find(input.candidates, id).value;
  }

  /** The notes that a list of candidate ids resolves to; none when a lookup fails. */
  function Resolve(cs: seq<Candidate>, ids: seq<string>): (notes: Option<seq<DuplicateNote>>) {
    if ids == [] then Some([])
    else
      var c := Find(cs, ids[0]);
      var rest := Resolve(cs, ids[1..]);
      if c.None? || rest.None? then None
      else Some([DuplicateNote(c.value.encrypted.noteId, c.value.encrypted.revision)] + rest.value)
  }

  lemma {:induction false} ResolveMeaning(cs: seq<Candidate>, ids: seq<string>)
    ensures Resolve(cs, ids).Some? <==> forall i | 0 <= i < |ids| :: Find(cs, ids[i]).Some?
    ensures Resolve(cs, ids).Some? ==> |Resolve(cs, ids).value| == |ids|
    ensures Resolve(cs, ids).Some? ==> forall i | 0 <= i < |ids| ::
                && Find(cs, ids[i]).Some?
                && Resolve(cs, ids).value[i].noteId == Find(cs, ids[i]).value.encrypted.noteId
                && Resolve(cs, ids).value[i].revision == Find(cs, ids[i]).value.encrypted.revision
  {
    hide Find;
    if ids != [] {
      ResolveMeaning(cs, ids[1..]);
      assert forall i | 1 <= i < |ids| :: ids[i] == ids[1..][i - 1];
    }
  }

  predicate NoRepeats<T(==)>(s: seq<T>) {
    forall i, j | 0 <= i < j < |s| :: s[i] != s[j]
  }

  predicate NotesDistinct(notes: seq<DuplicateNote>) {
    forall i, j | 0 <= i < j < |notes| :: notes[i].noteId != notes[j].noteId
  }

  /**
    The lookup that builds a duplicate proposal cannot fail behind the gate, and distinct
    alternatives, and only they, propose distinct notes.
   */
  lemma AlternativesResolve(input: Input)
    requires EvidenceBound(input)
    ensures Resolve(input.candidates, input.plan.validated.alternatives).Some?
    ensures NotesDistinct(Resolve(input.candidates, input.plan.validated.alternatives).value)
            <==> NoRepeats(input.plan.validated.alternatives)
  {
    hide Find, Resolve, EvidenceBound;
    var cs, ids := input.candidates, input.plan.validated.alternatives;
    ResolveMeaning(cs, ids);
    forall i | 0 <= i < |ids|
      ensures Find(cs, ids[i]).Some?
    {
      ReferencesResolve(input, ids[i]);
    }
    SoundBehindGate(input);
    forall i, j | 0 <= i < j < |ids|
      ensures Resolve(cs, ids).value[i].noteId != Resolve(cs, ids).value[j].noteId <==> ids[i] != ids[j]
    {
      ResolutionInjective(cs, ids[i], ids[j]);
    }
  }

  lemma SoundBehindGate(input: Input)
    requires EvidenceBound(input)
    ensures CandidatesSound(input.candidates)
  {
  }
}
