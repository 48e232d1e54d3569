/**
  The account service as the seeder sees it: creates keyed by idempotency key, revision
  compare-and-set updates, and a network that may lose a request or its reply.
 */
module DemoServer {
  import opened Wrappers
  import opened Portfolio

  datatype Space = Space(id: nat, name: string, parentId: Option<nat>, archived: bool, sortKey: string)
  datatype Tag = Tag(id: nat, name: string)
  datatype Link = Link(linkType: string, toNoteId: nat)
  datatype Note = Note(
    id: nat,
    title: string,
    noteType: NoteType,
    privacy: Privacy,
    spaceId: Option<nat>,
    tagIds: seq<nat>,
    links: seq<Link>,
    archived: bool,
    deleted: bool,
    body: string,
    revision: nat,
    structured: Structured)
  datatype Settings = Settings(locale: string, timezone: string, revision: nat)

  /** What else an account can hold; the seeder wants none of it. */
  datatype Foreign = Foreign(captures: nat, deletedNotes: nat, reviewItems: nat, routingRules: nat, providerKey: bool)

  datatype Request =
    | CreateSpace(key: string, name: string, sortKey: string)
    | CreateTag(key: string, name: string)
    | CreateNote(key: string, title: string, noteType: NoteType, privacy: Privacy, body: string,
                 spaceId: Option<nat>, tagIds: seq<nat>, links: seq<Link>)
    | UpdateNote(key: string, id: nat, body: string, expectedRevision: nat)
    | UpdateSettings(key: string, locale: string, timezone: string, expectedRevision: nat)

  /** A note mutation answers with the note and the revision record written with it. */
  datatype Revision = Revision(noteId: nat, revision: nat, snapshot: Note)

  datatype Answer =
    | SpaceAnswer(space: Space, replayed: bool)
    | TagAnswer(tag: Tag, replayed: bool)
    | NoteAnswer(note: Note, record: Revision, replayed: bool)
    | SettingsAnswer(settings: Settings, replayed: bool)
    | Refused

  /** `log` lists the idempotency keys of the writes that took effect, oldest first. */
  datatype Account = Account(
    spaces: seq<Space>,
    tags: seq<Tag>,
    notes: seq<Note>,
    settings: Settings,
    foreign: Foreign,
    nextId: nat,
    replies: map<string, Answer>,
    log: seq<string>)

  datatype Fault = Delivered | LostRequest | LostReply

  type Derive = (NoteType, string) -> Structured

  function NoteIndex(notes: seq<Note>, id: nat): (r: Option<nat>)
    ensures r.Some? ==> r.value < |notes| && notes[r.value].id == id
    ensures r.None? ==> forall i | 0 <= i < |notes| :: notes[i].id != id
  {
    if notes == [] then None
    else if notes[|notes| - 1].id == id then Some(|notes| - 1)
    else NoteIndex(notes[..|notes| - 1], id)
  }

  function Recorded(a: Account, key: string, answer: Answer): Account {
    a.(replies := a.replies[key := answer], log := a.log + [key])
  }

  /** A request seen for the first time: its effect, or refusal without effect. */
  function Commit(derive: Derive, a: Account, q: Request): (Account, Answer) {
    match q
    case CreateSpace(key, name, sortKey) =>
      var s := Space(a.nextId, name, None, false, sortKey);
      var answer := SpaceAnswer(s, false);
      (Recorded(a.(spaces := a.spaces + [s], nextId := a.nextId + 1), key, answer), answer)
    case CreateTag(key, name) =>
      var t := Tag(a.nextId, name);
      var answer := TagAnswer(t, false);
      (Recorded(a.(tags := a.tags + [t], nextId := a.nextId + 1), key, answer), answer)
    case CreateNote(key, title, noteType, privacy, body, spaceId, tagIds, links) =>
      var n := Note(a.nextId, title, noteType, privacy, spaceId, tagIds, links, false, false, body, 1,
                    derive(noteType, body));
      var answer := NoteAnswer(n, Revision(n.id, 1, n), false);
      (Recorded(a.(notes := a.notes + [n], nextId := a.nextId + 1), key, answer), answer)
    case UpdateNote(key, id, body, expectedRevision) =>
      var at := NoteIndex(a.notes, id);
      if at.None? || a.notes[at.value].revision != expectedRevision then (a, Refused) else
        var n := a.notes[at.value];
        var u := n.(body := body, revision := n.revision + 1, structured := derive(n.noteType, body));
        var answer := NoteAnswer(u, Revision(u.id, u.revision, u), false);
        (Recorded(a.(notes := a.notes[at.value := u]), key, answer), answer)
    case UpdateSettings(key, locale, timezone, expectedRevision) =>
      if a.settings.revision != expectedRevision then (a, Refused) else
        var s := Settings(locale, timezone, expectedRevision + 1);
        var answer := SettingsAnswer(s, false);
        (Recorded(a.(settings := s), key, answer), answer)
  }

  /** The answer to a key seen before, when it was the same kind of request. */
  function Replay(stored: Answer, q: Request): Answer {
    match (q, stored)
    case (CreateSpace(_, _, _), SpaceAnswer(s, _)) => SpaceAnswer(s, true)
    case (CreateTag(_, _), TagAnswer(t, _)) => TagAnswer(t, true)
    case (CreateNote(_, _, _, _, _, _, _, _), NoteAnswer(n, r, _)) => NoteAnswer(n, r, true)
    case (UpdateNote(_, _, _, _), NoteAnswer(n, r, _)) => NoteAnswer(n, r, true)
    case (UpdateSettings(_, _, _, _), SettingsAnswer(s, _)) => SettingsAnswer(s, true)
    case _ => Refused
  }

  function Serve(derive: Derive, a: Account, q: Request): (Account, Answer) {
    if q.key in a.replies then (a, Replay(a.replies[q.key], q)) else Commit(derive, a, q)
  }

  /** One request over the network: the account after it, and the answer if one arrived. */
  function Exchange(derive: Derive, a: Account, f: Fault, q: Request): (Account, Option<Answer>) {
    match f
    case Delivered => var (b, answer) := Serve(derive, a, q); (b, Some(answer))
    case LostRequest => (a, None)
    case LostReply => (Serve(derive, a, q).0, None)
  }

  /** A schedule that has run out delivers. */
  function NextFault(faults: seq<Fault>): Fault {
    if faults == [] then Delivered else faults[0]
  }

  function LaterFaults(faults: seq<Fault>): seq<Fault> {
    if faults == [] then [] else faults[1..]
  }

  predicate AllDelivered(faults: seq<Fault>) {
    forall f | f in faults :: f == Delivered
  }

  /** What every service state satisfies: note ids are distinct and already issued, and every
      recorded key is in the log exactly once. */
  ghost predicate Consistent(a: Account) {
    && (forall i | 0 <= i < |a.notes| :: a.notes[i].id < a.nextId)
    && (forall i, j | 0 <= i < j < |a.notes| :: a.notes[i].id != a.notes[j].id)
    && (forall k :: k in a.replies <==> k in a.log)
    && (forall i, j | 0 <= i < j < |a.log| :: a.log[i] != a.log[j])
  }

  lemma ServeKeepsConsistent(derive: Derive, a: Account, q: Request)
    requires Consistent(a)
    ensures Consistent(Serve(derive, a, q).0)
  {
    if q.key !in a.replies {
      var b := Commit(derive, a, q).0;
      if b != a {
        assert b.log == a.log + [q.key];
        assert b.log[|a.log|] == q.key;
        forall k ensures k in b.replies <==> k in b.log {
        }
      }
    }
  }

  /** Answers that differ at most in having been replayed. */
  predicate SameAnswer(one: Answer, other: Answer) {
    match (one, other)
    case (SpaceAnswer(s, _), SpaceAnswer(t, _)) => s == t
    case (TagAnswer(s, _), TagAnswer(t, _)) => s == t
    case (NoteAnswer(n, r, _), NoteAnswer(o, u, _)) => n == o && r == u
    case (SettingsAnswer(s, _), SettingsAnswer(t, _)) => s == t
    case (Refused, Refused) => true
    case _ => false
  }

  predicate Replayed(answer: Answer) {
    !answer.Refused? && answer.replayed
  }

  function ServeAll(derive: Derive, a: Account, qs: seq<Request>): Account
    decreases qs
  {
    if qs == [] then a else ServeAll(derive, Serve(derive, a, qs[0]).0, qs[1..])
  }

  /** A recorded answer stays as it is, whatever is served. */
  lemma {:induction false} RecordStays(derive: Derive, a: Account, qs: seq<Request>, key: string)
    requires key in a.replies
    ensures key in ServeAll(derive, a, qs).replies && ServeAll(derive, a, qs).replies[key] == a.replies[key]
    decreases qs
  {
    if qs != [] {
      RecordStays(derive, Serve(derive, a, qs[0]).0, qs[1..], key);
    }
  }

  /** A retry, whatever was served in between, changes nothing and returns the original result. */
  lemma ServeTwice(derive: Derive, a: Account, q: Request, between: seq<Request>)
    requires !Serve(derive, a, q).1.Refused?
    ensures var (b, answer) := Serve(derive, a, q);
            var c := ServeAll(derive, b, between);
            && Serve(derive, c, q).0 == c
            && Replayed(Serve(derive, c, q).1) && SameAnswer(answer, Serve(derive, c, q).1)
  {
    var (b, answer) := Serve(derive, a, q);
    assert q.key in b.replies && SameAnswer(answer, b.replies[q.key]);
    RecordStays(derive, b, between, q.key);
  }

  /** The service and the network before it. */
  class Server {
    const derive: Derive
    var account: Account
    var faults: seq<Fault>

    constructor (derive: Derive, account: Account, faults: seq<Fault>)
      ensures this.derive == derive && this.account == account && this.faults == faults
    {
      this.derive := derive;
      this.account := account;
      this.faults := faults;
    }

    method Send(q: Request) returns (answer: Option<Answer>)
      modifies this
      ensures (account, answer) == Exchange(derive, old(account), NextFault(old(faults)), q)
      ensures faults == LaterFaults(old(faults))
    {
      var fault := NextFault(faults);
      faults := LaterFaults(faults);
      if fault == LostRequest {
        return None;
      }
      var served := Serve(derive, account, q);
      account := served.0;
      answer := if fault == LostReply then None else Some(served.1);
    }

    method GetNote(id: nat) returns (note: Option<Note>)
      ensures note.Some? <==> NoteIndex(account.notes, id).Some?
      ensures note.Some? ==> note.value == account.notes[NoteIndex(account.notes, id).value]
    {
      var at := NoteIndex(account.notes, id);
      note := if at.Some? then Some(account.notes[at.value]) else None;
    }
  }
}
