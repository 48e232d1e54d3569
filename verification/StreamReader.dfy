/**
  The abortable read of a provider response: one promise per read, raced by the abort listener, and
  the loop that assembles a bounded body from the parts.
 */
module StreamReader {
  import opened Bytes
  import opened Wrappers

  const MAX_RESPONSE_BYTES := 262144

  /** How the promise of the current read settled. */
  datatype Settlement = Part(chunk: nat) | Ended | Rejected

  /** What came of the whole read: the bytes given to the parser, or an error. */
  datatype Phase = Reading | Parsed(body: seq<byte>) | Failed

  /**
    `heap` is the present content of every chunk delivered so far and `original` its content on
    arrival; the first `held` of them are in the loop's list. `pending` says that the transport still
    owes an answer.
   */
  datatype State = State(
    phase: Phase,
    aborted: bool,
    listening: bool,
    pending: bool,
    settlement: Option<Settlement>,
    heap: seq<seq<byte>>,
    original: seq<seq<byte>>,
    held: nat,
    total: nat)

  /** The transport answers, the signal aborts, or the loop resumes on a settled promise. */
  datatype Event = Deliver(chunk: seq<byte>) | End | Fail | Abort | Resume

  predicate Enabled(s: State, e: Event) {
    match e
    case Deliver(_) => s.pending
    case End => s.pending
    case Fail => s.pending
    case Abort => !s.aborted
    case Resume => s.phase.Reading? && s.settlement.Some?
  }

  /** A read refuses at once under an aborted signal; else it listens and waits. */
  function Call(s: State): State {
    if s.aborted then s.(settlement := Some(Rejected), listening := false, pending := false)
    else s.(settlement := None, listening := true, pending := true)
  }

  function Start(aborted: bool): State {
    Call(State(Reading, aborted, false, false, None, [], [], 0, 0))
  }

  /** The first to settle the promise wins and stops the listener. */
  function Settle(s: State, how: Settlement): State {
    if s.settlement.Some? then s else s.(settlement := Some(how), listening := false)
  }

  /** The first `n` chunks overwritten. */
  function Wipe(heap: seq<seq<byte>>, n: nat): (r: seq<seq<byte>>)
    requires n <= |heap|
    ensures |r| == |heap|
    ensures forall i | 0 <= i < n :: r[i] == Zeros(|heap[i]|)
    ensures forall i | n <= i < |heap| :: r[i] == heap[i]
  {
    seq(|heap|, i requires 0 <= i < |heap| => if i < n then Zeros(|heap[i]|) else heap[i])
  }

  function OnDeliver(s: State, chunk: seq<byte>): State {
    var arrived := s.(pending := false, original := s.original + [chunk]);
    if s.settlement.Some? then arrived.(heap := s.heap + [Zeros(|chunk|)])
    else Settle(arrived.(heap := s.heap + [chunk]), Part(|s.heap|))
  }

  function OnResume(s: State): State
    requires s.settlement.Some? && s.held <= |s.heap|
    requires s.settlement.value.Part? ==> s.settlement.value.chunk == s.held < |s.heap|
  {
    match s.settlement.value
    case Part(chunk) =>
      var total := s.total + |s.heap[chunk]|;
      if total > MAX_RESPONSE_BYTES then s.(phase := Failed, heap := Wipe(s.heap, s.held + 1), total := total)
      else Call(s.(held := s.held + 1, total := total))
    case Ended =>
      if s.aborted then s.(phase := Failed, heap := Wipe(s.heap, s.held))
      else s.(phase := Parsed(Concat(s.heap[..s.held])), heap := Wipe(s.heap, s.held))
    case Rejected => s.(phase := Failed, heap := Wipe(s.heap, s.held))
  }

  /** What holds between events, whatever happened. */
  predicate Inv(s: State) {
    && |s.heap| == |s.original| && s.held <= |s.heap|
    && (forall i | 0 <= i < |s.heap| :: |s.heap[i]| == |s.original[i]|)
    && (s.listening <==> s.phase.Reading? && s.settlement.None?)
    && (s.settlement.None? ==> s.phase.Reading? && s.pending && !s.aborted && s.held == |s.heap|)
    && (s.settlement.Some? && s.pending ==> s.settlement.value.Rejected? && s.held == |s.heap|)
    && (s.phase.Reading? ==> HoldsIntact(s))
    && (!s.phase.Reading? ==> forall i | 0 <= i < |s.heap| :: Zeroed(s.heap[i]))
    && (s.phase.Parsed? ==>
          !s.pending && s.settlement == Some(Ended)
              && s.phase.body == Concat(s.original) && |s.phase.body| <= MAX_RESPONSE_BYTES)
  }

  /** While reading, the listed chunks are intact, a part waits behind them, and the rest is overwritten. */
  predicate HoldsIntact(s: State)
    requires |s.heap| == |s.original| && s.held <= |s.heap|
  {
    && s.heap[..s.held] == s.original[..s.held]
    && s.total == Total(s.original[..s.held]) <= MAX_RESPONSE_BYTES
    && (if s.settlement.Some? && s.settlement.value.Part? then
          && s.settlement.value.chunk == s.held == |s.heap| - 1
          && s.heap[s.held] == s.original[s.held]
        else
          && (s.settlement == Some(Ended) ==> s.held == |s.heap|)
          && forall i | s.held <= i < |s.heap| :: Zeroed(s.heap[i]))
  }

  function Step(s: State, e: Event): State
    requires Inv(s) && Enabled(s, e)
  {
    match e
    case Deliver(chunk) => OnDeliver(s, chunk)
    case End => Settle(s, Ended).(pending := false)
    case Fail => Settle(s, Rejected).(pending := false)
    case Abort => (if s.listening then Settle(s, Rejected) else s).(aborted := true)
    case Resume => OnResume(s)
  }

  lemma StartKeepsInv(aborted: bool)
    ensures Inv(Start(aborted))
  {
  }

  lemma StepKeepsInv(s: State, e: Event)
    requires Inv(s) && Enabled(s, e)
    ensures Inv(Step(s, e))
  {
    hide Concat, Total;
    match e
    case Resume =>
      ResumeKeepsInv(s);
    case Deliver(chunk) =>
      assert (s.heap + [chunk])[..s.held] == s.heap[..s.held];
      assert (s.heap + [Zeros(|chunk|)])[..s.held] == s.heap[..s.held];
      assert (s.original + [chunk])[..s.held] == s.original[..s.held];
    case _ =>
  }

  lemma ResumeKeepsInv(s: State)
    requires Inv(s) && Enabled(s, Resume)
    ensures Inv(OnResume(s))
  {
    hide Concat, Total;
    match s.settlement.value
    case Part(chunk) =>
      assert s.original[..s.held + 1] == s.original[..s.held] + [s.original[s.held]];
      assert s.heap[..s.held + 1] == s.heap[..s.held] + [s.heap[s.held]];
      ConcatLast(s.original[..s.held], s.original[s.held]);
    case Ended =>
      assert s.heap[..s.held] == s.original;
      assert s.original[..s.held] == s.original;
    case Rejected =>
  }

  /** The part of the invariant that the handlers rely on. */
  lemma InvOutline(s: State)
    requires Inv(s)
    ensures s.held <= |s.heap| == |s.original|
    ensures s.listening <==> s.phase.Reading? && s.settlement.None?
    ensures s.settlement.None? ==> s.phase.Reading? && s.held == |s.heap|
    ensures s.phase.Reading? && s.settlement.Some? && s.settlement.value.Part? ==>
              s.settlement.value.chunk == s.held == |s.heap| - 1
    ensures s.phase.Reading? ==> s.total == Total(s.heap[..s.held])
  {
    hide Total, Concat;
  }

  // ----- runs -----

  ghost predicate Runs(s: State, es: seq<Event>, t: State)
    decreases es
  {
    if es == [] then s == t else Inv(s) && Enabled(s, es[0]) && Runs(Step(s, es[0]), es[1..], t)
  }

  lemma {:induction false} RunsKeepInv(s: State, es: seq<Event>, t: State)
    requires Inv(s) && Runs(s, es, t)
    ensures Inv(t)
    decreases es
  {
    if es != [] {
      StepKeepsInv(s, es[0]);
      RunsKeepInv(Step(s, es[0]), es[1..], t);
    }
  }

  /** What an event does to a promise that is still open. */
  function OutcomeOf(s: State, e: Event): Settlement {
    match e
    case Deliver(_) => Part(|s.heap|)
    case End => Ended
    case Fail => Rejected
    case Abort => Rejected
    case Resume => Rejected
  }

  /** Until the loop resumes, a settled promise keeps its outcome and no listener comes back. */
  lemma {:induction false} SettledStays(s: State, es: seq<Event>, t: State)
    requires Inv(s) && s.settlement.Some? && Resume !in es && Runs(s, es, t)
    ensures t.settlement == s.settlement && !t.listening && t.phase == s.phase && t.held == s.held && t.total == s.total
    decreases es
  {
    if es != [] {
      StepKeepsInv(s, es[0]);
      SettledStays(Step(s, es[0]), es[1..], t);
    }
  }

  /** The first event decides an open promise, once and for all, and unregisters the listener. */
  lemma FirstEventDecides(s: State, es: seq<Event>, t: State)
    requires Inv(s) && s.settlement.None? && es != [] && Resume !in es && Runs(s, es, t)
    ensures t.settlement == Some(OutcomeOf(s, es[0])) && !t.listening
  {
    StepKeepsInv(s, es[0]);
    SettledStays(Step(s, es[0]), es[1..], t);
  }

  /** However a run goes, once the read is over every chunk ever delivered is overwritten. */
  lemma EverythingOverwritten(aborted: bool, es: seq<Event>, t: State)
    requires Runs(Start(aborted), es, t) && !t.phase.Reading?
    ensures forall i | 0 <= i < |t.heap| :: Zeroed(t.heap[i])
  {
    StartKeepsInv(aborted);
    RunsKeepInv(Start(aborted), es, t);
  }

  /** The parser is reached only by resuming on the end of the stream under a signal not aborted. */
  lemma ParsesOnlyAtTheEnd(s: State, e: Event)
    requires Inv(s) && Enabled(s, e) && s.phase.Reading?
    ensures Step(s, e).phase.Parsed? <==> e == Resume && s.settlement == Some(Ended) && !s.aborted
  {
  }

  /** Event `n` of a run resumes on the end of the stream, before any abort. */
  predicate ParsesAt(s: State, es: seq<Event>, n: nat) {
    n < |es| && es[n] == Resume && (s.settlement == Some(Ended) || End in es[..n]) && !s.aborted && Abort !in es[..n]
  }

  lemma {:induction false} ParsedAfterEnd(s: State, es: seq<Event>, t: State) returns (n: nat)
    requires Inv(s) && s.phase.Reading? && Runs(s, es, t) && t.phase.Parsed?
    ensures ParsesAt(s, es, n)
    decreases es
  {
    hide Concat, Total, Inv, OnResume, OnDeliver, HoldsIntact;
    var next := Step(s, es[0]);
    StepKeepsInv(s, es[0]);
    ParsesOnlyAtTheEnd(s, es[0]);
    if next.phase.Reading? {
      var m := ParsedAfterEnd(next, es[1..], t);
      n := m + 1;
      assert es[..n] == [es[0]] + es[1..][..m];
      EndsAndAborts(s, es[0]);
    } else {
      OverIsOver(next, es[1..], t);
      n := 0;
    }
  }

  /** Only the end of the stream settles a promise as ended, and an abort is for good. */
  lemma EndsAndAborts(s: State, e: Event)
    requires Inv(s) && Enabled(s, e) && Step(s, e).phase.Reading?
    ensures Step(s, e).settlement == Some(Ended) ==> s.settlement == Some(Ended) || e == End
    ensures Step(s, e).aborted <==> s.aborted || e == Abort
  {
    hide Concat, Total;
  }

  /** Whatever is parsed is the complete body, within the limit, taken up after the end of the stream and
      before any abort. */
  lemma ParsedIsComplete(aborted: bool, es: seq<Event>, t: State)
    requires Runs(Start(aborted), es, t) && t.phase.Parsed?
    ensures t.phase.body == Concat(t.original) && |t.phase.body| <= 262144
    ensures t.settlement == Some(Ended)
    ensures exists n: nat :: ParsesAt(Start(aborted), es, n) && End in es[..n]
  {
    StartKeepsInv(aborted);
    RunsKeepInv(Start(aborted), es, t);
    var n := ParsedAfterEnd(Start(aborted), es, t);
  }

  /** Nothing reopens a read that is over, and a late chunk does not change its result. */
  lemma {:induction false} OverIsOver(s: State, es: seq<Event>, t: State)
    requires Inv(s) && !s.phase.Reading? && Runs(s, es, t)
    ensures t.phase == s.phase
    decreases es
  {
    if es != [] {
      StepKeepsInv(s, es[0]);
      OverIsOver(Step(s, es[0]), es[1..], t);
    }
  }

  /** A read still under way after an abort fails within two resumptions. */
  lemma AbortFails(s: State)
    requires Inv(s) && s.aborted && s.phase.Reading?
    ensures Enabled(s, Resume)
    ensures Step(s, Resume).phase.Failed? ||
            (&& Inv(Step(s, Resume)) && Enabled(Step(s, Resume), Resume)
             && Step(Step(s, Resume), Resume).phase.Failed?)
  {
    hide Concat, Total;
    StepKeepsInv(s, Resume);
  }

  /** While a read is under way the signal can abort at any point, and then the read fails. */
  lemma AbortEndsTheRead(s: State)
    requires Inv(s) && s.phase.Reading? && !s.aborted
    ensures Enabled(s, Abort)
    ensures var t := Step(s, Abort);
            && t.aborted && t.heap == s.heap && t.original == s.original
            && (s.settlement.None? ==> t.settlement == Some(Rejected))
            && (s.settlement.Some? ==> t.settlement == s.settlement)
            && Inv(t) && Enabled(t, Resume)
            && var u := Step(t, Resume);
            && (s.settlement.None? ==> u.phase.Failed?)
            && (u.phase.Failed? || (Inv(u) && Enabled(u, Resume) && Step(u, Resume).phase.Failed?))
  {
    StepKeepsInv(s, Abort);
    AbortFails(Step(s, Abort));
  }

  /** What resuming comes to: the read is over, with every chunk overwritten, or exactly one more part has been
      taken, within the limit, and nothing else. */
  lemma ResumeEndsOrTakes(s: State)
    requires Inv(s) && Enabled(s, Resume)
    ensures var t := Step(s, Resume);
            && t.original == s.original && t.aborted == s.aborted
            && (match s.settlement.value
                case Rejected => t.phase == Failed
                case Ended => if s.aborted then t.phase == Failed else t.phase == Parsed(Concat(s.original))
                case Part(chunk) =>
                  if s.total + |s.original[s.held]| > 262144 then t.phase == Failed
                  else
                    && t.phase.Reading? && t.held == s.held + 1 == |t.heap| && t.heap == s.heap
                    && t.total == s.total + |s.original[s.held]|
                    && t.settlement == (if s.aborted then Some(Rejected) else None))
            && (!t.phase.Reading? ==>
                  |t.heap| == |t.original| && forall i | 0 <= i < |t.heap| :: t.heap[i] == Zeros(|t.original[i]|))
  {
    hide Concat, Total;
    StepKeepsInv(s, Resume);
    var t := Step(s, Resume);
    assert s.heap[..s.held] == s.original[..s.held];
    if s.settlement == Some(Ended) {
      assert s.original[..s.held] == s.original;
    }
    if !t.phase.Reading? {
      forall i | 0 <= i < |t.heap| ensures t.heap[i] == Zeros(|t.original[i]|) {
        ZeroedIsZeros(t.heap[i]);
      }
    }
  }

  /** A transport that fails while a read waits for it ends the read: whatever comes before the loop resumes,
      resuming fails and every chunk delivered is zeros. */
  lemma FailureEndsTheRead(s: State, es: seq<Event>, t: State)
    requires Inv(s) && s.settlement.None? && Resume !in es
    requires Runs(Step(s, Event.Fail), es, t)
    ensures Inv(t) && Enabled(t, Resume)
    ensures var u := Step(t, Resume);
            u.phase == Failed && |u.heap| == |t.original| && forall i | 0 <= i < |u.heap| :: Zeroed(u.heap[i])
  {
    hide Concat, Total;
    StepKeepsInv(s, Event.Fail);
    RunsKeepInv(Step(s, Event.Fail), es, t);
    SettledStays(Step(s, Event.Fail), es, t);
    ResumeEndsOrTakes(t);
  }

  // ----- a transport that is left alone -----

  /** Delivers each chunk and lets the loop resume on it, then ends the stream. */
  function Undisturbed(chunks: seq<seq<byte>>): seq<Event> {
    if chunks == [] then [End, Resume] else [Deliver(chunks[0]), Resume] + Undisturbed(chunks[1..])
  }

  /** Where an undisturbed read of further chunks leads. */
  function ReadOn(s: State, chunks: seq<seq<byte>>): State
    requires Inv(s) && s.settlement.None?
    decreases chunks
  {
    StepKeepsInv(s, End);
    if chunks == [] then Step(Step(s, End), Resume)
    else
      StepKeepsInv(s, Deliver(chunks[0]));
      var next := Step(Step(s, Deliver(chunks[0])), Resume);
      StepKeepsInv(Step(s, Deliver(chunks[0])), Resume);
      if next.phase.Failed? then next else ReadOn(next, chunks[1..])
  }

  lemma {:induction false} ReadOnMeaning(s: State, chunks: seq<seq<byte>>)
    requires Inv(s) && s.settlement.None?
    ensures ReadOn(s, chunks).phase ==
              if s.total + Total(chunks) <= MAX_RESPONSE_BYTES then Parsed(Concat(s.original + chunks)) else Failed
    decreases chunks
  {
    hide Concat, Total;
    if chunks == [] {
      TotalOfNone();
      assert s.original + chunks == s.original;
      assert s.heap[..s.held] == s.original;
    } else {
      var given := Step(s, Deliver(chunks[0]));
      StepKeepsInv(s, Deliver(chunks[0]));
      StepKeepsInv(given, Resume);
      var next := Step(given, Resume);
      TotalOfSome(chunks);
      if !next.phase.Failed? {
        ReadOnMeaning(next, chunks[1..]);
        assert s.original + chunks == s.original + [chunks[0]] + chunks[1..];
      }
    }
  }

  lemma TotalOfNone()
    ensures Total<byte>([]) == 0
  {
  }

  lemma TotalOfSome(chunks: seq<seq<byte>>)
    requires chunks != []
    ensures Total(chunks) == |chunks[0]| + Total(chunks[1..])
  {
  }

  /** An undisturbed read parses the joined chunks exactly when they fit, however they are cut. */
  lemma ChunkingDoesNotMatter(chunks: seq<seq<byte>>)
    ensures Inv(Start(false))
    ensures ReadOn(Start(false), chunks).phase ==
              if |Concat(chunks)| <= MAX_RESPONSE_BYTES then Parsed(Concat(chunks)) else Failed
  {
    StartKeepsInv(false);
    ReadOnMeaning(Start(false), chunks);
    assert [] + chunks == chunks;
  }

  /** The undisturbed read is a run of the machine: over all its events when the body fits, else up to the
      chunk that exceeds the limit. */
  lemma {:induction false} ReadOnRuns(s: State, chunks: seq<seq<byte>>) returns (n: nat)
    requires Inv(s) && s.settlement.None?
    ensures n <= |Undisturbed(chunks)| && Runs(s, Undisturbed(chunks)[..n], ReadOn(s, chunks))
    ensures s.total + Total(chunks) <= MAX_RESPONSE_BYTES ==> n == |Undisturbed(chunks)|
    decreases chunks
  {
    hide Concat, Total, OnResume, OnDeliver, Settle;
    var es := Undisturbed(chunks);
    if chunks == [] {
      StepKeepsInv(s, End);
      EndEnables(s);
      n := 2;
      assert es[..2] == [End, Resume] && [End, Resume][1..] == [Resume] && [Resume][1..] == [];
    } else {
      TotalOfSome(chunks);
      DeliverEnables(s, chunks[0]);
      var given := Step(s, Deliver(chunks[0]));
      StepKeepsInv(s, Deliver(chunks[0]));
      StepKeepsInv(given, Resume);
      var next := Step(given, Resume);
      var first := [Deliver(chunks[0]), Resume];
      assert first[1..] == [Resume] && [Resume][1..] == [];
      if next.phase.Failed? {
        n := 2;
        assert es[..2] == first;
      } else {
        var m := ReadOnRuns(next, chunks[1..]);
        n := 2 + m;
        assert es[..n] == first + Undisturbed(chunks[1..])[..m];
        assert es[..n][1..] == [Resume] + Undisturbed(chunks[1..])[..m];
        assert es[..n][1..][1..] == Undisturbed(chunks[1..])[..m];
      }
    }
  }

  lemma EndEnables(s: State)
    requires Inv(s) && s.settlement.None?
    ensures Enabled(s, End) && Enabled(Step(s, End), Resume)
  {
  }

  lemma DeliverEnables(s: State, chunk: seq<byte>)
    requires Inv(s) && s.settlement.None?
    ensures Enabled(s, Deliver(chunk))
    ensures var given := Step(s, Deliver(chunk));
            && Inv(given) && Enabled(given, Resume)
            && (s.total + |chunk| > MAX_RESPONSE_BYTES <==> Step(given, Resume).phase.Failed?)
            && (s.total + |chunk| <= MAX_RESPONSE_BYTES ==>
                  && Step(given, Resume).total == s.total + |chunk| && Step(given, Resume).settlement.None?
                  && Step(given, Resume).phase.Reading?)
  {
    hide Concat, Total;
    StepKeepsInv(s, Deliver(chunk));
  }
}
