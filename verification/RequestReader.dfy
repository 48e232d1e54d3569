/**
  The abortable read of a request body as a machine: an abort cancels the reader, and a cancelled reader
  answers a pending read as if the body had ended.
 */
module RequestReader {
  import opened BoundedBody
  import opened Bytes
  import opened Wrappers

  /** How the current read came out, until the loop takes it up. */
  datatype Settlement = Part | Done | Failed

  datatype Phase = Reading | Returned(bytes: seq<byte>) | Refused(code: string)

  /**
    `parts` are those delivered so far, the first `taken` of them in the loop's list; a read is pending
    while `settlement` is none. `cancels` says that the abort listener is registered. The last two
    fields observe: how many parts were taken when the signal aborted, and how the reads ended.
   */
  datatype State = State(
    phase: Phase,
    aborted: bool,
    cancels: bool,
    settlement: Option<Settlement>,
    parts: seq<seq<byte>>,
    taken: nat,
    total: nat,
    abortedFrom: Option<nat>,
    ending: Option<Ending>)

  datatype Event = Deliver(chunk: seq<byte>) | End | Fail | Abort | Resume

  predicate Pending(s: State) {
    s.phase.Reading? && s.settlement.None?
  }

  predicate Enabled(s: State, e: Event) {
    match e
    case Abort => !s.aborted
    case Resume => s.phase.Reading? && s.settlement.Some?
    case _ => Pending(s)
  }

  /** A signal that is aborted beforehand never calls the listener. */
  function Start(aborted: bool): State {
    State(Reading, aborted, !aborted, None, [], 0, 0, if aborted then Some(0) else None, None)
  }

  function OnAbort(s: State): State {
    var t := s.(aborted := true);
    if !s.phase.Reading? then t
    else if s.cancels && Pending(s) then
      t.(abortedFrom := Some(s.taken), settlement := Some(Done), ending := Some(Cut))
    else t.(abortedFrom := Some(s.taken))
  }

  /** The loop takes up a settled read; it looks for the end before it looks at the signal. */
  function OnResume(s: State, maximum: nat): State
    requires s.settlement.Some? && s.taken <= |s.parts|
    requires s.settlement.value.Part? ==> s.taken < |s.parts|
  {
    match s.settlement.value
    case Failed => s.(phase := Refused("validation_failed"))
    case Done => s.(phase := Returned(Concat(s.parts[..s.taken])))
    case Part =>
      if s.aborted then s.(phase := Refused("request_timeout"))
      else
        var total := s.total + |s.parts[s.taken]|;
        if total > maximum then s.(phase := Refused("request_too_large"), total := total)
        else s.(taken := s.taken + 1, total := total, settlement := None)
  }

  function Step(s: State, e: Event, maximum: nat): State
    requires Inv(s, maximum) && Enabled(s, e)
  {
    match e
    case Deliver(chunk) => s.(parts := s.parts + [chunk], settlement := Some(Part))
    case End => s.(settlement := Some(Done), ending := Some(Complete))
    case Fail => s.(settlement := Some(Failed), ending := Some(Broken))
    case Abort => OnAbort(s)
    case Resume => OnResume(s, maximum)
  }

  /** The answer of the request reader to reads that came out as observed. */
  function Answer(s: State, maximum: nat): Phase {
    var ending := if s.ending.None? then Complete else s.ending.value;
    var abortedFrom := if s.abortedFrom.None? then |s.parts| else s.abortedFrom.value;
    match RequestOutcome(None, s.parts, abortedFrom, ending, maximum).1
    case None => Returned(Concat(s.parts))
    case Some(code) => Refused(code)
  }

  /** What holds between events: while reading, all but an untaken part is in the list, and the signal is
      aborted only if nothing more will be taken. A finished read has answered as its reads ask for. */
  predicate Inv(s: State, maximum: nat) {
    && s.taken <= |s.parts| && (s.aborted || s.cancels)
    && (s.ending.Some? <==> s.settlement.Some? && !s.settlement.value.Part?)
    && (s.phase.Reading? ==>
          && s.total == Total(s.parts[..s.taken]) <= maximum
          && |s.parts| == s.taken + (if s.settlement == Some(Part) then 1 else 0)
          && s.abortedFrom == (if s.aborted then Some(s.taken) else None)
          && (s.settlement.None? && s.aborted ==> !s.cancels && s.taken == 0)
          && (s.ending.Some? ==> (s.settlement == Some(Failed) <==> s.ending == Some(Broken))))
    && (!s.phase.Reading? ==> s.settlement.Some? && s.phase == Answer(s, maximum))
    && (s.phase.Returned? ==>
          s.settlement == Some(Done) && s.phase.bytes == Concat(s.parts) && |s.phase.bytes| <= maximum)
  }

  lemma StartKeepsInv(aborted: bool, maximum: nat)
    ensures Inv(Start(aborted), maximum)
  {
    assert Total<byte>([]) == 0;
  }

  lemma StepKeepsInv(s: State, e: Event, maximum: nat)
    requires Inv(s, maximum) && Enabled(s, e)
    ensures Inv(Step(s, e, maximum), maximum)
  {
    hide Concat, Total, RequestOutcome;
    match e
    case Resume =>
      if !OnResume(s, maximum).phase.Reading? {
        ResumeAnswers(s, maximum);
      }
      if s.settlement == Some(Part) {
        assert s.parts[..s.taken + 1] == s.parts[..s.taken] + [s.parts[s.taken]];
        ConcatLast(s.parts[..s.taken], s.parts[s.taken]);
      } else {
        assert s.parts[..s.taken] == s.parts;
      }
    case Deliver(chunk) =>
      assert (s.parts + [chunk])[..s.taken] == s.parts[..s.taken];
    case _ =>
  }

  /** The loop stops where the request reader is specified to stop. */
  lemma ResumeAnswers(s: State, maximum: nat)
    requires Inv(s, maximum) && Enabled(s, Resume) && !OnResume(s, maximum).phase.Reading?
    ensures OnResume(s, maximum).phase == Answer(OnResume(s, maximum), maximum)
  {
    hide Concat, Total, Accepted;
    if s.settlement == Some(Part) && !s.aborted {
      AcceptedFits(s.parts, s.taken, maximum);
    } else if s.settlement == Some(Part) {
      AcceptedAtLeast(s.parts, s.taken, maximum);
    } else {
      assert s.parts[..s.taken] == s.parts;
      AcceptedFits(s.parts, s.taken, maximum);
    }
  }

  // ----- runs -----

  ghost predicate Runs(s: State, es: seq<Event>, t: State, maximum: nat)
    decreases es
  {
    if es == [] then s == t
    else Inv(s, maximum) && Enabled(s, es[0]) && Runs(Step(s, es[0], maximum), es[1..], t, maximum)
  }

  lemma {:induction false} RunsKeepInv(s: State, es: seq<Event>, t: State, maximum: nat)
    requires Inv(s, maximum) && Runs(s, es, t, maximum)
    ensures Inv(t, maximum)
    decreases es
  {
    if es != [] {
      StepKeepsInv(s, es[0], maximum);
      RunsKeepInv(Step(s, es[0], maximum), es[1..], t, maximum);
    }
  }

  /** However events interleave, a finished read has answered as the request reader does on the reads. */
  lemma EveryRunAnswers(aborted: bool, es: seq<Event>, t: State, maximum: nat)
    requires Runs(Start(aborted), es, t, maximum) && !t.phase.Reading?
    ensures t.phase == Answer(t, maximum)
  {
    StartKeepsInv(aborted, maximum);
    RunsKeepInv(Start(aborted), es, t, maximum);
  }

  /** Some event of a run aborts while a read is pending, under a registered listener. */
  ghost predicate Cuts(s: State, es: seq<Event>, maximum: nat)
    decreases es
  {
    && es != [] && Inv(s, maximum) && Enabled(s, es[0])
    && ((es[0] == Abort && Pending(s) && s.cancels) || Cuts(Step(s, es[0], maximum), es[1..], maximum))
  }

  lemma {:induction false} EndedStays(s: State, es: seq<Event>, t: State, maximum: nat)
    requires Inv(s, maximum) && Runs(s, es, t, maximum) && s.ending.Some?
    ensures t.ending == s.ending && End !in es && !Cuts(s, es, maximum)
    decreases es
  {
    hide Inv;
    if es != [] {
      var next := Step(s, es[0], maximum);
      StepKeepsInv(s, es[0], maximum);
      EndingKept(s, es[0], maximum);
      EndedStays(next, es[1..], t, maximum);
    }
  }

  /** How an event ends reads that were still going on. */
  function EndingBy(s: State, e: Event): Option<Ending> {
    match e
    case End => Some(Complete)
    case Fail => Some(Broken)
    case Abort => if Pending(s) && s.cancels then Some(Cut) else None
    case _ => None
  }

  lemma EndingKept(s: State, e: Event, maximum: nat)
    requires Inv(s, maximum) && Enabled(s, e)
    ensures s.ending.Some? ==> Step(s, e, maximum).ending == s.ending && e != End && !Pending(s)
    ensures s.ending.None? ==> Step(s, e, maximum).ending == EndingBy(s, e)
  {
    hide Concat, Total, RequestOutcome;
  }

  /** The reads ended with the body exactly where the transport said so, and were cut off exactly where an
      abort came while a read was pending; never both. */
  lemma {:induction false} EndingsExplained(s: State, es: seq<Event>, t: State, maximum: nat)
    requires Inv(s, maximum) && Runs(s, es, t, maximum) && s.ending.None?
    ensures t.ending == Some(Complete) <==> End in es
    ensures t.ending == Some(Cut) <==> Cuts(s, es, maximum)
    decreases es
  {
    hide Inv, Step;
    if es != [] {
      var next := Step(s, es[0], maximum);
      StepKeepsInv(s, es[0], maximum);
      EndingKept(s, es[0], maximum);
      assert es == [es[0]] + es[1..];
      if next.ending.Some? {
        EndedStays(next, es[1..], t, maximum);
      } else {
        EndingsExplained(next, es[1..], t, maximum);
      }
    }
  }

  /**
    What a returned body is worth: it is within the limit and all that was delivered; it is the whole body
    exactly when no abort came while a read was pending, and then the transport had ended it.
   */
  lemma ReturnedBody(aborted: bool, es: seq<Event>, t: State, maximum: nat)
    requires Runs(Start(aborted), es, t, maximum) && t.phase.Returned?
    ensures t.phase.bytes == Concat(t.parts) && |t.phase.bytes| <= maximum
    ensures End in es <==> !Cuts(Start(aborted), es, maximum)
  {
    hide Concat, Total, RequestOutcome;
    StartKeepsInv(aborted, maximum);
    RunsKeepInv(Start(aborted), es, t, maximum);
    EndingsExplained(Start(aborted), es, t, maximum);
    ReturnedEnding(t, maximum);
  }

  lemma ReturnedEnding(t: State, maximum: nat)
    requires Inv(t, maximum) && t.phase.Returned?
    ensures t.ending == Some(Complete) || t.ending == Some(Cut)
  {
    hide Concat, Total, StopOf;
  }

  /** What taking up a settled read comes to: the read is over, or exactly one more part has been taken within
      the limit and the next one is pending. */
  lemma ResumeEndsOrTakes(s: State, maximum: nat)
    requires Inv(s, maximum) && Enabled(s, Resume)
    ensures var t := Step(s, Resume, maximum);
            && t.parts == s.parts && t.aborted == s.aborted
            && match s.settlement.value
               case Failed => t.phase == Refused("validation_failed")
               case Done => t.phase == Returned(Concat(s.parts))
               case Part =>
                 if s.aborted then t.phase == Refused("request_timeout")
                 else if s.total + |s.parts[s.taken]| > maximum then t.phase == Refused("request_too_large")
                 else Pending(t) && t.taken == s.taken + 1 == |t.parts| && t.total == Total(t.parts)
  {
    hide Concat, Total, Answer;
    StepKeepsInv(s, Resume, maximum);
    var t := Step(s, Resume, maximum);
    assert s.parts[..|s.parts|] == s.parts;
    assert t.parts[..|t.parts|] == t.parts;
  }

  /** An abort while a read is pending leaves the loop one way: it returns what it had, as a body. */
  lemma CutBodyIsReturned(s: State, maximum: nat)
    requires Inv(s, maximum) && Pending(s) && s.cancels && !s.aborted
    ensures var t := Step(s, Abort, maximum);
            && Inv(t, maximum) && Enabled(t, Resume) && (forall e | Enabled(t, e) :: e == Resume)
            && Step(t, Resume, maximum).phase == Returned(Concat(s.parts))
  {
    hide Concat, Total, RequestOutcome;
    StepKeepsInv(s, Abort, maximum);
    assert s.parts[..s.taken] == s.parts;
  }

  /** An abort while a part waits to be taken up refuses the body. */
  lemma LateAbortRefuses(s: State, maximum: nat)
    requires Inv(s, maximum) && s.phase.Reading? && s.settlement == Some(Part) && !s.aborted
    ensures var t := Step(s, Abort, maximum);
            && Inv(t, maximum) && (forall e | Enabled(t, e) :: e == Resume)
            && Step(t, Resume, maximum).phase == Refused("request_timeout")
  {
    hide Concat, Total, RequestOutcome;
    StepKeepsInv(s, Abort, maximum);
  }
}
