/** The reviews the drain forces: their alternatives, their reason codes, and why each is given. */
module ForcedReviews {
  import opened EvidenceGate
  import opened Organizer
  import opened Payloads
  import opened SealCoherence
  import opened SealContents
  import opened Sealing
  import opened Wrappers

  // ----- lists without repetition -----

  /** The first occurrences, in order. */
  function Firsts(s: seq<string>): (r: seq<string>)
    ensures |r| <= |s|
  {
    if s == [] then []
    else
      var rest, last := Firsts(s[..|s| - 1]), s[|s| - 1];
      if last in s[..|s| - 1] then rest else rest + [last]
  }

  function Only(s: seq<string>, allowed: set<string>): (r: seq<string>)
    ensures |r| <= |s|
  {
    if s == [] then []
    else Only(s[..|s| - 1], allowed) + if s[|s| - 1] in allowed then [s[|s| - 1]] else []
  }

  function Except(s: seq<string>, code: string): (r: seq<string>)
    ensures |r| <= |s|
  {
    if s == [] then [] else Except(s[..|s| - 1], code) + if s[|s| - 1] == code then [] else [s[|s| - 1]]
  }

  function Take(s: seq<string>, n: nat): (r: seq<string>)
    ensures |r| <= n && r <= s
  {
    if |s| <= n then s else s[..n]
  }

  function Members(s: seq<string>): set<string> {
    set x | x in s
  }

  lemma {:induction false} FirstsMeaning(s: seq<string>)
    ensures NoRepeats(Firsts(s)) && forall x :: x in Firsts(s) <==> x in s
  {
    if s != [] {
      var front, last := s[..|s| - 1], s[|s| - 1];
      FirstsMeaning(front);
      assert s == front + [last];
    }
  }

  /** What comes first stays first. */
  lemma {:induction false} FirstsPrefix(head: seq<string>, tail: seq<string>)
    requires NoRepeats(head)
    ensures head <= Firsts(head + tail)
  {
    if tail == [] {
      assert head + tail == head;
      FirstsFixed(head);
    } else {
      var front := tail[..|tail| - 1];
      FirstsPrefix(head, front);
      assert (head + tail)[..|head + tail| - 1] == head + front;
    }
  }

  lemma {:induction false} FirstsFixed(s: seq<string>)
    requires NoRepeats(s)
    ensures Firsts(s) == s
  {
    if s != [] {
      var front := s[..|s| - 1];
      assert forall i | 0 <= i < |front| :: front[i] == s[i];
      FirstsFixed(front);
      assert s == front + [s[|s| - 1]];
    }
  }

  lemma {:induction false} OnlyMeaning(s: seq<string>, allowed: set<string>)
    ensures forall x :: x in Only(s, allowed) <==> x in s && x in allowed
    ensures NoRepeats(s) ==> NoRepeats(Only(s, allowed))
  {
    if s != [] {
      var front, last := s[..|s| - 1], s[|s| - 1];
      OnlyMeaning(front, allowed);
      assert s == front + [last];
      if NoRepeats(s) {
        assert forall i | 0 <= i < |front| :: front[i] == s[i];
        assert last !in front;
      }
    }
  }

  lemma {:induction false} ExceptMeaning(s: seq<string>, code: string)
    ensures forall x :: x in Except(s, code) <==> x in s && x != code
  {
    if s != [] {
      ExceptMeaning(s[..|s| - 1], code);
      assert s == s[..|s| - 1] + [s[|s| - 1]];
    }
  }

  lemma {:induction false} SizeOfMembers(s: seq<string>)
    requires NoRepeats(s)
    ensures |Members(s)| == |s|
  {
    if s == [] {
      assert Members(s) == {};
    } else {
      var front, last := s[..|s| - 1], s[|s| - 1];
      assert forall i | 0 <= i < |front| :: front[i] == s[i];
      SizeOfMembers(front);
      assert s == front + [last];
      assert Members(s) == Members(front) + {last} && last !in Members(front);
    }
  }

  // ----- reason codes -----

  const AMBIGUOUS := "ambiguous_intent"
  const DUPLICATE := "duplicate_suspected"
  const RULE_MATCHED := "routing_rule_match"

  function Leading(planReasons: seq<string>): seq<string> {
    (if DUPLICATE in planReasons then [DUPLICATE] else []) + [AMBIGUOUS]
  }

  function ReasonCodes(source: Option<ValidatedPlan>, ruleMatched: bool): seq<string> {
    var planReasons := Except(if source.None? then [] else source.value.reasonCodes, AMBIGUOUS);
    var rest := (if ruleMatched then [RULE_MATCHED] else []) + planReasons;
    Take(Firsts(Leading(planReasons) + rest), MAX_REASON_CODES)
  }

  /**
    The codes of a forced review: at most five, all different, each allowed if the plan's own were;
    ambiguity is always among them, and a suspected duplicate leads.
   */
  lemma ReasonCodesMeaning(source: Option<ValidatedPlan>, ruleMatched: bool)
    ensures var codes := ReasonCodes(source, ruleMatched);
            && |codes| <= MAX_REASON_CODES && NoRepeats(codes)
            && AMBIGUOUS in codes
            && (DUPLICATE in codes <==> source.Some? && DUPLICATE in source.value.reasonCodes)
            && (DUPLICATE in codes ==> codes[..2] == [DUPLICATE, AMBIGUOUS])
            && (DUPLICATE !in codes ==> codes[0] == AMBIGUOUS)
            && forall i | 0 <= i < |codes| ::
                 codes[i] == AMBIGUOUS || (ruleMatched && codes[i] == RULE_MATCHED)
                 || (source.Some? && codes[i] in source.value.reasonCodes)
  {
    hide Firsts, Except, NoRepeats, Leading;
    var own := if source.None? then [] else source.value.reasonCodes;
    var planReasons := Except(own, AMBIGUOUS);
    var rest := (if ruleMatched then [RULE_MATCHED] else []) + planReasons;
    var lead, codes := Leading(planReasons), ReasonCodes(source, ruleMatched);
    var all := lead + rest;
    ExceptMeaning(own, AMBIGUOUS);
    FirstsMeaning(all);
    CodesDiffer();
    LeadingDiffers(planReasons);
    FirstsPrefix(lead, rest);
    TakePrefix(Firsts(all), lead, MAX_REASON_CODES);
    forall i | 0 <= i < |codes| ensures codes[i] in lead || codes[i] in rest {
      assert codes[i] == Firsts(all)[i];
      assert codes[i] in Firsts(all);
    }
    assert codes[..|lead|] == lead;
    LeadsWith(codes, lead, rest, planReasons);
  }

  /** What the first codes are. */
  lemma LeadsWith(codes: seq<string>, lead: seq<string>, rest: seq<string>, planReasons: seq<string>)
    requires lead == Leading(planReasons) <= codes
    requires forall i | 0 <= i < |codes| :: codes[i] in lead || codes[i] in rest
    requires forall x | x in rest :: x == RULE_MATCHED || x in planReasons
    ensures AMBIGUOUS in codes && (DUPLICATE in codes <==> DUPLICATE in planReasons)
    ensures if DUPLICATE in codes then codes[..2] == [DUPLICATE, AMBIGUOUS] else codes[0] == AMBIGUOUS
  {
    CodesDiffer();
    assert codes[|lead| - 1] == lead[|lead| - 1] == AMBIGUOUS;
    if DUPLICATE in planReasons {
      assert codes[0] == lead[0] == DUPLICATE;
      assert codes[..2] == lead;
    }
  }

  lemma CodesDiffer()
    ensures AMBIGUOUS != DUPLICATE && RULE_MATCHED != DUPLICATE && RULE_MATCHED != AMBIGUOUS
    ensures AMBIGUOUS in ALLOWED_CODES && RULE_MATCHED in ALLOWED_CODES
  {
    assert AMBIGUOUS[0] == 'a' && DUPLICATE[0] == 'd' && RULE_MATCHED[0] == 'r';
  }

  lemma LeadingDiffers(planReasons: seq<string>)
    ensures NoRepeats(Leading(planReasons)) && 1 <= |Leading(planReasons)| <= 2
    ensures forall x | x in Leading(planReasons) :: x == AMBIGUOUS || (x == DUPLICATE && x in planReasons)
  {
    CodesDiffer();
  }

  lemma TakePrefix(s: seq<string>, head: seq<string>, n: nat)
    requires head <= s && |head| <= n && NoRepeats(s)
    ensures head <= Take(s, n) && NoRepeats(Take(s, n))
  {
  }

  // ----- alternatives -----

  /** The notes a plan may be confusing: its destination and its alternatives. */
  function Suspects(plan: ValidatedPlan): seq<string> {
    (if plan.destination.None? then [] else [plan.destination.value]) + plan.alternatives
  }

  function OfferedIds(candidates: seq<Candidate>): set<string> {
    set i | 0 <= i < |candidates| :: candidates[i].encrypted.candidateId
  }

  function Alternatives(source: Option<ValidatedPlan>, offered: set<string>): seq<string> {
    Take(Only(Firsts(if source.None? then [] else Suspects(source.value)), offered), MAX_ALTERNATIVES)
  }

  /** At most two different notes, all of them still offered; two exactly if two of the suspects are. */
  lemma AlternativesMeaning(source: Option<ValidatedPlan>, offered: set<string>)
    ensures var suspects := if source.None? then [] else Suspects(source.value);
            var kept := Alternatives(source, offered);
            && |kept| <= MAX_ALTERNATIVES && NoRepeats(kept)
            && (forall x | x in kept :: x in suspects && x in offered)
            && (|kept| == 2 <==> |Members(suspects) * offered| >= 2)
  {
    hide Firsts, Only;
    var suspects := if source.None? then [] else Suspects(source.value);
    FirstsMeaning(suspects);
    OnlyMeaning(Firsts(suspects), offered);
    var all := Only(Firsts(suspects), offered);
    SizeOfMembers(all);
    assert Members(all) == Members(suspects) * offered;
    var kept := Alternatives(source, offered);
    forall x | x in kept ensures x in all {
      var i :| 0 <= i < |kept| && kept[i] == x;
      assert all[i] == x;
    }
  }

  /** The plan of a forced review. */
  function ForcedPlan(source: Option<ValidatedPlan>, offered: set<string>, ruleMatched: bool): ValidatedPlan {
    ValidatedPlan(None, Alternatives(source, offered), [], ReasonCodes(source, ruleMatched))
  }

  /** It is within the limits of the plan schema, however long the plan it comes from. */
  lemma ForcedPlanAccepted(source: Option<ValidatedPlan>, offered: set<string>, ruleMatched: bool)
    requires source.Some? ==> forall i | 0 <= i < |source.value.reasonCodes| ::
               source.value.reasonCodes[i] in ALLOWED_CODES
    ensures PlanAccepted(ForcedPlan(source, offered, ruleMatched))
  {
    hide ReasonCodes, Alternatives;
    ReasonCodesMeaning(source, ruleMatched);
    AlternativesMeaning(source, offered);
    CodesDiffer();
    var codes := ReasonCodes(source, ruleMatched);
    forall i | 0 <= i < |codes| ensures codes[i] in ALLOWED_CODES {
      if source.Some? && codes[i] in source.value.reasonCodes {
        var k :| 0 <= k < |source.value.reasonCodes| && source.value.reasonCodes[k] == codes[i];
      }
    }
  }

  // ----- reasons -----

  /** Why the drain forces a review. */
  datatype Cause =
    | DestinationGone
    | NoRulePlan
    | PlannerRefused
    | PlannerSpent
    | PlanRejected
    | Suspected(plan: ValidatedPlan)
    | Inbox
    | NotAutomatic
    | Conflicted(conflict: ConflictReason)

  function ReasonForConflict(conflict: ConflictReason, controls: Controls): Reason {
    if conflict.RevisionReason? then RevisionConflict
    else if conflict.CandidateEligibility? && controls.explicitDestination.Some? then ExplicitDestinationUnavailable
    else PlannerAmbiguity
  }

  function ForcedReason(cause: Cause, controls: Controls): Reason {
    match cause
    case DestinationGone => ExplicitDestinationUnavailable
    case PlannerSpent => RevisionConflict
    case Suspected(plan) => if |Members(Suspects(plan))| >= 2 then DuplicateSuggestion else PlannerAmbiguity
    case Conflicted(conflict) => ReasonForConflict(conflict, controls)
    case _ => PlannerAmbiguity
  }

  /** The reason the drain gives sealing for a plan it did not force. */
  function ReasonForPlan(plan: Plan, needsReview: bool): Option<Reason> {
    if plan.Review? && needsReview then Some(PlannerAmbiguity)
    else if HasExpansion(plan) then Some(ExpansionPending)
    else None
  }

  /** What the drain hands to sealing: a plan of its own, or a review it forces for some cause. */
  ghost predicate FromDrain(input: Input, needsReview: bool) {
    || input.reason == ReasonForPlan(input.plan, needsReview)
    || (input.plan.Review? && exists cause, controls :: input.reason == Some(ForcedReason(cause, controls)))
  }

  /** For every reason the drain gives, its check of the sealed command never fails. */
  lemma DrainNeverMisses(input: Input, applied: Option<Applied>, needsReview: bool)
    requires Sealed(input, applied).Ok? && FromDrain(input, needsReview)
    ensures DrainAccepts(Sealed(input, applied).value, input.plan, input.reason)
  {
    hide Sealed, DrainAccepts, ForcedReason;
    SealedIsAccepted(input, applied);
  }

  /** Suspects that are all still offered are enough. */
  lemma SuspectsStillOffered(plan: ValidatedPlan, controls: Controls, offered: set<string>)
    requires forall x | x in Suspects(plan) :: x in offered
    requires ForcedReason(Suspected(plan), controls) == DuplicateSuggestion
    ensures |Members(Suspects(plan)) * offered| >= 2
  {
    assert Members(Suspects(plan)) * offered == Members(Suspects(plan));
  }

  /**
    Once its bindings hold, a forced review is sealed, its evidence allowing: one for a suspected duplicate
    only if two of the suspects are still among the candidates offered now, as they are when all are.
   */
  lemma ForcedReviewSealed(input: Input, applied: Option<Applied>, cause: Cause, source: Option<ValidatedPlan>,
                           ruleMatched: bool)
    requires PreparationBound(input) && input.plan.Review?
    requires input.plan.validated == ForcedPlan(source, OfferedIds(input.candidates), ruleMatched)
    requires input.reason == Some(ForcedReason(cause, input.controls))
    requires source.Some? ==> forall i | 0 <= i < |source.value.reasonCodes| ::
               source.value.reasonCodes[i] in ALLOWED_CODES
    requires cause.Suspected? ==> source == Some(cause.plan)
    ensures Sealed(input, applied).Ok? <==>
              && (input.reason == Some(DuplicateSuggestion) ==>
                    |Members(Suspects(cause.plan)) * OfferedIds(input.candidates)| >= 2)
              && KeysUsable(input.preparation)
              && input.job.ownerId == input.preparation.objectWrap.ownerId
              && input.services.shapesFit && SealCoherence.Undisturbed(input)
    ensures input.reason == Some(DuplicateSuggestion)
            && (forall x | x in Suspects(cause.plan) :: x in OfferedIds(input.candidates)) ==>
              |Members(Suspects(cause.plan)) * OfferedIds(input.candidates)| >= 2
  {
    hide Sealed, PreparationBound, KeysUsable, ReasonCodes, Alternatives, NoRepeats, PlanAccepted,
      SealCoherence.Undisturbed;
    ForcedPlanAccepted(source, OfferedIds(input.candidates), ruleMatched);
    AlternativesMeaning(source, OfferedIds(input.candidates));
    BoundReviewSealed(input, applied);
    if input.reason == Some(DuplicateSuggestion)
       && forall x | x in Suspects(cause.plan) :: x in OfferedIds(input.candidates) {
      SuspectsStillOffered(cause.plan, input.controls, OfferedIds(input.candidates));
    }
  }

  // ----- read off plan and candidates -----

  ghost predicate Suspect(plan: ValidatedPlan, id: string) {
    plan.destination == Some(id) || id in plan.alternatives
  }

  /** What the drain gives as reason, cause by cause. */
  lemma ForcedReasonExactly(cause: Cause, controls: Controls)
    ensures var reason := ForcedReason(cause, controls);
            && (reason == ExplicitDestinationUnavailable <==>
                  || cause == DestinationGone
                  || (cause == Conflicted(CandidateEligibility) && controls.explicitDestination != None))
            && (reason == RevisionConflict <==> cause == PlannerSpent || cause == Conflicted(RevisionReason))
            && (reason == DuplicateSuggestion <==>
                  cause.Suspected? && exists x, y :: x != y && Suspect(cause.plan, x) && Suspect(cause.plan, y))
            && reason != ExpansionPending
  {
    if cause.Suspected? {
      TwoMembers(Suspects(cause.plan), Members(Suspects(cause.plan)));
      assert Members(Suspects(cause.plan)) * Members(Suspects(cause.plan)) == Members(Suspects(cause.plan));
      forall x ensures x in Suspects(cause.plan) <==> Suspect(cause.plan, x) {
      }
      assert forall x :: x in Members(Suspects(cause.plan)) <==> Suspect(cause.plan, x);
    }
  }

  lemma TwoMembers(s: seq<string>, allowed: set<string>)
    ensures |Members(s) * allowed| >= 2 <==>
              exists x, y :: x != y && x in s && x in allowed && y in s && y in allowed
  {
    var both := Members(s) * allowed;
    if x, y :| x != y && x in s && x in allowed && y in s && y in allowed {
      assert x in both && y in both - {x};
      assert |both - {x}| == |both| - 1;
    }
    if |both| >= 2 {
      var x :| x in both;
      assert |both - {x}| == |both| - 1;
      var y :| y in both - {x};
    }
  }

  /** The reason for a plan of its own: an unsure plan asks, a generated block waits for consent. */
  lemma PlanReasonExactly(plan: Plan, needsReview: bool)
    ensures var reason := ReasonForPlan(plan, needsReview);
            && (reason == Some(PlannerAmbiguity) <==> plan.Review? && needsReview)
            && (reason == Some(ExpansionPending) <==> !plan.Review? && plan.block != None)
            && (reason == None <==> if plan.Review? then !needsReview else plan.block == None)
  {
  }

  /** `out` lists the first `n` different allowed entries of the list, in the order in which they first occur. */
  ghost predicate FirstOf(list: seq<string>, allowed: set<string>, n: nat, out: seq<string>, at: seq<nat>) {
    && |out| == |at| <= n
    && (forall k | 0 <= k < |at| :: at[k] < |list| && list[at[k]] == out[k] && out[k] in allowed)
    && (forall j, k | 0 <= j < k < |at| :: at[j] < at[k])
    && (forall k, p | 0 <= k < |at| && 0 <= p < at[k] :: list[p] != out[k])
    && forall p | 0 <= p < |list| && list[p] in allowed && list[p] !in out ::
         |out| == n && forall k | 0 <= k < |at| :: at[k] < p
  }

  lemma {:induction false} FirstsPlaces(s: seq<string>, allowed: set<string>) returns (at: seq<nat>)
    ensures FirstOf(s, allowed, |s|, Only(Firsts(s), allowed), at)
    ensures forall p | 0 <= p < |s| && s[p] in allowed :: s[p] in Only(Firsts(s), allowed)
  {
    hide Firsts, Only;
    at := [];
    FirstsMeaning(s);
    OnlyMeaning(Firsts(s), allowed);
    FirstsStep(s, allowed);
    if s != [] {
      var front, last := s[..|s| - 1], s[|s| - 1];
      at := FirstsPlaces(front, allowed);
      if last !in front && last in allowed {
        at := at + [|front|];
      }
    }
  }

  lemma FirstsStep(s: seq<string>, allowed: set<string>)
    ensures s == [] ==> Only(Firsts(s), allowed) == []
    ensures s != [] ==>
              var front, last := s[..|s| - 1], s[|s| - 1];
              Only(Firsts(s), allowed) ==
              Only(Firsts(front), allowed) + if last !in front && last in allowed then [last] else []
  {
    if s != [] {
      var front, last := s[..|s| - 1], s[|s| - 1];
      assert (Firsts(front) + [last])[..|Firsts(front)|] == Firsts(front);
    }
  }

  lemma TakeFirst(list: seq<string>, allowed: set<string>, all: seq<string>, at: seq<nat>, n: nat)
    requires FirstOf(list, allowed, |list|, all, at)
    requires forall p | 0 <= p < |list| && list[p] in allowed :: list[p] in all
    ensures FirstOf(list, allowed, n, Take(all, n), if |at| <= n then at else at[..n])
  {
    if |at| > n {
      var out, few := all[..n], at[..n];
      assert forall m | 0 <= m < n :: out[m] == all[m];
      forall p | 0 <= p < |list| && list[p] in allowed && list[p] !in out
        ensures forall k | 0 <= k < n :: few[k] < p
      {
        var m :| 0 <= m < |all| && all[m] == list[p];
        assert at[m] <= p;
      }
    }
  }

  /** The alternatives of a forced review: the plan's destination, then its alternatives, as far as they are among
      the candidates, each once, and no more than two. */
  lemma AlternativesExactly(source: Option<ValidatedPlan>, candidates: seq<Candidate>, suspects: seq<string>)
    returns (offered: set<string>, at: seq<nat>)
    requires match source
             case None => suspects == []
             case Some(ValidatedPlan(None, alternatives, _, _)) => suspects == alternatives
             case Some(ValidatedPlan(Some(id), alternatives, _, _)) => suspects == [id] + alternatives
    ensures forall id :: id in offered <==>
              exists i | 0 <= i < |candidates| :: candidates[i].encrypted.candidateId == id
    ensures FirstOf(suspects, offered, 2, Alternatives(source, OfferedIds(candidates)), at)
  {
    hide Firsts, Only, FirstOf;
    offered := OfferedIds(candidates);
    at := FirstsPlaces(suspects, offered);
    TakeFirst(suspects, offered, Only(Firsts(suspects), offered), at, 2);
    at := if |at| <= 2 then at else at[..2];
    assert suspects == if source.None? then [] else Suspects(source.value);
  }

  lemma FirstsAppend(s: seq<string>, last: string)
    ensures Firsts(s + [last]) == if last in s then Firsts(s) else Firsts(s) + [last]
  {
    assert (s + [last])[..|s|] == s;
  }

  lemma ExceptAppend(s: seq<string>, last: string, code: string)
    ensures Except(s + [last], code) == Except(s, code) + if last == code then [] else [last]
  {
    assert (s + [last])[..|s|] == s;
  }

  lemma {:induction false} ExceptMakesNoDifference(head: seq<string>, s: seq<string>, code: string)
    requires code in head
    ensures Firsts(head + Except(s, code)) == Firsts(head + s)
  {
    hide Firsts, Except;
    if s == [] {
      NothingExcept(code);
    } else {
      var front, last := s[..|s| - 1], s[|s| - 1];
      var rest := Except(front, code);
      ExceptMakesNoDifference(head, front, code);
      ExceptMeaning(front, code);
      assert s == front + [last];
      ExceptAppend(front, last, code);
      FirstsAppend(head + front, last);
      assert head + s == (head + front) + [last];
      if last == code {
        assert Except(s, code) == rest && last in head + front;
      } else {
        assert head + Except(s, code) == (head + rest) + [last];
        FirstsAppend(head + rest, last);
        assert last in head + rest <==> last in head + front;
      }
    }
  }

  lemma NothingExcept(code: string)
    ensures Except([], code) == []
  {
  }

  lemma {:induction false} OnlyAll(s: seq<string>, allowed: set<string>)
    requires forall x | x in s :: x in allowed
    ensures Only(s, allowed) == s
  {
    if s != [] {
      assert s == s[..|s| - 1] + [s[|s| - 1]];
      OnlyAll(s[..|s| - 1], allowed);
    }
  }

  /** Its reason codes: a suspected duplicate if there is one, ambiguity, the matched rule if there is one, then the
      plan's own in their order, each once, and no more than five. */
  lemma ReasonCodesExactly(own: seq<string>, source: Option<ValidatedPlan>, ruleMatched: bool)
    returns (list: seq<string>, at: seq<nat>)
    requires own == if source.Some? then source.value.reasonCodes else []
    ensures list == (if "duplicate_suspected" in own then ["duplicate_suspected"] else []) + ["ambiguous_intent"]
                    + (if ruleMatched then ["routing_rule_match"] else []) + own
    ensures FirstOf(list, Members(list), 5, ReasonCodes(source, ruleMatched), at)
  {
    hide Firsts, Only, Except, FirstOf;
    var head := (if DUPLICATE in own then [DUPLICATE] else []) + [AMBIGUOUS]
                + if ruleMatched then [RULE_MATCHED] else [];
    list := head + own;
    ExceptMeaning(own, AMBIGUOUS);
    CodesDiffer();
    assert AMBIGUOUS in head by {
      assert head[if DUPLICATE in own then 1 else 0] == AMBIGUOUS;
    }
    ExceptMakesNoDifference(head, own, AMBIGUOUS);
    var planReasons := Except(own, AMBIGUOUS);
    assert Leading(planReasons) + ((if ruleMatched then [RULE_MATCHED] else []) + planReasons) == head + planReasons;
    at := FirstsPlaces(list, Members(list));
    FirstsMeaning(list);
    OnlyAll(Firsts(list), Members(list));
    TakeFirst(list, Members(list), Firsts(list), at, 5);
    at := if |at| <= 5 then at else at[..5];
  }

  /** When a forced review is sealed, with its suspects read off the plan that is suspected. */
  lemma ForcedReviewExactly(input: Input, applied: Option<Applied>, cause: Cause, source: Option<ValidatedPlan>,
                            ruleMatched: bool)
    requires PreparationBound(input) && input.plan.Review?
    requires input.plan.validated == ForcedPlan(source, OfferedIds(input.candidates), ruleMatched)
    requires input.reason == Some(ForcedReason(cause, input.controls))
    requires source.Some? ==> forall i | 0 <= i < |source.value.reasonCodes| ::
               source.value.reasonCodes[i] in ALLOWED_CODES
    requires cause.Suspected? ==> source == Some(cause.plan)
    ensures Sealed(input, applied).Ok? <==>
              && OwnersKeys(input) && ServicesGoAlong(input.services)
              && ((cause.Suspected? && exists x, y :: x != y && Suspect(cause.plan, x) && Suspect(cause.plan, y)) ==>
                    exists x, y :: x != y && Suspect(cause.plan, x) && Suspect(cause.plan, y)
                                   && Disclosed(input, x) && Disclosed(input, y))
  {
    hide Sealed, PreparationBound, KeysUsable, OwnersKeys, ForcedPlan, Suspects, Members;
    ForcedReviewSealed(input, applied, cause, source, ruleMatched);
    ForcedReasonExactly(cause, input.controls);
    KeysExactly(input);
    if cause.Suspected? {
      StillTwo(input, cause.plan);
    }
  }

  lemma StillTwo(input: Input, plan: ValidatedPlan)
    ensures |Members(Suspects(plan)) * OfferedIds(input.candidates)| >= 2 <==>
              exists x, y :: x != y && Suspect(plan, x) && Suspect(plan, y)
                             && Disclosed(input, x) && Disclosed(input, y)
  {
    TwoMembers(Suspects(plan), OfferedIds(input.candidates));
    forall x
      ensures x in Suspects(plan) <==> Suspect(plan, x)
      ensures x in OfferedIds(input.candidates) <==> Disclosed(input, x)
    {
    }
  }
}
