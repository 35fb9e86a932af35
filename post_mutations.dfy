/** The post mutations of BloggerWebApp/src/Queries/usePostMutations.ts:
    add, update and delete share one error slot; a success marks the post
    list stale and, for add and update, calls the page's `onDone`.

    Requests in flight are not modelled: their outcomes arrive one after
    another, as a sequence of events. Marking the list stale
    (`invalidateQueries({ queryKey: ['posts'] })`) is counted. */
module PostMutations {
  import opened Models

  datatype Kind = AddPost | UpdatePost | DeletePost

  /** How one mutation settled. */
  datatype Outcome = Outcome(kind: Kind, succeeded: bool)

  /** The fixed text each kind of failure puts in the slot. */
  function FailureText(kind: Kind): string {
    match kind
    case AddPost => "Failed to add post."
    case UpdatePost => "Failed to update post."
    case DeletePost => "Failed to delete post."
  }

  /** Every failure text names its own kind: no two kinds share one. */
  lemma FailureTextsDistinct(a: Kind, b: Kind)
    ensures FailureText(a) == FailureText(b) <==> a == b
  {
    if a != b {
      assert FailureText(a)[10] != FailureText(b)[10];
    }
  }

  /** The hook's observable state: the error slot (`null` is `None`), how
      often the post list was marked stale and how often `onDone` ran. */
  datatype Feedback = Feedback(errorMessage: Option<string>, invalidations: nat, doneCalls: nat)

  const Initial := Feedback(None, 0, 0)

  /** Whether the kind calls `onDone` on success. */
  predicate CallsOnDone(kind: Kind) {
    kind != DeletePost
  }

  /** The slot after an outcome: cleared by any success, set to the kind's
      text by any failure. */
  function MessageAfter(o: Outcome): (m: Option<string>)
    ensures m.None? <==> o.succeeded
    ensures m.Some? ==> m.value == FailureText(o.kind)
  {
    if o.succeeded then None else Some(FailureText(o.kind))
  }

  /** One callback: `onSuccess` or `onError` of the outcome's mutation. */
  function Step(s: Feedback, hasOnDone: bool, o: Outcome): (t: Feedback)
    ensures t.errorMessage == MessageAfter(o)
    ensures t.invalidations == s.invalidations + (if o.succeeded then 1 else 0)
    ensures t.doneCalls == s.doneCalls + (if o.succeeded && hasOnDone && CallsOnDone(o.kind) then 1 else 0)
  {
    if !o.succeeded then s.(errorMessage := Some(FailureText(o.kind)))
    else
      Feedback(
        None,
        s.invalidations + 1,
        if hasOnDone && CallsOnDone(o.kind) then s.doneCalls + 1 else s.doneCalls)
  }

  /** The state after a sequence of outcomes, in the order they settled. */
  function Replay(s: Feedback, hasOnDone: bool, outcomes: seq<Outcome>): Feedback
    decreases |outcomes|
  {
    if outcomes == [] then s
    else Replay(Step(s, hasOnDone, outcomes[0]), hasOnDone, outcomes[1..])
  }

  function Successes(outcomes: seq<Outcome>): nat {
    if outcomes == [] then 0
    else (if outcomes[0].succeeded then 1 else 0) + Successes(outcomes[1..])
  }

  /** Successes of the kinds that call `onDone`. */
  function DoneSuccesses(outcomes: seq<Outcome>): nat {
    if outcomes == [] then 0
    else (if outcomes[0].succeeded && CallsOnDone(outcomes[0].kind) then 1 else 0) + DoneSuccesses(outcomes[1..])
  }

  /** One shared slot: after any non-empty sequence the message is the one
      the last outcome leaves, whatever came before. */
  lemma {:induction false} LastOutcomeDecides(s: Feedback, hasOnDone: bool, outcomes: seq<Outcome>)
    requires outcomes != []
    ensures Replay(s, hasOnDone, outcomes).errorMessage == MessageAfter(outcomes[|outcomes| - 1])
    decreases |outcomes|
  {
    if |outcomes| > 1 {
      LastOutcomeDecides(Step(s, hasOnDone, outcomes[0]), hasOnDone, outcomes[1..]);
    }
  }

  /** The list is marked stale once per success and never on failure. */
  lemma {:induction false} InvalidationsCountSuccesses(s: Feedback, hasOnDone: bool, outcomes: seq<Outcome>)
    ensures Replay(s, hasOnDone, outcomes).invalidations == s.invalidations + Successes(outcomes)
    decreases |outcomes|
  {
    if outcomes != [] {
      InvalidationsCountSuccesses(Step(s, hasOnDone, outcomes[0]), hasOnDone, outcomes[1..]);
    }
  }

  /** `onDone` runs once per successful add or update, and never when the
      page gave none. */
  lemma {:induction false} DoneCallsCountAddAndUpdate(s: Feedback, hasOnDone: bool, outcomes: seq<Outcome>)
    ensures Replay(s, hasOnDone, outcomes).doneCalls == s.doneCalls + (if hasOnDone then DoneSuccesses(outcomes) else 0)
    decreases |outcomes|
  {
    if outcomes != [] {
      DoneCallsCountAddAndUpdate(Step(s, hasOnDone, outcomes[0]), hasOnDone, outcomes[1..]);
    }
  }

  /** A run of failures leaves the list and `onDone` alone. */
  lemma {:induction false} FailuresChangeOnlyTheMessage(s: Feedback, hasOnDone: bool, outcomes: seq<Outcome>)
    requires forall i :: 0 <= i < |outcomes| ==> !outcomes[i].succeeded
    ensures Replay(s, hasOnDone, outcomes).invalidations == s.invalidations
    ensures Replay(s, hasOnDone, outcomes).doneCalls == s.doneCalls
    decreases |outcomes|
  {
    if outcomes != [] {
      FailuresChangeOnlyTheMessage(Step(s, hasOnDone, outcomes[0]), hasOnDone, outcomes[1..]);
    }
  }

  /** The hook's state, as a page holds it. */
  class MutationFeedback {
    var errorMessage: Option<string>
    var invalidations: nat
    var doneCalls: nat
    const hasOnDone: bool

    function State(): Feedback
      reads this
    {
      Feedback(errorMessage, invalidations, doneCalls)
    }

    /** `usePostMutations(onDone)`: the slot starts empty. */
    constructor (hasOnDone: bool)
      ensures State() == Initial && this.hasOnDone == hasOnDone
    {
      errorMessage := None;
      invalidations := 0;
      doneCalls := 0;
      this.hasOnDone := hasOnDone;
    }

    /** `onSuccess` of the add and update mutations: mark the list stale,
        call `onDone` if given, clear the message. */
    method AddOrUpdateSucceeded(kind: Kind)
      requires kind != DeletePost
      modifies this
      ensures State() == Step(old(State()), hasOnDone, Outcome(kind, true))
    {
      invalidations := invalidations + 1;
      if hasOnDone {
        doneCalls := doneCalls + 1;
      }
      errorMessage := None;
    }

    /** `onSuccess` of the delete mutation: mark the list stale, clear the
        message; `onDone` is not called. */
    method DeleteSucceeded()
      modifies this
      ensures State() == Step(old(State()), hasOnDone, Outcome(DeletePost, true))
    {
      invalidations := invalidations + 1;
      errorMessage := None;
    }

    /** `onError` of any of the three: the slot takes the kind's text. */
    method Failed(kind: Kind)
      modifies this
      ensures State() == Step(old(State()), hasOnDone, Outcome(kind, false))
    {
      errorMessage := Some(FailureText(kind));
    }

    /** Whichever callback the outcome calls for. */
    method Settle(o: Outcome)
      modifies this
      ensures State() == Step(old(State()), hasOnDone, o)
    {
      if !o.succeeded {
        Failed(o.kind);
      } else if o.kind == DeletePost {
        DeleteSucceeded();
      } else {
        AddOrUpdateSucceeded(o.kind);
      }
    }
  }
}
