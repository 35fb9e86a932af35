/** The post mutations of the earlier client, src/Queries/usePostMutations.ts:
    the same three mutations without an error slot and without failure
    handlers. */
module LegacyPostMutations {
  import PostMutations

  /** How often the post list was marked stale and `onDone` ran. */
  datatype Counts = Counts(invalidations: nat, doneCalls: nat)

  /** One outcome: a success marks the list stale and, for add and update,
      calls `onDone` if given; a failure changes nothing. */
  function Step(c: Counts, hasOnDone: bool, o: PostMutations.Outcome): (d: Counts)
    ensures !o.succeeded ==> d == c
    ensures o.succeeded ==> d.invalidations == c.invalidations + 1
    ensures o.succeeded ==> d.doneCalls == c.doneCalls + (if hasOnDone && PostMutations.CallsOnDone(o.kind) then 1 else 0)
  {
    if !o.succeeded then c
    else Counts(c.invalidations + 1, if hasOnDone && PostMutations.CallsOnDone(o.kind) then c.doneCalls + 1 else c.doneCalls)
  }

  function Replay(c: Counts, hasOnDone: bool, outcomes: seq<PostMutations.Outcome>): Counts
    decreases |outcomes|
  {
    if outcomes == [] then c
    else Replay(Step(c, hasOnDone, outcomes[0]), hasOnDone, outcomes[1..])
  }

  /** The two versions agree on everything but the error slot: the same
      outcomes mark the list stale and call `onDone` equally often. */
  lemma {:induction false} AgreesWithErrorSlotVersion(
    c: Counts, s: PostMutations.Feedback, hasOnDone: bool, outcomes: seq<PostMutations.Outcome>)
    requires c.invalidations == s.invalidations && c.doneCalls == s.doneCalls
    ensures Replay(c, hasOnDone, outcomes).invalidations == PostMutations.Replay(s, hasOnDone, outcomes).invalidations
    ensures Replay(c, hasOnDone, outcomes).doneCalls == PostMutations.Replay(s, hasOnDone, outcomes).doneCalls
    decreases |outcomes|
  {
    if outcomes != [] {
      AgreesWithErrorSlotVersion(
        Step(c, hasOnDone, outcomes[0]), PostMutations.Step(s, hasOnDone, outcomes[0]), hasOnDone, outcomes[1..]);
    }
  }

  /** Failures leave no trace at all. */
  lemma {:induction false} FailuresChangeNothing(c: Counts, hasOnDone: bool, outcomes: seq<PostMutations.Outcome>)
    requires forall i :: 0 <= i < |outcomes| ==> !outcomes[i].succeeded
    ensures Replay(c, hasOnDone, outcomes) == c
    decreases |outcomes|
  {
    if outcomes != [] {
      FailuresChangeNothing(Step(c, hasOnDone, outcomes[0]), hasOnDone, outcomes[1..]);
    }
  }

  /** The hook's effects, as a page holds them. */
  class MutationCounts {
    var invalidations: nat
    var doneCalls: nat
    const hasOnDone: bool

    constructor (hasOnDone: bool)
      ensures invalidations == 0 && doneCalls == 0 && this.hasOnDone == hasOnDone
    {
      invalidations := 0;
      doneCalls := 0;
      this.hasOnDone := hasOnDone;
    }

    /** The outcome's `onSuccess`, if it succeeded; a failure has no handler. */
    method Settle(o: PostMutations.Outcome)
      modifies this
      ensures Counts(invalidations, doneCalls) == Step(Counts(old(invalidations), old(doneCalls)), hasOnDone, o)
    {
      if o.succeeded {
        invalidations := invalidations + 1;
        if hasOnDone && o.kind != PostMutations.DeletePost {
          doneCalls := doneCalls + 1;
        }
      }
    }
  }
}
