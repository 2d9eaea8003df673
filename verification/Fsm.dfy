/** The transaction state machine of internal/agent/fsm.go. */
module Fsms {
  datatype FsmState = Idle | Downloading | Verifying | Flashing | Confirming | Failed

  function Allowed(s: FsmState): seq<FsmState> {
    match s
    case Idle => [Downloading]
    case Downloading => [Verifying, Failed]
    case Verifying => [Flashing, Failed]
    case Flashing => [Confirming, Failed]
    case Confirming => [FsmState.Idle, Failed]
    case Failed => [Downloading]
  }

  class Fsm {
    var state: FsmState

    constructor ()
      ensures state == Idle
    {
      state := Idle;
    }

    method To(next: FsmState) returns (ok: bool)
      modifies this
      ensures ok <==> next in Allowed(old(state))
      ensures state == if ok then next else old(state)
    {
      var allowed := Allowed(state);
      for i := 0 to |allowed|
        invariant state == old(state) && next !in allowed[..i]
      {
        if next == allowed[i] {
          state := next;
          return true;
        }
      }
      return false;
    }
  }

  /** A history of accepted transitions, from the state a new agent starts in. */
  predicate Accepted(tr: seq<FsmState>) {
    && |tr| > 0 && tr[0] == Idle
    && forall i | 0 <= i < |tr| - 1 :: tr[i + 1] in Allowed(tr[i])
  }

  /** The step of the transaction a state stands for; Idle and Failed are rest states. */
  function Rank(s: FsmState): nat {
    match s
    case Idle => 0
    case Failed => 0
    case Downloading => 1
    case Verifying => 2
    case Flashing => 3
    case Confirming => 4
  }

  const STEPS := [Idle, Downloading, Verifying, Flashing, Confirming]

  /** The table: one step forward, home from the last step, and to Failed from every step of a transaction. */
  lemma TableExactly(s: FsmState, t: FsmState)
    ensures t in Allowed(s) <==>
            || (Rank(t) == Rank(s) + 1)
            || (t == Idle && s == Confirming)
            || (t == Failed && Rank(s) > 0)
  {
  }

  /** No history reaches a step of a transaction without all earlier steps right before it. */
  lemma {:induction false} NoStepSkipped(tr: seq<FsmState>, n: nat)
    requires Accepted(tr) && n < |tr|
    ensures var r := Rank(tr[n]);
            && r <= n
            && (r > 0 ==> tr[n - r] in [Idle, Failed])
            && (forall k | 1 <= k <= r :: tr[n - r + k] == STEPS[k])
  {
    if n > 0 {
      assert tr[n] in Allowed(tr[n - 1]);
      if Rank(tr[n]) > 0 {
        NoStepSkipped(tr, n - 1);
      }
    }
  }
}
