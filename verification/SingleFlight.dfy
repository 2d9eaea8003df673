/**
 The single-flight guard of internal/agent/agent.go: polls start upgrade goroutines behind a
 flag, goroutines drive one shared, unsynchronised state machine, and the scheduler interleaves
 them freely.
 */
module SingleFlight {
  import opened Fsms

  /** Where an upgrade goroutine is; it is about to take the step named. */
  datatype Pc =
    | ToDownloading
    | ToVerifying
    | ToFlashing
    | ToConfirming
    | ToIdle
    | ToFailed      // inside `fail`, where the verdict of the state machine is ignored
    | Releasing     // the deferred clearing of the flag

  /** `refused` records whether a transition was ever rejected. */
  datatype Sys = Sys(upgrading: bool, fsm: FsmState, workers: map<nat, Pc>, refused: bool)

  const INITIAL := Sys(false, Idle, map[], false)

  datatype Event =
    | Poll(id: nat)               // evaluate decides to upgrade and calls startUpgrade
    | Work(id: nat, good: bool)   // a goroutine runs up to its next transition, successfully or not
    | Restart                     // the process dies and a new one starts

  function Target(pc: Pc): FsmState
    requires !pc.Releasing?
  {
    match pc
    case ToDownloading => Downloading
    case ToVerifying => Verifying
    case ToFlashing => Flashing
    case ToConfirming => Confirming
    case ToIdle => Idle
    case ToFailed => Failed
  }

  /** The step after an accepted transition: onwards if the work of the new state succeeds. */
  function After(pc: Pc, good: bool): Pc
    requires !pc.Releasing?
  {
    match pc
    case ToDownloading => if good then ToVerifying else ToFailed
    case ToVerifying => if good then ToFlashing else ToFailed
    case ToFlashing => if good then ToConfirming else ToFailed
    case ToConfirming => if good then ToIdle else ToFailed
    case ToIdle => Releasing
    case ToFailed => Releasing
  }

  function Step(s: Sys, e: Event): Sys {
    match e
    case Restart => s.(upgrading := false, fsm := Idle, workers := map[])
    case Poll(id) =>
      if s.upgrading || id in s.workers then s
      else s.(upgrading := true, workers := s.workers[id := ToDownloading])
    case Work(id, good) =>
      if id !in s.workers then s
      else
        var pc := s.workers[id];
        if pc.Releasing? then s.(upgrading := false, workers := s.workers - {id})
        else if Target(pc) in Allowed(s.fsm) then
          s.(fsm := Target(pc), workers := s.workers[id := After(pc, good)])
        else s.(refused := true, workers := s.workers[id := Releasing])
  }

  function Run(s: Sys, es: seq<Event>): Sys
    decreases |es|
  {
    if es == [] then s else Step(Run(s, es[..|es| - 1]), es[|es| - 1])
  }

  /** The states of the machine that a goroutine at `pc` can find it in. */
  predicate Fits(pc: Pc, fsm: FsmState) {
    match pc
    case ToDownloading => fsm in [Idle, Failed]
    case ToVerifying => fsm == Downloading
    case ToFlashing => fsm == Verifying
    case ToConfirming => fsm == Flashing
    case ToIdle => fsm == Confirming
    case ToFailed => fsm in [Downloading, Verifying, Flashing, Confirming]
    case Releasing => fsm in [Idle, Failed]
  }

  predicate Inv(s: Sys) {
    && !s.refused
    && (forall i, j :: i in s.workers && j in s.workers ==> i == j)
    && (forall i :: i in s.workers ==> s.upgrading && Fits(s.workers[i], s.fsm))
    && (!s.upgrading ==> s.fsm in [Idle, Failed])
    && (s.upgrading ==> s.workers != map[])
  }

  lemma StepKeepsInv(s: Sys, e: Event)
    requires Inv(s)
    ensures Inv(Step(s, e))
  {
    match e {
      case Restart =>
      case Poll(id) =>
        assert s.upgrading || id in s.workers || id in Step(s, e).workers;
      case Work(id, good) =>
        if id in s.workers {
          var s' := Step(s, e);
          assert id in s'.workers || s'.workers == map[];
        }
    }
  }

  /**
   However polls, goroutines and restarts interleave: at most one transaction runs, the flag is up
   exactly while it does, the state machine rests whenever the flag is down, and it has never
   refused a transition, inside `fail` included.
   */
  lemma {:induction false} AtMostOneTransaction(es: seq<Event>)
    ensures var s := Run(INITIAL, es);
            && !s.refused
            && |s.workers| <= 1
            && (s.upgrading <==> s.workers != map[])
            && (!s.upgrading ==> s.fsm in [Idle, Failed])
    ensures Inv(Run(INITIAL, es))
    decreases |es|
  {
    if es != [] {
      AtMostOneTransaction(es[..|es| - 1]);
      StepKeepsInv(Run(INITIAL, es[..|es| - 1]), es[|es| - 1]);
    }
    var s := Run(INITIAL, es);
    if s.workers != map[] {
      var i :| i in s.workers;
      assert s.workers.Keys == {i};
    }
  }

  // ---- Transactions run ----

  /** A poll that finds the flag down starts a worker; one that finds it up changes nothing. */
  lemma PollStarts(s: Sys, id: nat)
    requires id !in s.workers
    ensures var r := Step(s, Poll(id));
            if s.upgrading then r == s
            else r.upgrading && r.workers == s.workers[id := ToDownloading] && r.fsm == s.fsm
  {
  }

  /** A worker left alone takes `good` steps that succeed, fails once if any are missing, and releases the flag. */
  function Alone(s: Sys, id: nat, good: nat, steps: nat): Sys
    decreases steps
  {
    if steps == 0 || id !in s.workers then s
    else Alone(Step(s, Work(id, good > 0)), id, if good > 0 then good - 1 else 0, steps - 1)
  }

  /** From rest a transaction ends in at most seven steps: Idle if its four steps succeed, else Failed; at rest again. */
  lemma TransactionEnds(s: Sys, id: nat, good: nat)
    requires Inv(s) && !s.upgrading && id !in s.workers
    ensures var r := Alone(Step(s, Poll(id)), id, good, 7);
            && !r.upgrading && r.workers == map[] && !r.refused
            && r.fsm == if good >= 4 then FsmState.Idle else Failed
  {
    assert forall i :: i !in s.workers;
    assert s.workers == map[];
    var s0 := Step(s, Poll(id));
    assert s0.workers == map[id := ToDownloading];
    WorkerEnds(s0, id, good, 7);
  }

  /** The steps a worker still has to take at most. */
  function Left(pc: Pc): nat {
    match pc
    case ToDownloading => 6
    case ToVerifying => 5
    case ToFlashing => 4
    case ToConfirming => 3
    case ToIdle => 2
    case ToFailed => 2
    case Releasing => 1
  }

  lemma {:induction false} WorkerEnds(s: Sys, id: nat, good: nat, steps: nat)
    requires !s.refused && s.workers.Keys == {id} && s.upgrading && Fits(s.workers[id], s.fsm)
    requires steps >= Left(s.workers[id])
    ensures var r := Alone(s, id, good, steps);
            && !r.upgrading && r.workers == map[] && !r.refused
            && r.fsm == (match s.workers[id]
                         case ToFailed => Failed
                         case Releasing => s.fsm
                         case pc => if good + Rank(Target(pc)) >= 5 || pc == ToIdle then FsmState.Idle else Failed)
    decreases steps
  {
    var s' := Step(s, Work(id, good > 0));
    if s.workers[id].Releasing? {
      assert s'.workers == map[];
    } else {
      assert s'.workers.Keys == {id};
      WorkerEnds(s', id, if good > 0 then good - 1 else 0, steps - 1);
    }
  }
}
