/** UpdateStatus of internal/agent/kube.go as its retry loop, against a server with other traffic. */
module KubeClients {
  import opened Wrappers
  import opened Devices
  import opened StatusStores
  import opened StatusTheorems

  /** What may go wrong with one attempt besides a conflict; a PUT that fails this way has no effect. */
  datatype Fault = NoFault | GetFails | PutFails

  /**
   What meets one attempt: the writes of other clients accepted before its GET and between its GET
   and its PUT, the generation the mutation loads from the atomic, and a failing request.
   */
  datatype Round = Round(before: seq<Write>, between: seq<Write>, load: int, fault: Fault) {
    /** The attempt stores its payload. */
    predicate Wins() {
      fault.NoFault? && between == []
    }

    /** The attempt meets a conflict, and the loop goes on. */
    predicate Conflicts() {
      fault.NoFault? && between != []
    }
  }

  datatype Result = Result(device: Device, log: seq<Write>, ok: bool, puts: nat)

  /** The server after a call whose remaining attempts meet `rounds`. */
  function Retry(call: nat, m: Mutation, device: Device, log: seq<Write>, rounds: seq<Round>): Result
    decreases |rounds|
  {
    if rounds == [] then Result(device, log, false, 0)
    else
      var r := rounds[0];
      var read := Replay(device, r.before);
      if r.fault.GetFails? then Result(read, log + r.before, false, 0)
      else if r.fault.PutFails? then Result(Replay(read, r.between), log + r.before + r.between, false, 1)
      else if r.between == [] then
        Result(read.(status := Mutated(m, r.load, read.status)),
               log + r.before + [AgentWrite(call, m, r.load)], true, 1)
      else
        var rest := Retry(call, m, Replay(read, r.between), log + r.before + r.between, rounds[1..]);
        rest.(puts := rest.puts + 1)
  }

  /** The writes accepted during a call: everybody else's, then its own if it ever wins. */
  function Accepted(call: nat, m: Mutation, rounds: seq<Round>): seq<Write>
    decreases |rounds|
  {
    if rounds == [] then []
    else
      var r := rounds[0];
      if r.fault.GetFails? then r.before
      else if r.fault.PutFails? then r.before + r.between
      else if r.between == [] then r.before + [AgentWrite(call, m, r.load)]
      else r.before + (r.between + Accepted(call, m, rounds[1..]))
  }

  lemma {:induction false} ReplayAppend(dev: Device, xs: seq<Write>, ys: seq<Write>)
    ensures Replay(dev, xs + ys) == Replay(Replay(dev, xs), ys)
    decreases |ys|
  {
    if ys == [] {
      assert xs + ys == xs;
    } else {
      var zs := xs + ys;
      assert zs[..|zs| - 1] == xs + ys[..|ys| - 1];
      ReplayAppend(dev, xs, ys[..|ys| - 1]);
    }
  }

  lemma ReplayOne(dev: Device, w: Write)
    ensures Replay(dev, [w]) == ApplyWrite(w, dev)
  {
    assert [w][..0] == [];
  }

  lemma Assoc<T>(a: seq<T>, b: seq<T>, c: seq<T>)
    ensures a + b + c == a + (b + c)
  {
  }

  /**
   The history of a call is everybody else's writes in order, followed by its single write exactly if
   it succeeds; and the object is the replay of that history, so the mutation was applied to the
   version just before it.
   */
  lemma {:induction false} RetryLosesNothing(call: nat, m: Mutation, device: Device, log: seq<Write>, rounds: seq<Round>)
    ensures var r := Retry(call, m, device, log, rounds);
            && r.log == log + Accepted(call, m, rounds)
            && r.device == Replay(device, Accepted(call, m, rounds))
    decreases |rounds|
  {
    if rounds == [] {
      assert log + [] == log;
    } else {
      var r := rounds[0];
      var read := Replay(device, r.before);
      if r.fault.PutFails? {
        Assoc(log, r.before, r.between);
        ReplayAppend(device, r.before, r.between);
      } else if r.Wins() {
        var w := AgentWrite(call, m, r.load);
        Assoc(log, r.before, [w]);
        ReplayAppend(device, r.before, [w]);
        ReplayOne(read, w);
      } else if r.Conflicts() {
        RetryLosesNothing(call, m, Replay(read, r.between), log + r.before + r.between, rounds[1..]);
        var tail := Accepted(call, m, rounds[1..]);
        Assoc(log, r.before, r.between);
        Assoc(log, r.before + r.between, tail);
        Assoc(r.before, r.between, tail);
        ReplayAppend(read, r.between, tail);
        ReplayAppend(device, r.before, r.between + tail);
      }
    }
  }

  /** Round `k` is the first that does not conflict. */
  predicate Ends(rounds: seq<Round>, k: nat) {
    k < |rounds| && !rounds[k].Conflicts() && forall j | 0 <= j < k :: rounds[j].Conflicts()
  }

  /**
   Only conflicts are retried: the first attempt without one decides, by success or by its error, and
   a call that meets conflicts only gives up after as many PUTs as it has attempts.
   */
  lemma {:induction false} FirstWithoutConflictDecides(call: nat, m: Mutation, device: Device, log: seq<Write>, rounds: seq<Round>, k: nat)
    requires k <= |rounds| && forall j | 0 <= j < k :: rounds[j].Conflicts()
    requires k < |rounds| ==> Ends(rounds, k)
    ensures var r := Retry(call, m, device, log, rounds);
            && (r.ok <==> k < |rounds| && rounds[k].Wins())
            && r.puts == k + if k < |rounds| && !rounds[k].fault.GetFails? then 1 else 0
    decreases |rounds|
  {
    if k > 0 {
      var r := rounds[0];
      assert r.Conflicts();
      forall j | 0 <= j < k - 1 ensures rounds[1..][j].Conflicts() {
        assert rounds[j + 1].Conflicts();
      }
      FirstWithoutConflictDecides(call, m, Replay(Replay(device, r.before), r.between), log + r.before + r.between,
                                  rounds[1..], k - 1);
    }
  }

  /** Four conflicts are survived; five end the call. */
  lemma FiveAttempts(call: nat, m: Mutation, device: Device, log: seq<Write>, rounds: seq<Round>)
    requires |rounds| == MAX_ATTEMPTS && forall j | 0 <= j < |rounds| - 1 :: rounds[j].Conflicts()
    ensures |rounds| == 5
    ensures var r := Retry(call, m, device, log, rounds);
            (r.ok <==> rounds[4].Wins()) && (rounds[4].Conflicts() ==> r.puts == 5)
  {
    FirstWithoutConflictDecides(call, m, device, log, rounds, if rounds[4].Conflicts() then 5 else 4);
  }

  /** What a GET returns: the object and its resourceVersion. */
  datatype Read = Read(device: Device, rv: nat)

  /** What a PUT comes back with. */
  datatype PutResult = Stored | Conflict | Refused

  /** The API server's copy of the device; `log` is every write accepted, its length the resourceVersion. */
  class ApiServer {
    var device: Device
    var log: seq<Write>

    constructor (device: Device)
      ensures this.device == device && log == []
    {
      this.device, this.log := device, [];
    }

    /** Other clients' writes get in. */
    method Accept(batch: seq<Write>)
      modifies this
      ensures log == old(log) + batch && device == Replay(old(device), batch)
    {
      for i := 0 to |batch|
        invariant log == old(log) + batch[..i] && device == Replay(old(device), batch[..i])
      {
        assert batch[..i + 1][..i] == batch[..i];
        log := log + [batch[i]];
        device := ApplyWrite(batch[i], device);
      }
      assert batch[..|batch|] == batch;
    }

    /** Get: an error, or the latest object with its resourceVersion. */
    method Get(fails: bool) returns (r: Option<Read>)
      ensures r == if fails then None else Some(Read(device, |log|))
    {
      return if fails then None else Some(Read(device, |log|));
    }

    /** PutStatus: any error but a 409 first, then the 409, else the payload's status replaces the stored one. */
    method PutStatus(call: nat, m: Mutation, gen: int, payload: Status, rv: nat, fails: bool) returns (r: PutResult)
      modifies this
      ensures r == if fails then Refused else if rv == |old(log)| then Stored else Conflict
      ensures log == if r == Stored then old(log) + [AgentWrite(call, m, gen)] else old(log)
      ensures device == if r == Stored then old(device).(status := payload) else old(device)
    {
      if fails {
        return Refused;
      }
      if rv != |log| {
        return Conflict;
      }
      device := device.(status := payload);
      log := log + [AgentWrite(call, m, gen)];
      return Stored;
    }

    /** One attempt; None when its GET fails. */
    method Try(call: nat, m: Mutation, r: Round) returns (put: Option<PutResult>)
      modifies this
      ensures put == if r.fault.GetFails? then None
                     else Some(if r.fault.PutFails? then Refused else if r.between == [] then Stored else Conflict)
      ensures var read := Replay(old(device), r.before);
              && log == (match put
                         case None => old(log) + r.before
                         case Some(Stored) => old(log) + r.before + [AgentWrite(call, m, r.load)]
                         case Some(_) => old(log) + r.before + r.between)
              && device == match put
                           case None => read
                           case Some(Stored) => read.(status := Mutated(m, r.load, read.status))
                           case Some(_) => Replay(read, r.between)
    {
      Accept(r.before);
      var dev := Get(r.fault.GetFails?);
      if dev.None? {
        return None;
      }
      var payload := Mutated(m, r.load, dev.value.device.status);
      Accept(r.between);
      var result := PutStatus(call, m, r.load, payload, dev.value.rv, r.fault.PutFails?);
      return Some(result);
    }

    /** UpdateStatus with the mutation of one reportStatus call; `rounds` is what its attempts meet. */
    method UpdateStatus(call: nat, m: Mutation, rounds: seq<Round>) returns (ok: bool, puts: nat)
      requires |rounds| == MAX_ATTEMPTS
      modifies this
      ensures Result(device, log, ok, puts) == Retry(call, m, old(device), old(log), rounds)
    {
      puts := 0;
      while puts < MAX_ATTEMPTS
        invariant puts <= MAX_ATTEMPTS
        invariant var rest := Retry(call, m, device, log, rounds[puts..]);
                  Retry(call, m, old(device), old(log), rounds) == rest.(puts := rest.puts + puts)
      {
        assert rounds[puts..][1..] == rounds[puts + 1..];
        var put := Try(call, m, rounds[puts]);
        if put.None? {
          return false, puts;
        }
        puts := puts + 1;
        if put.value != Conflict {
          return put.value == Stored, puts;
        }
      }
      ok := false;
    }
  }
}
