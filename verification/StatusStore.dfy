/**
 One device object under optimistic concurrency: any number of UpdateStatus calls of one agent
 process (internal/agent/kube.go, reportStatus in agent.go), its poll loop, the operator's status
 writes from possibly stale reads, and users' spec writes, interleaved request by request.
 */
module StatusStores {
  import opened Wrappers
  import opened Devices

  const MAX_ATTEMPTS := 5

  /** The mutations the agent passes to reportStatus. */
  datatype Mutation =
    | Heartbeat(at: int)
    | Steady(current: string, slot: string, at: int)
    | Announce(version: string, at: int)
    | ReportFailure(reason: string, message: string, at: int)
    | Complete(version: string, slot: string, at: int)

  /** The FirmwareSynced condition a mutation sets, if any. */
  function SyncedBy(m: Mutation, gen: int): Option<Condition> {
    match m
    case Heartbeat(_) => None
    case Steady(_, _, at) =>
      Some(Condition(FIRMWARE_SYNCED, CondTrue, "Synced", "device firmware matches desired version", gen, at))
    case Announce(v, at) => Some(Condition(FIRMWARE_SYNCED, CondFalse, IN_PROGRESS, "downloading " + v, gen, at))
    case ReportFailure(r, msg, at) => Some(Condition(FIRMWARE_SYNCED, CondFalse, r, msg, gen, at))
    case Complete(v, _, at) => Some(Condition(FIRMWARE_SYNCED, CondTrue, "Synced", "upgraded to " + v, gen, at))
  }

  /** reportStatus: the mutation and the bookkeeping stamp, with the generation loaded just now. */
  function Mutated(m: Mutation, gen: int, st: Status): Status {
    var c := SyncedBy(m, gen);
    var st' := st.(conditions := if c.Some? then Upsert(st.conditions, c.value) else st.conditions,
                   observedGeneration := gen);
    match m
    case Heartbeat(at) => st'.(heartbeat := Some(at))
    case Steady(cur, slot, _) => st'.(current := cur, slot := slot)
    case Announce(_, _) => st'
    case ReportFailure(_, _, _) => st'
    case Complete(v, slot, _) => st'.(current := v, slot := slot)
  }

  /** A successful write, as the history of the object records it. */
  datatype Write =
    | AgentWrite(call: nat, mutation: Mutation, gen: int)
    | OperatorWrite(now: int, timeout: int)
    | SpecWrite(spec: Spec)

  function ApplyWrite(w: Write, dev: Device): Device {
    match w
    case AgentWrite(_, m, gen) => dev.(status := Mutated(m, gen, dev.status))
    case OperatorWrite(now, timeout) => OperatorWritten(dev, now, timeout)
    case SpecWrite(spec) => dev.(spec := spec, generation := dev.generation + 1)
  }

  /** A call between its requests; `rv` is the resourceVersion its copy carries. */
  datatype Pc =
    | Getting
    | Deciding(rv: nat)
    | Putting(rv: nat, gen: int, payload: Status)
    | Succeeded
    | GaveUp

  datatype Call = Call(mutation: Mutation, conflicts: nat, puts: nat, pc: Pc)

  /** `versions[rv]` is the object at resourceVersion `rv`; `log[rv]` is the write that ended it. */
  datatype Sys = Sys(versions: seq<Device>, log: seq<Write>, calls: map<nat, Call>, seen: int, polled: Option<int>) {
    function Latest(): nat
      requires versions != []
    {
      |versions| - 1
    }
  }

  datatype Event =
    | Begin(call: nat, mutation: Mutation)
    | Get(call: nat)
    | Mutate(call: nat)
    | Put(call: nat)
    | RequestFails(call: nat)
    | PollGet
    | PollStore
    | OperatorPass(read: nat, now: int, timeout: int)
    | UserWrite(spec: Spec)

  function Commit(s: Sys, w: Write, stored: Device): Sys {
    s.(versions := s.versions + [stored], log := s.log + [w])
  }

  function StepCall(s: Sys, id: nat, c: Call, e: Event): Sys
    requires s.versions != []
  {
    match e
    case Get(_) =>
      if c.pc.Getting? then s.(calls := s.calls[id := c.(pc := Deciding(s.Latest()))]) else s
    case Mutate(_) =>
      if c.pc.Deciding? && c.pc.rv <= s.Latest() then
        var st := Mutated(c.mutation, s.seen, s.versions[c.pc.rv].status);
        s.(calls := s.calls[id := c.(pc := Putting(c.pc.rv, s.seen, st))])
      else s
    case Put(_) =>
      if !c.pc.Putting? then s
      else if c.pc.rv == s.Latest() then
        // The status subresource takes over only the status of the payload.
        Commit(s, AgentWrite(id, c.mutation, c.pc.gen), s.versions[s.Latest()].(status := c.pc.payload))
        .(calls := s.calls[id := c.(puts := c.puts + 1, pc := Succeeded)])
      else
        var n := c.conflicts + 1;
        s.(calls := s.calls[id := c.(conflicts := n, puts := c.puts + 1,
                                     pc := if n < MAX_ATTEMPTS then Getting else GaveUp)])
    case RequestFails(_) =>
      if c.pc.Getting? then s.(calls := s.calls[id := c.(pc := GaveUp)])
      else if c.pc.Putting? then s.(calls := s.calls[id := c.(puts := c.puts + 1, pc := GaveUp)])
      else s
    case _ => s
  }

  function Step(s: Sys, e: Event): Sys
    requires s.versions != []
  {
    match e
    case Begin(id, m) => if id in s.calls then s else s.(calls := s.calls[id := Call(m, 0, 0, Getting)])
    case Get(id) => if id in s.calls then StepCall(s, id, s.calls[id], e) else s
    case Mutate(id) => if id in s.calls then StepCall(s, id, s.calls[id], e) else s
    case Put(id) => if id in s.calls then StepCall(s, id, s.calls[id], e) else s
    case RequestFails(id) => if id in s.calls then StepCall(s, id, s.calls[id], e) else s
    case PollGet => s.(polled := Some(s.versions[s.Latest()].generation))
    case PollStore => if s.polled.Some? then s.(seen := s.polled.value, polled := None) else s
    case OperatorPass(read, now, timeout) =>
      // A stale read conflicts; an equal projection is not written.
      if read != s.Latest() then s
      else
        var dev := s.versions[read];
        if StatusEqual(dev.status, Projected(dev, now, timeout)) then s
        else Commit(s, OperatorWrite(now, timeout), OperatorWritten(dev, now, timeout))
    case UserWrite(spec) =>
      Commit(s, SpecWrite(spec), s.versions[s.Latest()].(spec := spec, generation := s.versions[s.Latest()].generation + 1))
  }

  /** A new agent process: nothing in flight, nothing polled yet. */
  predicate NewProcess(s: Sys) {
    |s.versions| == 1 && s.log == [] && s.calls == map[] && s.polled == None && s.seen == 0
    && s.versions[0].generation >= 0
  }

  function Run(s: Sys, es: seq<Event>): (r: Sys)
    requires s.versions != []
    ensures r.versions != []
    decreases |es|
  {
    if es == [] then s else Step(Run(s, es[..|es| - 1]), es[|es| - 1])
  }

  // ---- The invariant ----

  function Writes(log: seq<Write>, id: nat): nat
    decreases |log|
  {
    if log == [] then 0
    else Writes(log[..|log| - 1], id) + if log[|log| - 1].AgentWrite? && log[|log| - 1].call == id then 1 else 0
  }

  predicate HistoryOk(s: Sys) {
    && |s.versions| == |s.log| + 1
    && forall i | 0 <= i < |s.log| :: s.versions[i + 1] == ApplyWrite(s.log[i], s.versions[i])
  }

  /** Bookkeeping of one call; a conflict or a failed request has left nothing in the history. */
  predicate CallOk(s: Sys, id: nat, c: Call)
    requires s.versions != []
  {
    && Writes(s.log, id) == (if c.pc.Succeeded? then 1 else 0)
    && c.puts <= MAX_ATTEMPTS
    && c.conflicts <= c.puts
    && (c.pc.Getting? || c.pc.Deciding? || c.pc.Putting? ==> c.conflicts == c.puts < MAX_ATTEMPTS)
    && (c.pc.Deciding? ==> c.pc.rv <= s.Latest())
    && (c.pc.Putting? ==>
          && c.pc.rv <= s.Latest() && c.pc.gen <= s.seen
          && c.pc.payload == Mutated(c.mutation, c.pc.gen, s.versions[c.pc.rv].status))
  }

  predicate CallsOk(s: Sys)
    requires s.versions != []
  {
    && (forall id | id in s.calls :: CallOk(s, id, s.calls[id]))
    && (forall i | 0 <= i < |s.log| && s.log[i].AgentWrite? :: s.log[i].call in s.calls)
  }

  /** Generations: what is stored was seen, what is seen was polled, what is polled exists. */
  predicate GenerationsOk(s: Sys)
    requires s.versions != []
  {
    var g := s.versions[s.Latest()].generation;
    && 0 <= s.seen <= g
    && (s.polled.Some? ==> s.seen <= s.polled.value <= g)
    && (forall i | 0 <= i < |s.log| && s.log[i].AgentWrite? :: s.log[i].gen <= s.seen)
    && (forall id, i | id in s.calls && s.calls[id].pc.Putting? && 0 <= i < s.calls[id].pc.rv && i < |s.log| &&
                       s.log[i].AgentWrite? :: s.log[i].gen <= s.calls[id].pc.gen)
    && (forall i, j | 0 <= i < j < |s.log| && s.log[i].AgentWrite? && s.log[j].AgentWrite? ::
          s.log[i].gen <= s.log[j].gen)
    && (forall i | 0 <= i < |s.log| && i + 1 < |s.versions| && s.log[i].AgentWrite? ::
          s.log[i].gen <= s.versions[i + 1].generation)
  }

  predicate Inv(s: Sys) {
    s.versions != [] && HistoryOk(s) && CallsOk(s) && GenerationsOk(s)
  }

  lemma FreshInv(s: Sys)
    requires NewProcess(s)
    ensures Inv(s)
  {
  }

  /** A commit by `id` (or by nobody's call) keeps what the other calls rely on. */
  lemma CommitKeepsOthers(s: Sys, w: Write, stored: Device)
    requires s.versions != [] && HistoryOk(s) && stored == ApplyWrite(w, s.versions[s.Latest()])
    ensures var s' := Commit(s, w, stored);
            && HistoryOk(s')
            && (forall id | id in s.calls && CallOk(s, id, s.calls[id]) && (w.AgentWrite? ==> w.call != id) ::
                  CallOk(s', id, s.calls[id]))
            && (forall id :: Writes(s'.log, id) == Writes(s.log, id) + if w.AgentWrite? && w.call == id then 1 else 0)
  {
    var s' := Commit(s, w, stored);
    assert s'.log[..|s'.log| - 1] == s.log;
    forall i | 0 <= i < |s'.log| ensures s'.versions[i + 1] == ApplyWrite(s'.log[i], s'.versions[i]) {
      if i < |s.log| {
        assert s.versions[i + 1] == ApplyWrite(s.log[i], s.versions[i]);
      }
    }
  }

  lemma WinningPutKeepsInv(s: Sys, id: nat, c: Call)
    requires Inv(s) && id in s.calls && s.calls[id] == c && c.pc.Putting? && c.pc.rv == s.Latest()
    ensures HistoryOk(Step(s, Put(id))) && CallsOk(Step(s, Put(id)))
    ensures GenerationsOk(Step(s, Put(id)))
  {
    var w := AgentWrite(id, c.mutation, c.pc.gen);
    var stored := s.versions[s.Latest()].(status := c.pc.payload);
    assert stored == ApplyWrite(w, s.versions[s.Latest()]);
    CommitKeepsOthers(s, w, stored);
    var m := Commit(s, w, stored);
    var s' := Step(s, Put(id));
    assert s'.versions == m.versions && s'.log == m.log;
    forall i | i in s'.calls ensures CallOk(s', i, s'.calls[i]) {
      if i != id {
        assert CallOk(s, i, s.calls[i]) && CallOk(m, i, s.calls[i]);
      }
    }
    LogGrows(s, w, stored);
  }

  lemma LogGrows(s: Sys, w: Write, stored: Device)
    ensures var s' := Commit(s, w, stored);
            && |s'.log| == |s.log| + 1 && s'.log[|s.log|] == w
            && forall i | 0 <= i < |s.log| :: s'.log[i] == s.log[i]
  {
  }

  lemma LosingPutKeepsInv(s: Sys, id: nat, c: Call)
    requires Inv(s) && id in s.calls && s.calls[id] == c && c.pc.Putting? && c.pc.rv != s.Latest()
    ensures Inv(Step(s, Put(id)))
  {
    var s' := Step(s, Put(id));
    forall i | i in s'.calls ensures CallOk(s', i, s'.calls[i]) {
      assert CallOk(s, i, s.calls[i]);
    }
  }

  lemma PutKeepsInv(s: Sys, id: nat)
    requires Inv(s) && id in s.calls
    ensures Inv(Step(s, Put(id)))
  {
    var c := s.calls[id];
    if c.pc.Putting? {
      if c.pc.rv == s.Latest() {
        WinningPutKeepsInv(s, id, c);
      } else {
        LosingPutKeepsInv(s, id, c);
      }
    }
  }

  lemma RequestFailsKeepsInv(s: Sys, id: nat)
    requires Inv(s) && id in s.calls
    ensures Inv(Step(s, RequestFails(id)))
  {
    var s' := Step(s, RequestFails(id));
    forall i | i in s'.calls ensures CallOk(s', i, s'.calls[i]) {
      assert CallOk(s, i, s.calls[i]);
    }
  }

  lemma MutateKeepsInv(s: Sys, id: nat)
    requires Inv(s) && id in s.calls
    ensures Inv(Step(s, Mutate(id)))
  {
    var s' := Step(s, Mutate(id));
    forall i | i in s'.calls ensures CallOk(s', i, s'.calls[i]) {
      assert CallOk(s, i, s.calls[i]);
    }
  }

  lemma CommitKeepsInv(s: Sys, w: Write)
    requires Inv(s) && !w.AgentWrite?
    ensures Inv(Commit(s, w, ApplyWrite(w, s.versions[s.Latest()])))
  {
    var stored := ApplyWrite(w, s.versions[s.Latest()]);
    CommitKeepsOthers(s, w, stored);
    var s' := Commit(s, w, stored);
    assert forall i | 0 <= i < |s.log| :: s'.log[i] == s.log[i];
  }

  lemma GetKeepsInv(s: Sys, id: nat)
    requires Inv(s) && id in s.calls
    ensures Inv(Step(s, Get(id)))
  {
    var s' := Step(s, Get(id));
    forall i | i in s'.calls ensures CallOk(s', i, s'.calls[i]) {
      assert CallOk(s, i, s.calls[i]);
    }
  }

  lemma PollGetKeepsInv(s: Sys)
    requires Inv(s)
    ensures Inv(Step(s, PollGet))
  {
    forall i | i in s.calls ensures CallOk(Step(s, PollGet), i, s.calls[i]) {
      assert CallOk(s, i, s.calls[i]);
    }
  }

  lemma PollStoreKeepsInv(s: Sys)
    requires Inv(s)
    ensures Inv(Step(s, PollStore))
  {
    forall i | i in s.calls ensures CallOk(Step(s, PollStore), i, s.calls[i]) {
      assert CallOk(s, i, s.calls[i]);
    }
  }

  lemma OperatorKeepsInv(s: Sys, read: nat, now: int, timeout: int)
    requires Inv(s)
    ensures Inv(Step(s, OperatorPass(read, now, timeout)))
  {
    CommitKeepsInv(s, OperatorWrite(now, timeout));
  }

  lemma UserKeepsInv(s: Sys, spec: Spec)
    requires Inv(s)
    ensures Inv(Step(s, UserWrite(spec)))
  {
    CommitKeepsInv(s, SpecWrite(spec));
  }

  lemma StepKeepsInv(s: Sys, e: Event)
    requires Inv(s)
    ensures Inv(Step(s, e))
  {
    match e {
      case Begin(id, m) => BeginKeepsInv(s, id, m);
      case Get(id) => if id in s.calls { GetKeepsInv(s, id); }
      case Mutate(id) => if id in s.calls { MutateKeepsInv(s, id); }
      case Put(id) => if id in s.calls { PutKeepsInv(s, id); }
      case RequestFails(id) => if id in s.calls { RequestFailsKeepsInv(s, id); }
      case PollGet => PollGetKeepsInv(s);
      case PollStore => PollStoreKeepsInv(s);
      case OperatorPass(read, now, timeout) => OperatorKeepsInv(s, read, now, timeout);
      case UserWrite(spec) => UserKeepsInv(s, spec);
    }
  }

  lemma BeginKeepsInv(s: Sys, id: nat, m: Mutation)
    requires Inv(s)
    ensures Inv(Step(s, Begin(id, m)))
  {
    if id !in s.calls {
      NoWritesBefore(s.log, id);
    }
  }

  lemma {:induction false} NoWritesBefore(log: seq<Write>, id: nat)
    requires forall i | 0 <= i < |log| && log[i].AgentWrite? :: log[i].call != id
    ensures Writes(log, id) == 0
    decreases |log|
  {
    if log != [] {
      NoWritesBefore(log[..|log| - 1], id);
    }
  }

  lemma {:induction false} RunKeepsInv(s: Sys, es: seq<Event>)
    requires Inv(s)
    ensures Inv(Run(s, es))
    decreases |es|
  {
    if es != [] {
      RunKeepsInv(s, es[..|es| - 1]);
      StepKeepsInv(Run(s, es[..|es| - 1]), es[|es| - 1]);
    }
  }
}
