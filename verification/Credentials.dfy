/**
 Finalizer and credential protocol of internal/controller/edgedevice_controller.go: reconcile
 passes that read the device and the Secret from a cache lagging behind the API server, calls that
 fail before or after taking effect, and users deleting and recreating the device under one name.
 */
module Credentials {
  import opened Wrappers

  /** The device object under its one name; `last` is the UID of the most recent instance. */
  datatype Dev =
    | Absent(last: nat)
    | Present(id: nat, finalizer: bool, deleting: bool)
  {
    function Uid(): nat {
      if Absent? then last else id
    }

    predicate Holds() {
      Present? && finalizer
    }

    predicate Alive(uid: nat) {
      Present? && !deleting && id == uid
    }

    /** An instance the operator provisions a credential for. */
    predicate Served() {
      Present? && finalizer && !deleting
    }
  }

  datatype Secret = Secret(uid: nat, token: nat)

  /**
   The API server. `devs[rv]` is the device at resourceVersion `rv` and `secrets[rv]` the Secret at
   its own; `minted[t]` is the UID that token `t` was stored for; `cached` is the newest device
   version any pass has read.
   */
  datatype Api = Api(devs: seq<Dev>, secrets: seq<Option<Secret>>, minted: seq<nat>, cached: nat) {
    predicate Wf() {
      devs != [] && secrets != [] && cached < |devs|
    }

    function Device(): Dev
      requires devs != []
    {
      devs[|devs| - 1]
    }

    function Current(): Option<Secret>
      requires secrets != []
    {
      secrets[|secrets| - 1]
    }

    function Put(d: Dev): Api {
      this.(devs := devs + [d])
    }

    function Store(s: Option<Secret>): Api {
      this.(secrets := secrets + [s])
    }

    /** Update of the device, refused unless it is still at version `rv`; a device deleted and without finalizer goes. */
    function UpdateDevice(rv: nat, d: Dev): Api
      requires Wf() && d.Present?
    {
      if rv != |devs| - 1 then this
      else Put(if d.deleting && !d.finalizer then Absent(d.id) else d)
    }

    function DeleteSecret(): Api
      requires Wf()
    {
      if Current().None? then this else Store(None)
    }

    function CreateSecret(uid: nat): Api
      requires Wf()
    {
      if Current().Some? then this
      else Store(Some(Secret(uid, |minted|))).(minted := minted + [uid])
    }

    /** Update of the Secret read at version `rv`, with a new stamp and a new token. */
    function RotateSecret(rv: nat, uid: nat): Api
      requires Wf()
    {
      if rv != |secrets| - 1 || Current().None? then this
      else Store(Some(Secret(uid, |minted|))).(minted := minted + [uid])
    }
  }

  /** The call a pass makes next; `rv` is the version of the device it decided on. */
  datatype Pass =
    | NoPass
    | Revoking(rv: nat)
    | Stripping(rv: nat)
    | AddingFinalizer(rv: nat)
    | ReadingSecret(rv: nat)
    | Creating(rv: nat)
    | Rotating(rv: nat, secretRv: nat)
    | WritingStatus(rv: nat)

  datatype Sys = Sys(api: Api, pass: Pass)

  datatype Event =
    | Read(rv: nat)                           // a pass starts from a cached version, never an older one than before
    | Call(effect: bool, ok: bool)            // the next write of the pass: does it happen, and is it answered
    | CallRead(secretRv: nat, ok: bool)       // the pass reads the Secret from its cache
    | Skip                                    // the projected status equals the stored one: no status write
    | OperatorRestart
    | UserCreate(finalizer: bool)
    | UserDelete
    | Touch                                   // status and spec writes of others

  /** What Reconcile does first with the device it has read. */
  function FirstCall(rv: nat, d: Dev): Pass {
    if d.Absent? then NoPass
    else if d.deleting then (if d.finalizer then Revoking(rv) else NoPass)
    else if !d.finalizer then AddingFinalizer(rv)
    else ReadingSecret(rv)
  }

  /** ensureCredentialSecret once it has the Secret: nothing to do, rotate a foreign one, or create. */
  function AfterSecretRead(rv: nat, uid: nat, found: Option<Secret>, secretRv: nat): Pass {
    if found.None? then Creating(rv)
    else if found.value.uid == uid then WritingStatus(rv)
    else Rotating(rv, secretRv)
  }

  function Effect(a: Api, p: Pass): Api
    requires a.Wf()
  {
    match p
    case Revoking(_) => a.DeleteSecret()
    case Stripping(rv) =>
      if rv < |a.devs| && a.devs[rv].Present? then a.UpdateDevice(rv, a.devs[rv].(finalizer := false)) else a
    case AddingFinalizer(rv) =>
      if rv < |a.devs| && a.devs[rv].Present? then a.UpdateDevice(rv, a.devs[rv].(finalizer := true)) else a
    case Creating(rv) => if rv < |a.devs| then a.CreateSecret(a.devs[rv].Uid()) else a
    case Rotating(rv, s) => if rv < |a.devs| then a.RotateSecret(s, a.devs[rv].Uid()) else a
    case WritingStatus(rv) => if rv == |a.devs| - 1 then a.Put(a.devs[rv]) else a
    case _ => a
  }

  /** The call is a conditional update and its version is not the latest. */
  predicate Refused(a: Api, p: Pass)
    requires a.Wf()
  {
    match p
    case Stripping(rv) => rv != |a.devs| - 1
    case AddingFinalizer(rv) => rv != |a.devs| - 1
    case WritingStatus(rv) => rv != |a.devs| - 1
    case Rotating(_, s) => s != |a.secrets| - 1 || a.Current().None?
    case _ => false
  }

  function Following(p: Pass): Pass {
    match p
    case Revoking(rv) => Stripping(rv)
    case Creating(rv) => WritingStatus(rv)
    case Rotating(rv, _) => WritingStatus(rv)
    case _ => NoPass
  }

  function Step(s: Sys, e: Event): (r: Sys)
    requires s.api.Wf()
    ensures r.api.Wf()
  {
    var a := s.api;
    match e
    case Read(rv) =>
      if s.pass.NoPass? && a.cached <= rv < |a.devs| then Sys(a.(cached := rv), FirstCall(rv, a.devs[rv])) else s
    case Call(effect, ok) =>
      if s.pass.NoPass? || s.pass.ReadingSecret? then s
      // A failed, unanswered or refused call ends the pass.
      else Sys(if ok || effect then Effect(a, s.pass) else a,
               if ok && !Refused(a, s.pass) then Following(s.pass) else NoPass)
    case CallRead(secretRv, ok) =>
      if !s.pass.ReadingSecret? || secretRv >= |a.secrets| || s.pass.rv >= |a.devs| then s
      else if ok then
        s.(pass := AfterSecretRead(s.pass.rv, a.devs[s.pass.rv].Uid(), a.secrets[secretRv], secretRv))
      else s.(pass := NoPass)
    case Skip => if s.pass.WritingStatus? then s.(pass := NoPass) else s
    case OperatorRestart => s.(pass := NoPass)
    case UserCreate(finalizer) =>
      if a.Device().Absent? then s.(api := a.Put(Present(a.Device().last + 1, finalizer, false))) else s
    case UserDelete =>
      var d := a.Device();
      if d.Absent? then s
      else s.(api := a.Put(if d.finalizer then d.(deleting := true) else Absent(d.id)))
    case Touch => s.(api := a.Put(a.Device()))
  }

  /** A namespace before the device's first instance. */
  const EMPTY := Sys(Api([Absent(0)], [None], [], 0), NoPass)

  // ---- Invariant ----

  /** UIDs only grow; an instance that is gone or being deleted stays so. */
  predicate HistoryOk(devs: seq<Dev>) {
    && (forall i, j | 0 <= i <= j < |devs| :: devs[i].Uid() <= devs[j].Uid())
    && (forall i, j | 0 <= i <= j < |devs| && devs[i].Uid() == devs[j].Uid() ::
          && (devs[i].Absent? ==> devs[j].Absent?)
          && (devs[i].Present? && devs[i].deleting ==> devs[j].Absent? || devs[j].deleting))
  }

  /** An instance served in a version no pass has gone beyond keeps its finalizer. */
  predicate ServedStays(devs: seq<Dev>, cached: nat) {
    forall i, j | cached <= i <= j < |devs| && devs[i].Served() :: devs[j].Holds() && devs[j].id == devs[i].id
  }

  predicate SecretOk(a: Api)
    requires a.Wf()
  {
    a.Current().Some? ==> a.Device().Holds() && a.Device().id == a.Current().value.uid
                          && a.Current().value.uid in a.minted
  }

  /** A UID with a token has been read; without its Secret it is never served again. */
  predicate MintedOk(a: Api)
    requires a.Wf()
  {
    && (forall i, j | 0 <= i < j < |a.minted| :: a.minted[i] != a.minted[j])
    && (forall u | u in a.minted :: u <= a.devs[a.cached].Uid())
    && (forall u, i | u in a.minted && a.cached <= i < |a.devs| && a.devs[i].Alive(u) ::
          a.devs[i].finalizer && a.Current().Some? && a.Current().value.uid == u)
  }

  predicate PassOk(a: Api, p: Pass)
    requires a.Wf()
  {
    match p
    case NoPass => true
    case Revoking(rv) => rv == a.cached && a.devs[rv].Present? && a.devs[rv].deleting
    case Stripping(rv) => rv == a.cached && a.devs[rv].Present? && a.devs[rv].deleting && a.Current().None?
    case AddingFinalizer(rv) => rv == a.cached && a.devs[rv].Present? && !a.devs[rv].deleting
    case Rotating(rv, seen) =>
      && rv == a.cached && a.devs[rv].Served()
      && seen < |a.secrets| && a.secrets[seen].Some? && a.secrets[seen].value.uid != a.devs[rv].id
    case _ => p.rv == a.cached && a.devs[p.rv].Served()
  }

  predicate Inv(s: Sys) {
    && s.api.Wf()
    && HistoryOk(s.api.devs) && ServedStays(s.api.devs, s.api.cached)
    && SecretOk(s.api) && MintedOk(s.api) && PassOk(s.api, s.pass)
  }

  /** Appending a version of the device that keeps what earlier versions promised. */
  lemma PutKeeps(a: Api, d: Dev)
    requires a.Wf() && HistoryOk(a.devs) && ServedStays(a.devs, a.cached)
    requires a.Device().Uid() <= d.Uid()
    requires a.Device().Uid() == d.Uid() ==>
               && (a.Device().Absent? ==> d.Absent?)
               && (a.Device().Present? && a.Device().deleting ==> d.Absent? || d.deleting)
    requires forall i | a.cached <= i < |a.devs| && a.devs[i].Served() :: d.Holds() && d.id == a.devs[i].id
    ensures a.Put(d).Wf() && HistoryOk(a.Put(d).devs) && ServedStays(a.Put(d).devs, a.cached)
  {
    var devs := a.Put(d).devs;
    assert forall i | 0 <= i < |a.devs| :: devs[i] == a.devs[i];
  }

  lemma WriteKeepsInv(s: Sys, d: Dev, p: Pass)
    requires Inv(s) && (p == s.pass || p == NoPass)
    requires s.api.Device().Uid() == d.Uid()
    requires s.api.Device().Absent? ==> d.Absent?
    requires s.api.Device().Present? && s.api.Device().deleting ==> d.Absent? || d.deleting
    requires s.api.Device().Holds() ==> d.Holds()
    ensures Inv(Sys(s.api.Put(d), p))
  {
    var a := s.api;
    forall i | a.cached <= i < |a.devs| && a.devs[i].Served() ensures d.Holds() && d.id == a.devs[i].id {
      assert a.Device().Holds() && a.Device().id == a.devs[i].id;
    }
    PutKeeps(a, d);
    var b := a.Put(d);
    assert forall i | 0 <= i < |a.devs| :: b.devs[i] == a.devs[i];
    forall u, i | u in b.minted && b.cached <= i < |b.devs| && b.devs[i].Alive(u)
      ensures b.devs[i].finalizer && b.Current().Some? && b.Current().value.uid == u
    {
      if i == |a.devs| {
        assert a.devs[|a.devs| - 1].Alive(u);
      }
    }
  }

  lemma NoneServed(s: Sys)
    requires Inv(s) && !s.api.Device().Holds()
    ensures forall i | s.api.cached <= i < |s.api.devs| :: !s.api.devs[i].Served()
  {
    assert s.api.Device() == s.api.devs[|s.api.devs| - 1];
  }

  /** A fresh instance has no token yet. */
  lemma NewUid(a: Api, d: Dev)
    requires a.Wf() && HistoryOk(a.devs) && MintedOk(a) && a.Device().Uid() < d.Uid()
    ensures d.Uid() !in a.minted
  {
    assert a.devs[a.cached].Uid() <= a.devs[|a.devs| - 1].Uid();
  }

  lemma NewInstanceKeepsMinted(a: Api, d: Dev)
    requires a.Wf() && MintedOk(a) && d.Uid() !in a.minted
    ensures MintedOk(a.Put(d))
  {
    var b := a.Put(d);
    assert forall i | 0 <= i < |a.devs| :: b.devs[i] == a.devs[i];
  }

  lemma UserCreateKeepsInv(s: Sys, finalizer: bool)
    requires Inv(s)
    ensures Inv(Step(s, UserCreate(finalizer)))
  {
    var a := s.api;
    if a.Device().Absent? {
      var d := Present(a.Device().last + 1, finalizer, false);
      NoneServed(s);
      PutKeeps(a, d);
      NewUid(a, d);
      NewInstanceKeepsMinted(a, d);
      assert forall i | 0 <= i < |a.devs| :: a.Put(d).devs[i] == a.devs[i];
    }
  }

  lemma UserDeleteKeepsInv(s: Sys)
    requires Inv(s)
    ensures Inv(Step(s, UserDelete))
  {
    var d := s.api.Device();
    if d.Present? {
      if d.finalizer {
        WriteKeepsInv(s, d.(deleting := true), s.pass);
      } else {
        NoneServed(s);
        GoneKeepsInv(s, s.pass);
      }
    }
  }

  /** An instance no Secret depends on disappears. */
  lemma GoneKeepsInv(s: Sys, p: Pass)
    requires Inv(s) && (p == s.pass || p == NoPass) && s.api.Device().Present?
    requires s.api.Current().None?
    requires forall i | s.api.cached <= i < |s.api.devs| :: !s.api.devs[i].Served()
    ensures Inv(Sys(s.api.Put(Absent(s.api.Device().id)), p))
  {
    var a, d := s.api, Absent(s.api.Device().id);
    PutKeeps(a, d);
    var b := a.Put(d);
    assert forall i | 0 <= i < |a.devs| :: b.devs[i] == a.devs[i];
  }

  // ---- The writes of a pass ----

  /** The Secret a deleting pass removes belongs to the very instance it has read. */
  lemma RevokeKeepsInv(s: Sys)
    requires Inv(s) && s.pass.Revoking?
    ensures Inv(Sys(s.api.DeleteSecret(), NoPass)) && Inv(Sys(s.api.DeleteSecret(), Stripping(s.pass.rv)))
  {
    var a, b := s.api, s.api.DeleteSecret();
    if a.Current().Some? {
      var w := a.Current().value.uid;
      assert a.devs[a.cached].Uid() <= a.devs[|a.devs| - 1].Uid() == w;
      forall i | a.cached <= i < |a.devs| ensures a.devs[i].Absent? || a.devs[i].deleting {
        assert a.devs[a.cached].Uid() <= a.devs[i].Uid() <= a.devs[|a.devs| - 1].Uid();
      }
    }
  }

  lemma StripKeepsInv(s: Sys)
    requires Inv(s) && s.pass.Stripping?
    ensures Inv(Sys(Effect(s.api, s.pass), NoPass))
  {
    var a, rv := s.api, s.pass.rv;
    if rv == |a.devs| - 1 {
      assert forall i | a.cached <= i < |a.devs| :: !a.devs[i].Served();
      GoneKeepsInv(s, NoPass);
    }
  }

  lemma AddFinalizerKeepsInv(s: Sys)
    requires Inv(s) && s.pass.AddingFinalizer?
    ensures Inv(Sys(Effect(s.api, s.pass), NoPass))
  {
    var a, rv := s.api, s.pass.rv;
    if rv == |a.devs| - 1 {
      WriteKeepsInv(s, a.devs[rv].(finalizer := true), NoPass);
    }
  }

  /** A Secret is created only for an instance that still holds the finalizer and never had a token. */
  lemma CreateKeepsInv(s: Sys)
    requires Inv(s) && s.pass.Creating?
    ensures Inv(Sys(Effect(s.api, s.pass), NoPass)) && Inv(Sys(Effect(s.api, s.pass), WritingStatus(s.pass.rv)))
  {
    var a, rv := s.api, s.pass.rv;
    var u := a.devs[rv].id;
    assert a.devs[rv].Alive(u);
    assert a.devs[|a.devs| - 1].Holds() && a.devs[|a.devs| - 1].id == u;
    if a.Current().None? {
      assert u !in a.minted;
      var b := Effect(a, s.pass);
      assert forall v :: v in b.minted <==> v in a.minted || v == u;
      forall v, i | v in b.minted && b.cached <= i < |b.devs| && b.devs[i].Alive(v)
        ensures b.devs[i].finalizer && b.Current().Some? && b.Current().value.uid == v
      {
        assert b.devs[i].Holds() && b.devs[i].id == u;
      }
    }
  }

  /** With nobody else touching Secrets, the rotation of a foreign Secret never finds it still there. */
  lemma RotateHasNoEffect(s: Sys)
    requires Inv(s) && s.pass.Rotating?
    ensures Refused(s.api, s.pass) && Effect(s.api, s.pass) == s.api
  {
    var a := s.api;
    assert a.devs[|a.devs| - 1].Holds() && a.devs[|a.devs| - 1].id == a.devs[s.pass.rv].id;
  }

  lemma StepKeepsInv(s: Sys, e: Event)
    requires Inv(s)
    ensures Inv(Step(s, e))
  {
    match e {
      case Read(_) =>
      case Call(effect, ok) => CallKeepsInv(s, effect, ok);
      case CallRead(_, _) =>
      case Skip =>
      case OperatorRestart =>
      case UserCreate(finalizer) => UserCreateKeepsInv(s, finalizer);
      case UserDelete => UserDeleteKeepsInv(s);
      case Touch => WriteKeepsInv(s, s.api.Device(), s.pass);
    }
  }

  lemma CallKeepsInv(s: Sys, effect: bool, ok: bool)
    requires Inv(s)
    ensures Inv(Step(s, Call(effect, ok)))
  {
    match s.pass {
      case NoPass =>
      case Revoking(_) => RevokeKeepsInv(s);
      case Stripping(_) => StripKeepsInv(s);
      case AddingFinalizer(_) => AddFinalizerKeepsInv(s);
      case ReadingSecret(_) =>
      case Creating(_) => CreateKeepsInv(s);
      case Rotating(_, _) => RotateHasNoEffect(s);
      case WritingStatus(rv) =>
        if rv == |s.api.devs| - 1 {
          WriteKeepsInv(s, s.api.devs[rv], NoPass);
        }
    }
  }

  function Run(s: Sys, es: seq<Event>): (r: Sys)
    requires s.api.Wf()
    ensures r.api.Wf()
    decreases |es|
  {
    if es == [] then s else Step(Run(s, es[..|es| - 1]), es[|es| - 1])
  }

  lemma {:induction false} RunKeepsInv(s: Sys, es: seq<Event>)
    requires Inv(s)
    ensures Inv(Run(s, es))
    decreases |es|
  {
    if es != [] {
      RunKeepsInv(s, es[..|es| - 1]);
      StepKeepsInv(Run(s, es[..|es| - 1]), es[|es| - 1]);
    }
  }

  /**
   Credential lifecycle: over any run of passes, lost answers, failed calls, operator restarts and
   users creating, deleting and recreating the device, a Secret stamped with a UID exists only while
   exactly that instance exists and holds the finalizer, and no UID is ever given a second token.
   */
  lemma CredentialLifecycle(es: seq<Event>)
    ensures var a := Run(EMPTY, es).api;
            && (a.Current().Some? ==>
                  a.Device().Present? && a.Device().finalizer && a.Device().id == a.Current().value.uid)
            && (forall i, j | 0 <= i < j < |a.minted| :: a.minted[i] != a.minted[j])
  {
    RunKeepsInv(EMPTY, es);
  }

  lemma StatusWriteIsHarmless(a: Api, rv: nat)
    requires a.Wf()
    ensures var b := Effect(a, WritingStatus(rv)); b.Wf() && b.Device() == a.Device() && b.secrets == a.secrets
  {
  }

  // ---- One pass, as the code runs it ----

  datatype Answer = Answer(effect: bool, ok: bool)

  class Reconciler {
    var api: Api
    ghost var events: seq<Event>    // the steps of the machine this pass has taken
    ghost var start: Sys

    constructor (api: Api)
      ensures this.api == api
    {
      this.api, this.events, this.start := api, [], Sys(api, NoPass);
    }

    /** The calls so far are a run of the machine, which now stands at `p`. */
    ghost predicate At(p: Pass)
      reads this
    {
      api.Wf() && start.api.Wf() && Run(start, events) == Sys(api, p)
    }

    /** One write of the pass. */
    method Write(p: Pass, after: Api, answer: Answer) returns (err: bool)
      requires At(p) && !p.NoPass? && !p.ReadingSecret? && after == Effect(api, p)
      modifies this
      ensures start == old(start) && old(api).Wf() && err == (!answer.ok || Refused(old(api), p))
      ensures At(if err then NoPass else Following(p))
      ensures api == if answer.ok || answer.effect then after else old(api)
    {
      ghost var e := Call(answer.effect, answer.ok);
      assert (events + [e])[..|events|] == events;
      err := !answer.ok || Refused(api, p);
      if answer.ok || answer.effect {
        api := after;
      }
      events := events + [e];
    }

    /**
     One Reconcile, on the cached device version `rv` and Secret version `secretRv`; `secretOk` says
     whether the Secret can be read, `differs` whether the projected status differs from the stored
     one, and `answers` how its writes fare. A pass is a run of the machine; it reports an error
     exactly when one of its calls fails or is refused; and one that works on current versions and
     meets no error has done what it is for.
     */
    method Reconcile(rv: nat, secretRv: nat, secretOk: bool, differs: bool, answers: seq<Answer>) returns (err: bool)
      requires Inv(Sys(api, NoPass)) && api.cached <= rv < |api.devs| && secretRv < |api.secrets| && |answers| >= 2
      modifies this
      ensures start == Sys(old(api), NoPass) && Run(start, events) == Sys(api, NoPass) && Inv(Sys(api, NoPass))
      ensures err <==> Fails(old(api), rv, secretRv, secretOk, differs, answers)
      ensures api == Left(old(api), rv, secretRv, secretOk, differs, answers)
      ensures !err && rv == |old(api).devs| - 1 && secretRv == |old(api).secrets| - 1 ==>
                match old(api).Device()
                case Absent(_) => api == old(api).(cached := rv)
                case Present(id, finalizer, deleting) =>
                  if deleting then
                    if finalizer then api.Device() == Absent(id) && api.Current() == None
                    else api == old(api).(cached := rv)
                  else if !finalizer then api.Device() == Present(id, true, false)
                  else api.Device() == old(api).Device() && api.Current().Some? && api.Current().value.uid == id
    {
      events, start := [], Sys(api, NoPass);
      err := false;
      var dev := api.devs[rv];
      api := api.(cached := rv);
      events := [Read(rv)];
      assert events[..0] == [];
      assert At(FirstCall(rv, dev));
      if dev.Present? {
        if dev.deleting {
          if dev.finalizer {
            err := Release(rv, dev, answers);
          }
        } else if !dev.finalizer {
          err := Write(AddingFinalizer(rv), api.UpdateDevice(rv, dev.(finalizer := true)), answers[0]);
        } else {
          err := Provision(rv, dev, secretRv, secretOk, differs, answers);
        }
      }
      RunKeepsInv(start, events);
    }

    /** The deletion path: revoke the credential, then let the object go. */
    method Release(rv: nat, dev: Dev, answers: seq<Answer>) returns (err: bool)
      requires At(Revoking(rv)) && rv < |api.devs| && dev == api.devs[rv] && dev.Present? && dev.deleting && |answers| >= 2
      modifies this
      ensures start == old(start) && At(NoPass)
      ensures err <==> !answers[0].ok || !answers[1].ok || rv != |old(api).devs| - 1
      ensures old(api).Wf() && api == LeftByRelease(old(api), rv, answers)
      ensures !err ==> api.Device() == Absent(dev.id) && api.Current() == None
    {
      err := Write(Revoking(rv), api.DeleteSecret(), answers[0]);
      if !err {
        err := Write(Stripping(rv), api.UpdateDevice(rv, dev.(finalizer := false)), answers[1]);
      }
    }

    /** The rest of a pass over a live device with its finalizer: credential, then status. */
    method Provision(rv: nat, dev: Dev, secretRv: nat, secretOk: bool, differs: bool, answers: seq<Answer>)
      returns (err: bool)
      requires At(ReadingSecret(rv)) && rv < |api.devs| && dev == api.devs[rv] && dev.Present?
      requires secretRv < |api.secrets| && |answers| >= 2
      modifies this
      ensures start == old(start) && At(NoPass) && old(api).devs != []
      ensures api.Device() == old(api).Device()
      ensures api == LeftByProvision(old(api), rv, dev.id, secretRv, secretOk, differs, answers)
      ensures err <==>
                || CredentialFails(old(api), dev.id, secretRv, secretOk, answers[0])
                || (differs && (!answers[1].ok || rv != |old(api).devs| - 1))
      ensures !err && secretRv == |old(api).secrets| - 1 ==> api.Current().Some? && api.Current().value.uid == dev.id
    {
      err := EnsureCredential(rv, dev, secretRv, secretOk, answers[0]);
      if !err {
        err := WriteStatus(rv, differs, answers[1]);
      }
    }

    /** The diff-gated status write. */
    method WriteStatus(rv: nat, differs: bool, answer: Answer) returns (err: bool)
      requires At(WritingStatus(rv))
      modifies this
      ensures start == old(start) && At(NoPass) && old(api).Wf()
      ensures api.Device() == old(api).Device() && api.secrets == old(api).secrets
      ensures api == if differs then Answered(old(api), WritingStatus(rv), answer) else old(api)
      ensures err <==> differs && (!answer.ok || rv != |old(api).devs| - 1)
    {
      if differs {
        StatusWriteIsHarmless(api, rv);
        err := Write(WritingStatus(rv), Effect(api, WritingStatus(rv)), answer);
      } else {
        assert (events + [Skip])[..|events|] == events;
        events := events + [Skip];
        err := false;
      }
    }

    /** Gate 2: an own Secret is left alone, a foreign one rotated, a missing one created. */
    method EnsureCredential(rv: nat, dev: Dev, secretRv: nat, secretOk: bool, answer: Answer) returns (err: bool)
      requires At(ReadingSecret(rv)) && rv < |api.devs| && dev == api.devs[rv] && dev.Present?
      requires secretRv < |api.secrets|
      modifies this
      ensures start == old(start) && At(if err then NoPass else WritingStatus(rv))
      ensures api.devs == old(api).devs
      ensures err <==> CredentialFails(old(api), dev.id, secretRv, secretOk, answer)
      ensures api == LeftByCredential(old(api), rv, dev.id, secretRv, secretOk, answer)
      ensures !err && secretRv == |old(api).secrets| - 1 ==> api.Current().Some? && api.Current().value.uid == dev.id
    {
      ghost var e := CallRead(secretRv, secretOk);
      assert (events + [e])[..|events|] == events;
      events := events + [e];
      if !secretOk {
        return true;
      }
      var existing := api.secrets[secretRv];
      if existing.Some? {
        if existing.value.uid == dev.id {
          return false;
        }
        err := Write(Rotating(rv, secretRv), api.RotateSecret(secretRv, dev.id), answer);
      } else {
        err := Write(Creating(rv), api.CreateSecret(dev.id), answer);
      }
    }
  }

  // ---- What a pass leaves behind ----

  /** The effect of a call: none if it failed without one. */
  function Answered(a: Api, p: Pass, answer: Answer): Api
    requires a.Wf()
  {
    if answer.ok || answer.effect then Effect(a, p) else a
  }

  function LeftByRelease(a: Api, rv: nat, answers: seq<Answer>): Api
    requires a.Wf() && |answers| >= 2
  {
    var revoked := Answered(a, Revoking(rv), answers[0]);
    if answers[0].ok then Answered(revoked, Stripping(rv), answers[1]) else revoked
  }

  function LeftByCredential(a: Api, rv: nat, uid: nat, secretRv: nat, secretOk: bool, answer: Answer): (r: Api)
    requires a.Wf() && secretRv < |a.secrets|
    ensures r.Wf()
  {
    var found := a.secrets[secretRv];
    if !secretOk || (found.Some? && found.value.uid == uid) then a
    else Answered(a, if found.None? then Creating(rv) else Rotating(rv, secretRv), answer)
  }

  function LeftByProvision(a: Api, rv: nat, uid: nat, secretRv: nat, secretOk: bool, differs: bool, answers: seq<Answer>): Api
    requires a.Wf() && secretRv < |a.secrets| && |answers| >= 2
  {
    var b := LeftByCredential(a, rv, uid, secretRv, secretOk, answers[0]);
    if differs && !CredentialFails(a, uid, secretRv, secretOk, answers[0]) then Answered(b, WritingStatus(rv), answers[1]) else b
  }

  /** The API server after a pass. */
  function Left(a: Api, rv: nat, secretRv: nat, secretOk: bool, differs: bool, answers: seq<Answer>): Api
    requires a.Wf() && a.cached <= rv < |a.devs| && secretRv < |a.secrets| && |answers| >= 2
  {
    var b := a.(cached := rv);
    match a.devs[rv]
    case Absent(_) => b
    case Present(id, finalizer, deleting) =>
      if deleting then (if finalizer then LeftByRelease(b, rv, answers) else b)
      else if !finalizer then Answered(b, AddingFinalizer(rv), answers[0])
      else LeftByProvision(b, rv, id, secretRv, secretOk, differs, answers)
  }

  /** The credential step fails: the Secret cannot be read, or the write it calls for fails or conflicts. */
  predicate CredentialFails(a: Api, uid: nat, secretRv: nat, secretOk: bool, answer: Answer)
    requires secretRv < |a.secrets|
  {
    var found := a.secrets[secretRv];
    || !secretOk
    || (found.None? && !answer.ok)
    || (found.Some? && found.value.uid != uid && (!answer.ok || secretRv != |a.secrets| - 1))
  }

  /** A pass fails: on a current device version, only by a failing call. */
  predicate Fails(a: Api, rv: nat, secretRv: nat, secretOk: bool, differs: bool, answers: seq<Answer>)
    requires rv < |a.devs| && secretRv < |a.secrets| && |answers| >= 2
  {
    var stale := rv != |a.devs| - 1;
    match a.devs[rv]
    case Absent(_) => false
    case Present(id, finalizer, deleting) =>
      if deleting then finalizer && (!answers[0].ok || !answers[1].ok || stale)
      else if !finalizer then !answers[0].ok || stale
      else CredentialFails(a, id, secretRv, secretOk, answers[0]) || (differs && (!answers[1].ok || stale))
  }

  /** With current reads and calls that all succeed no pass fails. */
  lemma NoErrorWithoutCause(a: Api, rv: nat, secretRv: nat, differs: bool, answers: seq<Answer>)
    requires a.Wf() && rv == |a.devs| - 1 && secretRv == |a.secrets| - 1
    requires |answers| >= 2 && answers[0].ok && answers[1].ok
    ensures !Fails(a, rv, secretRv, true, differs, answers)
  {
  }

  /** What users do is there to be seen: a new instance has a new UID, a deleted one waits for its finalizer. */
  lemma UsersAct(s: Sys, finalizer: bool)
    requires s.api.Wf()
    ensures var d := s.api.Device();
            && (d.Absent? ==> Step(s, UserCreate(finalizer)).api.Device() == Present(d.last + 1, finalizer, false))
            && (d.Present? ==> Step(s, UserDelete).api.Device() ==
                               if d.finalizer then Present(d.id, true, true) else Absent(d.id))
  {
  }
}
