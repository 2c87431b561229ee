/** The worker reconciler of cmd/daemon.go: one worker goroutine per tunnel, reconcile passes under a
    mutex, and workers that return, close their `done` channel and remove themselves whenever they like. */
module Daemon {
  import opened Text
  import opened Sessions
  import Routes

  // ---- fingerprints ----

  const NUL: char := '\U{0}'

  function ControlHost(s: Session): string {
    if s.endpoint.sealosHost != "" then s.endpoint.sealosHost else s.endpoint.host
  }

  function BoolText(b: bool): string {
    if b then "true" else "false"
  }

  function AuthFields(b: Option<BasicAuth>): seq<string> {
    if b.Some? && b.value.enabled then ["true", b.value.username, PasswordHashOf(b.value)] else ["false", "", ""]
  }

  function PolicyText(policy: Option<AccessPolicy>, marshal: AccessPolicy -> string): string {
    if policy.Some? then marshal(policy.value) else ""
  }

  /** Different policies have different JSON, and it is never empty. */
  ghost predicate Faithful(marshal: AccessPolicy -> string) {
    (forall p, q :: marshal(p) == marshal(q) ==> p == q) && forall p :: marshal(p) != ""
  }

  /** The joined fields; marshal is the JSON encoding of an access policy. */
  function FingerprintFields(s: Session, marshal: AccessPolicy -> string): (fields: seq<string>)
    ensures |fields| == 14
  {
    var auth := AuthFields(s.auth.basicAuth);
    [s.tunnelID, ControlHost(s), s.endpoint.localPort, s.endpoint.targetURL, BoolText(s.endpoint.skipVerify),
     s.endpoint.protocol, s.auth.secret, Routes.Label(s.endpoint.routes), auth[0], auth[1], auth[2],
     PolicyText(s.auth.accessPolicy, marshal), s.expiry.ttl, s.expiry.expiresAt]
  }

  /** `daemonTunnelFingerprint`. */
  function Fingerprint(s: Session, marshal: AccessPolicy -> string): string {
    Join(FingerprintFields(s, marshal), [NUL])
  }

  /** The control host is the Sealos host where there is one. */
  predicate SameControlHost(a: Endpoint, b: Endpoint) {
    if a.sealosHost != "" then
      if b.sealosHost != "" then a.sealosHost == b.sealosHost else a.sealosHost == b.host
    else
      if b.sealosHost != "" then a.host == b.sealosHost else a.host == b.host
  }

  /** No login on either side, or the same user name and the same password hash on both. */
  predicate SameLogin(a: Option<BasicAuth>, b: Option<BasicAuth>) {
    if a.Some? && a.value.enabled then
      b.Some? && b.value.enabled && a.value.username == b.value.username
      && PasswordHashOf(a.value) == PasswordHashOf(b.value)
    else b.None? || !b.value.enabled
  }

  /** The JSON agrees, and with it the policy if different policies have different JSON. */
  ghost predicate SamePolicy(a: Option<AccessPolicy>, b: Option<AccessPolicy>, marshal: AccessPolicy -> string) {
    && (a.Some? && b.Some? ==> marshal(a.value) == marshal(b.value))
    && (a.Some? && b.None? ==> marshal(a.value) == "")
    && (a.None? && b.Some? ==> marshal(b.value) == "")
    && (Faithful(marshal) ==> a == b)
  }

  /** Everything a worker uses to serve a tunnel is the same: route prefixes up to normalization, the login as the
      server checks it, and the access policy if its JSON tells policies apart. */
  ghost predicate SameForwarding(a: Session, b: Session, marshal: AccessPolicy -> string) {
    && a.tunnelID == b.tunnelID && SameControlHost(a.endpoint, b.endpoint) && a.auth.secret == b.auth.secret
    && a.endpoint.localPort == b.endpoint.localPort && a.endpoint.targetURL == b.endpoint.targetURL
    && a.endpoint.protocol == b.endpoint.protocol && a.endpoint.skipVerify == b.endpoint.skipVerify
    && a.expiry == b.expiry
    && SameLogin(a.auth.basicAuth, b.auth.basicAuth)
    && SamePolicy(a.auth.accessPolicy, b.auth.accessPolicy, marshal)
    && |a.endpoint.routes| == |b.endpoint.routes|
    && forall i | 0 <= i < |a.endpoint.routes| ::
         Routes.Normalized(a.endpoint.routes[i].path) == Routes.Normalized(b.endpoint.routes[i].path)
         && a.endpoint.routes[i].port == b.endpoint.routes[i].port
  }

  /** NUL-free fields and a validated route table. */
  predicate WellFormed(s: Session, marshal: AccessPolicy -> string) {
    FreeOf(FingerprintFields(s, marshal), NUL) && Routes.ValidTable(s.endpoint.routes)
  }

  predicate ComparableSessions(a: Session, b: Session, marshal: AccessPolicy -> string) {
    WellFormed(a, marshal) && WellFormed(b, marshal)
  }

  /** Equal forwarding inputs give the same fingerprint, whatever else differs between the records. */
  lemma FingerprintDetermined(a: Session, b: Session, marshal: AccessPolicy -> string)
    requires SameForwarding(a, b, marshal)
    ensures Fingerprint(a, marshal) == Fingerprint(b, marshal)
  {
    Routes.LabelDetermined(a.endpoint.routes, b.endpoint.routes);
  }

  /** Equal fingerprints mean equal forwarding inputs. */
  lemma FingerprintInjective(a: Session, b: Session, marshal: AccessPolicy -> string)
    requires ComparableSessions(a, b, marshal)
    requires Fingerprint(a, marshal) == Fingerprint(b, marshal)
    ensures SameForwarding(a, b, marshal)
  {
    var p, q := FingerprintFields(a, marshal), FingerprintFields(b, marshal);
    JoinInjective(p, q, NUL);
    assert p[0] == q[0] && p[1] == q[1] && p[2] == q[2] && p[3] == q[3] && p[4] == q[4];
    assert p[5] == q[5] && p[6] == q[6] && p[7] == q[7] && p[11] == q[11] && p[12] == q[12] && p[13] == q[13];
    assert p[8] == q[8] && p[9] == q[9] && p[10] == q[10];
    assert AuthFields(a.auth.basicAuth) == [p[8], p[9], p[10]] && AuthFields(b.auth.basicAuth) == [q[8], q[9], q[10]];
    Routes.LabelInjective(a.endpoint.routes, b.endpoint.routes);
  }

  // ---- the desired set ----

  /** What `cleanupExpiredDaemonSession` reports: an error, a deletion, no such session, or the record as
      it now is because it is no longer an expired daemon session. */
  datatype Cleanup = Failed | Removed | Missing | Latest(session: Session)

  predicate Desirable(s: Session) {
    s.owner.mode == "daemon" && s.status.connectionState != STOPPED
  }

  /** A worker is wanted for a daemon session that is not stopped; for an expired one, if its clean-up found a record
      that is no longer expired and still such a session. */
  predicate WorkerWanted(listed: Session, expired: Session -> bool, cleanup: string -> Cleanup) {
    if expired(listed) then
      listed.owner.mode == "daemon" && cleanup(listed.tunnelID).Latest?
      && Desirable(cleanup(listed.tunnelID).session)
    else Desirable(listed)
  }

  /** The record a worker is wanted for: a listed daemon session itself, or what is left of an expired one. */
  predicate ComesFrom(wanted: Session, listed: Session, expired: Session -> bool, cleanup: string -> Cleanup) {
    listed.owner.mode == "daemon"
    && (if expired(listed) then cleanup(listed.tunnelID) == Latest(wanted) else wanted == listed)
  }

  ghost predicate KeyedById(desired: map<string, Session>) {
    forall id | id in desired :: desired[id].tunnelID == id
  }

  /** The first half of `reconcile`: which sessions should have a worker. */
  method DesiredSessions(sessions: seq<Session>, expired: Session -> bool, cleanup: string -> Cleanup)
    returns (desired: map<string, Session>)
    requires forall id :: cleanup(id).Latest? ==> cleanup(id).session.tunnelID == id
    ensures KeyedById(desired) && forall id | id in desired :: Desirable(desired[id])
    ensures forall i | 0 <= i < |sessions| && WorkerWanted(sessions[i], expired, cleanup) ::
      sessions[i].tunnelID in desired
    ensures forall id | id in desired :: exists i | 0 <= i < |sessions| ::
      ComesFrom(desired[id], sessions[i], expired, cleanup)
  {
    desired := map[];
    for k := 0 to |sessions|
      invariant KeyedById(desired) && forall id | id in desired :: Desirable(desired[id])
      invariant forall i | 0 <= i < k && WorkerWanted(sessions[i], expired, cleanup) :: sessions[i].tunnelID in desired
      invariant forall id | id in desired :: exists i | 0 <= i < k ::
        ComesFrom(desired[id], sessions[i], expired, cleanup)
    {
      var sess := sessions[k];
      if sess.owner.mode != "daemon" {
        continue;
      }
      if expired(sess) {
        match cleanup(sess.tunnelID)
        case Failed => continue;
        case Removed => continue;
        case Missing => continue;
        case Latest(latest) =>
          sess := latest;
          if sess.owner.mode != "daemon" {
            continue;
          }
      }
      if sess.status.connectionState == STOPPED {
        continue;
      }
      assert ComesFrom(sess, sessions[k], expired, cleanup);
      desired := desired[sess.tunnelID := sess];
    }
  }

  // ---- the state machine ----

  /** A worker goroutine: inside `run`, past it, past `close(done)`, and finished after it removed itself. */
  datatype Phase = Running | Returned | Closed | Exited
  datatype Worker = Worker(session: Session, cancelled: bool, phase: Phase)

  /** Where the one reconcile pass that may hold the mutex stands. */
  datatype Stage = Idle | Sweeping | Cancelling | Starting

  /** The shared map and the workers ever started, with the pass's desired sessions and the keys it has
      still to visit. */
  datatype State = State(managed: map<string, nat>, workers: seq<Worker>, stage: Stage,
                         todo: set<string>, desired: map<string, Session>)

  datatype Action =
    | Begin(wanted: map<string, Session>)
    | Sweep(id: string)
    | SweepEnd
    | Cancel(id: string)
    | CancelEnd
    | Start(id: string)
    | StartEnd
    | Shutdown
    | Return(worker: nat)
    | CloseDone(worker: nat)
    | Reap(worker: nat)

  predicate Done(w: Worker) { w.phase == Closed || w.phase == Exited }

  predicate Settled(w: Worker, desired: map<string, Session>, fp: Session -> string) {
    w.cancelled
    || (w.session.tunnelID in desired && fp(w.session) == fp(desired[w.session.tunnelID]))
  }

  /** The action can be taken. The sweep, cancel and start actions run under the mutex, between a Begin and
      a StartEnd; Reap and Shutdown need the mutex too; a worker returns and closes without it. */
  ghost predicate Enabled(s: State, a: Action) {
    match a
    case Begin(wanted) => s.stage == Idle && KeyedById(wanted)
    case Sweep(id) => s.stage == Sweeping && id in s.todo
    case SweepEnd => s.stage == Sweeping && s.todo == {}
    case Cancel(id) => s.stage == Cancelling && id in s.todo
    case CancelEnd => s.stage == Cancelling && s.todo == {}
    case Start(id) => s.stage == Starting && id in s.todo && id in s.desired
    case StartEnd => s.stage == Starting && s.todo == {}
    case Shutdown => s.stage == Idle
    case Return(w) => w < |s.workers| && s.workers[w].phase == Running
    case CloseDone(w) => w < |s.workers| && s.workers[w].phase == Returned
    case Reap(w) => s.stage == Idle && w < |s.workers| && s.workers[w].phase == Closed
  }

  function SweptManaged(managed: map<string, nat>, workers: seq<Worker>, id: string): map<string, nat> {
    if id in managed && managed[id] < |workers| && Done(workers[managed[id]]) then managed - {id} else managed
  }

  function CancelledWorkers(managed: map<string, nat>, workers: seq<Worker>, id: string,
                            desired: map<string, Session>, fp: Session -> string): seq<Worker> {
    if id in managed && managed[id] < |workers| then
      var w := workers[managed[id]];
      if id !in desired || fp(w.session) != fp(desired[id])
      then workers[managed[id] := w.(cancelled := true)]
      else workers
    else workers
  }

  function AllCancelled(managed: map<string, nat>, workers: seq<Worker>): seq<Worker> {
    seq(|workers|, i requires 0 <= i < |workers| =>
      var id := workers[i].session.tunnelID;
      if id in managed && managed[id] == i then workers[i].(cancelled := true) else workers[i])
  }

  function WithPhase(workers: seq<Worker>, w: nat, phase: Phase): seq<Worker> {
    if w < |workers| then workers[w := workers[w].(phase := phase)] else workers
  }

  function ReapedManaged(managed: map<string, nat>, workers: seq<Worker>, w: nat): map<string, nat> {
    if w < |workers| && workers[w].session.tunnelID in managed && managed[workers[w].session.tunnelID] == w
    then managed - {workers[w].session.tunnelID} else managed
  }

  function Apply(s: State, a: Action, fp: Session -> string): State {
    match a
    case Begin(wanted) => s.(stage := Sweeping, todo := s.managed.Keys, desired := wanted)
    case Sweep(id) => s.(managed := SweptManaged(s.managed, s.workers, id), todo := s.todo - {id})
    case SweepEnd => s.(stage := Cancelling, todo := s.managed.Keys)
    case Cancel(id) =>
      s.(workers := CancelledWorkers(s.managed, s.workers, id, s.desired, fp), todo := s.todo - {id})
    case CancelEnd => s.(stage := Starting, todo := s.desired.Keys)
    case Start(id) =>
      if id in s.managed || id !in s.desired then s.(todo := s.todo - {id})
      else s.(managed := s.managed[id := |s.workers|],
              workers := s.workers + [Worker(s.desired[id], false, Running)], todo := s.todo - {id})
    case StartEnd => s.(stage := Idle)
    case Shutdown => s.(workers := AllCancelled(s.managed, s.workers))
    case Return(w) => s.(workers := WithPhase(s.workers, w, Returned))
    case CloseDone(w) => s.(workers := WithPhase(s.workers, w, Closed))
    case Reap(w) => s.(managed := ReapedManaged(s.managed, s.workers, w), workers := WithPhase(s.workers, w, Exited))
  }

  /** Registered workers sit under their own tunnel id and are not finished; every worker that has not
      closed its `done` channel is the registered one. */
  ghost predicate Registered(managed: map<string, nat>, workers: seq<Worker>) {
    && (forall id | id in managed ::
          managed[id] < |workers| && workers[managed[id]].session.tunnelID == id
            && workers[managed[id]].phase != Exited)
    && (forall w | 0 <= w < |workers| && !Done(workers[w]) ::
          workers[w].session.tunnelID in managed && managed[workers[w].session.tunnelID] == w)
  }

  ghost predicate AllSettled(managed: map<string, nat>, workers: seq<Worker>, except: set<string>,
                             desired: map<string, Session>, fp: Session -> string)
    requires Registered(managed, workers)
  {
    forall id | id in managed && id !in except :: Settled(workers[managed[id]], desired, fp)
  }

  ghost predicate Inv(s: State, fp: Session -> string) {
    && Registered(s.managed, s.workers)
    && (s.stage != Idle ==> KeyedById(s.desired))
    && (s.stage == Cancelling ==> AllSettled(s.managed, s.workers, s.todo, s.desired, fp))
    && (s.stage == Starting ==>
          && AllSettled(s.managed, s.workers, {}, s.desired, fp)
          && forall id | id in s.desired && id !in s.todo :: id in s.managed)
  }

  lemma SweepInv(s: State, id: string, fp: Session -> string)
    requires Inv(s, fp) && Enabled(s, Sweep(id))
    ensures Inv(Apply(s, Sweep(id), fp), fp)
  {}

  lemma CancelInv(s: State, id: string, fp: Session -> string)
    requires Inv(s, fp) && Enabled(s, Cancel(id))
    ensures Inv(Apply(s, Cancel(id), fp), fp)
  {}

  lemma StartInv(s: State, id: string, fp: Session -> string)
    requires Inv(s, fp) && Enabled(s, Start(id))
    ensures Inv(Apply(s, Start(id), fp), fp)
  {}

  lemma PhaseInv(s: State, a: Action, fp: Session -> string)
    requires Inv(s, fp) && Enabled(s, a) && (a.Return? || a.CloseDone?)
    ensures Inv(Apply(s, a, fp), fp)
  {}

  lemma ReapInv(s: State, w: nat, fp: Session -> string)
    requires Inv(s, fp) && Enabled(s, Reap(w))
    ensures Inv(Apply(s, Reap(w), fp), fp)
  {}

  /** Every step keeps the invariant. */
  lemma InvStep(s: State, a: Action, fp: Session -> string)
    requires Inv(s, fp) && Enabled(s, a)
    ensures Inv(Apply(s, a, fp), fp)
  {
    match a
    case Sweep(id) => SweepInv(s, id, fp);
    case Cancel(id) => CancelInv(s, id, fp);
    case Start(id) => StartInv(s, id, fp);
    case Return(w) => PhaseInv(s, a, fp);
    case CloseDone(w) => PhaseInv(s, a, fp);
    case Reap(w) => ReapInv(s, w, fp);
    case _ =>
  }

  const FRESH := State(map[], [], Idle, {}, map[])

  /** A run of the daemon from its empty map, under any interleaving. */
  ghost predicate Execution(states: seq<State>, actions: seq<Action>, fp: Session -> string) {
    && |states| == |actions| + 1 && states[0] == FRESH
    && forall i | 0 <= i < |actions| ::
         Enabled(states[i], actions[i]) && states[i + 1] == Apply(states[i], actions[i], fp)
  }

  lemma {:induction false} RunInv(states: seq<State>, actions: seq<Action>, fp: Session -> string)
    requires Execution(states, actions, fp)
    ensures Inv(states[|actions|], fp)
    decreases |actions|
  {
    if actions != [] {
      var n := |actions| - 1;
      RunInv(states[..n + 1], actions[..n], fp);
      InvStep(states[n], actions[n], fp);
    }
  }

  /** At every moment of every run, every worker inside `run` is the one registered under its tunnel id, so
      a tunnel never has two. */
  lemma OneWorkerPerTunnel(states: seq<State>, actions: seq<Action>, fp: Session -> string, v: nat, w: nat)
    requires Execution(states, actions, fp)
    requires var workers := states[|actions|].workers;
      v < |workers| && w < |workers| && workers[v].phase == Running && workers[w].phase == Running
    ensures var s := states[|actions|];
      s.workers[w].session.tunnelID in s.managed && s.managed[s.workers[w].session.tunnelID] == w
    ensures states[|actions|].workers[v].session.tunnelID == states[|actions|].workers[w].session.tunnelID ==> v == w
  {
    RunInv(states, actions, fp);
  }

  /** A finishing worker never removes its replacement: whoever else is registered stays registered. */
  lemma ReapKeepsReplacement(s: State, w: nat, id: string, fp: Session -> string)
    requires Inv(s, fp) && Enabled(s, Reap(w)) && id in s.managed && s.managed[id] != w
    ensures var next := Apply(s, Reap(w), fp); id in next.managed && next.managed[id] == s.managed[id]
  {}

  /** What a pass guarantees when it releases the mutex: every desired tunnel is registered, and every
      worker inside `run` that was not cancelled is for a desired tunnel and serves exactly its inputs. */
  ghost predicate Released(s: State, marshal: AccessPolicy -> string) {
    && (forall id | id in s.desired :: id in s.managed)
    && forall w | 0 <= w < |s.workers| && s.workers[w].phase == Running && !s.workers[w].cancelled ::
         var session := s.workers[w].session;
         && session.tunnelID in s.desired
         && (ComparableSessions(session, s.desired[session.tunnelID], marshal)
             ==> SameForwarding(session, s.desired[session.tunnelID], marshal))
  }

  lemma ReleaseSettles(states: seq<State>, actions: seq<Action>, fp: Session -> string, marshal: AccessPolicy -> string)
    requires Execution(states, actions, fp) && Enabled(states[|actions|], StartEnd)
    requires forall s: Session :: fp(s) == Fingerprint(s, marshal)
    ensures Released(states[|actions|], marshal)
  {
    RunInv(states, actions, fp);
    var s := states[|actions|];
    forall w | 0 <= w < |s.workers| && s.workers[w].phase == Running && !s.workers[w].cancelled
      ensures var session := s.workers[w].session;
        && session.tunnelID in s.desired
        && (ComparableSessions(session, s.desired[session.tunnelID], marshal)
            ==> SameForwarding(session, s.desired[session.tunnelID], marshal))
    {
      var session := s.workers[w].session;
      assert Settled(s.workers[w], s.desired, fp);
      if ComparableSessions(session, s.desired[session.tunnelID], marshal) {
        FingerprintInjective(session, s.desired[session.tunnelID], marshal);
      }
    }
  }

  /** A shutdown cancels every worker that has not finished, and changes nothing else. */
  lemma ShutdownCancelsAll(states: seq<State>, actions: seq<Action>, fp: Session -> string, w: nat)
    requires Execution(states, actions, fp) && Enabled(states[|actions|], Shutdown) && w < |states[|actions|].workers|
    ensures var s, next := states[|actions|], Apply(states[|actions|], Shutdown, fp);
      && next.managed == s.managed && |next.workers| == |s.workers|
      && next.workers[w] == s.workers[w].(cancelled := next.workers[w].cancelled)
      && (!Done(s.workers[w]) ==> next.workers[w].cancelled)
  {
    RunInv(states, actions, fp);
  }

  // ---- the reconcile pass as written ----

  predicate Wanted(w: Worker, desired: map<string, Session>, fp: Session -> string) {
    w.session.tunnelID in desired && fp(w.session) == fp(desired[w.session.tunnelID])
  }

  /** A worker afterwards: it serves the same session, and it was cancelled only if it is not wanted as it is. */
  predicate Treated(before: Worker, after: Worker, desired: map<string, Session>, fp: Session -> string) {
    && after.session == before.session && (before.cancelled ==> after.cancelled)
    && (after.cancelled && !before.cancelled ==> !Wanted(before, desired, fp))
  }

  /** A worker the pass started. */
  predicate StartedFor(w: Worker, desired: map<string, Session>) {
    w.session.tunnelID in desired && w.session == desired[w.session.tunnelID] && !w.cancelled
  }

  predicate PassWorkers(before: seq<Worker>, after: seq<Worker>, desired: map<string, Session>, fp: Session -> string) {
    && |before| <= |after|
    && (forall w | 0 <= w < |before| :: Treated(before[w], after[w], desired, fp))
    && forall w | |before| <= w < |after| :: StartedFor(after[w], desired)
  }

  /** The shared map and the workers, with the run of the state machine that led here. */
  class Reconciler {
    const fp: Session -> string
    var managed: map<string, nat>
    var workers: seq<Worker>
    ghost var states: seq<State>
    ghost var actions: seq<Action>

    ghost predicate Valid()
      reads this
    {
      Execution(states, actions, fp) && Now().managed == managed && Now().workers == workers
    }

    ghost function Now(): State
      requires |states| > 0
      reads this
    {
      states[|states| - 1]
    }

    constructor (fp: Session -> string)
      ensures Valid() && this.fp == fp && managed == map[] && workers == [] && actions == []
    {
      this.fp := fp;
      managed, workers, states, actions := map[], [], [FRESH], [];
    }

    /** What was just done was this action of the state machine. */
    ghost method Note(a: Action)
      requires Execution(states, actions, fp) && Enabled(Now(), a)
      requires Apply(Now(), a, fp).managed == managed && Apply(Now(), a, fp).workers == workers
      modifies `states, `actions
      ensures Valid() && Now() == Apply(old(Now()), a, fp) && actions == old(actions) + [a]
    {
      states, actions := states + [Apply(Now(), a, fp)], actions + [a];
    }

    ghost method Knows()
      requires Valid()
      ensures Inv(Now(), fp)
    {
      RunInv(states, actions, fp);
    }

    /** Nothing of the pass itself changed. */
    twostate predicate Paused()
      reads this
      requires |old(states)| > 0 && |states| > 0
    {
      Now() == old(Now()).(workers := Now().workers) && PassWorkers(old(workers), workers, Now().desired, fp)
      && |workers| == |old(workers)|
    }

    /** Workers return and close their channel whenever they like, also while a pass holds the mutex. */
    method Interleave()
      requires Valid()
      modifies `workers, `states, `actions
      ensures Valid() && managed == old(managed) && Paused() && old(actions) <= actions
    {
      var turns: int := *;
      while turns > 0
        invariant Valid() && managed == old(managed) && Paused() && old(actions) <= actions
        decreases turns
      {
        turns := turns - 1;
        var w: int := *;
        if !(0 <= w < |workers|) {
          continue;
        }
        if workers[w].phase == Running {
          workers := workers[w := workers[w].(phase := Returned)];
          Note(Return(w));
        } else if workers[w].phase == Returned {
          workers := workers[w := workers[w].(phase := Closed)];
          Note(CloseDone(w));
        }
      }
    }

    /** The deferred clean-up of a worker that has closed its channel. */
    method Reap(w: nat)
      requires Valid() && Now().stage == Idle && w < |workers| && workers[w].phase == Closed
      modifies this
      ensures Valid() && Now().stage == Idle && managed == ReapedManaged(old(managed), old(workers), w)
      ensures workers == WithPhase(old(workers), w, Exited) && actions == old(actions) + [Action.Reap(w)]
    {
      var id := workers[w].session.tunnelID;
      if id in managed && managed[id] == w {
        managed := managed - {id};
      }
      workers := workers[w := workers[w].(phase := Exited)];
      Note(Action.Reap(w));
    }

    /** `reconcileDaemonWorkers`: drop finished workers, cancel outdated ones, start missing ones. The pass is a
        stretch Begin ... StartEnd of the run. When it releases the mutex every desired tunnel is registered, every
        registered worker is cancelled or has the desired fingerprint, nobody was cancelled who has it, and no
        worker was replaced before it had closed its channel. */
    method ReconcileDaemonWorkers(desired: map<string, Session>)
      requires Valid() && Now().stage == Idle && KeyedById(desired)
      modifies this
      ensures Valid() && Now().stage == Idle && Now().desired == desired
      ensures old(actions) + [Begin(desired)] <= actions && actions[|actions| - 1] == StartEnd
      ensures Registered(managed, workers) && AllSettled(managed, workers, {}, desired, fp)
      ensures forall id | id in desired :: id in managed
      ensures PassWorkers(old(workers), workers, desired, fp)
    {
      Note(Begin(desired));
      SweepFinished();
      CancelOutdated(desired);
      StartMissing(desired);
      Knows();
      Note(StartEnd);
    }

    method SweepFinished()
      requires Valid() && Now().stage == Sweeping && Now().todo == managed.Keys
      modifies this
      ensures Valid() && Now().stage == Cancelling && Now().todo == managed.Keys && Now().desired == old(Now().desired)
      ensures old(actions) <= actions && |workers| == |old(workers)|
      ensures PassWorkers(old(workers), workers, Now().desired, fp)
    {
      var todo := managed.Keys;
      while todo != {}
        invariant Valid() && Now().stage == Sweeping && Now().todo == todo && Now().desired == old(Now().desired)
        invariant old(actions) <= actions && |workers| == |old(workers)|
        invariant PassWorkers(old(workers), workers, Now().desired, fp)
        decreases todo
      {
        var id :| id in todo;
        SweepOne(id);
        todo := todo - {id};
      }
      Note(SweepEnd);
    }

    method SweepOne(id: string)
      requires Valid() && Now().stage == Sweeping && id in Now().todo
      modifies this
      ensures Valid() && Now() == old(Now()).(managed := managed, workers := workers, todo := old(Now().todo) - {id})
      ensures old(actions) <= actions && |workers| == |old(workers)|
      ensures PassWorkers(old(workers), workers, Now().desired, fp)
    {
      Interleave();
      Knows();
      if id in managed && Done(workers[managed[id]]) {
        managed := managed - {id};
      }
      Note(Sweep(id));
    }

    method CancelOutdated(desired: map<string, Session>)
      requires Valid() && Now().stage == Cancelling && Now().todo == managed.Keys && Now().desired == desired
      modifies `workers, `states, `actions
      ensures Valid() && Now().stage == Starting && Now().todo == desired.Keys && Now().desired == desired
      ensures old(actions) <= actions && |workers| == |old(workers)|
      ensures PassWorkers(old(workers), workers, desired, fp)
    {
      var todo := managed.Keys;
      while todo != {}
        invariant Valid() && Now().stage == Cancelling && Now().todo == todo && Now().desired == desired
        invariant old(actions) <= actions && |workers| == |old(workers)|
        invariant PassWorkers(old(workers), workers, desired, fp)
        decreases todo
      {
        var id :| id in todo;
        CancelOne(id, desired);
        todo := todo - {id};
      }
      Note(CancelEnd);
    }

    method CancelOne(id: string, desired: map<string, Session>)
      requires Valid() && Now().stage == Cancelling && id in Now().todo && Now().desired == desired
      modifies `workers, `states, `actions
      ensures Valid() && Now() == old(Now()).(workers := workers, todo := old(Now().todo) - {id})
      ensures old(actions) <= actions && |workers| == |old(workers)|
      ensures PassWorkers(old(workers), workers, desired, fp)
    {
      Interleave();
      Knows();
      if id in managed {
        var w := managed[id];
        if id !in desired || fp(workers[w].session) != fp(desired[id]) {
          workers := workers[w := workers[w].(cancelled := true)];
        }
      }
      Note(Cancel(id));
    }

    method StartMissing(desired: map<string, Session>)
      requires Valid() && Now().stage == Starting && Now().todo == desired.Keys && Now().desired == desired
      modifies this
      ensures Valid() && Now().stage == Starting && Now().todo == {} && Now().desired == desired
      ensures old(actions) <= actions && PassWorkers(old(workers), workers, desired, fp)
    {
      var todo := desired.Keys;
      while todo != {}
        invariant todo <= desired.Keys
        invariant Valid() && Now().stage == Starting && Now().todo == todo && Now().desired == desired
        invariant old(actions) <= actions && PassWorkers(old(workers), workers, desired, fp)
        decreases todo
      {
        var id :| id in todo;
        StartOne(id, desired, old(workers));
        todo := todo - {id};
      }
    }

    method StartOne(id: string, desired: map<string, Session>, ghost first: seq<Worker>)
      requires Valid() && Now().stage == Starting && id in Now().todo && id in desired && Now().desired == desired
      requires PassWorkers(first, workers, desired, fp)
      modifies this
      ensures Valid() && Now().stage == Starting && Now().todo == old(Now().todo) - {id} && Now().desired == desired
      ensures old(actions) <= actions && PassWorkers(first, workers, desired, fp)
    {
      Knows();
      Interleave();
      if id !in managed {
        managed := managed[id := |workers|];
        workers := workers + [Worker(desired[id], false, Running)];
      }
      Note(Start(id));
    }
  }
}
