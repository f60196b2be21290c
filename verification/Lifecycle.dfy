/**
  Any number of threads calling `daapInit` (`src/daap_init.c`, lines 136-251),
  `daapLogWrite` (`src/daap_log.c`, lines 64-140, with the reads of `daapBuildInflux`,
  lines 275-290) and `daapSetRank` at the same time, without `daapFinalize`. Every access
  to shared data is a step of its own.
 */
module Lifecycle {
  import opened Numbers
  import opened Options

  datatype Transport = NoTransport | Syslog | Tcp

  /** The environment variables that are read. */
  datatype Env = Env(
    nodeName: Option<string>,     // SLURMD_NODENAME
    clusterName: Option<string>,  // SLURM_CLUSTER_NAME
    ompiRank: Option<string>, pmiRank: Option<string>, pmixRank: Option<string>,
    decouple: Option<string>)     // DAAP_DECOUPLE

  /** `init_data`; None is a field nobody has written yet. */
  datatype Data = Data(app: Option<string>, host: Option<string>, cluster: Option<string>, transport: Option<Transport>, rank: int)

  /** A message handed to the transport. */
  datatype Message = Message(app: string, host: string, cluster: string, rank: int, text: string, auto: bool)

  /** Where a thread is; `auto` marks the job start that `daapInit` sends itself. */
  datatype Pc =
    | Outside
    // daapInit
    | InitLock(app: string, transport: Transport)
    | InitCheck(app: string, transport: Transport)
    | SetApp(app: string, transport: Transport)
    | SetTransport(transport: Transport)
    | ClearRank
    | SetHost
    | SetCluster
    | Publish
    | Leave(ok: bool)             // unlock and return
    | LeaveFirst                  // unlock and go on
    | DetectZero
    | SetRank
    | StartJob
    // daapLogWrite
    | Guard(text: string, auto: bool)
    | ReadApp(text: string, auto: bool)
    | ReadHost(text: string, auto: bool, a: string)
    | ReadCluster(text: string, auto: bool, a: string, h: string)
    | ReadRank(text: string, auto: bool, a: string, h: string, c: string)
    | Send(m: Message)

  /** `called` is `daapInit_called`; `published` lists the threads that have set it. */
  datatype State = State(lock: int, called: bool, rankZero: bool, data: Data, pcs: seq<Pc>, sent: seq<Message>, published: seq<nat>)

  function Init(threads: nat): State {
    State(-1, false, false, Data(None, None, None, None, 0), seq(threads, _ => Outside), [], [])
  }

  datatype Action =
    | CallInit(t: nat, app: string, transport: Transport)
    | CallWrite(t: nat, text: string)
    | CallSetRank(t: nat, rank: int)
    | HostFails(t: nat)              // gethostname fails for good
    | HostIs(t: nat, name: string)   // gethostname gives a name
    | Go(t: nat)                     // the next step of the thread, where it has no choice

  predicate Enabled(e: Env, s: State, a: Action) {
    && a.t < |s.pcs|
    && var pc := s.pcs[a.t];
       match a
       case CallInit(_, _, _) => pc.Outside?
       case CallWrite(_, _) => pc.Outside?
       case CallSetRank(_, _) => pc.Outside?
       case HostFails(_) => pc.SetHost? && e.nodeName.None?
       case HostIs(_, _) => pc.SetHost? && e.nodeName.None?
       case Go(_) =>
         && !pc.Outside? && (pc.InitLock? ==> s.lock == -1) && (pc.SetHost? ==> e.nodeName.Some?)
         && (pc.ReadApp? ==> s.data.app.Some?) && (pc.ReadHost? ==> s.data.host.Some?)
         && (pc.ReadCluster? ==> s.data.cluster.Some?) && (pc.Send? ==> s.data.transport.Some?)
  }

  function RankText(e: Env): Option<string> {
    if e.ompiRank.Some? then e.ompiRank else if e.pmiRank.Some? then e.pmiRank else e.pmixRank
  }

  /** `DAAP_DECOUPLE` is not set or "0". */
  predicate Coupled(e: Env) {
    e.decouple.None? || e.decouple.value == "0"
  }

  function Move(s: State, t: nat, pc: Pc): State
    requires t < |s.pcs|
  {
    s.(pcs := s.pcs[t := pc])
  }

  /** The next step of a thread in `daapInit`. */
  function GoInit(e: Env, s: State, t: nat): State
    requires Enabled(e, s, Go(t)) && !s.pcs[t].Outside?
  {
    match s.pcs[t]
    case InitLock(app, tr) => Move(s, t, InitCheck(app, tr)).(lock := t)
    case InitCheck(app, tr) => Move(s, t, if s.called then Leave(true) else SetApp(app, tr))
    case SetApp(app, tr) => Move(s, t, SetTransport(tr)).(data := s.data.(app := Some(app)))
    case SetTransport(tr) => Move(s, t, ClearRank).(data := s.data.(transport := Some(tr)))
    case ClearRank => Move(s, t, SetHost).(data := s.data.(rank := 0))
    case SetHost => Move(s, t, SetCluster).(data := s.data.(host := e.nodeName))
    case SetCluster => Move(s, t, Publish).(data := s.data.(cluster := if e.clusterName.Some? then e.clusterName else Some("")))
    case Publish => Move(s, t, LeaveFirst).(called := true, published := s.published + [t])
    case Leave(_) => Move(s, t, Outside).(lock := -1)
    case LeaveFirst => Move(s, t, DetectZero).(lock := -1)
    case DetectZero =>
      Move(s, t, SetRank).(rankZero := s.rankZero || (if RankText(e).Some? then RankText(e).value == "0" else Coupled(e)))
    case SetRank => Move(s, t, StartJob).(data := s.data.(rank := if RankText(e).Some? then Atoi(RankText(e).value) else s.data.rank))
    case StartJob => Move(s, t, if s.rankZero && Coupled(e) then Guard("__daap_jobstart", true) else Outside)
    case _ => s
  }

  /** The transport is one that messages are handed to. */
  predicate Sends(d: Data) {
    d.transport != Some(NoTransport)
  }

  /** The next step of a thread in `daapLogWrite`. */
  function GoWrite(e: Env, s: State, t: nat): State
    requires Enabled(e, s, Go(t)) && !s.pcs[t].Outside?
  {
    match s.pcs[t]
    case Guard(text, auto) => Move(s, t, if s.called then ReadApp(text, auto) else Outside)
    case ReadApp(text, auto) => Move(s, t, ReadHost(text, auto, s.data.app.value))
    case ReadHost(text, auto, a) => Move(s, t, ReadCluster(text, auto, a, s.data.host.value))
    case ReadCluster(text, auto, a, h) => Move(s, t, ReadRank(text, auto, a, h, s.data.cluster.value))
    case ReadRank(text, auto, a, h, c) => Move(s, t, Send(Message(a, h, c, s.data.rank, text, auto)))
    case Send(m) => Move(s, t, Outside).(sent := s.sent + if Sends(s.data) then [m] else [])
    case _ => s
  }

  predicate Writes(pc: Pc) {
    pc.Guard? || Reads(pc)
  }

  /** Behind the guard of `daapLogWrite`. */
  predicate Reads(pc: Pc) {
    pc.ReadApp? || pc.ReadHost? || pc.ReadCluster? || pc.ReadRank? || pc.Send?
  }

  function Apply(e: Env, s: State, a: Action): State
    requires Enabled(e, s, a)
  {
    match a
    case CallInit(t, app, tr) => Move(s, t, InitLock(app, tr))
    case CallWrite(t, text) => Move(s, t, Guard(text, false))
    case CallSetRank(t, rank) => s.(data := s.data.(rank := rank))
    case HostFails(t) => Move(s, t, Leave(false))
    case HostIs(t, name) => Move(s, t, SetCluster).(data := s.data.(host := Some(name)))
    case Go(t) => if Writes(s.pcs[t]) then GoWrite(e, s, t) else GoInit(e, s, t)
  }

  // -- The invariant

  /** Under the init lock. */
  predicate Locked(pc: Pc) {
    pc.InitCheck? || Building(pc) || pc.Leave? || pc.LeaveFirst?
  }

  /** Filling `init_data`. */
  predicate Building(pc: Pc) {
    pc.SetApp? || pc.SetTransport? || pc.ClearRank? || pc.SetHost? || pc.SetCluster? || pc.Publish?
  }

  /** On the path of the thread that published, up to the end of its own job start. */
  predicate First(pc: Pc) {
    pc.LeaveFirst? || pc.DetectZero? || pc.SetRank? || pc.StartJob? || IsAuto(pc)
  }

  predicate IsAuto(pc: Pc) {
    ((pc.Guard? || pc.ReadApp? || pc.ReadHost? || pc.ReadCluster? || pc.ReadRank?) && pc.auto) || (pc.Send? && pc.m.auto)
  }

  predicate Full(d: Data) {
    d.app.Some? && d.host.Some? && d.cluster.Some? && d.transport.Some?
  }

  /** What has been written when a thread gets to a point of `daapInit`. */
  predicate Built(pc: Pc, d: Data) {
    && (Building(pc) && !pc.SetApp? ==> d.app.Some?)
    && (Building(pc) && !pc.SetApp? && !pc.SetTransport? ==> d.transport.Some?)
    && (pc.SetCluster? || pc.Publish? ==> d.host.Some?)
    && (pc.Publish? ==> d.cluster.Some?)
  }

  /** What a writer has read is what is there. */
  predicate ReadRight(pc: Pc, d: Data) {
    && (pc.ReadHost? || pc.ReadCluster? || pc.ReadRank? ==> d.app == Some(pc.a))
    && (pc.ReadCluster? || pc.ReadRank? ==> d.host == Some(pc.h))
    && (pc.ReadRank? ==> d.cluster == Some(pc.c))
    && (pc.Send? ==> Identity(pc.m, d))
  }

  /** The message names the application, host and cluster of `d`. */
  predicate Identity(m: Message, d: Data) {
    d.app == Some(m.app) && d.host == Some(m.host) && d.cluster == Some(m.cluster)
  }

  function Autos(sent: seq<Message>): nat {
    if sent == [] then 0 else Autos(sent[..|sent| - 1]) + if sent[|sent| - 1].auto then 1 else 0
  }

  /** What the invariant of a thread looks at, besides where the thread is. */
  datatype Shared = Shared(lock: int, called: bool, data: Data, published: seq<nat>, autos: nat)

  function Look(s: State): Shared {
    Shared(s.lock, s.called, s.data, s.published, Autos(s.sent))
  }

  predicate ThreadInv(t: nat, pc: Pc, g: Shared) {
    && (Locked(pc) <==> t == g.lock)
    && Built(pc, g.data) && ReadRight(pc, g.data)
    && (Building(pc) ==> !g.called)
    && (Reads(pc) ==> g.called)
    && (pc.Leave? && pc.ok ==> g.called)
    && (First(pc) ==> g.published == [t] && g.autos == 0)
  }

  predicate ThreadsInv(pcs: seq<Pc>, g: Shared) {
    forall t | 0 <= t < |pcs| :: ThreadInv(t, pcs[t], g)
  }

  predicate SharedInv(threads: nat, g: Shared) {
    && -1 <= g.lock < threads
    && (g.called <==> g.published != []) && |g.published| <= 1 && g.autos <= |g.published|
    && (g.called ==> Full(g.data))
  }

  predicate SentInv(sent: seq<Message>, d: Data) {
    forall i | 0 <= i < |sent| :: Identity(sent[i], d)
  }

  predicate Inv(s: State) {
    && SharedInv(|s.pcs|, Look(s)) && ThreadsInv(s.pcs, Look(s))
    && (s.sent != [] ==> s.called) && SentInv(s.sent, s.data)
  }

  lemma InitInv(threads: nat)
    ensures Inv(Init(threads))
  {
  }

  lemma {:induction false} AutosAppend(sent: seq<Message>, m: Message)
    ensures Autos(sent + [m]) == Autos(sent) + if m.auto then 1 else 0
  {
    assert (sent + [m])[..|sent|] == sent;
  }

  // -- Every step keeps it

  /** How a step changes what the other threads depend on. */
  predicate Undisturbed(t: nat, g: Shared, h: Shared) {
    || g == h
    || (g.lock == -1 && h == g.(lock := t))
    || (g.lock == t && h == g.(lock := -1))
    || (g.lock == t && !g.called && h == g.(data := h.data))
    || (g.lock == t && g.published == [] && h == g.(called := true, published := [t]))
    || (g.published == [t] && h == g.(autos := h.autos))
    || h == g.(data := g.data.(rank := h.data.rank))
  }

  lemma OthersKeep(t: nat, u: nat, pc: Pc, g: Shared, h: Shared)
    requires ThreadInv(u, pc, g) && u != t && Undisturbed(t, g, h)
    requires g.published == [] ==> !g.called
    ensures ThreadInv(u, pc, h)
  {
  }

  /** A step of thread `t` keeps the threads in order if it does so for `t` and does not disturb the others. */
  lemma ThreadsKeep(pcs: seq<Pc>, t: nat, pc: Pc, g: Shared, h: Shared)
    requires ThreadsInv(pcs, g) && t < |pcs| && Undisturbed(t, g, h)
    requires g.published == [] ==> !g.called
    requires ThreadInv(t, pc, h)
    ensures ThreadsInv(pcs[t := pc], h)
  {
    forall u | 0 <= u < |pcs| && u != t ensures ThreadInv(u, pcs[u], h) {
      OthersKeep(t, u, pcs[u], g, h);
    }
  }

  /** The part of a step that concerns the thread that makes it. */
  ghost predicate OwnStep(s: State, s': State, t: nat) {
    && t < |s.pcs| == |s'.pcs| && s'.pcs == s.pcs[t := s'.pcs[t]]
    && Undisturbed(t, Look(s), Look(s')) && ThreadInv(t, s'.pcs[t], Look(s'))
  }

  /** What the invariant says about thread `t`, and apart from the threads. */
  lemma InvAt(s: State, t: nat)
    requires Inv(s) && t < |s.pcs|
    ensures ThreadInv(t, s.pcs[t], Look(s)) && SharedInv(|s.pcs|, Look(s))
    ensures (s.sent != [] ==> s.called) && SentInv(s.sent, s.data)
  {
  }

  lemma StepInv(s: State, s': State, t: nat)
    requires Inv(s) && OwnStep(s, s', t)
    requires SharedInv(|s.pcs|, Look(s')) && (s'.sent != [] ==> s'.called) && SentInv(s'.sent, s'.data)
    ensures Inv(s')
  {
    ThreadsKeep(s.pcs, t, s'.pcs[t], Look(s), Look(s'));
  }

  lemma GuardKeeps(e: Env, s: State, t: nat)
    requires Inv(s) && Enabled(e, s, Go(t)) && s.pcs[t].Guard?
    ensures Inv(Apply(e, s, Go(t)))
  {
    hide Inv, ThreadsInv, Atoi, IsRun, GoInit;
    InvAt(s, t);
    StepInv(s, Apply(e, s, Go(t)), t);
  }

  /** Past the guard: the data are read one by one. */
  lemma ReadKeeps(e: Env, s: State, t: nat)
    requires Inv(s) && Enabled(e, s, Go(t)) && Reads(s.pcs[t]) && !s.pcs[t].Send?
    ensures Inv(Apply(e, s, Go(t)))
  {
    hide Inv, ThreadsInv, Atoi, IsRun, GoInit, SentInv, Autos;
    var s' := Apply(e, s, Go(t));
    InvAt(s, t);
    assert Look(s') == Look(s);
    StepInv(s, s', t);
  }

  lemma SendKeeps(e: Env, s: State, t: nat)
    requires Inv(s) && Enabled(e, s, Go(t)) && s.pcs[t].Send?
    ensures Inv(Apply(e, s, Go(t)))
  {
    hide Inv, ThreadsInv, Atoi, IsRun, GoInit;
    var s', m := Apply(e, s, Go(t)), s.pcs[t].m;
    InvAt(s, t);
    AutosAppend(s.sent, m);
    assert s'.sent == if Sends(s.data) then s.sent + [m] else s.sent;
    StepInv(s, s', t);
  }

  /** Taking and leaving the lock. */
  lemma LockKeeps(e: Env, s: State, t: nat)
    requires Inv(s) && Enabled(e, s, Go(t))
    requires s.pcs[t].InitLock? || s.pcs[t].Leave? || s.pcs[t].LeaveFirst?
    ensures Inv(Apply(e, s, Go(t)))
  {
    hide Inv, ThreadsInv, Atoi, IsRun, GoWrite, SentInv, Autos;
    InvAt(s, t);
    StepInv(s, Apply(e, s, Go(t)), t);
  }

  /** The steps of `daapInit` that change nothing the other threads look at. */
  lemma CheckKeeps(e: Env, s: State, t: nat)
    requires Inv(s) && Enabled(e, s, Go(t))
    requires s.pcs[t].InitCheck? || s.pcs[t].DetectZero? || s.pcs[t].StartJob?
    ensures Inv(Apply(e, s, Go(t)))
  {
    hide Inv, ThreadsInv, Atoi, IsRun, GoWrite, SentInv, Autos;
    InvAt(s, t);
    StepInv(s, Apply(e, s, Go(t)), t);
  }

  /** Filling the data. */
  lemma BuildKeeps(e: Env, s: State, t: nat)
    requires Inv(s) && Enabled(e, s, Go(t)) && Building(s.pcs[t]) && !s.pcs[t].Publish?
    ensures Inv(Apply(e, s, Go(t)))
  {
    hide Inv, ThreadsInv, Atoi, IsRun, GoWrite;
    InvAt(s, t);
    StepInv(s, Apply(e, s, Go(t)), t);
  }

  lemma PublishKeeps(e: Env, s: State, t: nat)
    requires Inv(s) && Enabled(e, s, Go(t)) && (s.pcs[t].Publish? || s.pcs[t].SetRank?)
    ensures Inv(Apply(e, s, Go(t)))
  {
    hide Inv, ThreadsInv, Atoi, IsRun, GoWrite;
    InvAt(s, t);
    StepInv(s, Apply(e, s, Go(t)), t);
  }

  /** Calls, and what the host name turns out to be. */
  lemma CallKeeps(e: Env, s: State, a: Action)
    requires Inv(s) && Enabled(e, s, a) && !a.Go?
    ensures Inv(Apply(e, s, a))
  {
    hide Inv, ThreadsInv, Atoi, IsRun, GoWrite, GoInit, Autos;
    InvAt(s, a.t);
    StepInv(s, Apply(e, s, a), a.t);
  }

  lemma StepKeeps(e: Env, s: State, a: Action)
    requires Inv(s) && Enabled(e, s, a)
    ensures Inv(Apply(e, s, a))
  {
    if a.Go? {
      match s.pcs[a.t]
      case Guard(_, _) => GuardKeeps(e, s, a.t);
      case Send(_) => SendKeeps(e, s, a.t);
      case ReadApp(_, _) => ReadKeeps(e, s, a.t);
      case ReadHost(_, _, _) => ReadKeeps(e, s, a.t);
      case ReadCluster(_, _, _, _) => ReadKeeps(e, s, a.t);
      case ReadRank(_, _, _, _, _) => ReadKeeps(e, s, a.t);
      case InitLock(_, _) => LockKeeps(e, s, a.t);
      case Leave(_) => LockKeeps(e, s, a.t);
      case LeaveFirst => LockKeeps(e, s, a.t);
      case InitCheck(_, _) => CheckKeeps(e, s, a.t);
      case DetectZero => CheckKeeps(e, s, a.t);
      case StartJob => CheckKeeps(e, s, a.t);
      case Publish => PublishKeeps(e, s, a.t);
      case SetRank => PublishKeeps(e, s, a.t);
      case _ => BuildKeeps(e, s, a.t);
    } else {
      CallKeeps(e, s, a);
    }
  }

  // -- Runs

  predicate IsRun(e: Env, s: State, actions: seq<Action>)
    decreases |actions|
  {
    actions == [] || (Enabled(e, s, actions[0]) && IsRun(e, Apply(e, s, actions[0]), actions[1..]))
  }

  function End(e: Env, s: State, actions: seq<Action>): State
    requires IsRun(e, s, actions)
    decreases |actions|
  {
    if actions == [] then s else End(e, Apply(e, s, actions[0]), actions[1..])
  }

  /** What one step leaves alone once `daapInit_called` is set: everything but the rank, and the messages sent. */
  predicate Settled(s: State, s': State) {
    && s'.called && s'.published == s.published
    && s'.data == s.data.(rank := s'.data.rank)
    && s.sent <= s'.sent
  }

  lemma StepSettled(e: Env, s: State, a: Action)
    requires Inv(s) && Enabled(e, s, a) && s.called
    ensures Settled(s, Apply(e, s, a))
  {
    assert ThreadInv(a.t, s.pcs[a.t], Look(s));
  }

  /**
    From the moment `daapInit_called` is set, and however the run goes on: nobody publishes
    again, application, host, cluster and transport keep their values, and no message is taken back.
   */
  lemma {:induction false} Stable(e: Env, s: State, actions: seq<Action>)
    requires Inv(s) && IsRun(e, s, actions) && s.called
    ensures Inv(End(e, s, actions)) && Settled(s, End(e, s, actions))
    decreases |actions|
  {
    if actions != [] {
      StepKeeps(e, s, actions[0]);
      StepSettled(e, s, actions[0]);
      Stable(e, Apply(e, s, actions[0]), actions[1..]);
    }
  }

  lemma {:induction false} RunKeeps(e: Env, s: State, actions: seq<Action>)
    requires Inv(s) && IsRun(e, s, actions)
    ensures Inv(End(e, s, actions))
    decreases |actions|
  {
    if actions != [] {
      StepKeeps(e, s, actions[0]);
      RunKeeps(e, Apply(e, s, actions[0]), actions[1..]);
    }
  }

  ghost predicate Reachable(e: Env, threads: nat, s: State) {
    exists actions: seq<Action> :: IsRun(e, Init(threads), actions) && End(e, Init(threads), actions) == s
  }

  lemma ReachableInv(e: Env, threads: nat, s: State)
    requires Reachable(e, threads, s)
    ensures Inv(s)
  {
    var actions: seq<Action> :| IsRun(e, Init(threads), actions) && End(e, Init(threads), actions) == s;
    InitInv(threads);
    RunKeeps(e, Init(threads), actions);
  }

  // -- What follows for every interleaving

  /** At most one thread passes the publish point, and exactly one if `daapInit_called` is set. */
  lemma PublishedOnce(e: Env, threads: nat, s: State)
    requires Reachable(e, threads, s)
    ensures |s.published| == if s.called then 1 else 0
  {
    ReachableInv(e, threads, s);
  }

  /** A writer behind its guard finds everything it reads filled in, and what it has read is still what is there. */
  lemma GuardHolds(e: Env, threads: nat, s: State, t: nat)
    requires Reachable(e, threads, s) && t < |s.pcs| && Reads(s.pcs[t])
    ensures s.called && Full(s.data) && ReadRight(s.pcs[t], s.data)
    ensures Enabled(e, s, Go(t))
  {
    ReachableInv(e, threads, s);
    assert ThreadInv(t, s.pcs[t], Look(s));
  }

  /** All messages ever sent name the same application, host and cluster. */
  lemma SameIdentity(e: Env, threads: nat, s: State, i: nat, j: nat)
    requires Reachable(e, threads, s) && i < |s.sent| && j < |s.sent|
    ensures s.sent[i].app == s.sent[j].app && s.sent[i].host == s.sent[j].host && s.sent[i].cluster == s.sent[j].cluster
  {
    ReachableInv(e, threads, s);
    assert Identity(s.sent[i], s.data) && Identity(s.sent[j], s.data);
  }

  /** The job start that `daapInit` sends itself is sent at most once. */
  lemma JobStartsOnce(e: Env, threads: nat, s: State)
    requires Reachable(e, threads, s)
    ensures Autos(s.sent) <= 1
  {
    ReachableInv(e, threads, s);
  }

  /** `daapInit` returns success only when the library is initialized. */
  lemma SuccessMeansInitialized(e: Env, threads: nat, s: State, t: nat)
    requires Reachable(e, threads, s) && t < |s.pcs|
    requires var pc := s.pcs[t]; (pc.Leave? && pc.ok) || First(pc)
    ensures s.called && Full(s.data)
  {
    ReachableInv(e, threads, s);
    assert ThreadInv(t, s.pcs[t], Look(s));
  }

  /** The init lock is held by at most one thread, and only inside `daapInit`. */
  lemma OneInside(e: Env, threads: nat, s: State, t: nat, u: nat)
    requires Reachable(e, threads, s) && t < |s.pcs| && u < |s.pcs| && Locked(s.pcs[t]) && Locked(s.pcs[u])
    ensures t == u == s.lock
  {
    ReachableInv(e, threads, s);
    assert ThreadInv(t, s.pcs[t], Look(s)) && ThreadInv(u, s.pcs[u], Look(s));
  }
}
