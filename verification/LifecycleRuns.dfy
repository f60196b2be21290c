/**
  What runs of module Lifecycle can do and when: a call of `daapInit` can complete
  (`src/daap_init.c`, lines 136-251), the automatic job start goes out exactly when the
  environment says so, and messages agree on the MPI rank under an exact condition.
 */
module LifecycleRuns {
  import opened Numbers
  import opened Options
  import opened Lifecycle

  // -- Runs without daapSetRank

  predicate Calm(actions: seq<Action>) {
    forall i | 0 <= i < |actions| :: !actions[i].CallSetRank?
  }

  /** A run that does not call `daapSetRank` leads from `s` to `s'`. */
  ghost predicate Leads(e: Env, s: State, s': State) {
    exists actions: seq<Action> :: IsRun(e, s, actions) && Calm(actions) && End(e, s, actions) == s'
  }

  lemma LeadsNowhere(e: Env, s: State)
    ensures Leads(e, s, s)
  {
    var none: seq<Action> := [];
    assert IsRun(e, s, none) && Calm(none) && End(e, s, none) == s;
  }

  lemma {:induction false} RunOn(e: Env, s: State, actions: seq<Action>, a: Action)
    requires IsRun(e, s, actions) && Enabled(e, End(e, s, actions), a)
    ensures IsRun(e, s, actions + [a]) && End(e, s, actions + [a]) == Apply(e, End(e, s, actions), a)
    decreases |actions|
  {
    hide Enabled, Apply;
    if actions == [] {
      assert (actions + [a])[1..] == [];
    } else {
      RunOn(e, Apply(e, s, actions[0]), actions[1..], a);
      assert (actions + [a])[1..] == actions[1..] + [a];
    }
  }

  /** One step on. */
  lemma Next(e: Env, s0: State, s: State, a: Action) returns (s': State)
    requires Leads(e, s0, s) && Enabled(e, s, a) && !a.CallSetRank?
    ensures Leads(e, s0, s') && s' == Apply(e, s, a)
  {
    hide Enabled, Apply;
    var actions: seq<Action> :| IsRun(e, s0, actions) && Calm(actions) && End(e, s0, actions) == s;
    RunOn(e, s0, actions, a);
    assert Calm(actions + [a]);
    s' := Apply(e, s, a);
  }

  lemma {:induction false} RunsConcat(e: Env, s: State, a: seq<Action>, b: seq<Action>)
    requires IsRun(e, s, a) && IsRun(e, End(e, s, a), b)
    ensures IsRun(e, s, a + b) && End(e, s, a + b) == End(e, End(e, s, a), b)
    decreases |a|
  {
    hide Enabled, Apply;
    if a == [] {
      assert a + b == b;
    } else {
      RunsConcat(e, Apply(e, s, a[0]), a[1..], b);
      assert (a + b)[1..] == a[1..] + b;
    }
  }

  lemma LeadsToReachable(e: Env, threads: nat, s: State, s': State)
    requires Reachable(e, threads, s) && Leads(e, s, s')
    ensures Reachable(e, threads, s')
  {
    hide Enabled, Apply;
    var a: seq<Action> :| IsRun(e, Init(threads), a) && End(e, Init(threads), a) == s;
    var b: seq<Action> :| IsRun(e, s, b) && Calm(b) && End(e, s, b) == s';
    RunsConcat(e, Init(threads), a, b);
  }

  // -- daapLogWrite can always run to its end

  lemma IntoWrite(e: Env, s0: State, s: State, t: nat, text: string, auto: bool)
    requires s.called && Full(s.data) && t < |s.pcs| && Leads(e, s0, Move(s, t, Guard(text, auto)))
    ensures Leads(e, s0, Move(s, t, ReadHost(text, auto, s.data.app.value)))
  {
    hide Leads, GoInit;
    var s1 := Next(e, s0, Move(s, t, Guard(text, auto)), Go(t));
    assert s1 == Move(s, t, ReadApp(text, auto));
    var s2 := Next(e, s0, s1, Go(t));
    assert s2 == Move(s, t, ReadHost(text, auto, s.data.app.value));
  }

  lemma OntoSend(e: Env, s0: State, s: State, t: nat, m: Message)
    requires t < |s.pcs| && Full(s.data) && Leads(e, s0, Move(s, t, ReadHost(m.text, m.auto, m.app)))
    requires m.host == s.data.host.value && m.cluster == s.data.cluster.value && m.rank == s.data.rank
    ensures Leads(e, s0, Move(s, t, Send(m)))
  {
    hide Leads, GoInit;
    var s1 := Next(e, s0, Move(s, t, ReadHost(m.text, m.auto, m.app)), Go(t));
    assert s1 == Move(s, t, ReadCluster(m.text, m.auto, m.app, m.host));
    var s2 := Next(e, s0, s1, Go(t));
    assert s2 == Move(s, t, ReadRank(m.text, m.auto, m.app, m.host, m.cluster));
    var s3 := Next(e, s0, s2, Go(t));
    assert s3 == Move(s, t, Send(m));
  }

  /** The message that is made of the data. */
  function MessageOf(d: Data, text: string, auto: bool): Message
    requires Full(d)
  {
    Message(d.app.value, d.host.value, d.cluster.value, d.rank, text, auto)
  }

  /** Of the three transports two are handed messages. */
  lemma SendingTransports(d: Data)
    requires Full(d)
    ensures Sends(d) <==> d.transport == Some(Syslog) || d.transport == Some(Tcp)
    ensures !Sends(d) <==> d.transport == Some(NoTransport)
  {
    match d.transport.value
    case NoTransport =>
    case Syslog =>
    case Tcp =>
  }

  function SentBy(s: State, m: Message): seq<Message> {
    s.sent + if Sends(s.data) then [m] else []
  }

  /** From its guard on, a write goes through, and the message carries the rank of that moment. */
  lemma GuardToEnd(e: Env, s0: State, s: State, t: nat, text: string, auto: bool)
    requires s.called && Full(s.data) && t < |s.pcs| && Leads(e, s0, Move(s, t, Guard(text, auto)))
    ensures Leads(e, s0, Move(s, t, Outside).(sent := SentBy(s, MessageOf(s.data, text, auto))))
  {
    hide Leads, GoInit;
    var m := MessageOf(s.data, text, auto);
    IntoWrite(e, s0, s, t, text, auto);
    OntoSend(e, s0, s, t, m);
    var s' := Next(e, s0, Move(s, t, Send(m)), Go(t));
    assert s' == Move(s, t, Outside).(sent := SentBy(s, m));
  }

  /** After initialization a thread that is outside can always send a message, with syslog and with TCP. */
  lemma MessageCarriesRank(e: Env, s0: State, s: State, t: nat, text: string) returns (s': State)
    requires Leads(e, s0, s) && s.called && Full(s.data) && t < |s.pcs| && s.pcs[t].Outside?
    ensures Leads(e, s0, s')
    ensures s.data.transport == Some(Syslog) || s.data.transport == Some(Tcp) ==>
      s' == s.(sent := s.sent + [MessageOf(s.data, text, false)])
    ensures s.data.transport == Some(NoTransport) ==> s' == s
  {
    hide Leads, GoInit, GoWrite;
    var s1 := Next(e, s0, s, CallWrite(t, text));
    assert s1 == Move(s, t, Guard(text, false));
    GuardToEnd(e, s0, s, t, text, false);
    s' := Move(s, t, Outside).(sent := SentBy(s, MessageOf(s.data, text, false)));
    assert s'.pcs == s.pcs;
  }

  // -- daapInit can complete

  lemma IntoInit(e: Env, s0: State, s: State, t: nat, app: string, tr: Transport)
    requires Leads(e, s0, s) && s.lock == -1 && !s.called && t < |s.pcs| && s.pcs[t].Outside?
    ensures Leads(e, s0, Move(s, t, SetTransport(tr)).(lock := t, data := s.data.(app := Some(app))))
  {
    hide Leads, GoWrite;
    var s1 := Next(e, s0, s, CallInit(t, app, tr));
    var s2 := Next(e, s0, s1, Go(t));
    var s3 := Next(e, s0, s2, Go(t));
    assert s3 == Move(s, t, SetApp(app, tr)).(lock := t);
    var s4 := Next(e, s0, s3, Go(t));
    assert s4 == Move(s, t, SetTransport(tr)).(lock := t, data := s.data.(app := Some(app)));
  }

  /** The host name comes from the environment, or from the system. */
  function HostOf(e: Env, name: string): string {
    if e.nodeName.Some? then e.nodeName.value else name
  }

  lemma OntoHost(e: Env, s0: State, s: State, t: nat, tr: Transport)
    requires t < |s.pcs| && Leads(e, s0, Move(s, t, SetTransport(tr)))
    ensures Leads(e, s0, Move(s, t, SetHost).(data := s.data.(transport := Some(tr), rank := 0)))
  {
    hide Leads, GoWrite;
    var s1 := Next(e, s0, Move(s, t, SetTransport(tr)), Go(t));
    assert s1 == Move(s, t, ClearRank).(data := s.data.(transport := Some(tr)));
    var s2 := Next(e, s0, s1, Go(t));
    assert s2 == Move(s, t, SetHost).(data := s.data.(transport := Some(tr), rank := 0));
  }

  lemma OverHost(e: Env, s0: State, s: State, t: nat, name: string)
    requires t < |s.pcs| && Leads(e, s0, Move(s, t, SetHost))
    ensures Leads(e, s0, Move(s, t, SetCluster).(data := s.data.(host := Some(HostOf(e, name)))))
  {
    hide Leads, GoWrite;
    var s1 := Next(e, s0, Move(s, t, SetHost), if e.nodeName.Some? then Go(t) else HostIs(t, name));
    assert s1 == Move(s, t, SetCluster).(data := s.data.(host := Some(HostOf(e, name))));
  }

  lemma ThroughInit(e: Env, s0: State, s: State, t: nat, tr: Transport, name: string)
    requires t < |s.pcs| && Leads(e, s0, Move(s, t, SetTransport(tr)))
    ensures Leads(e, s0, Move(s, t, SetCluster).(data := s.data.(transport := Some(tr), rank := 0, host := Some(HostOf(e, name)))))
  {
    hide Leads, HostOf;
    OntoHost(e, s0, s, t, tr);
    var s1 := s.(data := s.data.(transport := Some(tr), rank := 0));
    assert Move(s1, t, SetHost) == Move(s, t, SetHost).(data := s1.data);
    OverHost(e, s0, s1, t, name);
    assert Move(s1, t, SetCluster).(data := s1.data.(host := Some(HostOf(e, name))))
        == Move(s, t, SetCluster).(data := s1.data.(host := Some(HostOf(e, name))));
  }

  function ClusterOf(e: Env): string {
    if e.clusterName.Some? then e.clusterName.value else ""
  }

  lemma ToPublish(e: Env, s0: State, s: State, t: nat)
    requires t < |s.pcs| && Leads(e, s0, Move(s, t, SetCluster))
    ensures Leads(e, s0, Move(s, t, LeaveFirst).(called := true, published := s.published + [t],
              data := s.data.(cluster := Some(ClusterOf(e)))))
  {
    hide Leads, GoWrite;
    var s1 := Next(e, s0, Move(s, t, SetCluster), Go(t));
    assert s1 == Move(s, t, Publish).(data := s.data.(cluster := Some(ClusterOf(e))));
    var s2 := Next(e, s0, s1, Go(t));
    assert s2 == Move(s, t, LeaveFirst).(called := true, published := s.published + [t],
                   data := s.data.(cluster := Some(ClusterOf(e))));
  }

  /** The rank the environment gives. */
  function NewRank(e: Env, rank: int): int {
    if RankText(e).Some? then Atoi(RankText(e).value) else rank
  }

  /** The environment says that this is the process of rank 0. */
  predicate Zero(e: Env) {
    if RankText(e).Some? then RankText(e).value == "0" else Coupled(e)
  }

  /** Where a thread is that has still to detect the rank. */
  predicate BeforeRank(pc: Pc) {
    pc.LeaveFirst? || pc.DetectZero? || pc.SetRank?
  }

  /** The first of the three variables that is set gives the rank; if none is, the rank stays. */
  lemma NewRankIs(e: Env, rank: int)
    ensures e.ompiRank.Some? ==> NewRank(e, rank) == Atoi(e.ompiRank.value)
    ensures e.ompiRank.None? && e.pmiRank.Some? ==> NewRank(e, rank) == Atoi(e.pmiRank.value)
    ensures e.ompiRank.None? && e.pmiRank.None? && e.pmixRank.Some? ==> NewRank(e, rank) == Atoi(e.pmixRank.value)
    ensures e.ompiRank.None? && e.pmiRank.None? && e.pmixRank.None? ==> NewRank(e, rank) == rank
  {
  }

  /** From behind the publish point to the job start. */
  lemma ToStartJob(e: Env, s0: State, s: State, t: nat) returns (s': State)
    requires Leads(e, s0, s) && t < |s.pcs| && BeforeRank(s.pcs[t])
    ensures Leads(e, s0, s') && s'.pcs == s.pcs[t := StartJob]
    ensures s'.data == s.data.(rank := NewRank(e, s.data.rank)) && s'.sent == s.sent
    ensures s'.called == s.called && s'.published == s.published
    ensures s'.lock == if s.pcs[t].LeaveFirst? then -1 else s.lock
    ensures s'.rankZero == (s.rankZero || (!s.pcs[t].SetRank? && Zero(e)))
  {
    hide Leads, GoWrite;
    s' := s;
    if s'.pcs[t].LeaveFirst? {
      s' := Next(e, s0, s', Go(t));
      assert s' == Move(s, t, DetectZero).(lock := -1);
    }
    if s'.pcs[t].DetectZero? {
      ghost var before := s';
      s' := Next(e, s0, s', Go(t));
      assert s' == Move(before, t, SetRank).(rankZero := before.rankZero || Zero(e));
    }
    s' := Next(e, s0, s', Go(t));
    assert s'.pcs == s.pcs[t := StartJob];
  }

  /** The process of rank 0 sends its job start unless it is told not to. */
  predicate StartDue(e: Env) {
    Zero(e) && Coupled(e)
  }

  /** Not decoupled, and "0" in the first of the three variables that is set, or none of them set. */
  lemma StartDueIff(e: Env)
    ensures StartDue(e) <==>
      && (e.decouple == None || e.decouple == Some("0"))
      && (e.ompiRank == Some("0") || (e.ompiRank == None &&
          (e.pmiRank == Some("0") || (e.pmiRank == None &&
           (e.pmixRank == Some("0") || e.pmixRank == None)))))
  {
  }

  const JOB_START := "__daap_jobstart"

  lemma FromStartJob(e: Env, s0: State, s: State, t: nat) returns (s': State)
    requires Leads(e, s0, s) && t < |s.pcs| && s.pcs[t].StartJob? && s.called && Full(s.data)
    ensures Leads(e, s0, s')
    ensures s' == Move(s, t, Outside).(sent :=
              if s.rankZero && Coupled(e) then SentBy(s, MessageOf(s.data, JOB_START, true)) else s.sent)
  {
    hide Leads, GoWrite, SentBy, MessageOf;
    var s1 := Next(e, s0, s, Go(t));
    if s.rankZero && Coupled(e) {
      assert s1 == Move(s, t, Guard(JOB_START, true));
      GuardToEnd(e, s0, s, t, JOB_START, true);
      s' := Move(s, t, Outside).(sent := SentBy(s, MessageOf(s.data, JOB_START, true)));
    } else {
      assert s1 == Move(s, t, Outside);
      s' := s1;
    }
  }

  /** `init_data` once `daapInit` has filled it. */
  function Filled(e: Env, app: string, tr: Transport, name: string, rank: int): Data {
    Data(Some(app), Some(HostOf(e, name)), Some(ClusterOf(e)), Some(tr), rank)
  }

  lemma PublishCanHappen(e: Env, s: State, t: nat, app: string, tr: Transport, name: string) returns (s': State)
    requires s.lock == -1 && !s.called && t < |s.pcs| && s.pcs[t].Outside?
    ensures Leads(e, s, s')
    ensures s' == Move(s, t, LeaveFirst).(lock := t, called := true, published := s.published + [t], data := Filled(e, app, tr, name, 0))
  {
    hide Leads;
    LeadsNowhere(e, s);
    IntoInit(e, s, s, t, app, tr);
    var s1 := s.(lock := t, data := s.data.(app := Some(app)));
    assert Move(s1, t, SetTransport(tr)) == Move(s, t, SetTransport(tr)).(lock := t, data := s1.data);
    ThroughInit(e, s, s1, t, tr, name);
    var s2 := s1.(data := s1.data.(transport := Some(tr), rank := 0, host := Some(HostOf(e, name))));
    assert Move(s2, t, SetCluster) == Move(s1, t, SetCluster).(data := s2.data);
    ToPublish(e, s, s2, t);
    s' := Move(s2, t, LeaveFirst).(called := true, published := s2.published + [t],
            data := s2.data.(cluster := Some(ClusterOf(e))));
  }

  /**
    From every state in which nobody is inside and nothing is published, a call of `daapInit`
    can run to its end: it fills in everything, leaves the lock, and has sent the job start if
    that is due. Unless the environment names the node, `name` is what the system answers.
   */
  lemma InitCanComplete(e: Env, s: State, t: nat, app: string, tr: Transport, name: string) returns (s': State)
    requires s.lock == -1 && !s.called && !s.rankZero && t < |s.pcs| && s.pcs[t].Outside?
    ensures Leads(e, s, s') && s'.lock == -1 && s'.called && s'.pcs == s.pcs
    ensures s'.data == Filled(e, app, tr, name, NewRank(e, 0))
    ensures s'.sent == s.sent +
              if StartDue(e) && (tr == Syslog || tr == Tcp) then [MessageOf(s'.data, JOB_START, true)] else []
  {
    hide Leads;
    var s1 := PublishCanHappen(e, s, t, app, tr, name);
    var s2 := ToStartJob(e, s, s1, t);
    s' := FromStartJob(e, s, s2, t);
    assert s'.pcs == s.pcs;
  }

  /** A further call of `daapInit` succeeds at once and changes nothing, whatever it is given. */
  lemma SecondCall(e: Env, s0: State, s: State, t: nat, app: string, tr: Transport) returns (leaving: State)
    requires Leads(e, s0, s) && s.called && s.lock == -1 && t < |s.pcs| && s.pcs[t].Outside?
    ensures Leads(e, s0, leaving) && leaving == Move(s, t, Leave(true)).(lock := t)
    ensures Enabled(e, leaving, Go(t)) && Apply(e, leaving, Go(t)) == s
  {
    hide Leads, GoWrite;
    var s1 := Next(e, s0, s, CallInit(t, app, tr));
    var s2 := Next(e, s0, s1, Go(t));
    assert s2 == Move(s, t, InitCheck(app, tr)).(lock := t);
    leaving := Next(e, s0, s2, Go(t));
    assert leaving.pcs[t := Outside] == s.pcs;
  }

  /** Without a host name `daapInit` fails: the lock is free again, nothing is published, and another call can try. */
  lemma FailedCall(e: Env, s0: State, s: State, t: nat) returns (leaving: State)
    requires t < |s.pcs| && Leads(e, s0, Move(s, t, SetHost).(lock := t)) && e.nodeName.None? && !s.called
    ensures Leads(e, s0, leaving) && leaving == Move(s, t, Leave(false)).(lock := t)
    ensures Enabled(e, leaving, Go(t)) && Apply(e, leaving, Go(t)) == Move(s, t, Outside).(lock := -1)
  {
    hide Leads, GoWrite;
    leaving := Next(e, s0, Move(s, t, SetHost).(lock := t), HostFails(t));
    assert leaving.pcs[t := Outside] == s.pcs[t := Outside];
  }

  // -- When the job start is sent

  /** What the progress of the thread that published says about the flag and the job start. */
  predicate JobAt(e: Env, pc: Pc, zero: bool, autos: nat, sends: bool) {
    if pc.LeaveFirst? || pc.DetectZero? then !zero
    else if pc.SetRank? || pc.StartJob? then zero == Zero(e)
    else if IsAuto(pc) then StartDue(e)
    else autos == if StartDue(e) && sends then 1 else 0
  }

  predicate JobInv(e: Env, s: State) {
    if s.published == [] then !s.rankZero && s.sent == []
    else s.published[0] < |s.pcs| && JobAt(e, s.pcs[s.published[0]], s.rankZero, Autos(s.sent), Sends(s.data))
  }

  /** A step of `daapLogWrite` before the message is sent: the thread reads, and nothing else changes. */
  lemma ReadMoves(e: Env, s: State, t: nat)
    requires s.called && Enabled(e, s, Go(t)) && Writes(s.pcs[t]) && !s.pcs[t].Send?
    ensures var s' := Apply(e, s, Go(t));
      && s'.pcs == s.pcs[t := s'.pcs[t]] && s' == s.(pcs := s'.pcs)
      && Writes(s'.pcs[t]) && IsAuto(s'.pcs[t]) == IsAuto(s.pcs[t])
      && (s'.pcs[t].Send? ==> s'.pcs[t].m.rank == s.data.rank)
  {
    hide GoInit;
  }

  lemma SendMoves(e: Env, s: State, t: nat)
    requires s.called && Enabled(e, s, Go(t)) && s.pcs[t].Send?
    ensures Apply(e, s, Go(t)) == Move(s, t, Outside).(sent := SentBy(s, s.pcs[t].m))
  {
    hide GoInit;
  }

  /** What the job start of the thread that published depends on is left alone by a step from `s` to `s'` of thread `t`. */
  predicate JobUntouched(s: State, s': State, t: nat)
    requires t < |s.pcs|
  {
    && |s'.pcs| == |s.pcs| && s'.pcs == s.pcs[t := s'.pcs[t]] && s'.rankZero == s.rankZero
    && s'.published == s.published && Sends(s'.data) == Sends(s.data) && Autos(s'.sent) == Autos(s.sent)
  }

  lemma OtherWriterStep(e: Env, s: State, t: nat)
    requires s.called && Enabled(e, s, Go(t)) && Writes(s.pcs[t]) && !IsAuto(s.pcs[t])
    ensures JobUntouched(s, Apply(e, s, Go(t)), t)
  {
    hide Apply, Autos;
    if s.pcs[t].Send? {
      SendMoves(e, s, t);
      AutosAppend(s.sent, s.pcs[t].m);
      assert s.sent + [] == s.sent;
    } else {
      ReadMoves(e, s, t);
    }
  }

  lemma OtherInitStep(e: Env, s: State, a: Action)
    requires Enabled(e, s, a) && !Writes(s.pcs[a.t]) && !Building(s.pcs[a.t]) && !First(s.pcs[a.t])
    ensures JobUntouched(s, Apply(e, s, a), a.t)
  {
    hide GoWrite, Autos;
  }

  /** A step of another thread. */
  lemma OtherJobStep(e: Env, s: State, a: Action)
    requires Inv(s) && JobInv(e, s) && Enabled(e, s, a) && s.published != [] && a.t != s.published[0]
    ensures JobInv(e, Apply(e, s, a))
  {
    InvAt(s, a.t);
    assert s.called && !First(s.pcs[a.t]) && !Building(s.pcs[a.t]);
    hide Inv, Apply, Enabled, JobAt, First, Building, ThreadInv, SharedInv;
    if Writes(s.pcs[a.t]) {
      hide Writes;
      WriterGoes(e, s, a);
      AutosAreFirst(s.pcs[a.t]);
      OtherWriterStep(e, s, a.t);
    } else {
      OtherInitStep(e, s, a);
    }
  }

  lemma WriterGoes(e: Env, s: State, a: Action)
    requires Enabled(e, s, a) && Writes(s.pcs[a.t])
    ensures a == Go(a.t)
  {
  }

  lemma AutosAreFirst(pc: Pc)
    requires !First(pc)
    ensures !IsAuto(pc)
  {
  }

  /** A step of the thread that published, outside or in `daapInit`. */
  lemma OwnInitStep(e: Env, s: State, a: Action)
    requires Inv(s) && JobInv(e, s) && Enabled(e, s, a) && s.published != [] && a.t == s.published[0]
    requires !Writes(s.pcs[a.t])
    ensures JobInv(e, Apply(e, s, a))
  {
    hide GoWrite, NewRank;
    assert ThreadInv(a.t, s.pcs[a.t], Look(s));
    StepSettled(e, s, a);
  }

  lemma OwnerIs(s: State)
    requires Inv(s) && s.published != [] && s.published[0] < |s.pcs|
    ensures s.called && (First(s.pcs[s.published[0]]) ==> Autos(s.sent) == 0)
  {
    InvAt(s, s.published[0]);
  }

  /** The thread that published reads on: its progress says the same as before. */
  lemma OwnReadStep(e: Env, s: State, t: nat)
    requires Inv(s) && JobInv(e, s) && Enabled(e, s, Go(t)) && s.published != [] && t == s.published[0]
    requires Writes(s.pcs[t]) && !s.pcs[t].Send?
    ensures JobInv(e, Apply(e, s, Go(t)))
  {
    hide Inv, Apply, StartDue, IsAuto, Autos;
    OwnerIs(s);
    ReadMoves(e, s, t);
  }

  lemma OwnSendStep(e: Env, s: State, t: nat)
    requires Inv(s) && JobInv(e, s) && Enabled(e, s, Go(t)) && s.published != [] && t == s.published[0]
    requires s.pcs[t].Send?
    ensures JobInv(e, Apply(e, s, Go(t)))
  {
    hide Inv, Apply, StartDue, Autos;
    OwnerIs(s);
    SendMoves(e, s, t);
    AutosAppend(s.sent, s.pcs[t].m);
    assert s.sent + [] == s.sent;
  }

  /** A step before anybody has published. */
  lemma FirstJobStep(e: Env, s: State, a: Action)
    requires Inv(s) && JobInv(e, s) && Enabled(e, s, a) && s.published == []
    ensures JobInv(e, Apply(e, s, a))
  {
    assert ThreadInv(a.t, s.pcs[a.t], Look(s));
  }

  lemma OwnStepKeeps(e: Env, s: State, a: Action)
    requires Inv(s) && JobInv(e, s) && Enabled(e, s, a) && s.published != [] && a.t == s.published[0]
    ensures JobInv(e, Apply(e, s, a))
  {
    hide Inv, JobInv, Apply;
    if Writes(s.pcs[a.t]) {
      assert a == Go(a.t);
      if s.pcs[a.t].Send? {
        OwnSendStep(e, s, a.t);
      } else {
        OwnReadStep(e, s, a.t);
      }
    } else {
      OwnInitStep(e, s, a);
    }
  }

  lemma {:induction false} JobKept(e: Env, s: State, actions: seq<Action>)
    requires Inv(s) && JobInv(e, s) && IsRun(e, s, actions)
    ensures JobInv(e, End(e, s, actions))
    decreases |actions|
  {
    hide Inv, JobInv, Enabled, Apply;
    if actions != [] {
      var a := actions[0];
      if s.published == [] {
        FirstJobStep(e, s, a);
      } else if a.t == s.published[0] {
        OwnStepKeeps(e, s, a);
      } else {
        OtherJobStep(e, s, a);
      }
      StepKeeps(e, s, a);
      JobKept(e, Apply(e, s, a), actions[1..]);
    }
  }

  /**
    The automatic job start in every interleaving: nothing before the publish point; while the
    thread that published is on its way, none; behind that exactly one, if the process is of
    rank 0, is not decoupled, and has a transport, and none otherwise.
   */
  lemma JobStartExactly(e: Env, threads: nat, s: State)
    requires Reachable(e, threads, s)
    ensures s.published == [] ==> s.sent == [] && !s.rankZero
    ensures s.published != [] ==> s.published[0] < |s.pcs|
    ensures s.published != [] ==>
      Autos(s.sent) ==
        if !First(s.pcs[s.published[0]]) && StartDue(e) && (s.data.transport == Some(Syslog) || s.data.transport == Some(Tcp))
        then 1 else 0
  {
    hide Enabled, Apply, StartDue;
    ReachableInv(e, threads, s);
    var actions: seq<Action> :| IsRun(e, Init(threads), actions) && End(e, Init(threads), actions) == s;
    InitInv(threads);
    JobKept(e, Init(threads), actions);
    if s.published != [] {
      InvAt(s, s.published[0]);
      assert s.called && Full(s.data);
      SendingTransports(s.data);
    }
  }

  // -- When messages agree on the rank

  /** Nothing that the thread has still to do changes the rank, and it does not hold a message with another one. */
  predicate ThreadSettled(e: Env, pc: Pc, rank: int) {
    (BeforeRank(pc) ==> NewRank(e, rank) == rank) && (pc.Send? ==> pc.m.rank == rank)
  }

  predicate RankSettled(e: Env, s: State) {
    forall t | 0 <= t < |s.pcs| :: ThreadSettled(e, s.pcs[t], s.data.rank)
  }

  /** The messages sent after the first `n` carry the rank. */
  predicate Carry(sent: seq<Message>, n: nat, rank: int) {
    forall i | n <= i < |sent| :: sent[i].rank == rank
  }

  /** However the run goes on without `daapSetRank`, all further messages carry the present rank. */
  ghost predicate RankAgrees(e: Env, s: State) {
    forall actions: seq<Action> | IsRun(e, s, actions) && Calm(actions) ::
      Carry(End(e, s, actions).sent, |s.sent|, s.data.rank)
  }

  /** What a step that leads from `s` to `s'` does to the rank, to thread `t` and to the messages, once that is settled. */
  predicate Calmly(e: Env, s: State, s': State, t: nat)
    requires t < |s.pcs|
  {
    && s'.called && s'.data.rank == s.data.rank && |s'.pcs| == |s.pcs|
    && s'.pcs == s.pcs[t := s'.pcs[t]] && ThreadSettled(e, s'.pcs[t], s.data.rank)
    && |s.sent| <= |s'.sent| && s'.sent[..|s.sent|] == s.sent && Carry(s'.sent, |s.sent|, s.data.rank)
  }

  lemma WriterSettled(e: Env, s: State, t: nat)
    requires s.called && Enabled(e, s, Go(t)) && ThreadSettled(e, s.pcs[t], s.data.rank) && Writes(s.pcs[t])
    ensures Calmly(e, s, Apply(e, s, Go(t)), t)
  {
    hide Apply, NewRank;
    if s.pcs[t].Send? {
      SendMoves(e, s, t);
    } else {
      ReadMoves(e, s, t);
    }
  }

  lemma OtherSettled(e: Env, s: State, a: Action)
    requires Inv(s) && s.called && Enabled(e, s, a) && !a.CallSetRank? && ThreadSettled(e, s.pcs[a.t], s.data.rank)
    requires !Writes(s.pcs[a.t])
    ensures Calmly(e, s, Apply(e, s, a), a.t)
  {
    InvAt(s, a.t);
    hide GoWrite, Inv, Autos, Identity;
    assert s.sent[..|s.sent|] == s.sent;
  }

  lemma OwnSettled(e: Env, s: State, a: Action)
    requires Inv(s) && s.called && Enabled(e, s, a) && !a.CallSetRank? && ThreadSettled(e, s.pcs[a.t], s.data.rank)
    ensures Calmly(e, s, Apply(e, s, a), a.t)
  {
    hide Apply, Inv, ThreadSettled, Calmly;
    if Writes(s.pcs[a.t]) {
      assert a == Go(a.t);
      WriterSettled(e, s, a.t);
    } else {
      OtherSettled(e, s, a);
    }
  }

  lemma SettledStep(e: Env, s: State, a: Action)
    requires Inv(s) && s.called && RankSettled(e, s) && Enabled(e, s, a) && !a.CallSetRank?
    ensures var s' := Apply(e, s, a);
      && s'.called && RankSettled(e, s') && s'.data.rank == s.data.rank
      && |s.sent| <= |s'.sent| && s'.sent[..|s.sent|] == s.sent && Carry(s'.sent, |s.sent|, s.data.rank)
  {
    hide NewRank, Apply, Inv, ThreadSettled;
    OwnSettled(e, s, a);
  }

  lemma {:induction false} SettledAgrees(e: Env, s: State, actions: seq<Action>)
    requires Inv(s) && s.called && RankSettled(e, s) && IsRun(e, s, actions) && Calm(actions)
    ensures Carry(End(e, s, actions).sent, |s.sent|, s.data.rank)
    ensures |s.sent| <= |End(e, s, actions).sent| && End(e, s, actions).sent[..|s.sent|] == s.sent
    decreases |actions|
  {
    hide Inv, RankSettled, Enabled, Apply;
    if actions != [] {
      var s' := Apply(e, s, actions[0]);
      SettledStep(e, s, actions[0]);
      StepKeeps(e, s, actions[0]);
      SettledAgrees(e, s', actions[1..]);
      var last := End(e, s', actions[1..]).sent;
      assert forall i | 0 <= i < |s'.sent| :: last[i] == last[..|s'.sent|][i];
      assert last[..|s.sent|] == last[..|s'.sent|][..|s.sent|];
    }
  }

  /** A thread that has still to set another rank can do so and then send a message. */
  lemma OtherRankIsSent(e: Env, s: State, t: nat) returns (s': State)
    requires Inv(s) && s.called && Sends(s.data) && t < |s.pcs| && BeforeRank(s.pcs[t])
    ensures Leads(e, s, s') && |s'.sent| > |s.sent| && s'.sent[|s.sent|].rank == NewRank(e, s.data.rank)
  {
    hide Leads;
    LeadsNowhere(e, s);
    var s1 := ToStartJob(e, s, s, t);
    var s2 := FromStartJob(e, s, s1, t);
    SendingTransports(s.data);
    if s2.sent == s.sent {
      s' := MessageCarriesRank(e, s, s2, t, "");
    } else {
      s' := s2;
    }
  }

  lemma NotAgreed(e: Env, s: State, s': State)
    requires Leads(e, s, s') && |s'.sent| > |s.sent| && s'.sent[|s.sent|].rank != s.data.rank
    ensures !RankAgrees(e, s)
  {
    hide Enabled, Apply;
    var actions: seq<Action> :| IsRun(e, s, actions) && Calm(actions) && End(e, s, actions) == s';
    assert !Carry(End(e, s, actions).sent, |s.sent|, s.data.rank);
  }

  /**
    After initialization, and as long as nobody calls `daapSetRank`: all messages sent from now
    on, whatever the run, carry the present rank, if and only if no thread is on its way to set
    another one and none is about to send a message with another one.
   */
  lemma RankAgreesIff(e: Env, s: State)
    requires Inv(s) && s.called && (s.data.transport == Some(Syslog) || s.data.transport == Some(Tcp))
    ensures RankAgrees(e, s) <==> RankSettled(e, s)
  {
    hide Leads, Enabled, Apply, Inv;
    if RankSettled(e, s) {
      forall actions: seq<Action> | IsRun(e, s, actions) && Calm(actions)
        ensures Carry(End(e, s, actions).sent, |s.sent|, s.data.rank)
      {
        SettledAgrees(e, s, actions);
      }
    } else {
      var t: nat :| t < |s.pcs| && !ThreadSettled(e, s.pcs[t], s.data.rank);
      if BeforeRank(s.pcs[t]) {
        var s' := OtherRankIsSent(e, s, t);
        NotAgreed(e, s, s');
      } else {
        PendingIsSent(e, s, t);
      }
    }
  }

  lemma PendingIsSent(e: Env, s: State, t: nat)
    requires Inv(s) && s.called && Sends(s.data) && t < |s.pcs| && s.pcs[t].Send? && s.pcs[t].m.rank != s.data.rank
    ensures !RankAgrees(e, s)
  {
    hide Leads;
    LeadsNowhere(e, s);
    var s' := Next(e, s, s, Go(t));
    assert s'.sent == s.sent + [s.pcs[t].m];
    NotAgreed(e, s, s');
  }

  /** Without a transport nothing is sent at all, and the rank does not matter. */
  lemma {:induction false} SilentWithoutTransport(e: Env, s: State, actions: seq<Action>)
    requires Inv(s) && s.called && s.data.transport == Some(NoTransport) && IsRun(e, s, actions)
    ensures End(e, s, actions).sent == s.sent
    decreases |actions|
  {
    if actions != [] {
      StepKeeps(e, s, actions[0]);
      StepSettled(e, s, actions[0]);
      SilentWithoutTransport(e, Apply(e, s, actions[0]), actions[1..]);
    }
  }

  /** With `daapSetRank` no state is safe: two messages in a row can name different ranks. */
  lemma RankMoves(e: Env, threads: nat, s: State, t: nat, rank: int) returns (s': State)
    requires Reachable(e, threads, s) && s.called && (s.data.transport == Some(Syslog) || s.data.transport == Some(Tcp))
    requires t < |s.pcs| && s.pcs[t].Outside? && rank != s.data.rank
    ensures Reachable(e, threads, s') && |s'.sent| == |s.sent| + 2
    ensures s'.sent[|s.sent|].rank != s'.sent[|s.sent| + 1].rank
  {
    hide Leads;
    ReachableInv(e, threads, s);
    LeadsNowhere(e, s);
    var s1 := MessageCarriesRank(e, s, s, t, "");
    LeadsToReachable(e, threads, s, s1);
    var s2 := SetRankNext(e, threads, s1, t, rank);
    LeadsNowhere(e, s2);
    s' := MessageCarriesRank(e, s2, s2, t, "");
    LeadsToReachable(e, threads, s2, s');
  }

  lemma SetRankNext(e: Env, threads: nat, s: State, t: nat, rank: int) returns (s': State)
    requires Reachable(e, threads, s) && t < |s.pcs| && s.pcs[t].Outside?
    ensures Reachable(e, threads, s') && s' == s.(data := s.data.(rank := rank))
  {
    var a := CallSetRank(t, rank);
    var actions: seq<Action> :| IsRun(e, Init(threads), actions) && End(e, Init(threads), actions) == s;
    RunOn(e, Init(threads), actions, a);
    s' := Apply(e, s, a);
  }
}
