/**
  Any number of threads calling `daapTCPLogWrite` (`src/daap_tcp.c`, lines 113-146 and
  148-185) at the same time: the write lock, the global socket, and what goes over the wire.
  A step is one access to shared state or one system call of one thread.
 */
module TcpProtocol {
  import opened WriteLoop

  /** Where a thread is in `daapTCPLogWrite`; `counts` are the results of its writes so far. */
  datatype Pc =
    | Idle
    | Waiting(msg: string)
    | Connecting(msg: string)
    | Writing(msg: string, counts: seq<nat>)
    | Closing(msg: string, counts: seq<nat>, ok: bool)
    | Unlocking(msg: string, counts: seq<nat>, ok: bool, connected: bool)

  datatype Status = Connected | Closed | Refused

  /** A socket and the bytes written to it. */
  datatype Conn = Conn(bytes: string, status: Status)

  /** A call that got a connection and has returned; `ok` if its loop ended by itself. */
  datatype Call = Call(thread: nat, msg: string, counts: seq<nat>, ok: bool)

  /** `lock` is the thread that holds the mutex and `sockfd` the index of the global socket, -1 for none. */
  datatype State = State(lock: int, sockfd: int, pcs: seq<Pc>, conns: seq<Conn>, log: seq<Call>, exited: bool)

  function Init(threads: nat): State {
    State(-1, -1, seq(threads, _ => Idle), [], [], false)
  }

  datatype Action =
    | Enter(t: nat, msg: string)
    | Lock(t: nat)
    | NoSocket(t: nat)           // socket() fails
    | Refuse(t: nat)             // connect() fails; the socket stays open
    | Connect(t: nat)
    | WriteSome(t: nat, c: nat)  // SSL_write returns c
    | WriteFails(t: nat)         // SSL_write returns less than -1
    | Exit(t: nat)               // SSL_write returns -1: the process ends
    | Done(t: nat)               // the loop condition is false
    | Close(t: nat)
    | Unlock(t: nat)

  predicate Complete(msg: string, counts: seq<nat>) {
    Total(counts, |counts|) == |msg|
  }

  predicate Enabled(s: State, a: Action) {
    && !s.exited && a.t < |s.pcs|
    && var pc := s.pcs[a.t];
       match a
       case Enter(_, _) => pc.Idle?
       case Lock(_) => pc.Waiting? && s.lock == -1
       case NoSocket(_) => pc.Connecting?
       case Refuse(_) => pc.Connecting?
       case Connect(_) => pc.Connecting?
       case WriteSome(_, c) => pc.Writing? && !Complete(pc.msg, pc.counts) && Offset(pc.counts, |pc.counts|) + c <= |pc.msg|
       case WriteFails(_) => pc.Writing? && !Complete(pc.msg, pc.counts)
       case Exit(_) => pc.Writing? && !Complete(pc.msg, pc.counts)
       case Done(_) => pc.Writing? && Complete(pc.msg, pc.counts)
       case Close(_) => pc.Closing?
       case Unlock(_) => pc.Unlocking?
  }

  /** `SSL_write(cSSL, ...)`: the bytes go to whatever connection the global variables name. */
  function Put(s: State, bytes: string): seq<Conn> {
    if 0 <= s.sockfd < |s.conns| then
      s.conns[s.sockfd := s.conns[s.sockfd].(bytes := s.conns[s.sockfd].bytes + bytes)]
    else s.conns
  }

  function Shut(s: State): seq<Conn> {
    if 0 <= s.sockfd < |s.conns| then s.conns[s.sockfd := s.conns[s.sockfd].(status := Closed)] else s.conns
  }

  function Apply(s: State, a: Action): State
    requires Enabled(s, a)
  {
    var pc := s.pcs[a.t];
    match a
    case Enter(t, msg) => s.(pcs := s.pcs[t := Waiting(msg)])
    case Lock(t) => s.(lock := t, pcs := s.pcs[t := Connecting(pc.msg)])
    case NoSocket(t) => s.(sockfd := -1, pcs := s.pcs[t := Unlocking(pc.msg, [], false, false)])
    case Refuse(t) =>
      s.(sockfd := |s.conns|, conns := s.conns + [Conn("", Refused)], pcs := s.pcs[t := Unlocking(pc.msg, [], false, false)])
    case Connect(t) =>
      s.(sockfd := |s.conns|, conns := s.conns + [Conn("", Connected)], pcs := s.pcs[t := Writing(pc.msg, [])])
    case WriteSome(t, c) =>
      var from := Offset(pc.counts, |pc.counts|);
      s.(conns := Put(s, pc.msg[from..from + c]), pcs := s.pcs[t := Writing(pc.msg, pc.counts + [c])])
    case WriteFails(t) => s.(pcs := s.pcs[t := Closing(pc.msg, pc.counts, false)])
    case Exit(_) => s.(exited := true)
    case Done(t) => s.(pcs := s.pcs[t := Closing(pc.msg, pc.counts, true)])
    case Close(t) => s.(conns := Shut(s), pcs := s.pcs[t := Unlocking(pc.msg, pc.counts, pc.ok, true)])
    case Unlock(t) =>
      s.(lock := -1, pcs := s.pcs[t := Idle],
         log := if pc.connected then s.log + [Call(t, pc.msg, pc.counts, pc.ok)] else s.log)
  }

  // -- The invariant

  /** The bytes of the connections that were made, in order. */
  function Opened(conns: seq<Conn>): seq<string> {
    if conns == [] then [] else
      var last := conns[|conns| - 1];
      Opened(conns[..|conns| - 1]) + if last.status == Refused then [] else [last.bytes]
  }

  predicate LoopOk(msg: string, counts: seq<nat>) {
    Possible(|msg|, counts) && Ran(|msg|, counts)
  }

  predicate CallOk(c: Call) {
    LoopOk(c.msg, c.counts) && (c.ok ==> Complete(c.msg, c.counts))
  }

  predicate LogOk(log: seq<Call>) {
    forall i | 0 <= i < |log| :: CallOk(log[i])
  }

  /** What the returned calls have written, call by call. */
  function Written(log: seq<Call>): (r: seq<string>)
    requires LogOk(log)
    ensures |r| == |log|
  {
    if log == [] then [] else
      var last := log[|log| - 1];
      Written(log[..|log| - 1]) + [Wire(last.msg, last.counts, |last.counts|)]
  }

  predicate Critical(pc: Pc) {
    !pc.Idle? && !pc.Waiting?
  }

  predicate HasConnection(pc: Pc) {
    pc.Writing? || pc.Closing? || (pc.Unlocking? && pc.connected)
  }

  /** The status of the socket of a thread that has a connection. */
  function StatusOf(pc: Pc): Status
    requires HasConnection(pc)
  {
    if pc.Unlocking? then Closed else Connected
  }

  predicate NoneConnected(conns: seq<Conn>) {
    forall i | 0 <= i < |conns| :: conns[i].status != Connected
  }

  /** The one who holds the lock is the one inside, and all connections but the current one are closed. */
  ghost predicate Inv(s: State) {
    && -1 <= s.lock < |s.pcs| && LogOk(s.log)
    && (forall t | 0 <= t < |s.pcs| :: Critical(s.pcs[t]) <==> t == s.lock)
    && if s.lock != -1 && HasConnection(s.pcs[s.lock]) then Current(s, s.pcs[s.lock])
       else NoneConnected(s.conns) && Opened(s.conns) == Written(s.log)
  }

  /** The current connection is the last one; it carries what the loop of its thread has written, and nothing else. */
  ghost predicate Current(s: State, pc: Pc)
    requires HasConnection(pc) && LogOk(s.log)
  {
    var last := |s.conns| - 1;
    && 0 <= last == s.sockfd
    && LoopOk(pc.msg, pc.counts) && (pc.Writing? || !pc.ok || Complete(pc.msg, pc.counts))
    && s.conns[last] == Conn(Wire(pc.msg, pc.counts, |pc.counts|), StatusOf(pc))
    && NoneConnected(s.conns[..last]) && Opened(s.conns[..last]) == Written(s.log)
  }

  lemma InitInv(threads: nat)
    ensures Inv(Init(threads))
  {
  }

  // -- Every step keeps it

  lemma {:induction false} TotalPrefix(counts: seq<nat>, c: nat, k: nat)
    requires k <= |counts|
    ensures Total(counts + [c], k) == Total(counts, k)
  {
    if k > 0 {
      TotalPrefix(counts, c, k - 1);
    }
  }

  lemma {:induction false} WirePrefix(msg: string, counts: seq<nat>, c: nat, k: nat)
    requires k <= |counts| && Possible(|msg|, counts) && Possible(|msg|, counts + [c])
    ensures Wire(msg, counts + [c], k) == Wire(msg, counts, k)
  {
    if k > 0 {
      WirePrefix(msg, counts, c, k - 1);
    }
  }

  lemma MoreIsPossible(n: nat, counts: seq<nat>, c: nat)
    requires Possible(n, counts) && Offset(counts, |counts|) + c <= n
    ensures Possible(n, counts + [c])
  {
    var more := counts + [c];
    forall k | 0 <= k < |more| ensures Offset(more, k) + more[k] <= n {
      assert k < |counts| ==> more[k] == counts[k] && Offset(more, k) == Offset(counts, k);
    }
  }

  lemma {:induction false} MoreRan(n: nat, counts: seq<nat>, c: nat)
    requires Ran(n, counts) && Total(counts, |counts|) != n
    ensures Ran(n, counts + [c])
  {
    forall k | 0 <= k < |counts + [c]| ensures Total(counts + [c], k) != n {
      TotalPrefix(counts, c, k);
    }
  }

  /** One more write of the loop. */
  lemma {:induction false} LoopStep(msg: string, counts: seq<nat>, c: nat)
    requires LoopOk(msg, counts) && !Complete(msg, counts)
    requires Offset(counts, |counts|) + c <= |msg|
    ensures LoopOk(msg, counts + [c])
    ensures Wire(msg, counts + [c], |counts| + 1) ==
      Wire(msg, counts, |counts|) + msg[Offset(counts, |counts|)..Offset(counts, |counts|) + c]
  {
    MoreIsPossible(|msg|, counts, c);
    MoreRan(|msg|, counts, c);
    WirePrefix(msg, counts, c, |counts|);
    WireStep(msg, counts + [c], |counts|);
    assert Offset(counts + [c], |counts|) == Offset(counts, |counts|);
  }

  lemma {:induction false} LoopStart(msg: string)
    ensures LoopOk(msg, []) && Wire(msg, [], 0) == ""
  {
  }

  lemma {:induction false} NewConnection(conns: seq<Conn>, c: Conn)
    ensures (conns + [c])[..|conns|] == conns
    ensures Opened(conns + [c]) == Opened(conns) + if c.status == Refused then [] else [c.bytes]
    ensures NoneConnected(conns) && c.status != Connected ==> NoneConnected(conns + [c])
  {
    hide Opened;
    NewOpened(conns, c);
  }

  lemma {:induction false} NewOpened(conns: seq<Conn>, c: Conn)
    ensures (conns + [c])[..|conns|] == conns
    ensures Opened(conns + [c]) == Opened(conns) + if c.status == Refused then [] else [c.bytes]
  {
    var more := conns + [c];
    assert more[..|more| - 1] == conns && more[|more| - 1] == c;
  }

  /** Replacing the last connection. */
  lemma LastConnection(conns: seq<Conn>, c: Conn)
    requires conns != []
    ensures conns[|conns| - 1 := c][..|conns| - 1] == conns[..|conns| - 1]
  {
  }

  lemma {:induction false} OpenedLast(conns: seq<Conn>)
    requires conns != [] && conns[|conns| - 1].status == Closed && NoneConnected(conns[..|conns| - 1])
    ensures Opened(conns) == Opened(conns[..|conns| - 1]) + [conns[|conns| - 1].bytes]
    ensures NoneConnected(conns)
  {
    forall i | 0 <= i < |conns| ensures conns[i].status != Connected {
      assert i < |conns| - 1 ==> conns[..|conns| - 1][i] == conns[i];
    }
  }

  lemma {:induction false} NewCall(log: seq<Call>, c: Call)
    requires LogOk(log) && CallOk(c)
    ensures LogOk(log + [c]) && Written(log + [c]) == Written(log) + [Wire(c.msg, c.counts, |c.counts|)]
  {
    assert (log + [c])[..|log|] == log;
  }

  /** Steps outside the connection: entering, taking the lock, failing to get a socket. */
  lemma OutsideKeeps(s: State, a: Action)
    requires Inv(s) && Enabled(s, a) && (a.Enter? || a.Lock? || a.NoSocket?)
    ensures Inv(Apply(s, a))
  {
    hide Opened, Written, LogOk, LoopOk, Complete, NoneConnected;
  }

  lemma RefuseKeeps(s: State, a: Action)
    requires Inv(s) && Enabled(s, a) && a.Refuse?
    ensures Inv(Apply(s, a))
  {
    hide Opened, Written, LogOk, LoopOk, Complete, NoneConnected;
    NewConnection(s.conns, Conn("", Refused));
    assert Opened(s.conns) + [] == Opened(s.conns);
  }

  lemma ConnectKeeps(s: State, a: Action)
    requires Inv(s) && Enabled(s, a) && a.Connect?
    ensures Inv(Apply(s, a))
  {
    hide Opened, Written, LogOk, LoopOk, NoneConnected;
    NewConnection(s.conns, Conn("", Connected));
    LoopStart(s.pcs[a.t].msg);
  }

  lemma WriteKeeps(s: State, a: Action)
    requires Inv(s) && Enabled(s, a) && a.WriteSome?
    ensures Inv(Apply(s, a))
  {
    hide LoopOk, Complete, Wire, Total;
    var pc, last := s.pcs[a.t], |s.conns| - 1;
    LoopStep(pc.msg, pc.counts, a.c);
    var c := Conn(Wire(pc.msg, pc.counts + [a.c], |pc.counts| + 1), Connected);
    assert Apply(s, a).conns == s.conns[last := c];
    LastConnection(s.conns, c);
  }

  lemma EndKeeps(s: State, a: Action)
    requires Inv(s) && Enabled(s, a) && (a.WriteFails? || a.Exit? || a.Done? || a.Close?)
    ensures Inv(Apply(s, a))
  {
    if a.Close? {
      LastConnection(s.conns, Apply(s, a).conns[|s.conns| - 1]);
    }
  }

  lemma UnlockKeeps(s: State, a: Action)
    requires Inv(s) && Enabled(s, a) && a.Unlock?
    ensures Inv(Apply(s, a))
  {
    var pc := s.pcs[a.t];
    if pc.connected {
      NewCall(s.log, Call(a.t, pc.msg, pc.counts, pc.ok));
      OpenedLast(s.conns);
      assert Opened(s.conns) == Written(Apply(s, a).log);
    }
  }

  lemma StepKeeps(s: State, a: Action)
    requires Inv(s) && Enabled(s, a)
    ensures Inv(Apply(s, a))
  {
    match a
    case WriteSome(_, _) => WriteKeeps(s, a);
    case WriteFails(_) => EndKeeps(s, a);
    case Exit(_) => EndKeeps(s, a);
    case Done(_) => EndKeeps(s, a);
    case Close(_) => EndKeeps(s, a);
    case Unlock(_) => UnlockKeeps(s, a);
    case Refuse(_) => RefuseKeeps(s, a);
    case Connect(_) => ConnectKeeps(s, a);
    case _ => OutsideKeeps(s, a);
  }

  // -- Runs

  ghost predicate IsRun(s: State, actions: seq<Action>)
    decreases |actions|
  {
    actions == [] || (Enabled(s, actions[0]) && IsRun(Apply(s, actions[0]), actions[1..]))
  }

  ghost function End(s: State, actions: seq<Action>): State
    requires IsRun(s, actions)
    decreases |actions|
  {
    if actions == [] then s else End(Apply(s, actions[0]), actions[1..])
  }

  lemma {:induction false} RunKeeps(s: State, actions: seq<Action>)
    requires Inv(s) && IsRun(s, actions)
    ensures Inv(End(s, actions))
    decreases |actions|
  {
    if actions != [] {
      StepKeeps(s, actions[0]);
      RunKeeps(Apply(s, actions[0]), actions[1..]);
    }
  }

  ghost predicate Reachable(threads: nat, s: State) {
    exists actions: seq<Action> :: IsRun(Init(threads), actions) && End(Init(threads), actions) == s
  }

  /** In every interleaving of any number of threads, every state keeps the invariant. */
  lemma ReachableInv(threads: nat, s: State)
    requires Reachable(threads, s)
    ensures Inv(s)
  {
    var actions: seq<Action> :| IsRun(Init(threads), actions) && End(Init(threads), actions) == s;
    InitInv(threads);
    RunKeeps(Init(threads), actions);
  }

  /** At most one connection is open at a time, and it belongs to the one thread that holds the lock. */
  lemma OneConnection(threads: nat, s: State, i: nat)
    requires Reachable(threads, s) && i < |s.conns| && s.conns[i].status == Connected
    ensures i == s.sockfd && 0 <= s.lock < |s.pcs|
    ensures s.pcs[s.lock].Writing? || s.pcs[s.lock].Closing?
    ensures forall j | 0 <= j < |s.conns| && s.conns[j].status == Connected :: j == i
  {
    ReachableInv(threads, s);
    var last := |s.conns| - 1;
    forall j | 0 <= j < last ensures s.lock != -1 && HasConnection(s.pcs[s.lock]) ==> s.conns[j].status != Connected {
      assert s.conns[..last][j] == s.conns[j];
    }
  }

  /** A thread that has returned, on whatever path, does not hold the lock; with nobody inside it is free. */
  lemma LockReleased(threads: nat, s: State, t: nat)
    requires Reachable(threads, s) && t < |s.pcs| && (s.pcs[t].Idle? || s.pcs[t].Waiting?)
    ensures s.lock != t
    ensures (forall u | 0 <= u < |s.pcs| :: !Critical(s.pcs[u])) ==> s.lock == -1
  {
    ReachableInv(threads, s);
  }

  /** What the loop of the thread inside has written so far, if it has a connection. */
  function InProgress(s: State): seq<string>
    requires -1 <= s.lock < |s.pcs|
    requires s.lock != -1 && HasConnection(s.pcs[s.lock]) ==> Possible(|s.pcs[s.lock].msg|, s.pcs[s.lock].counts)
  {
    if s.lock != -1 && HasConnection(s.pcs[s.lock]) then
      var pc := s.pcs[s.lock];
      [Wire(pc.msg, pc.counts, |pc.counts|)]
    else []
  }

  /**
    In every reachable state the connections that were made carry, one by one and in order,
    what the loops of the returned calls have written, and then what the loop of the thread
    inside has written so far: nothing is lost, mixed or sent twice.
   */
  lemma NoMixing(threads: nat, s: State)
    requires Reachable(threads, s)
    ensures -1 <= s.lock < |s.pcs| && LogOk(s.log)
    ensures s.lock != -1 && HasConnection(s.pcs[s.lock]) ==> Possible(|s.pcs[s.lock].msg|, s.pcs[s.lock].counts)
    ensures Opened(s.conns) == Written(s.log) + InProgress(s)
    ensures s.lock == -1 ==> NoneConnected(s.conns)
  {
    ReachableInv(threads, s);
    if s.lock == -1 || !HasConnection(s.pcs[s.lock]) {
      assert Written(s.log) + [] == Written(s.log);
    }
  }

  /** With every message written in one or two pieces, the connections carry exactly the messages of the calls. */
  lemma {:induction false} WholeMessages(log: seq<Call>, i: nat)
    requires LogOk(log) && i < |log| && log[i].ok && InPlace(log[i].counts)
    ensures Written(log)[i] == log[i].msg
  {
    var last := |log| - 1;
    if i < last {
      WholeMessages(log[..last], i);
    } else {
      InPlaceSends(log[i].msg, log[i].counts, |log[i].counts|);
      assert log[i].msg[..|log[i].msg|] == log[i].msg;
    }
  }

  /** While nobody holds the lock, a waiting thread can take it. */
  lemma FreeLockCanBeTaken(threads: nat, s: State, t: nat)
    requires Reachable(threads, s) && !s.exited && s.lock == -1 && t < |s.pcs| && !s.pcs[t].Idle?
    ensures Enabled(s, Lock(t))
  {
    ReachableInv(threads, s);
  }

  // -- When the lock is released

  predicate NoFailedWrite(actions: seq<Action>) {
    forall i | 0 <= i < |actions| :: !actions[i].WriteFails?
  }

  /** A run of the threads after which nobody holds the lock. */
  ghost predicate Releases(s: State, actions: seq<Action>) {
    IsRun(s, actions) && End(s, actions).lock == -1
  }

  /** The thread inside has sent more than its message holds. */
  predicate Overshot(s: State)
    requires -1 <= s.lock < |s.pcs|
  {
    s.lock != -1 && s.pcs[s.lock].Writing? && Total(s.pcs[s.lock].counts, |s.pcs[s.lock].counts|) > |s.pcs[s.lock].msg|
  }

  lemma OneMore(s: State, a: Action, actions: seq<Action>)
    requires Enabled(s, a) && Releases(Apply(s, a), actions)
    ensures Releases(s, [a] + actions)
    ensures !a.WriteFails? && NoFailedWrite(actions) ==> NoFailedWrite([a] + actions)
  {
    hide Enabled, Apply;
    assert ([a] + actions)[1..] == actions;
  }

  /** From behind the loop: close, unlock. */
  lemma ReleaseFromEnd(s: State) returns (actions: seq<Action>)
    requires !s.exited && 0 <= s.lock < |s.pcs| && (s.pcs[s.lock].Closing? || s.pcs[s.lock].Unlocking?)
    ensures Releases(s, actions) && NoFailedWrite(actions)
    decreases s.pcs[s.lock].Closing?
  {
    var t: nat := s.lock;
    if s.pcs[t].Closing? {
      var rest := ReleaseFromEnd(Apply(s, Close(t)));
      OneMore(s, Close(t), rest);
      actions := [Close(t)] + rest;
    } else {
      assert Releases(Apply(s, Unlock(t)), []);
      OneMore(s, Unlock(t), []);
      actions := [Unlock(t)] + [];
    }
  }

  lemma {:induction false} LastIsPart(counts: seq<nat>)
    ensures Offset(counts, |counts|) <= Total(counts, |counts|)
  {
  }

  /** From a loop that has not sent too much: the rest in one write, if there is one, then the end. */
  lemma ReleaseFromLoop(s: State) returns (actions: seq<Action>)
    requires !s.exited && 0 <= s.lock < |s.pcs| && s.pcs[s.lock].Writing? && !Overshot(s)
    ensures Releases(s, actions) && NoFailedWrite(actions)
    decreases |s.pcs[s.lock].msg| - Total(s.pcs[s.lock].counts, |s.pcs[s.lock].counts|)
  {
    var t: nat, pc := s.lock, s.pcs[s.lock];
    if Complete(pc.msg, pc.counts) {
      var rest := ReleaseFromEnd(Apply(s, Done(t)));
      OneMore(s, Done(t), rest);
      actions := [Done(t)] + rest;
    } else {
      var c := |pc.msg| - Total(pc.counts, |pc.counts|);
      LastIsPart(pc.counts);
      TotalPrefix(pc.counts, c, |pc.counts|);
      var rest := ReleaseFromLoop(Apply(s, WriteSome(t, c)));
      OneMore(s, WriteSome(t, c), rest);
      actions := [WriteSome(t, c)] + rest;
    }
  }

  lemma ReleaseFromStart(s: State) returns (actions: seq<Action>)
    requires !s.exited && 0 <= s.lock < |s.pcs| && s.pcs[s.lock].Connecting?
    ensures Releases(s, actions) && NoFailedWrite(actions)
  {
    var rest := ReleaseFromLoop(Apply(s, Connect(s.lock)));
    OneMore(s, Connect(s.lock), rest);
    actions := [Connect(s.lock)] + rest;
  }

  lemma StuckStep(s: State, a: Action)
    requires Inv(s) && Overshot(s) && Enabled(s, a) && !a.WriteFails?
    ensures var s' := Apply(s, a); s'.lock == s.lock < |s'.pcs| && Overshot(s')
  {
    hide Wire;
    assert Critical(s.pcs[a.t]) <==> a.t == s.lock;
    if a.WriteSome? {
      TotalPrefix(s.pcs[a.t].counts, a.c, |s.pcs[a.t].counts|);
    }
  }

  lemma {:induction false} Stuck(s: State, actions: seq<Action>)
    requires Inv(s) && Overshot(s) && IsRun(s, actions) && NoFailedWrite(actions)
    ensures End(s, actions).lock == s.lock
    decreases |actions|
  {
    hide Enabled, Apply;
    if actions != [] {
      StepKeeps(s, actions[0]);
      StuckStep(s, actions[0]);
      Stuck(Apply(s, actions[0]), actions[1..]);
    }
  }

  /**
    The thread that holds the lock can release it without a failed write, if and only if its
    loop has not sent more than the message holds.
   */
  lemma ReleasedIff(threads: nat, s: State)
    requires Reachable(threads, s) && !s.exited && s.lock != -1
    ensures -1 <= s.lock < |s.pcs|
    ensures (exists actions: seq<Action> :: Releases(s, actions) && NoFailedWrite(actions)) <==> !Overshot(s)
  {
    hide Enabled, Apply;
    ReachableInv(threads, s);
    assert Critical(s.pcs[s.lock]);
    if Overshot(s) {
      forall actions: seq<Action> | IsRun(s, actions) && NoFailedWrite(actions) ensures End(s, actions).lock != -1 {
        Stuck(s, actions);
      }
    } else if s.pcs[s.lock].Connecting? {
      var actions := ReleaseFromStart(s);
    } else if s.pcs[s.lock].Writing? {
      var actions := ReleaseFromLoop(s);
    } else {
      var actions := ReleaseFromEnd(s);
    }
  }

  /** With a write that fails, it can release the lock in every case. */
  lemma FailureReleases(threads: nat, s: State) returns (actions: seq<Action>)
    requires Reachable(threads, s) && !s.exited && s.lock != -1 && 0 <= s.lock < |s.pcs| && Overshot(s)
    ensures Releases(s, actions) && !NoFailedWrite(actions)
  {
    var a := WriteFails(s.lock);
    var rest := ReleaseFromEnd(Apply(s, a));
    OneMore(s, a, rest);
    actions := [a] + rest;
    assert actions[0].WriteFails?;
  }
}
