/** Many threads on one channel: calls, parking on the condition variables, signals,
    spurious wakeups and barging, in any interleaving of the critical sections. */
module ChannelProtocol {
  import opened Channel

  type Thread = nat

  /** Where a thread inside a call is: about to try the lock, parked on a condition
      variable, or woken and about to take the lock again. */
  datatype Where = SendReady(v: int) | SendParked(v: int) | SendWoken(v: int) | RecvReady | RecvParked | RecvWoken

  /** Threads not in `at` are outside any call. `sent` and `received` record the values
      accepted and delivered. */
  datatype World = World(ring: Ring, at: map<Thread, Where>, sent: seq<int>, received: seq<int>)

  datatype Step =
    | CallSend(t: Thread, v: int)
    | CallRecv(t: Thread)
    | PassSend(t: Thread, wake: Thread)
    | PassRecv(t: Thread, wake: Thread)
    | PassTry(t: Thread, wake: Thread)
    | PassClose(t: Thread)
    | Spurious(t: Thread)

  function ParkedSenders(at: map<Thread, Where>): set<Thread> { set t | t in at && at[t].SendParked? }

  function ParkedReceivers(at: map<Thread, Where>): set<Thread> { set t | t in at && at[t].RecvParked? }

  function WokenSenders(at: map<Thread, Where>): set<Thread> { set t | t in at && at[t].SendWoken? }

  function WokenReceivers(at: map<Thread, Where>): set<Thread> { set t | t in at && at[t].RecvWoken? }

  /** A signal wakes one parked thread if there is one; which one is up to the scheduler. */
  predicate WakeOk(parked: set<Thread>, wake: Thread) { parked != {} ==> wake in parked }

  predicate Enabled(w: World, s: Step) {
    match s
    case CallSend(t, _) => t !in w.at
    case CallRecv(t) => t !in w.at
    case PassSend(t, wake) =>
      t in w.at && (w.at[t].SendReady? || w.at[t].SendWoken?) && WakeOk(ParkedReceivers(w.at), wake)
    case PassRecv(t, wake) =>
      t in w.at && (w.at[t].RecvReady? || w.at[t].RecvWoken?) && WakeOk(ParkedSenders(w.at), wake)
    case PassTry(t, wake) => t !in w.at && WakeOk(ParkedSenders(w.at), wake)
    case PassClose(t) => t !in w.at
    case Spurious(t) => t in w.at && (w.at[t].SendParked? || w.at[t].RecvParked?)
  }

  function Woken(x: Where): Where {
    match x
    case SendParked(v) => SendWoken(v)
    case RecvParked => RecvWoken
    case _ => x
  }

  /** `pthread_cond_signal` on the receivers' condition. */
  function SignalRecv(at: map<Thread, Where>, wake: Thread): map<Thread, Where> {
    if ParkedReceivers(at) == {} || wake !in at then at else at[wake := Woken(at[wake])]
  }

  function SignalSend(at: map<Thread, Where>, wake: Thread): map<Thread, Where> {
    if ParkedSenders(at) == {} || wake !in at then at else at[wake := Woken(at[wake])]
  }

  /** A sender holding the mutex runs its loop test and, if it may, its body. */
  function SendStep(w: World, t: Thread, v: int, wake: Thread): World
    requires w.ring.Valid()
  {
    var (outcome, ring) := SendPass(w.ring, v);
    match outcome
    case SendWaits => w.(at := w.at[t := SendParked(v)])
    case SendRefused => w.(at := w.at - {t})
    case SendDone => World(ring, SignalRecv(w.at - {t}, wake), w.sent + [v], w.received)
  }

  function RecvStep(w: World, t: Thread, wake: Thread): World
    requires w.ring.Valid()
  {
    var (outcome, ring) := RecvPass(w.ring);
    match outcome
    case RecvWaits => w.(at := w.at[t := RecvParked])
    case RecvEmpty => w.(at := w.at - {t})
    case RecvValue(v) => World(ring, SignalSend(w.at - {t}, wake), w.sent, w.received + [v])
  }

  function TryStep(w: World, wake: Thread): World
    requires w.ring.Valid()
  {
    if w.ring.count == 0 then w
    else World(w.ring.Pop(), SignalSend(w.at, wake), w.sent, w.received + [w.ring.buf[w.ring.head]])
  }

  /** Closing broadcasts on both conditions. */
  function CloseStep(w: World): World {
    w.(ring := w.ring.(closed := true), at := map t | t in w.at :: Woken(w.at[t]))
  }

  function Apply(w: World, s: Step): World
    requires w.ring.Valid() && Enabled(w, s)
  {
    match s
    case CallSend(t, v) => w.(at := w.at[t := SendReady(v)])
    case CallRecv(t) => w.(at := w.at[t := RecvReady])
    case PassSend(t, wake) => SendStep(w, t, w.at[t].v, wake)
    case PassRecv(t, wake) => RecvStep(w, t, wake)
    case PassTry(_, wake) => TryStep(w, wake)
    case PassClose(_) => CloseStep(w)
    case Spurious(t) => w.(at := w.at[t := Woken(w.at[t])])
  }

  // ---------- the invariant ----------

  /** No wakeup is lost: a parked receiver means every buffered value already has a
      woken receiver on its way; a parked sender means the same for every free cell. */
  predicate CoveredBy(count: nat, cap: nat, closed: bool, at: map<Thread, Where>) {
    (ParkedReceivers(at) != {} ==> count <= |WokenReceivers(at)|) &&
    (ParkedSenders(at) != {} ==> cap - count <= |WokenSenders(at)|) &&
    (closed ==> ParkedReceivers(at) == {} == ParkedSenders(at))
  }

  predicate Covered(w: World) { CoveredBy(w.ring.count, w.ring.Cap(), w.ring.closed, w.at) }

  /** Values come out in the order they went in, none lost and none made up. */
  predicate InOrder(w: World)
    requires w.ring.Valid()
  {
    w.sent == w.received + w.ring.Contents()
  }

  predicate Inv(w: World) { w.ring.Valid() && Covered(w) && InOrder(w) }

  /** A fresh channel. */
  function Start(cap: int): (w: World)
    ensures Inv(w)
  {
    World(NewRing(cap), map[], [], [])
  }

  /** Moving a thread moves it from set to set. */
  lemma MoveTo(at: map<Thread, Where>, t: Thread, x: Where)
    ensures var n := at[t := x];
      ParkedSenders(n) == (if x.SendParked? then ParkedSenders(at) + {t} else ParkedSenders(at) - {t}) &&
      ParkedReceivers(n) == (if x.RecvParked? then ParkedReceivers(at) + {t} else ParkedReceivers(at) - {t}) &&
      WokenSenders(n) == (if x.SendWoken? then WokenSenders(at) + {t} else WokenSenders(at) - {t}) &&
      WokenReceivers(n) == (if x.RecvWoken? then WokenReceivers(at) + {t} else WokenReceivers(at) - {t})
  {
  }

  lemma Leave(at: map<Thread, Where>, t: Thread)
    ensures var n := at - {t};
      ParkedSenders(n) == ParkedSenders(at) - {t} && ParkedReceivers(n) == ParkedReceivers(at) - {t} &&
      WokenSenders(n) == WokenSenders(at) - {t} && WokenReceivers(n) == WokenReceivers(at) - {t}
  {
  }

  lemma Cards(s: set<Thread>, t: Thread)
    ensures |s + {t}| == (if t in s then |s| else |s| + 1) && |s - {t}| == (if t in s then |s| - 1 else |s|)
  {
    if t in s { assert s + {t} == s; } else { assert s - {t} == s; }
  }

  /** A thread that leaves without being parked or woken on the other side. */
  lemma LeaveSend(at: map<Thread, Where>, t: Thread)
    requires t in at && (at[t].SendReady? || at[t].SendWoken?)
    ensures var n := at - {t};
      ParkedSenders(n) == ParkedSenders(at) && ParkedReceivers(n) == ParkedReceivers(at) &&
      WokenReceivers(n) == WokenReceivers(at) && |WokenSenders(n)| >= |WokenSenders(at)| - 1
  {
    Leave(at, t);
    Cards(WokenSenders(at), t);
    assert t !in ParkedSenders(at) && t !in ParkedReceivers(at) && t !in WokenReceivers(at);
  }

  lemma LeaveRecv(at: map<Thread, Where>, t: Thread)
    requires t in at && (at[t].RecvReady? || at[t].RecvWoken?)
    ensures var n := at - {t};
      ParkedSenders(n) == ParkedSenders(at) && ParkedReceivers(n) == ParkedReceivers(at) &&
      WokenSenders(n) == WokenSenders(at) && |WokenReceivers(n)| >= |WokenReceivers(at)| - 1
  {
    Leave(at, t);
    Cards(WokenReceivers(at), t);
    assert t !in ParkedSenders(at) && t !in ParkedReceivers(at) && t !in WokenSenders(at);
  }

  /** A signal turns one parked thread into a woken one. */
  lemma SignalRecvMoves(at: map<Thread, Where>, wake: Thread)
    requires WakeOk(ParkedReceivers(at), wake)
    ensures var n := SignalRecv(at, wake);
      ParkedSenders(n) == ParkedSenders(at) && WokenSenders(n) == WokenSenders(at) &&
      ParkedReceivers(n) <= ParkedReceivers(at) &&
      (ParkedReceivers(at) != {} ==> |WokenReceivers(n)| == |WokenReceivers(at)| + 1)
  {
    if ParkedReceivers(at) != {} {
      MoveTo(at, wake, RecvWoken);
      Cards(WokenReceivers(at), wake);
    }
  }

  lemma SignalSendMoves(at: map<Thread, Where>, wake: Thread)
    requires WakeOk(ParkedSenders(at), wake)
    ensures var n := SignalSend(at, wake);
      ParkedReceivers(n) == ParkedReceivers(at) && WokenReceivers(n) == WokenReceivers(at) &&
      ParkedSenders(n) <= ParkedSenders(at) &&
      (ParkedSenders(at) != {} ==> |WokenSenders(n)| == |WokenSenders(at)| + 1)
  {
    if ParkedSenders(at) != {} {
      assert at[wake].SendParked?;
      MoveTo(at, wake, SendWoken(at[wake].v));
      Cards(WokenSenders(at), wake);
    }
  }

  lemma SendCovered(w: World, t: Thread, wake: Thread)
    requires Inv(w) && Enabled(w, PassSend(t, wake))
    ensures Covered(SendStep(w, t, w.at[t].v, wake))
  {
    var v := w.at[t].v;
    LeaveSend(w.at, t);
    match SendPass(w.ring, v).0
    case SendWaits =>
      MoveTo(w.at, t, SendParked(v));
      assert t !in ParkedReceivers(w.at) && t !in WokenReceivers(w.at);
      assert ParkedReceivers(w.at[t := SendParked(v)]) == ParkedReceivers(w.at);
      assert WokenReceivers(w.at[t := SendParked(v)]) == WokenReceivers(w.at);
    case SendRefused =>
    case SendDone => SignalRecvMoves(w.at - {t}, wake);
  }

  lemma RecvCovered(w: World, t: Thread, wake: Thread)
    requires Inv(w) && Enabled(w, PassRecv(t, wake))
    ensures Covered(RecvStep(w, t, wake))
  {
    LeaveRecv(w.at, t);
    match RecvPass(w.ring).0
    case RecvWaits =>
      MoveTo(w.at, t, RecvParked);
      assert t !in ParkedSenders(w.at) && t !in WokenSenders(w.at);
      assert ParkedSenders(w.at[t := RecvParked]) == ParkedSenders(w.at);
      assert WokenSenders(w.at[t := RecvParked]) == WokenSenders(w.at);
    case RecvEmpty =>
    case RecvValue(_) => SignalSendMoves(w.at - {t}, wake);
  }

  lemma RingKeeps(r: Ring, received: seq<int>)
    requires r.Valid() && r.count > 0
    ensures r.Pop().Valid() && received + r.Contents() == received + [r.buf[r.head]] + r.Pop().Contents()
  {
    PopContents(r);
    assert received + ([r.buf[r.head]] + r.Pop().Contents()) == received + [r.buf[r.head]] + r.Pop().Contents();
  }

  lemma SendKeeps(w: World, t: Thread, wake: Thread)
    requires Inv(w) && Enabled(w, PassSend(t, wake))
    ensures Inv(SendStep(w, t, w.at[t].v, wake))
  {
    var v := w.at[t].v;
    SendCovered(w, t, wake);
    if SendPass(w.ring, v).0 == SendDone {
      PushContents(w.ring, v);
      assert w.received + (w.ring.Contents() + [v]) == w.sent + [v];
    }
  }

  lemma RecvKeeps(w: World, t: Thread, wake: Thread)
    requires Inv(w) && Enabled(w, PassRecv(t, wake))
    ensures Inv(RecvStep(w, t, wake))
  {
    RecvCovered(w, t, wake);
    if w.ring.count > 0 { RingKeeps(w.ring, w.received); }
  }

  lemma TryKeeps(w: World, t: Thread, wake: Thread)
    requires Inv(w) && Enabled(w, PassTry(t, wake))
    ensures Inv(TryStep(w, wake))
  {
    if w.ring.count > 0 {
      SignalSendMoves(w.at, wake);
      RingKeeps(w.ring, w.received);
    }
  }

  lemma CloseKeeps(w: World)
    requires Inv(w)
    ensures Inv(CloseStep(w))
  {
    assert CloseStep(w).ring.Contents() == w.ring.Contents();
    assert ParkedReceivers(CloseStep(w).at) == {} == ParkedSenders(CloseStep(w).at);
  }

  lemma SpuriousKeeps(w: World, t: Thread)
    requires Inv(w) && Enabled(w, Spurious(t))
    ensures Inv(Apply(w, Spurious(t)))
  {
    MoveTo(w.at, t, Woken(w.at[t]));
    Cards(WokenSenders(w.at), t);
    Cards(WokenReceivers(w.at), t);
    assert w.at[t].SendParked? ==> t !in WokenReceivers(w.at);
    assert w.at[t].RecvParked? ==> t !in WokenSenders(w.at);
  }

  lemma CallKeeps(w: World, t: Thread, x: Where)
    requires Inv(w) && t !in w.at && (x.SendReady? || x.RecvReady?)
    ensures Inv(w.(at := w.at[t := x]))
  {
    MoveTo(w.at, t, x);
    assert ParkedSenders(w.at) - {t} == ParkedSenders(w.at) && ParkedReceivers(w.at) - {t} == ParkedReceivers(w.at);
    assert WokenSenders(w.at) - {t} == WokenSenders(w.at) && WokenReceivers(w.at) - {t} == WokenReceivers(w.at);
  }

  /** Every step keeps the invariant. */
  lemma StepKeeps(w: World, s: Step)
    requires Inv(w) && Enabled(w, s)
    ensures Inv(Apply(w, s))
  {
    hide Inv;
    match s
    case CallSend(t, v) => CallKeeps(w, t, SendReady(v));
    case CallRecv(t) => CallKeeps(w, t, RecvReady);
    case PassSend(t, wake) => SendKeeps(w, t, wake);
    case PassRecv(t, wake) => RecvKeeps(w, t, wake);
    case PassTry(t, wake) => TryKeeps(w, t, wake);
    case PassClose(_) => CloseKeeps(w);
    case Spurious(t) => SpuriousKeeps(w, t);
  }

  // ---------- runs ----------

  /** The steps can be taken one after the other from `w`. */
  predicate Runs(w: World, steps: seq<Step>)
    requires Inv(w)
    decreases |steps|
  {
    steps == [] || (Enabled(w, steps[0]) && (StepKeeps(w, steps[0]); Runs(Apply(w, steps[0]), steps[1..])))
  }

  function End(w: World, steps: seq<Step>): World
    requires Inv(w) && Runs(w, steps)
    decreases |steps|
  {
    if steps == [] then w else (StepKeeps(w, steps[0]); End(Apply(w, steps[0]), steps[1..]))
  }

  /** Whatever the interleaving, the invariant holds in the state reached. */
  lemma {:induction false} RunKeeps(w: World, steps: seq<Step>)
    requires Inv(w) && Runs(w, steps)
    ensures Inv(End(w, steps))
    decreases |steps|
  {
    if steps != [] {
      StepKeeps(w, steps[0]);
      RunKeeps(Apply(w, steps[0]), steps[1..]);
    }
  }

  /** In every reachable state: values leave in the order they entered; parked
      receivers beside a buffered value, or parked senders beside a free cell, have a
      woken thread coming; and there are never parked receivers and parked senders
      without one. */
  lemma NoLostWakeup(cap: int, steps: seq<Step>)
    requires Runs(Start(cap), steps)
    ensures var w := End(Start(cap), steps);
      w.ring.Valid() && w.sent == w.received + w.ring.Contents() &&
      (ParkedReceivers(w.at) != {} && w.ring.count > 0 ==> WokenReceivers(w.at) != {}) &&
      (ParkedSenders(w.at) != {} && w.ring.count < w.ring.Cap() ==> WokenSenders(w.at) != {}) &&
      (ParkedReceivers(w.at) != {} && ParkedSenders(w.at) != {} ==> WokenReceivers(w.at) + WokenSenders(w.at) != {}) &&
      (w.ring.closed ==> ParkedReceivers(w.at) + ParkedSenders(w.at) == {})
  {
    RunKeeps(Start(cap), steps);
    var w := End(Start(cap), steps);
    assert WokenReceivers(w.at) + WokenSenders(w.at) == {} ==> |WokenReceivers(w.at)| == 0 == |WokenSenders(w.at)|;
  }

  lemma StepClosed(w: World, s: Step)
    requires Inv(w) && w.ring.closed && Enabled(w, s)
    ensures var n := Apply(w, s); n.ring.closed && n.sent == w.sent && w.received <= n.received
  {
  }

  /** Nothing is sent after closing, and what was buffered is still delivered: the
      received values stay a prefix of those sent before. */
  lemma {:induction false} AfterClose(w: World, steps: seq<Step>)
    requires Inv(w) && w.ring.closed && Runs(w, steps)
    ensures var e := End(w, steps);
      e.ring.closed && e.sent == w.sent && w.received <= e.received <= w.sent
    decreases |steps|
  {
    if steps != [] {
      StepKeeps(w, steps[0]);
      StepClosed(w, steps[0]);
      AfterClose(Apply(w, steps[0]), steps[1..]);
    }
  }

  /** On a closed channel a receiver with the lock gets the oldest undelivered value
      until all have been delivered, and never parks. */
  lemma DrainAfterClose(w: World, t: Thread, wake: Thread)
    requires Inv(w) && w.ring.closed && Enabled(w, PassRecv(t, wake))
    ensures var n := RecvStep(w, t, wake);
      t !in n.at &&
      (if |w.received| < |w.sent| then n.received == w.received + [w.sent[|w.received|]] else n.received == w.received)
  {
    if w.ring.count > 0 {
      PopContents(w.ring);
      assert w.sent[|w.received|] == w.ring.Contents()[0];
    }
  }
}
