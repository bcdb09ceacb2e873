/** What a call on the channel does, told by the calls and steps that came before it:
    when it waits, what it returns with, and that it always can go on. */
module ChannelCalls {
  import opened Channel
  import opened ChannelProtocol

  // ---------- the history of a run ----------

  /** Some thread closed the channel. */
  predicate Shut(steps: seq<Step>) { exists i :: 0 <= i < |steps| && steps[i].PassClose? }

  datatype Call = Outside | Sending(v: int) | Receiving

  /** The call a thread made last. */
  function LastCall(steps: seq<Step>, t: Thread): Call {
    if steps == [] then Outside
    else match steps[|steps| - 1]
      case CallSend(u, v) => if u == t then Sending(v) else LastCall(steps[..|steps| - 1], t)
      case CallRecv(u) => if u == t then Receiving else LastCall(steps[..|steps| - 1], t)
      case _ => LastCall(steps[..|steps| - 1], t)
  }

  /** The capacity asked for, at least one. */
  function Capacity(cap: int): nat { if cap <= 0 then 1 else cap }

  /** A run ends with its last step. */
  lemma {:induction false} RunSplits(w: World, steps: seq<Step>, s: Step)
    requires Inv(w) && Runs(w, steps + [s])
    ensures Runs(w, steps) && Inv(End(w, steps)) && Enabled(End(w, steps), s)
    ensures End(w, steps + [s]) == Apply(End(w, steps), s)
    decreases |steps|
  {
    var all := steps + [s];
    if steps == [] {
      assert all[1..] == [];
    } else {
      assert all[0] == steps[0] && all[1..] == steps[1..] + [s];
      StepKeeps(w, steps[0]);
      RunSplits(Apply(w, steps[0]), steps[1..], s);
    }
  }

  /** A run goes on with any step that is enabled. */
  lemma {:induction false} RunGrows(w: World, steps: seq<Step>, s: Step)
    requires Inv(w) && Runs(w, steps) && Enabled(End(w, steps), s)
    ensures Runs(w, steps + [s])
    decreases |steps|
  {
    var all := steps + [s];
    if steps == [] {
      assert all[1..] == [];
      StepKeeps(w, s);
    } else {
      assert all[0] == steps[0] && all[1..] == steps[1..] + [s];
      StepKeeps(w, steps[0]);
      RunGrows(Apply(w, steps[0]), steps[1..], s);
    }
  }

  /** Where a thread is agrees with its call. */
  predicate Serves(x: Where, c: Call) {
    match c
    case Outside => false
    case Sending(v) => x in {SendReady(v), SendParked(v), SendWoken(v)}
    case Receiving => x in {RecvReady, RecvParked, RecvWoken}
  }

  ghost predicate Told(cap: int, steps: seq<Step>, w: World) {
    w.ring.Valid() && w.ring.Cap() == Capacity(cap) && (w.ring.closed <==> Shut(steps)) &&
    forall t :: t in w.at ==> Serves(w.at[t], LastCall(steps, t))
  }

  lemma ToldStep(cap: int, steps: seq<Step>, w: World, s: Step)
    requires Inv(w) && Told(cap, steps, w) && Enabled(w, s)
    ensures Told(cap, steps + [s], Apply(w, s))
  {
    var all := steps + [s];
    var n := Apply(w, s);
    StepKeeps(w, s);
    assert all[..|all| - 1] == steps;
    assert n.ring.Cap() == w.ring.Cap() && (n.ring.closed <==> w.ring.closed || s.PassClose?);
    ShutGrows(steps, s);
    forall t | t in n.at ensures Serves(n.at[t], LastCall(all, t)) {
      assert t in w.at ==> Serves(w.at[t], LastCall(steps, t));
    }
  }

  lemma ShutGrows(steps: seq<Step>, s: Step)
    ensures Shut(steps + [s]) <==> Shut(steps) || s.PassClose?
  {
    var all := steps + [s];
    assert all[|steps|] == s;
    assert forall i :: 0 <= i < |steps| ==> all[i] == steps[i];
  }

  lemma {:induction false} RunTells(cap: int, steps: seq<Step>)
    requires Runs(Start(cap), steps)
    ensures Told(cap, steps, End(Start(cap), steps))
    decreases |steps|
  {
    if steps != [] {
      var before, s := steps[..|steps| - 1], steps[|steps| - 1];
      assert steps == before + [s];
      RunSplits(Start(cap), before, s);
      RunTells(cap, before);
      ToldStep(cap, before, End(Start(cap), before), s);
    }
  }

  // ---------- calls ----------

  /** Accepted and not yet delivered, oldest first. */
  function Buffered(w: World): seq<int>
    requires w.received <= w.sent
  {
    w.sent[|w.received|..]
  }

  /** Never more values are under way than the capacity; none is lost or made up. */
  lemma BufferedFits(cap: int, steps: seq<Step>)
    requires Runs(Start(cap), steps)
    ensures var w := End(Start(cap), steps);
      w.ring.Valid() && w.received <= w.sent && |Buffered(w)| <= Capacity(cap) && Buffered(w) == w.ring.Contents()
  {
    RunKeeps(Start(cap), steps);
    RunTells(cap, steps);
  }

  /** Nobody else parks, and nobody else's call ends. */
  ghost predicate OthersStay(before: map<Thread, Where>, after: map<Thread, Where>, t: Thread) {
    forall u :: u != t ==> (u in before <==> u in after) && (u in before ==> after[u] in {before[u], Woken(before[u])})
  }

  /** A receiver with the mutex. It takes the oldest value if one is buffered; else it
      ends with nothing if the channel was closed, and waits if it was not. */
  lemma ReceiveOutcome(cap: int, steps: seq<Step>, t: Thread, wake: Thread)
    requires Runs(Start(cap), steps + [PassRecv(t, wake)])
    ensures Runs(Start(cap), steps) && LastCall(steps, t) == Receiving
    ensures var w, n := End(Start(cap), steps), End(Start(cap), steps + [PassRecv(t, wake)]);
      w.received <= w.sent && n.sent == w.sent && t in w.at && OthersStay(w.at, n.at, t) &&
      (n.received == w.received || (|n.received| == |w.received| + 1 && n.received <= w.sent)) &&
      (n.received != w.received <==> w.received != w.sent) &&
      (t !in n.at && n.received == w.received <==> w.received == w.sent && Shut(steps)) &&
      (t in n.at <==> w.received == w.sent && !Shut(steps)) &&
      (t in n.at ==> n == w.(at := w.at[t := RecvParked]))
  {
    var s := PassRecv(t, wake);
    RunSplits(Start(cap), steps, s);
    RunTells(cap, steps);
    BufferedFits(cap, steps);
    var w := End(Start(cap), steps);
    RunKeeps(Start(cap), steps + [s]);
    if w.ring.count > 0 {
      PopContents(w.ring);
      assert w.sent[|w.received|] == w.ring.Contents()[0];
    }
  }

  /** A sender with the mutex. It is refused if the channel was closed; else it waits
      when the channel is full and puts its value behind the others when it is not. */
  lemma SendOutcome(cap: int, steps: seq<Step>, t: Thread, wake: Thread)
    requires Runs(Start(cap), steps + [PassSend(t, wake)])
    ensures Runs(Start(cap), steps) && LastCall(steps, t).Sending?
    ensures var w, n := End(Start(cap), steps), End(Start(cap), steps + [PassSend(t, wake)]);
      var v := LastCall(steps, t).v;
      w.received <= w.sent && n.received == w.received && t in w.at && OthersStay(w.at, n.at, t) &&
      (n.sent == w.sent || n.sent == w.sent + [v]) &&
      (n.sent != w.sent <==> !Shut(steps) && |Buffered(w)| < Capacity(cap)) &&
      (t !in n.at && n.sent == w.sent <==> Shut(steps)) &&
      (t in n.at <==> !Shut(steps) && |Buffered(w)| == Capacity(cap)) &&
      (t in n.at ==> n == w.(at := w.at[t := SendParked(v)]))
  {
    RunSplits(Start(cap), steps, PassSend(t, wake));
    RunTells(cap, steps);
    BufferedFits(cap, steps);
    var w := End(Start(cap), steps);
    assert |w.sent + [LastCall(steps, t).v]| > |w.sent|;
  }

  /** A receive that never waits takes the oldest value if there is one. */
  lemma TryOutcome(cap: int, steps: seq<Step>, t: Thread, wake: Thread)
    requires Runs(Start(cap), steps + [PassTry(t, wake)])
    ensures Runs(Start(cap), steps)
    ensures var w, n := End(Start(cap), steps), End(Start(cap), steps + [PassTry(t, wake)]);
      w.received <= w.sent && n.sent == w.sent && t !in n.at && OthersStay(w.at, n.at, t) &&
      (if w.received == w.sent then n == w else n.received == w.received + [w.sent[|w.received|]])
  {
    RunSplits(Start(cap), steps, PassTry(t, wake));
    BufferedFits(cap, steps);
    RunKeeps(Start(cap), steps);
    var w := End(Start(cap), steps);
    if w.ring.count > 0 {
      PopContents(w.ring);
      assert w.sent[|w.received|] == w.ring.Contents()[0];
    }
  }

  /** Closing ends no call and loses no value; whoever was parked is awake. */
  lemma CloseOutcome(cap: int, steps: seq<Step>, t: Thread)
    requires Runs(Start(cap), steps + [PassClose(t)])
    ensures Runs(Start(cap), steps)
    ensures var w, n := End(Start(cap), steps), End(Start(cap), steps + [PassClose(t)]);
      n.sent == w.sent && n.received == w.received && t !in n.at && OthersStay(w.at, n.at, t) &&
      forall u :: u in n.at ==> !n.at[u].SendParked? && !n.at[u].RecvParked?
  {
    RunSplits(Start(cap), steps, PassClose(t));
  }

  /** Nothing stands in a thread's way but the two conditions: a thread outside a call
      can make one, one that is not parked can take the mutex, whichever parked thread
      its signal picks, and a parked one can wake. */
  lemma CanGoOn(cap: int, steps: seq<Step>, t: Thread, v: int)
    requires Runs(Start(cap), steps)
    ensures var w := End(Start(cap), steps);
      if t !in w.at then
        Runs(Start(cap), steps + [CallSend(t, v)]) && Runs(Start(cap), steps + [CallRecv(t)]) &&
        Runs(Start(cap), steps + [PassClose(t)]) &&
        exists wake :: Runs(Start(cap), steps + [PassTry(t, wake)])
      else if w.at[t].SendParked? || w.at[t].RecvParked? then Runs(Start(cap), steps + [Spurious(t)])
      else if LastCall(steps, t).Sending? then
        (forall u :: u in ParkedReceivers(w.at) ==> Runs(Start(cap), steps + [PassSend(t, u)])) &&
        exists wake :: Runs(Start(cap), steps + [PassSend(t, wake)])
      else
        (forall u :: u in ParkedSenders(w.at) ==> Runs(Start(cap), steps + [PassRecv(t, u)])) &&
        exists wake :: Runs(Start(cap), steps + [PassRecv(t, wake)])
  {
    hide Runs, End, Inv;
    RunKeeps(Start(cap), steps);
    RunTells(cap, steps);
    var w := End(Start(cap), steps);
    forall s | Enabled(w, s) ensures Runs(Start(cap), steps + [s]) {
      RunGrows(Start(cap), steps, s);
    }
    var receiver: Thread :| ParkedReceivers(w.at) != {} ==> receiver in ParkedReceivers(w.at);
    var sender: Thread :| ParkedSenders(w.at) != {} ==> sender in ParkedSenders(w.at);
    assert WakeOk(ParkedReceivers(w.at), receiver) && WakeOk(ParkedSenders(w.at), sender);
    if t !in w.at {
      assert Enabled(w, PassTry(t, sender));
    } else {
      assert Serves(w.at[t], LastCall(steps, t));
      assert LastCall(steps, t).Sending? && !w.at[t].SendParked? ==> Enabled(w, PassSend(t, receiver));
      assert LastCall(steps, t).Receiving? && !w.at[t].RecvParked? ==> Enabled(w, PassRecv(t, sender));
    }
  }
}
