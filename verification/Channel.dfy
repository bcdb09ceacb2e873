/** The bounded channel (include/runtime_aux.h, tiq_chan_*): the ring buffer as one
    thread sees it while it holds the mutex, and the protocol of many threads that
    park on the two condition variables. */
module Channel {
  import opened Bits

  // ---------- the ring buffer ----------

  /** The cell `i` steps after `head`, going around once. */
  function Cell(head: nat, i: nat, cap: nat): (c: nat)
    requires head < cap && i <= cap
    ensures c < cap
  {
    if head + i < cap then head + i else head + i - cap
  }

  lemma CellIsMod(head: nat, i: nat, cap: nat)
    requires head < cap && i <= cap
    ensures Cell(head, i, cap) == (head + i) % cap
  {
    ModUnique(head + i, cap, if head + i < cap then 0 else 1, Cell(head, i, cap));
  }

  datatype Ring = Ring(buf: seq<int>, head: nat, tail: nat, count: nat, closed: bool)
  {
    function Cap(): nat { |buf| }

    predicate Valid() {
      |buf| > 0 && head < |buf| && tail < |buf| && count <= |buf| && tail == Cell(head, count, |buf|)
    }

    /** The buffered values, oldest first. */
    function Contents(): seq<int>
      requires head < |buf| && count <= |buf|
    {
      seq(count, i requires 0 <= i < count => buf[Cell(head, i, |buf|)])
    }

    function Push(v: int): Ring
      requires tail < |buf|
    {
      this.(buf := buf[tail := v], tail := (tail + 1) % |buf|, count := count + 1)
    }

    function Pop(): Ring
      requires |buf| > 0 && count > 0
    {
      this.(head := (head + 1) % |buf|, count := count - 1)
    }
  }

  function NewRing(cap: int): (r: Ring)
    ensures r.Valid() && !r.closed && r.Contents() == []
  {
    Ring(seq(if cap <= 0 then 1 else cap, _ => 0), 0, 0, 0, false)
  }

  /** The index arithmetic of a step. */
  lemma StepCell(x: nat, cap: nat)
    requires x < cap
    ensures (x + 1) % cap == Cell(x, 1, cap)
  {
    CellIsMod(x, 1, cap);
  }

  /** A value goes in behind the others. */
  lemma PushContents(r: Ring, v: int)
    requires r.Valid() && r.count < r.Cap()
    ensures r.Push(v).Valid() && r.Push(v).Contents() == r.Contents() + [v]
  {
    StepCell(r.tail, r.Cap());
    assert r.Push(v).Contents() == r.Contents() + [v];
  }

  /** The oldest value comes out. */
  lemma PopContents(r: Ring)
    requires r.Valid() && r.count > 0
    ensures r.Pop().Valid() && r.Contents() == [r.buf[r.head]] + r.Pop().Contents()
  {
    StepCell(r.head, r.Cap());
    assert r.Contents() == [r.buf[r.head]] + r.Pop().Contents();
  }

  // ---------- the critical sections, in place ----------

  /** What a pass through a critical section decides. */
  datatype Sent = SendWaits | SendRefused | SendDone
  datatype Got = RecvWaits | RecvEmpty | RecvValue(v: int)

  function SendPass(r: Ring, v: int): (Sent, Ring)
    requires r.Valid()
  {
    if r.count == r.Cap() && !r.closed then (SendWaits, r)
    else if r.closed then (SendRefused, r)
    else (SendDone, r.Push(v))
  }

  function RecvPass(r: Ring): (Got, Ring)
    requires r.Valid()
  {
    if r.count == 0 && !r.closed then (RecvWaits, r)
    else if r.count == 0 then (RecvEmpty, r)
    else (RecvValue(r.buf[r.head]), r.Pop())
  }

  class TiqChan {
    var buf: array<int>
    var cap: nat
    var head: nat
    var tail: nat
    var count: nat
    var closed: bool

    ghost function State(): Ring
      reads this, buf
    {
      Ring(buf[..], head, tail, count, closed)
    }

    ghost predicate Valid()
      reads this, buf
    {
      cap == buf.Length && State().Valid()
    }

    constructor (requested: int)
      ensures Valid() && State().Cap() == (if requested <= 0 then 1 else requested) && State().Contents() == [] &&
        !closed
    {
      var n := if requested <= 0 then 1 else requested;
      buf := new int[n](_ => 0);
      cap, head, tail, count, closed := n, 0, 0, 0, false;
    }

    /** One pass of a sender that holds the mutex: park, give up, or store the value. */
    method Send(v: int) returns (r: Sent)
      requires Valid()
      modifies this, buf
      ensures Valid() && buf == old(buf) && (r, State()) == SendPass(old(State()), v)
      ensures State().Contents() == old(State().Contents()) + (if r == SendDone then [v] else [])
      ensures r == SendWaits <==> |old(State().Contents())| == buf.Length && !old(closed)
      ensures r == SendRefused <==> old(closed)
      ensures r != SendDone ==> State() == old(State())
      ensures closed == old(closed) && cap == old(cap)
    {
      if count == cap && !closed { return SendWaits; }
      if closed { return SendRefused; }
      PushContents(State(), v);
      buf[tail] := v;
      tail := (tail + 1) % cap;
      count := count + 1;
      return SendDone;
    }

    /** One pass of a receiver that holds the mutex. */
    method Recv() returns (r: Got)
      requires Valid()
      modifies this
      ensures Valid() && buf == old(buf) && (r, State()) == RecvPass(old(State()))
      ensures old(State().Contents()) == (if r.RecvValue? then [r.v] else []) + State().Contents()
      ensures r.RecvWaits? <==> old(State().Contents()) == [] && !old(closed)
      ensures r.RecvEmpty? <==> old(State().Contents()) == [] && old(closed)
      ensures !r.RecvValue? ==> State() == old(State())
      ensures closed == old(closed) && cap == old(cap)
    {
      if count == 0 && !closed { return RecvWaits; }
      if count == 0 && closed { return RecvEmpty; }
      PopContents(State());
      var v := buf[head];
      head := (head + 1) % cap;
      count := count - 1;
      return RecvValue(v);
    }

    /** A receive that never waits. */
    method TryRecv() returns (r: Got)
      requires Valid()
      modifies this
      ensures Valid() && buf == old(buf) && r != RecvWaits
      ensures old(State().Contents()) == (if r.RecvValue? then [r.v] else []) + State().Contents()
      ensures r.RecvEmpty? <==> old(State().Contents()) == []
      ensures r.RecvEmpty? ==> State() == old(State())
      ensures closed == old(closed) && cap == old(cap)
    {
      if count == 0 { return RecvEmpty; }
      PopContents(State());
      var v := buf[head];
      head := (head + 1) % cap;
      count := count - 1;
      return RecvValue(v);
    }

    method Close()
      requires Valid()
      modifies this`closed
      ensures Valid() && closed && State().Contents() == old(State().Contents()) && cap == old(cap)
    {
      closed := true;
    }
  }
}
