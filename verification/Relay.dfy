/**
 The two-way relay behind an accepted CONNECT: two concurrent copy tasks, each with its own
 reused 16 KiB buffer (section 9.3.6 of RFC 9110). One step of a task is what happens
 between two of its suspension points.
 */
module Relay {
  import opened Bytes

  const BUFFER_SIZE := 16 * 1024

  /** `buf[start..end]` is what the last read put there and the writes have not taken yet. */
  datatype Task = Task(
    source: seq<Byte>,
    buf: seq<Byte>,
    start: nat,
    end: nat,
    delivered: seq<Byte>,
    running: bool)
  {
    ghost predicate Valid() {
      start <= end <= |buf|
    }

    function Pending(): seq<Byte>
      requires Valid()
    {
      buf[start..end]
    }
  }

  datatype Event =
    | Read(count: nat)
    | EndOfStream
    | ReadError
    | Write(count: nat)
    | WriteError

  predicate IsError(e: Event) {
    e.ReadError? || e.WriteError?
  }

  /** A task reads only with nothing left to write, and a read fills a prefix of the buffer. */
  predicate Enabled(t: Task, e: Event)
    requires t.Valid()
  {
    t.running &&
    match e
    case Read(n) => t.start == t.end && 1 <= n <= |t.source| && n <= |t.buf|
    case EndOfStream => t.start == t.end && t.source == []
    case ReadError => t.start == t.end
    case Write(n) => 1 <= n <= t.end - t.start
    case WriteError => t.start < t.end
  }

  function Next(t: Task, e: Event): (next: Task)
    requires t.Valid() && Enabled(t, e)
    ensures next.Valid() && |next.buf| == |t.buf|
  {
    match e
    case Read(n) => t.(source := t.source[n..], buf := t.source[..n] + t.buf[n..], start := 0, end := n)
    case Write(n) => t.(start := t.start + n, delivered := t.delivered + t.buf[t.start..t.start + n])
    case EndOfStream => t.(running := false)
    case ReadError => t.(running := false)
    case WriteError => t.(running := false)
  }

  ghost predicate Initial(t: Task, source: seq<Byte>) {
    t.source == source && |t.buf| == BUFFER_SIZE && t.start == t.end == 0 && t.delivered == [] && t.running
  }

  // ---------- One task ----------

  /** Nothing is lost, repeated or reordered. */
  ghost predicate Conserves(t: Task, source: seq<Byte>) {
    t.Valid() && t.delivered + t.Pending() + t.source == source
  }

  lemma NextConserves(t: Task, e: Event, source: seq<Byte>)
    requires Conserves(t, source) && Enabled(t, e)
    ensures Conserves(Next(t, e), source)
  {
    var u := Next(t, e);
    match e {
      case Read(n) =>
        assert t.Pending() == [];
        assert u.Pending() == t.source[..n];
        assert t.source == t.source[..n] + t.source[n..];
      case Write(n) =>
        assert t.Pending() == t.buf[t.start..t.start + n] + u.Pending();
      case _ =>
    }
  }

  /** Steps left at most: each byte is read once and written once, and the task stops once. */
  function Budget(t: Task): nat
    requires t.Valid()
  {
    2 * |t.source| + (t.end - t.start) + if t.running then 1 else 0
  }

  lemma NextSpends(t: Task, e: Event)
    requires t.Valid() && Enabled(t, e)
    ensures Budget(Next(t, e)) < Budget(t)
  {
  }

  // ---------- The two tasks together ----------

  datatype Tunnel = Tunnel(up: Task, down: Task)

  datatype Step = Step(upward: bool, event: Event)

  ghost predicate StepOk(s: Tunnel, step: Step, s': Tunnel) {
    && s.up.Valid() && s.down.Valid()
    && if step.upward then Enabled(s.up, step.event) && s' == s.(up := Next(s.up, step.event))
       else Enabled(s.down, step.event) && s' == s.(down := Next(s.down, step.event))
  }

  /** A run: any interleaving of enabled steps of the two tasks. */
  ghost predicate IsRun(states: seq<Tunnel>, steps: seq<Step>, client: seq<Byte>, server: seq<Byte>) {
    && |states| == |steps| + 1
    && Initial(states[0].up, client) && Initial(states[0].down, server)
    && forall i :: 0 <= i < |steps| ==> StepOk(states[i], steps[i], states[i + 1])
  }

  ghost predicate Faultless(steps: seq<Step>, upward: bool) {
    forall i :: 0 <= i < |steps| && steps[i].upward == upward ==> !IsError(steps[i].event)
  }

  /** A task that has stopped without an error has nothing left to read or to write. */
  ghost predicate StopsEmpty(t: Task) {
    t.Valid() && (!t.running ==> t.source == [] && t.start == t.end)
  }

  lemma {:induction false} RunConserves(states: seq<Tunnel>, steps: seq<Step>, client: seq<Byte>, server: seq<Byte>)
    requires IsRun(states, steps, client, server)
    ensures var s := states[|steps|];
            && Conserves(s.up, client) && Conserves(s.down, server)
            && (Faultless(steps, true) ==> StopsEmpty(s.up))
            && (Faultless(steps, false) ==> StopsEmpty(s.down))
            && |steps| + Budget(s.up) + Budget(s.down) <= 2 * |client| + 2 * |server| + 2
    decreases |steps|
  {
    if steps == [] {
      var s := states[0];
      assert s.up.Pending() == [] && s.down.Pending() == [];
    } else {
      var last := |steps| - 1;
      assert IsRun(states[..|steps|], steps[..last], client, server) by {
        forall i | 0 <= i < last
          ensures StepOk(states[..|steps|][i], steps[..last][i], states[..|steps|][i + 1])
        {
          assert StepOk(states[i], steps[i], states[i + 1]);
        }
      }
      RunConserves(states[..|steps|], steps[..last], client, server);
      var s, step := states[last], steps[last];
      assert StepOk(states[last], steps[last], states[last + 1]);
      assert Faultless(steps, true) ==> Faultless(steps[..last], true);
      assert Faultless(steps, false) ==> Faultless(steps[..last], false);
      if step.upward {
        NextConserves(s.up, step.event, client);
        NextSpends(s.up, step.event);
      } else {
        NextConserves(s.down, step.event, server);
        NextSpends(s.down, step.event);
      }
    }
  }

  /**
   Every reachable state of every interleaving: what one end has received is a prefix of
   what the other end sent, the rest is in the buffer or unread, and the number of steps is
   bounded, so that the relay of two finite streams ends.
   */
  lemma RelayIsFaithful(states: seq<Tunnel>, steps: seq<Step>, client: seq<Byte>, server: seq<Byte>)
    requires IsRun(states, steps, client, server)
    ensures var s := states[|steps|];
            && s.up.Valid() && s.down.Valid()
            && s.up.delivered <= client && s.down.delivered <= server
            && s.up.delivered + s.up.Pending() + s.up.source == client
            && s.down.delivered + s.down.Pending() + s.down.source == server
            && |steps| <= 2 * |client| + 2 * |server| + 2
  {
    RunConserves(states, steps, client, server);
    var s := states[|steps|];
    assert s.up.delivered + s.up.Pending() + s.up.source == s.up.delivered + (s.up.Pending() + s.up.source);
    assert s.down.delivered + s.down.Pending() + s.down.source == s.down.delivered + (s.down.Pending() + s.down.source);
  }

  /** A direction that stopped without an error has delivered everything, whatever the other one did. */
  lemma RelayDeliversAll(states: seq<Tunnel>, steps: seq<Step>, client: seq<Byte>, server: seq<Byte>)
    requires IsRun(states, steps, client, server)
    ensures var s := states[|steps|];
            && (!s.up.running && Faultless(steps, true) ==> s.up.delivered == client)
            && (!s.down.running && Faultless(steps, false) ==> s.down.delivered == server)
  {
    RunConserves(states, steps, client, server);
    var s := states[|steps|];
    if !s.up.running && Faultless(steps, true) {
      assert s.up.Pending() == [];
    }
    if !s.down.running && Faultless(steps, false) {
      assert s.down.Pending() == [];
    }
  }

  /** A running task always has a step that is no error, so only finished relays stand still. */
  lemma NeverStuck(t: Task)
    requires t.Valid() && t.running && |t.buf| == BUFFER_SIZE
    ensures exists e :: Enabled(t, e) && !IsError(e)
  {
    if t.start < t.end {
      assert Enabled(t, Write(1));
    } else if t.source == [] {
      assert Enabled(t, EndOfStream);
    } else {
      assert Enabled(t, Read(1));
    }
  }

  lemma {:induction false} BufferKeepsItsSize(states: seq<Tunnel>, steps: seq<Step>, client: seq<Byte>,
                                              server: seq<Byte>)
    requires IsRun(states, steps, client, server)
    ensures |states[|steps|].up.buf| == |states[|steps|].down.buf| == BUFFER_SIZE
    decreases |steps|
  {
    if steps != [] {
      var last := |steps| - 1;
      assert IsRun(states[..|steps|], steps[..last], client, server) by {
        forall i | 0 <= i < last
          ensures StepOk(states[..|steps|][i], steps[..last][i], states[..|steps|][i + 1])
        {
          assert StepOk(states[i], steps[i], states[i + 1]);
        }
      }
      BufferKeepsItsSize(states[..|steps|], steps[..last], client, server);
      assert StepOk(states[last], steps[last], states[last + 1]);
    }
  }

  /** What a task may do next: reading only with nothing left to write, up to 16384 bytes at once. */
  ghost predicate MayDo(t: Task, e: Event)
    requires t.Valid()
  {
    t.running &&
    if t.Pending() == [] then
      || (e.Read? && 1 <= e.count <= |t.source| && e.count <= 16384)
      || (e.EndOfStream? && t.source == [])
      || e.ReadError?
    else
      (e.Write? && 1 <= e.count <= |t.Pending()|) || e.WriteError?
  }

  /** In every reachable state these are the steps that can happen. */
  lemma StepsThatCanHappen(states: seq<Tunnel>, steps: seq<Step>, client: seq<Byte>, server: seq<Byte>, e: Event)
    requires IsRun(states, steps, client, server)
    ensures var s := states[|steps|];
            && s.up.Valid() && s.down.Valid()
            && (Enabled(s.up, e) <==> MayDo(s.up, e)) && (Enabled(s.down, e) <==> MayDo(s.down, e))
  {
    RunConserves(states, steps, client, server);
    BufferKeepsItsSize(states, steps, client, server);
  }

  /** A run that cannot be continued without an error has stopped in both directions. */
  lemma StuckMeansDone(states: seq<Tunnel>, steps: seq<Step>, client: seq<Byte>, server: seq<Byte>)
    requires IsRun(states, steps, client, server)
    requires forall step: Step, s' :: StepOk(states[|steps|], step, s') ==> IsError(step.event)
    ensures !states[|steps|].up.running && !states[|steps|].down.running
  {
    RunConserves(states, steps, client, server);
    BufferKeepsItsSize(states, steps, client, server);
    var s := states[|steps|];
    if s.up.running {
      NeverStuck(s.up);
      var e :| Enabled(s.up, e) && !IsError(e);
      assert StepOk(s, Step(true, e), s.(up := Next(s.up, e)));
    }
    if s.down.running {
      NeverStuck(s.down);
      var e :| Enabled(s.down, e) && !IsError(e);
      assert StepOk(s, Step(false, e), s.(down := Next(s.down, e)));
    }
  }

  // ---------- The loop of one task, over an array ----------

  function Prefix(s: seq<Byte>, n: nat): seq<Byte> {
    if n <= |s| then s[..n] else s
  }

  /**
   The copy loop of one task. `received` are the successive non-empty results of reading, after
   which reading ends; the sink takes `capacity` bytes and then fails.
   */
  method CopyLoop(received: seq<seq<Byte>>, capacity: nat) returns (delivered: seq<Byte>)
    requires forall i :: 0 <= i < |received| ==> 1 <= |received[i]| <= BUFFER_SIZE
    ensures delivered == Prefix(Flatten(received), capacity)
  {
    var buf := new Byte[BUFFER_SIZE];
    delivered := [];
    var i := 0;
    while i < |received|
      invariant i <= |received|
      invariant delivered + Flatten(received[i..]) == Flatten(received) && |delivered| <= capacity
    {
      var chunk := received[i];
      assert received[i..][1..] == received[i + 1..];
      var n := |chunk|;
      forall k | 0 <= k < n {
        buf[k] := chunk[k];
      }
      assert buf[..n] == chunk;
      assert delivered + Flatten(received[i..]) == (delivered + chunk) + Flatten(received[i + 1..]);
      if |delivered| + n > capacity {
        var taken := capacity - |delivered|;
        PrefixOf(delivered, chunk, Flatten(received[i + 1..]), capacity);
        delivered := delivered + buf[..taken];
        return;
      }
      delivered := delivered + buf[..n];
      i := i + 1;
    }
    assert delivered + [] == delivered;
  }

  lemma PrefixOf(a: seq<Byte>, b: seq<Byte>, c: seq<Byte>, capacity: nat)
    requires |a| <= capacity < |a| + |b|
    ensures Prefix((a + b) + c, capacity) == a + b[..capacity - |a|]
  {
  }
}
