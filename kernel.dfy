/** `Kernel`: the frame scheduler, and `TimeHistory`, the ring buffer of inter-tick durations
    whose mean is the delta handed to every task. The clock (`performance.now()`) is the
    `now` parameter; `requestAnimationFrame` is counted in `Kernel.pending`. */
module Kernels {

  /** The value every slot of a new history holds. */
  const Seed: real := 0.001

  function Sum(s: seq<real>): real {
    if s == [] then 0.0 else Sum(s[..|s| - 1]) + s[|s| - 1]
  }

  /** One cursor step, `idx += 1; idx %= size`, on a cursor already below the size. */
  function Advance(c: nat, n: nat): (c': nat)
    requires c < n
    ensures c' == if c + 1 == n then 0 else c + 1
  {
    (c + 1) % n
  }

  /** The write cursor after `k` updates, starting from 0. */
  function Cursor(k: nat, n: nat): (c: nat)
    requires n > 0
    ensures c < n
  {
    if k == 0 then 0 else Advance(Cursor(k - 1, n), n)
  }

  /** The buffer of `n` slots after writing `samples`, in order, each at the cursor of its time. */
  function Ring(samples: seq<real>, n: nat): (r: seq<real>)
    requires n > 0
    ensures |r| == n
  {
    if samples == [] then seq(n, _ => Seed)
    else Ring(samples[..|samples| - 1], n)[Cursor(|samples| - 1, n) := samples[|samples| - 1]]
  }

  /** The last `n` samples (all of them while there are fewer). */
  function Recent(samples: seq<real>, n: nat): seq<real> {
    if |samples| <= n then samples else samples[|samples| - n..]
  }

  lemma {:induction false} SumFront(s: seq<real>)
    requires s != []
    ensures Sum(s) == s[0] + Sum(s[1..])
  {
    if |s| > 1 {
      SumFront(s[..|s| - 1]);
      assert s[..|s| - 1][1..] == s[1..][..|s[1..]| - 1];
    }
  }

  lemma {:induction false} SumUpdate(s: seq<real>, i: nat, x: real)
    requires i < |s|
    ensures Sum(s[i := x]) == Sum(s) - s[i] + x
  {
    var t := s[i := x];
    if i == |s| - 1 {
      assert t[..|t| - 1] == s[..|s| - 1];
    } else {
      SumUpdate(s[..|s| - 1], i, x);
      assert t[..|t| - 1] == s[..|s| - 1][i := x];
    }
  }

  /** `d < n` updates move the cursor `d` slots forward, wrapping once at most. */
  lemma {:induction false} CursorAdvance(k: nat, d: nat, n: nat)
    requires n > 0 && d < n
    ensures Cursor(k + d, n) == if Cursor(k, n) + d < n then Cursor(k, n) + d else Cursor(k, n) + d - n
  {
    if d > 0 {
      CursorAdvance(k, d - 1, n);
    }
  }

  /** After `n` more updates the cursor is back where it was. */
  lemma CursorPeriod(k: nat, n: nat)
    requires n > 0
    ensures Cursor(k + n, n) == Cursor(k, n)
  {
    CursorAdvance(k, n - 1, n);
  }

  /** Sample `k` survives in its slot as long as fewer than `n` later samples were written. */
  lemma {:induction false} RingSlot(samples: seq<real>, n: nat, k: nat)
    requires n > 0 && k < |samples| && |samples| - n <= k
    ensures Ring(samples, n)[Cursor(k, n)] == samples[k]
  {
    var m := |samples| - 1;
    var p := samples[..m];
    if k < m {
      CursorAdvance(k, m - k, n);
      RingSlot(p, n, k);
    }
  }

  /** A slot the cursor has not yet reached still holds the seed. */
  lemma {:induction false} RingUnwritten(samples: seq<real>, n: nat, j: nat)
    requires |samples| <= j < n
    ensures Ring(samples, n)[j] == Seed
  {
    if samples != [] {
      CursorAdvance(0, |samples| - 1, n);
      RingUnwritten(samples[..|samples| - 1], n, j);
    }
  }

  lemma {:induction false} SeedSum(n: nat)
    ensures Sum(seq(n, _ => Seed)) == n as real * Seed
  {
    if n > 0 {
      SeedSum(n - 1);
      assert seq(n, _ => Seed)[..n - 1] == seq(n - 1, _ => Seed);
    }
  }

  /** One more write changes the buffer's sum by the new sample minus the slot it overwrote. */
  lemma RingStep(p: seq<real>, x: real, n: nat)
    requires n > 0
    ensures Sum(Ring(p + [x], n)) == Sum(Ring(p, n)) - Ring(p, n)[Cursor(|p|, n)] + x
  {
    assert (p + [x])[..|p|] == p;
    SumUpdate(Ring(p, n), Cursor(|p|, n), x);
  }

  /** The slot the next write overwrites holds the seed while fewer than `n` samples were
      written, and otherwise the sample written `n` updates earlier. */
  lemma EvictedSlot(p: seq<real>, n: nat)
    requires n > 0
    ensures Ring(p, n)[Cursor(|p|, n)] == if |p| < n then Seed else p[|p| - n]
  {
    if |p| < n {
      CursorAdvance(0, |p|, n);
      RingUnwritten(p, n, |p|);
    } else {
      RingSlot(p, n, |p| - n);
      CursorPeriod(|p| - n, n);
    }
  }

  /** The buffer sums to the last `n` samples plus one seed per slot not yet overwritten. */
  lemma {:induction false} RingSum(samples: seq<real>, n: nat)
    requires n > 0
    ensures Sum(Ring(samples, n)) == Sum(Recent(samples, n)) + (n - |Recent(samples, n)|) as real * Seed
  {
    if samples == [] {
      SeedSum(n);
    } else {
      var m := |samples| - 1;
      var p, x := samples[..m], samples[m];
      assert samples == p + [x];
      RingSum(p, n);
      RingStep(p, x, n);
      EvictedSlot(p, n);
      if m < n {
        FewSamples(p, x, n);
      } else {
        ManySamples(p, x, n);
      }
    }
  }

  lemma FewSamples(p: seq<real>, x: real, n: nat)
    requires |p| < n
    ensures Sum(Recent(p + [x], n)) + (n - |Recent(p + [x], n)|) as real * Seed
         == Sum(Recent(p, n)) + (n - |Recent(p, n)|) as real * Seed - Seed + x
  {
    assert (p + [x])[..|p|] == p;
  }

  lemma ManySamples(p: seq<real>, x: real, n: nat)
    requires 0 < n <= |p|
    ensures Sum(Recent(p + [x], n)) + (n - |Recent(p + [x], n)|) as real * Seed
         == Sum(Recent(p, n)) + (n - |Recent(p, n)|) as real * Seed - p[|p| - n] + x
  {
    var w := p[|p| - n..];
    SumFront(w);
    assert Recent(p + [x], n) == w[1..] + [x];
    assert (w[1..] + [x])[..n - 1] == w[1..];
  }

  /** The smoothed delta after `samples`: with `k < n` samples the
      mean is `(sum + (n - k) * seed) / n`; from `n` samples on only the last `n` count. */
  function SmoothedDelta(samples: seq<real>, n: nat): (d: real)
    requires n > 0
    ensures |samples| < n ==> d == (Sum(samples) + (n - |samples|) as real * Seed) / n as real
    ensures |samples| >= n ==> d == Sum(samples[|samples| - n..]) / n as real
  {
    (Sum(Recent(samples, n)) + (n - |Recent(samples, n)|) as real * Seed) / n as real
  }

  /** With no sample the delta is the seed, so it is never zero at cold start. */
  lemma ColdStart(n: nat)
    requires n > 0
    ensures SmoothedDelta([], n) == Seed
  {
  }

  class TimeHistory {
    const deltas: array<real>
    var idx: nat
    var prevTime: real
    /** Every duration recorded so far, oldest first. */
    ghost var Samples: seq<real>

    ghost predicate Valid()
      reads this, deltas
    {
      deltas.Length > 0 && idx == Cursor(|Samples|, deltas.Length) && deltas[..] == Ring(Samples, deltas.Length)
    }

    /** `size` slots, all seeded, cursor 0, previous time `now`. */
    constructor (size: nat, now: real)
      requires size > 0
      ensures Valid() && fresh(deltas) && deltas.Length == size
      ensures forall i :: 0 <= i < size ==> deltas[i] == Seed
      ensures Samples == [] && idx == 0 && prevTime == now
    {
      deltas := new real[size](_ => Seed);
      idx := 0;
      prevTime := now;
      Samples := [];
    }

    /** `update`: write `now - prevTime` at the cursor, advance it modulo the size. */
    method Update(now: real)
      requires Valid()
      modifies this, deltas
      ensures Valid()
      ensures deltas[..] == old(deltas[..])[old(idx) := now - old(prevTime)]
      ensures idx == Advance(old(idx), deltas.Length)
      ensures prevTime == now
      ensures Samples == old(Samples) + [now - old(prevTime)]
    {
      deltas[idx] := now - prevTime;
      Samples := Samples + [now - prevTime];
      idx := Advance(idx, deltas.Length);
      prevTime := now;
    }

    /** `get`: the mean of all slots, which is the smoothed delta of the samples. */
    method Get() returns (mean: real)
      requires Valid()
      ensures mean == Sum(deltas[..]) / deltas.Length as real
      ensures mean == SmoothedDelta(Samples, deltas.Length)
    {
      var acc := 0.0;
      var i := 0;
      while i < deltas.Length
        invariant 0 <= i <= deltas.Length
        invariant acc == Sum(deltas[..i])
      {
        assert deltas[..i + 1][..i] == deltas[..i];
        acc := acc + deltas[i];
        i := i + 1;
      }
      assert deltas[..i] == deltas[..];
      RingSum(Samples, deltas.Length);
      mean := acc / deltas.Length as real;
    }
  }

  type TaskId = nat

  /** One call `task.update(delta)`. */
  datatype TaskCall = TaskCall(task: TaskId, delta: real)

  /** `tasks.forEach(task => task.update(delta))`: every task once, in order, with the same delta. */
  method Dispatch(tasks: seq<TaskId>, delta: real) returns (calls: seq<TaskCall>)
    ensures |calls| == |tasks| && forall i :: 0 <= i < |calls| ==> calls[i] == TaskCall(tasks[i], delta)
  {
    calls := [];
    for i := 0 to |tasks|
      invariant |calls| == i && forall j :: 0 <= j < i ==> calls[j] == TaskCall(tasks[j], delta)
    {
      calls := calls + [TaskCall(tasks[i], delta)];
    }
  }

  class Kernel {
    var enabled: bool
    var tasks: seq<TaskId>
    const history: TimeHistory
    /** `requestAnimationFrame` callbacks requested and not yet run. */
    var pending: nat

    ghost predicate Valid()
      reads this, history, history.deltas
    {
      history.Valid()
    }

    constructor (histSize: nat, now: real)
      requires histSize > 0
      ensures Valid() && fresh(history) && fresh(history.deltas)
      ensures history.deltas.Length == histSize && history.Samples == [] && history.prevTime == now
      ensures !enabled && tasks == [] && pending == 0
    {
      enabled := false;
      tasks := [];
      history := new TimeHistory(histSize, now);
      pending := 0;
    }

    method AddTask(task: TaskId)
      modifies this
      ensures tasks == old(tasks) + [task]
      ensures enabled == old(enabled) && pending == old(pending)
    {
      tasks := tasks + [task];
    }

    /** `start`: only a stopped kernel is enabled and requests a frame. */
    method Start()
      modifies this
      ensures enabled
      ensures pending == old(pending) + (if old(enabled) then 0 else 1)
      ensures tasks == old(tasks)
    {
      if !enabled {
        enabled := true;
        pending := pending + 1;
      }
    }

    /** `stop`: clears the flag; requests nothing and cancels nothing. */
    method Stop()
      modifies this
      ensures !enabled
      ensures pending == old(pending) && tasks == old(tasks)
    {
      enabled := false;
    }

    /** `update`, run when the host delivers a requested frame at time `now`: record the sample,
        call every task in order with the smoothed delta, request a frame again iff enabled. */
    method Tick(now: real) returns (delta: real, calls: seq<TaskCall>)
      requires Valid() && pending > 0
      modifies this, history, history.deltas
      ensures Valid()
      ensures history.Samples == old(history.Samples) + [now - old(history.prevTime)]
      ensures history.prevTime == now
      ensures delta == SmoothedDelta(history.Samples, history.deltas.Length)
      ensures |calls| == |tasks| && forall i :: 0 <= i < |calls| ==> calls[i] == TaskCall(tasks[i], delta)
      ensures pending == old(pending) - 1 + (if enabled then 1 else 0)
      ensures enabled == old(enabled) && tasks == old(tasks)
    {
      pending := pending - 1;
      history.Update(now);
      delta := history.Get();
      calls := Dispatch(tasks, delta);
      if enabled {
        pending := pending + 1;
      }
    }
  }

  /** Two `start` calls in a row request a single frame. */
  method StartTwice(k: Kernel)
    modifies k
    ensures k.enabled
    ensures k.pending == old(k.pending) + (if old(k.enabled) then 0 else 1)
  {
    k.Start();
    k.Start();
  }

  /** A `stop` between frames lets the requested frame run, which then requests no other. */
  method StopEndsChain(k: Kernel, now: real) returns (delta: real, calls: seq<TaskCall>)
    requires k.Valid() && k.enabled && k.pending == 1
    modifies k, k.history, k.history.deltas
    ensures k.pending == 0 && !k.enabled && k.tasks == old(k.tasks)
    ensures k.history.Samples == old(k.history.Samples) + [now - old(k.history.prevTime)]
    ensures delta == SmoothedDelta(k.history.Samples, k.history.deltas.Length)
    ensures |calls| == |k.tasks| && forall i :: 0 <= i < |calls| ==> calls[i] == TaskCall(k.tasks[i], delta)
  {
    k.Stop();
    delta, calls := k.Tick(now);
  }

  /** Two frames delivered at `t1` and `t2` record exactly the two frame durations. */
  method TwoFrames(k: Kernel, t1: real, t2: real) returns (d1: real, d2: real)
    requires k.Valid() && k.enabled && k.pending == 1
    modifies k, k.history, k.history.deltas
    ensures k.history.Samples == old(k.history.Samples) + [t1 - old(k.history.prevTime), t2 - t1]
    ensures d2 == SmoothedDelta(k.history.Samples, k.history.deltas.Length)
    ensures k.enabled && k.pending == 1
  {
    var calls;
    d1, calls := k.Tick(t1);
    d2, calls := k.Tick(t2);
  }

  /** `start`, `stop`, `start` before the first frame arrives leaves two frame chains pending. */
  method RestartBeforeFrame(k: Kernel)
    requires !k.enabled && k.pending == 0
    modifies k
    ensures k.enabled && k.pending == 2
  {
    k.Start();
    k.Stop();
    k.Start();
  }
}
