/** metrics/generic/generic.go: the compare-and-swap loops of Counter and Gauge, and SimpleHistogram's average.
    Numbers are exact: `real` stands for float64. */
module Generic {
  type Tid = nat

  /** A call on the shared word. Counters offer the first two, gauges the first and the last. */
  datatype Op = Add(delta: real) | ValueReset | Set(value: real)

  /** Where a thread stands. `at` is how many calls had taken effect when it loaded `seen`. */
  datatype Local = Idle | Started(op: Op) | Loaded(op: Op, seen: real, at: nat)

  /** A call that took effect, and what it returned (0 if nothing). */
  datatype Effect = Effect(t: Tid, op: Op, result: real)

  /** `begun` lists, thread by thread, every call ever made. */
  datatype Machine = Machine(
    value: real,
    locals: seq<Local>,
    begun: seq<seq<Op>>,
    log: seq<Effect>,
    failures: nat)

  datatype Action = Begin(t: Tid, op: Op) | Load(t: Tid) | CompareAndSwap(t: Tid) | Store(t: Tid)

  function Start(n: nat): Machine {
    Machine(0.0, seq(n, i => Idle), seq(n, i => []), [], 0)
  }

  /** The value a loop swaps in for the one it loaded. */
  function Swapped(op: Op, seen: real): real
    requires !op.Set?
  {
    if op.Add? then seen + op.delta else 0.0
  }

  predicate Shaped(n: nat, m: Machine) {
    && |m.locals| == n && |m.begun| == n
    && forall t :: 0 <= t < n && m.locals[t].Loaded? ==> !m.locals[t].op.Set?
  }

  function Step(n: nat, m: Machine, a: Action): (r: Machine)
    requires Shaped(n, m)
    ensures Shaped(n, r)
  {
    if a.t >= n then m
    else
      var l := m.locals[a.t];
      match a
      case Begin(t, op) =>
        if l.Idle?
        then m.(locals := m.locals[t := Started(op)], begun := m.begun[t := m.begun[t] + [op]])
        else m
      case Load(t) =>
        if l.Started? && !l.op.Set?
        then m.(locals := m.locals[t := Loaded(l.op, m.value, |m.log|)])
        else m
      case CompareAndSwap(t) =>
        if !l.Loaded? then m
        else if m.value == l.seen then
          m.(value := Swapped(l.op, l.seen), locals := m.locals[t := Idle],
             log := m.log + [Effect(t, l.op, if l.op.ValueReset? then l.seen else 0.0)])
        else m.(locals := m.locals[t := Started(l.op)], failures := m.failures + 1)
      case Store(t) =>
        if l.Started? && l.op.Set?
        then m.(value := l.op.value, locals := m.locals[t := Idle], log := m.log + [Effect(t, l.op, 0.0)])
        else m
  }

  function Exec(n: nat, actions: seq<Action>): (m: Machine)
    ensures Shaped(n, m)
  {
    if |actions| == 0 then Start(n) else Step(n, Exec(n, actions[..|actions| - 1]), actions[|actions| - 1])
  }

  /** The value after the calls of `log`, one at a time and alone. */
  function Replay(log: seq<Effect>): real {
    if |log| == 0 then 0.0
    else
      match log[|log| - 1].op
      case Add(delta) => Replay(log[..|log| - 1]) + delta
      case ValueReset => 0.0
      case Set(value) => value
  }

  /** The sum of the deltas added. */
  function Added(log: seq<Effect>): real {
    if |log| == 0 then 0.0
    else Added(log[..|log| - 1]) + if log[|log| - 1].op.Add? then log[|log| - 1].op.delta else 0.0
  }

  /** The sum of what `ValueReset` calls returned. */
  function Drained(log: seq<Effect>): real {
    if |log| == 0 then 0.0
    else Drained(log[..|log| - 1]) + if log[|log| - 1].op.ValueReset? then log[|log| - 1].result else 0.0
  }

  /** The calls of thread `t`, in order of effect. */
  function By(log: seq<Effect>, t: Tid): seq<Op> {
    if |log| == 0 then []
    else By(log[..|log| - 1], t) + if log[|log| - 1].t == t then [log[|log| - 1].op] else []
  }

  /** Value and results are those of the calls run one at a time, in order of effect. */
  ghost predicate Atomic(m: Machine) {
    && m.value == Replay(m.log)
    && forall i :: 0 <= i < |m.log| && m.log[i].op.ValueReset? ==> m.log[i].result == Replay(m.log[..i])
  }

  /** What a thread has in hand is what the word held after the calls it had seen. */
  ghost predicate Seen(n: nat, m: Machine)
    requires Shaped(n, m)
  {
    forall t :: 0 <= t < n && m.locals[t].Loaded? ==>
      m.locals[t].at <= |m.log| && m.locals[t].seen == Replay(m.log[..m.locals[t].at]) &&
      (forall i :: m.locals[t].at <= i < |m.log| ==> m.log[i].t != t)
  }

  /** Each call takes effect once, in the order its thread made them; the last may still be under way. */
  ghost predicate Once(n: nat, m: Machine)
    requires Shaped(n, m)
  {
    forall t :: 0 <= t < n ==>
      m.begun[t] == By(m.log, t) + if m.locals[t].Idle? then [] else [m.locals[t].op]
  }

  /** Threads holding a value that some call has since replaced. */
  function Stale(n: nat, m: Machine): set<Tid>
    requires Shaped(n, m)
  {
    set t | 0 <= t < n && m.locals[t].Loaded? && m.locals[t].at < |m.log|
  }

  lemma AtomicStep(n: nat, m: Machine, a: Action)
    requires Shaped(n, m) && Atomic(m)
    ensures Atomic(Step(n, m, a))
  {
    var r := Step(n, m, a);
    if |r.log| > |m.log| {
      assert r.log == m.log + [r.log[|m.log|]];
      ReplayOneMore(m.log, r.log[|m.log|]);
      assert r.log[|m.log|].op.ValueReset? ==> r.log[|m.log|].result == m.value;
    }
  }

  lemma ReplayOneMore(log: seq<Effect>, e: Effect)
    ensures (log + [e])[..|log|] == log
    ensures Replay(log + [e]) == if e.op.Set? then e.op.value else Swapped(e.op, Replay(log))
    ensures forall i :: 0 <= i <= |log| ==> (log + [e])[..i] == log[..i]
  {
  }

  lemma SeenStep(n: nat, m: Machine, a: Action)
    requires Shaped(n, m) && Atomic(m) && Seen(n, m)
    ensures Seen(n, Step(n, m, a))
  {
    var r := Step(n, m, a);
    assert m.log[..|m.log|] == m.log;
    forall t | 0 <= t < n && r.locals[t].Loaded?
      ensures r.locals[t].at <= |r.log| && r.locals[t].seen == Replay(r.log[..r.locals[t].at])
      ensures forall i :: r.locals[t].at <= i < |r.log| ==> r.log[i].t != t
    {
      assert r.log[..r.locals[t].at] == m.log[..r.locals[t].at];
    }
  }

  lemma {:induction false} OnceStep(n: nat, m: Machine, a: Action)
    requires Shaped(n, m) && Once(n, m)
    ensures Once(n, Step(n, m, a))
  {
    var r := Step(n, m, a);
    if |r.log| > |m.log| { assert r.log[..|m.log|] == m.log; }
  }

  lemma {:induction false} ExecInv(n: nat, actions: seq<Action>)
    ensures Atomic(Exec(n, actions)) && Seen(n, Exec(n, actions)) && Once(n, Exec(n, actions))
  {
    if |actions| > 0 {
      var before, a := Exec(n, actions[..|actions| - 1]), actions[|actions| - 1];
      ExecInv(n, actions[..|actions| - 1]);
      AtomicStep(n, before, a);
      SeenStep(n, before, a);
      OnceStep(n, before, a);
    }
  }

  /** In every interleaving, value and results are those of the calls run one at a time, in order of effect. */
  lemma {:induction false} CallsAreAtomic(n: nat, actions: seq<Action>)
    ensures var m := Exec(n, actions);
      && m.value == Replay(m.log)
      && forall i :: 0 <= i < |m.log| && m.log[i].op.ValueReset? ==> m.log[i].result == Replay(m.log[..i])
  {
    ExecInv(n, actions);
  }

  lemma {:induction false} ReplayConserves(log: seq<Effect>)
    requires forall i :: 0 <= i < |log| ==> !log[i].op.Set?
    requires forall i :: 0 <= i < |log| && log[i].op.ValueReset? ==> log[i].result == Replay(log[..i])
    ensures Replay(log) + Drained(log) == Added(log)
  {
    if |log| > 0 {
      var rest := log[..|log| - 1];
      forall i | 0 <= i < |rest| && rest[i].op.ValueReset? ensures rest[i].result == Replay(rest[..i]) {
        assert rest[..i] == log[..i];
      }
      ReplayConserves(rest);
    }
  }

  /** Counters, in every interleaving: what is left plus what was drained is what was added. */
  lemma {:induction false} CounterConserves(n: nat, actions: seq<Action>)
    requires forall i :: 0 <= i < |actions| && actions[i].Begin? ==> !actions[i].op.Set?
    ensures var m := Exec(n, actions); m.value + Drained(m.log) == Added(m.log)
  {
    ExecInv(n, actions);
    NeverSet(n, actions);
    ReplayConserves(Exec(n, actions).log);
  }

  ghost predicate SetFree(m: Machine) {
    && (forall t :: 0 <= t < |m.locals| && !m.locals[t].Idle? ==> !m.locals[t].op.Set?)
    && (forall i :: 0 <= i < |m.log| ==> !m.log[i].op.Set?)
  }

  lemma {:induction false} NeverSet(n: nat, actions: seq<Action>)
    requires forall i :: 0 <= i < |actions| && actions[i].Begin? ==> !actions[i].op.Set?
    ensures SetFree(Exec(n, actions))
  {
    if |actions| > 0 {
      NeverSet(n, actions[..|actions| - 1]);
      SetFreeStep(n, Exec(n, actions[..|actions| - 1]), actions[|actions| - 1]);
    }
  }

  lemma SetFreeStep(n: nat, m: Machine, a: Action)
    requires Shaped(n, m) && SetFree(m) && (a.Begin? ==> !a.op.Set?)
    ensures SetFree(Step(n, m, a))
  {
  }

  /** Gauges, in every interleaving: the value is that of the last `Set` plus the deltas added since. */
  lemma {:induction false} GaugeIsLastSetPlusAdded(n: nat, actions: seq<Action>, k: nat)
    requires var m := Exec(n, actions);
      k <= |m.log| && (forall i :: k <= i < |m.log| ==> m.log[i].op.Add?) &&
      (k > 0 ==> m.log[k - 1].op.Set?)
    ensures var m := Exec(n, actions);
      m.value == (if k > 0 then m.log[k - 1].op.value else 0.0) + Added(m.log[k..])
  {
    ExecInv(n, actions);
    ReplayAdds(Exec(n, actions).log, k);
  }

  lemma {:induction false} ReplayAdds(log: seq<Effect>, k: nat)
    requires k <= |log| && forall i :: k <= i < |log| ==> log[i].op.Add?
    ensures Replay(log) == Replay(log[..k]) + Added(log[k..])
  {
    if |log| > k {
      var rest := log[..|log| - 1];
      ReplayAdds(rest, k);
      assert rest[..k] == log[..k] && log[k..][..|log| - k - 1] == rest[k..];
    } else {
      assert log[..k] == log;
    }
  }

  /** Every call a thread has made took effect exactly once, in its own order, unless it is still under way. */
  lemma {:induction false} CallsTakeEffectOnce(n: nat, actions: seq<Action>, t: Tid)
    requires t < n
    ensures var m := Exec(n, actions);
      m.begun[t] == By(m.log, t) + if m.locals[t].Idle? then [] else [m.locals[t].op]
  {
    ExecInv(n, actions);
  }

  /** A swap that would fail has been overtaken: since the load, another thread's call changed the value. */
  lemma {:induction false} FailureMeansInterference(n: nat, actions: seq<Action>, t: Tid)
    requires t < n && Exec(n, actions).locals[t].Loaded?
    requires Step(n, Exec(n, actions), CompareAndSwap(t)).failures > Exec(n, actions).failures
    ensures var m := Exec(n, actions);
      exists i :: m.locals[t].at <= i < |m.log| && m.log[i].t != t && Replay(m.log[..i]) != Replay(m.log[..i + 1])
  {
    ExecInv(n, actions);
    var m := Exec(n, actions);
    assert m.log[..|m.log|] == m.log;
    var i := FirstChange(m.log, m.locals[t].at);
  }

  lemma FirstChange(log: seq<Effect>, at: nat) returns (i: nat)
    requires at <= |log| && Replay(log[..at]) != Replay(log[..|log|])
    ensures at <= i < |log| && Replay(log[..i]) != Replay(log[..i + 1])
  {
    i := at;
    while Replay(log[..i]) == Replay(log[..i + 1])
      invariant at <= i < |log| && Replay(log[..i]) == Replay(log[..at])
      decreases |log| - i
    {
      i := i + 1;
      assert i < |log|;
    }
  }

  /** The loops are lock-free: failed swaps are bounded by the calls that took effect, not by the schedule. */
  lemma {:induction false} FailuresAreBounded(n: nat, actions: seq<Action>)
    requires n > 0
    ensures var m := Exec(n, actions); m.failures + |Stale(n, m)| <= (n - 1) * |m.log|
  {
    if |actions| == 0 {
      assert Stale(n, Start(n)) == {};
    } else {
      var before, a := Exec(n, actions[..|actions| - 1]), actions[|actions| - 1];
      FailuresAreBounded(n, actions[..|actions| - 1]);
      ExecInv(n, actions[..|actions| - 1]);
      BoundStep(n, before, a);
      Distribute(n - 1, |before.log|);
    }
  }

  lemma Distribute(k: nat, x: nat)
    ensures k * (x + 1) == k * x + k
  {
  }

  lemma BoundStep(n: nat, m: Machine, a: Action)
    requires n > 0 && Shaped(n, m) && Atomic(m) && Seen(n, m)
    ensures var r := Step(n, m, a);
      if |r.log| > |m.log|
      then |r.log| == |m.log| + 1 && r.failures == m.failures && |Stale(n, r)| <= n - 1
      else |r.log| == |m.log| && r.failures + |Stale(n, r)| <= m.failures + |Stale(n, m)|
  {
    var r := Step(n, m, a);
    assert m.log[..|m.log|] == m.log;
    if |r.log| > |m.log| {
      Below(n, Stale(n, r), a.t);
    } else if r.failures > m.failures {
      assert a.t in Stale(n, m);
      assert Stale(n, r) == Stale(n, m) - {a.t};
    } else {
      assert Stale(n, r) <= Stale(n, m);
      Fewer(Stale(n, r), Stale(n, m));
    }
  }

  lemma {:induction false} Below(n: nat, s: set<nat>, t: nat)
    requires t < n && t !in s && forall i :: i in s ==> i < n
    ensures |s| <= n - 1
  {
    Fewer(s, Numbers(n) - {t});
  }

  function Numbers(n: nat): (s: set<nat>)
    ensures |s| == n && forall i :: i in s <==> 0 <= i < n
  {
    if n == 0 then {} else Numbers(n - 1) + {n - 1}
  }

  lemma {:induction false} Fewer<T>(s: set<T>, t: set<T>)
    requires s <= t
    ensures |s| <= |t|
  {
    assert t == s + (t - s);
  }

  /* ---------- calls get through ---------- */

  lemma ExecOneMore(n: nat, actions: seq<Action>, a: Action)
    ensures Exec(n, actions + [a]) == Step(n, Exec(n, actions), a)
  {
    assert (actions + [a])[..|actions|] == actions;
  }

  /** From `m` to `r` thread `t` has finished its call of `op`, which has taken effect, and no other thread has moved. */
  ghost predicate FinishedIn(n: nat, m: Machine, r: Machine, t: Tid, op: Op)
    requires t < n && Shaped(n, m) && Shaped(n, r)
  {
    && r.locals == m.locals[t := Idle]
    && |r.log| == |m.log| + 1 && r.log[..|m.log|] == m.log
    && r.log[|m.log|].t == t && r.log[|m.log|].op == op
  }

  /** A thread left to itself finishes its call, whatever the others have done to it: after a swap that fails it loads
      again, and the next swap succeeds. */
  lemma {:induction false} CallsFinishAlone(n: nat, actions: seq<Action>, t: Tid) returns (more: seq<Action>)
    requires t < n && !Exec(n, actions).locals[t].Idle?
    ensures |more| <= 3 && forall i :: 0 <= i < |more| ==> more[i].t == t && !more[i].Begin?
    ensures FinishedIn(n, Exec(n, actions), Exec(n, actions + more), t, Exec(n, actions).locals[t].op)
  {
    var m := Exec(n, actions);
    var l := m.locals[t];
    if l.Loaded? && m.value != l.seen {
      ExecOneMore(n, actions, CompareAndSwap(t));
      FinishFromStart(n, actions + [CompareAndSwap(t)], t);
      more := [CompareAndSwap(t), Load(t), CompareAndSwap(t)];
      assert actions + [CompareAndSwap(t)] + [Load(t), CompareAndSwap(t)] == actions + more;
    } else if l.Loaded? {
      ExecOneMore(n, actions, CompareAndSwap(t));
      more := [CompareAndSwap(t)];
    } else {
      FinishFromStart(n, actions, t);
      more := if l.op.Set? then [Store(t)] else [Load(t), CompareAndSwap(t)];
    }
  }

  lemma FinishFromStart(n: nat, actions: seq<Action>, t: Tid)
    requires t < n && Exec(n, actions).locals[t].Started?
    ensures var m := Exec(n, actions);
      var op := m.locals[t].op;
      FinishedIn(n, m, Exec(n, actions + if op.Set? then [Store(t)] else [Load(t), CompareAndSwap(t)]), t, op)
  {
    var m := Exec(n, actions);
    if m.locals[t].op.Set? {
      ExecOneMore(n, actions, Store(t));
    } else {
      ExecOneMore(n, actions, Load(t));
      ExecOneMore(n, actions + [Load(t)], CompareAndSwap(t));
      assert actions + [Load(t)] + [CompareAndSwap(t)] == actions + [Load(t), CompareAndSwap(t)];
    }
  }

  /** So from wherever a run has got to, all calls under way can be finished, each once. */
  lemma {:induction false} EveryCallCanFinish(n: nat, actions: seq<Action>) returns (more: seq<Action>)
    ensures var m, r := Exec(n, actions), Exec(n, actions + more);
      && r.begun == m.begun && forall t :: 0 <= t < n ==> r.locals[t].Idle? && By(r.log, t) == m.begun[t]
  {
    more := FinishUpTo(n, actions, n);
    ExecInv(n, actions + more);
    var r := Exec(n, actions + more);
    forall t | 0 <= t < n ensures By(r.log, t) == r.begun[t] {}
  }

  lemma {:induction false} FinishUpTo(n: nat, actions: seq<Action>, k: nat) returns (more: seq<Action>)
    requires k <= n
    ensures Exec(n, actions + more).begun == Exec(n, actions).begun
    ensures forall t :: 0 <= t < k ==> Exec(n, actions + more).locals[t].Idle?
  {
    if k == 0 {
      more := [];
      assert actions + more == actions;
    } else {
      more := FinishUpTo(n, actions, k - 1);
      if !Exec(n, actions + more).locals[k - 1].Idle? {
        var last := CallsFinishAlone(n, actions + more, k - 1);
        NothingBegins(n, actions + more, last);
        assert actions + more + last == actions + (more + last);
        more := more + last;
      }
    }
  }

  lemma {:induction false} NothingBegins(n: nat, actions: seq<Action>, more: seq<Action>)
    requires forall i :: 0 <= i < |more| ==> !more[i].Begin?
    ensures Exec(n, actions + more).begun == Exec(n, actions).begun
  {
    if |more| == 0 {
      assert actions + more == actions;
    } else {
      NothingBegins(n, actions, more[..|more| - 1]);
      ExecOneMore(n, actions + more[..|more| - 1], more[|more| - 1]);
      assert actions + more == actions + more[..|more| - 1] + [more[|more| - 1]];
    }
  }

  /** A call made while its thread is alone: `Add` adds its delta, `ValueReset` returns the value and leaves zero, `Set`
      leaves the value given. */
  lemma {:induction false} UndisturbedCall(n: nat, actions: seq<Action>, t: Tid, op: Op)
    requires t < n && Exec(n, actions).locals[t].Idle?
    ensures var m := Exec(n, actions);
      var r := Exec(n, actions + [Begin(t, op)] + if op.Set? then [Store(t)] else [Load(t), CompareAndSwap(t)]);
      && r.locals == m.locals && r.failures == m.failures
      && r.log == m.log + [Effect(t, op, if op.ValueReset? then m.value else 0.0)]
      && r.value == match op
                    case Add(delta) => m.value + delta
                    case ValueReset => 0.0
                    case Set(value) => value
  {
    var m, begun := Exec(n, actions), actions + [Begin(t, op)];
    ExecOneMore(n, actions, Begin(t, op));
    if op.Set? {
      ExecOneMore(n, begun, Store(t));
    } else {
      ExecOneMore(n, begun, Load(t));
      ExecOneMore(n, begun + [Load(t)], CompareAndSwap(t));
      assert begun + [Load(t)] + [CompareAndSwap(t)] == begun + [Load(t), CompareAndSwap(t)];
    }
  }

  function Sum(s: seq<real>): real {
    if |s| == 0 then 0.0 else Sum(s[..|s| - 1]) + s[|s| - 1]
  }

  class SimpleHistogram {
    var avg: real
    var n: nat
    /** Every value observed, in order. */
    ghost var observed: seq<real>

    /** The running average is the mean of everything observed. */
    ghost predicate Valid()
      reads this
    {
      n == |observed| && avg * n as real == Sum(observed) && (n == 0 ==> avg == 0.0)
    }

    constructor ()
      ensures Valid() && observed == []
    {
      avg, n, observed := 0.0, 0, [];
    }

    method Observe(value: real)
      requires Valid()
      modifies this
      ensures Valid() && observed == old(observed) + [value]
    {
      n := n + 1;
      avg := avg - avg / n as real;
      avg := avg + value / n as real;
      observed := observed + [value];
      assert observed[..|observed| - 1] == old(observed);
      Averaged(old(avg), old(n), value);
    }

    method ApproximateMovingAverage() returns (r: real)
      requires Valid()
      ensures r == if |observed| == 0 then 0.0 else Sum(observed) / |observed| as real
    {
      r := avg;
    }
  }

  lemma Averaged(avg: real, n: nat, value: real)
    ensures var k := (n + 1) as real; (avg - avg / k + value / k) * k == avg * n as real + value
  {
  }
}
