/** metrics/dogstatsd/dogstatsd.go under concurrency: writing a gauge stores and then raises its flag; a walk lowers
    the flag, loads, and only then writes its line, while other writers and other walks do the same. One action is
    one atomic step of one thread; an action its thread is not ready for changes nothing. */
module GaugeConcurrency {
  type Tid = nat

  /** A line written by a walk: the number of the value it shows, and of the value that was current by then. */
  datatype Emission = Emission(version: nat, current: nat, value: real)

  /** `values` lists every value ever stored, the current one last. `storing` holds the threads between store and
      touch, with the value they stored; `loading` those between a swap that found the flag up and the load;
      `passing` those whose swap found it down; `holding` those that have loaded a value and have yet to write it.
      `returned` are the values whose write has returned. */
  datatype Machine = Machine(
    values: seq<real>,
    flag: bool,
    storing: map<Tid, nat>,
    loading: set<Tid>,
    passing: set<Tid>,
    holding: map<Tid, nat>,
    returned: set<nat>,
    emitted: seq<Emission>,
    touches: nat)

  datatype Action =
    | Set(t: Tid, value: real)
    | Add(t: Tid, delta: real)
    | Touch(t: Tid)
    | Swap(t: Tid)
    | Load(t: Tid)
    | Emit(t: Tid)

  function Start(value: real): Machine {
    Machine([value], false, map[], {}, {}, map[], {}, [], 0)
  }

  /** The threads inside a walk's visit to the gauge. */
  function Visiting(m: Machine): set<Tid> {
    m.loading + m.passing + m.holding.Keys
  }

  predicate Idle(m: Machine, t: Tid) {
    t !in m.storing && t !in Visiting(m)
  }

  function Latest(m: Machine): nat
    requires |m.values| > 0
  {
    |m.values| - 1
  }

  /** A thread holds a value that was stored. */
  predicate Sane(m: Machine) {
    |m.values| > 0 && forall t :: t in m.holding ==> m.holding[t] < |m.values|
  }

  function Store(m: Machine, t: Tid, value: real): Machine {
    m.(values := m.values + [value], storing := m.storing[t := |m.values|])
  }

  function Step(m: Machine, a: Action): (n: Machine)
    requires Sane(m)
    ensures Sane(n)
  {
    match a
    case Set(t, value) =>
      if Idle(m, t) then Store(m, t, value) else m
    case Add(t, delta) =>
      if Idle(m, t) then Store(m, t, m.values[Latest(m)] + delta) else m
    case Touch(t) =>
      if t in m.storing
      then m.(flag := true, storing := m.storing - {t}, returned := m.returned + {m.storing[t]},
              touches := m.touches + 1)
      else m
    case Swap(t) =>
      if !Idle(m, t) then m
      else if m.flag then m.(flag := false, loading := m.loading + {t})
      else m.(passing := m.passing + {t})
    case Load(t) =>
      if t in m.loading then m.(loading := m.loading - {t}, holding := m.holding[t := Latest(m)])
      else m.(passing := m.passing - {t})
    case Emit(t) =>
      if t in m.holding
      then m.(holding := m.holding - {t},
              emitted := m.emitted + [Emission(m.holding[t], Latest(m), m.values[m.holding[t]])])
      else m
  }

  function Exec(value: real, actions: seq<Action>): (m: Machine)
    ensures Sane(m)
  {
    if |actions| == 0 then Start(value) else Step(Exec(value, actions[..|actions| - 1]), actions[|actions| - 1])
  }

  /** Version `v`, or one that replaced it, was written by a walk. */
  ghost predicate Reported(m: Machine, v: nat) {
    exists i :: 0 <= i < |m.emitted| && m.emitted[i].version >= v
  }

  /** Some thread has loaded version `v` or a newer one and is about to write it. */
  ghost predicate Carried(m: Machine, v: nat) {
    exists t :: t in m.holding && m.holding[t] >= v
  }

  ghost predicate Covered(m: Machine) {
    forall v :: v in m.returned ==> m.flag || m.loading != {} || Carried(m, v) || Reported(m, v)
  }

  /** Versions are numbered soundly, and a write is on its way until it has returned. */
  ghost predicate Numbered(m: Machine)
    requires Sane(m)
  {
    && (forall t :: t in m.storing ==> 0 < m.storing[t] <= Latest(m))
    && (forall v :: v in m.returned ==> 0 < v <= Latest(m))
    && (forall v :: 0 < v <= Latest(m) ==> Numbering(m, v))
  }

  /** Lines show values the gauge had by then. */
  ghost predicate Honest(m: Machine)
    requires Sane(m)
  {
    && (forall i :: 0 <= i < |m.emitted| ==>
          && m.emitted[i].version <= m.emitted[i].current <= Latest(m)
          && m.emitted[i].value == m.values[m.emitted[i].version])
    && (forall i, j :: 0 <= i < j < |m.emitted| ==> m.emitted[i].current <= m.emitted[j].current)
  }

  /** Every line is paid for by a touch of its own, and no thread is in two places. */
  ghost predicate Paid(m: Machine) {
    && |m.emitted| + |m.loading| + |m.holding| + (if m.flag then 1 else 0) <= m.touches
    && m.loading !! m.holding.Keys
  }

  lemma CoveredStep(m: Machine, a: Action)
    requires Sane(m) && Covered(m) && Numbered(m)
    ensures Covered(Step(m, a))
  {
    var n := Step(m, a);
    forall v | v in n.returned ensures n.flag || n.loading != {} || Carried(n, v) || Reported(n, v) {
      if a.Load? && a.t in m.loading {
        assert n.holding[a.t] >= v;
      } else if a.Swap? && Idle(m, a.t) && m.flag {
        assert a.t in n.loading;
      } else if v in m.returned && Reported(m, v) {
        var i :| 0 <= i < |m.emitted| && m.emitted[i].version >= v;
        assert n.emitted[i].version >= v;
      } else if v in m.returned && Carried(m, v) {
        CarriedStep(m, a, v);
      }
    }
  }

  lemma CarriedStep(m: Machine, a: Action, v: nat)
    requires Sane(m) && Carried(m, v)
    ensures Carried(Step(m, a), v) || Reported(Step(m, a), v) || (a.Load? && a.t in m.loading)
  {
    var n := Step(m, a);
    var t :| t in m.holding && m.holding[t] >= v;
    if a == Emit(t) {
      assert n.emitted[|m.emitted|].version >= v;
    } else if !(a.Load? && a.t in m.loading) {
      assert t in n.holding && n.holding[t] == m.holding[t];
    }
  }

  lemma NumberedStep(m: Machine, a: Action)
    requires Sane(m) && Numbered(m)
    ensures Numbered(Step(m, a))
  {
    StoredStep(m, a);
    forall v | 0 < v <= Latest(Step(m, a)) ensures Numbering(Step(m, a), v) { NumberingStep(m, a, v); }
  }

  lemma StoredStep(m: Machine, a: Action)
    requires Sane(m) && Numbered(m)
    ensures var n := Step(m, a);
      && (forall t :: t in n.storing ==> 0 < n.storing[t] <= Latest(n))
      && (forall v :: v in n.returned ==> 0 < v <= Latest(n))
  {
  }

  ghost predicate Numbering(m: Machine, v: nat) {
    v in m.returned || exists t :: t in m.storing && m.storing[t] == v
  }

  lemma NumberingStep(m: Machine, a: Action, v: nat)
    requires Sane(m) && 0 < v <= Latest(Step(m, a)) && (v <= Latest(m) ==> Numbering(m, v))
    ensures Numbering(Step(m, a), v)
  {
    var n := Step(m, a);
    if v > Latest(m) {
      assert n.storing[a.t] == v;
    } else if v !in n.returned {
      var t :| t in m.storing && m.storing[t] == v;
      assert t in n.storing && n.storing[t] == v;
    }
  }

  lemma HonestStep(m: Machine, a: Action)
    requires Sane(m) && Honest(m)
    ensures Honest(Step(m, a))
  {
  }

  lemma PaidStep(m: Machine, a: Action)
    requires Sane(m) && Paid(m)
    ensures Paid(Step(m, a))
  {
    match a
    case Swap(t) => if Idle(m, t) && m.flag { PaidSwap(m, t); }
    case Load(t) => if t in m.loading { PaidLoad(m, t); }
    case Emit(t) => if t in m.holding { PaidEmit(m, t); }
    case _ =>
  }

  lemma PaidSwap(m: Machine, t: Tid)
    requires Sane(m) && Paid(m) && Idle(m, t) && m.flag
    ensures Paid(Step(m, Swap(t)))
  {
    assert |m.loading + {t}| == |m.loading| + 1;
  }

  lemma PaidLoad(m: Machine, t: Tid)
    requires Sane(m) && Paid(m) && t in m.loading
    ensures Paid(Step(m, Load(t)))
  {
    OneMoreHeld(m.holding, t, Latest(m));
    assert |m.loading - {t}| == |m.loading| - 1;
  }

  lemma PaidEmit(m: Machine, t: Tid)
    requires Sane(m) && Paid(m) && t in m.holding
    ensures Paid(Step(m, Emit(t)))
  {
    OneLessHeld(m.holding, t);
  }

  lemma OneMoreHeld(holding: map<Tid, nat>, t: Tid, v: nat)
    requires t !in holding
    ensures |holding[t := v]| == |holding| + 1 && holding[t := v].Keys == holding.Keys + {t}
  {
    assert |holding[t := v]| == |holding[t := v].Keys| == |holding.Keys + {t}|;
  }

  lemma OneLessHeld(holding: map<Tid, nat>, t: Tid)
    requires t in holding
    ensures |holding - {t}| == |holding| - 1 && (holding - {t}).Keys == holding.Keys - {t}
  {
    assert |holding - {t}| == |(holding - {t}).Keys| == |holding.Keys - {t}|;
  }

  lemma {:induction false} ExecInv(value: real, actions: seq<Action>)
    ensures var m := Exec(value, actions); Covered(m) && Numbered(m) && Honest(m) && Paid(m)
  {
    if |actions| > 0 {
      var before, a := Exec(value, actions[..|actions| - 1]), actions[|actions| - 1];
      ExecInv(value, actions[..|actions| - 1]);
      CoveredStep(before, a);
      NumberedStep(before, a);
      HonestStep(before, a);
      PaidStep(before, a);
    }
  }

  /** In every interleaving, a write that has returned is shown by a line, itself or a newer one; or is about to be,
      by a thread that lowered the flag and has yet to load, or that has loaded; or leaves the flag up. */
  lemma {:induction false} WritesAreNotLost(value: real, actions: seq<Action>, v: nat)
    requires v in Exec(value, actions).returned
    ensures var m := Exec(value, actions); m.flag || m.loading != {} || Carried(m, v) || Reported(m, v)
  {
    ExecInv(value, actions);
  }

  /** Nothing is under way, the flag is down, and the gauge has been written. */
  predicate Resting(m: Machine) {
    m.storing == map[] && m.loading == {} && m.holding == map[] && !m.flag && |m.values| > 1
  }

  /** At rest the current value has been shown. */
  lemma {:induction false} RestingGaugeIsReported(value: real, actions: seq<Action>)
    requires Resting(Exec(value, actions))
    ensures var m := Exec(value, actions);
      exists i :: 0 <= i < |m.emitted| && m.emitted[i].version == Latest(m) && m.emitted[i].value == m.values[Latest(m)]
  {
    ExecInv(value, actions);
    RestingReports(Exec(value, actions));
  }

  lemma RestingReports(m: Machine)
    requires Sane(m) && Covered(m) && Numbered(m) && Honest(m) && Resting(m)
    ensures exists i ::
      0 <= i < |m.emitted| && m.emitted[i].version == Latest(m) && m.emitted[i].value == m.values[Latest(m)]
  {
    assert Numbering(m, Latest(m));
    var i :| 0 <= i < |m.emitted| && m.emitted[i].version >= Latest(m);
    assert m.emitted[i].version == Latest(m);
  }

  /** At rest the last line shows the current value exactly if no store came between that line's load and the
      writing of it. */
  lemma {:induction false} LastLineExactly(value: real, actions: seq<Action>)
    requires Resting(Exec(value, actions))
    ensures var m := Exec(value, actions);
      && |m.emitted| > 0
      && var last := m.emitted[|m.emitted| - 1];
         last.version == Latest(m) <==> last.version == last.current
  {
    ExecInv(value, actions);
    LastAtRest(Exec(value, actions));
  }

  lemma LastAtRest(m: Machine)
    requires Sane(m) && Covered(m) && Numbered(m) && Honest(m) && Resting(m)
    ensures |m.emitted| > 0
    ensures var last := m.emitted[|m.emitted| - 1]; last.version == Latest(m) <==> last.version == last.current
  {
    RestingReports(m);
  }

  /** No walk loads while another has yet to write what it loaded. */
  ghost predicate Apart(value: real, actions: seq<Action>) {
    forall k :: 0 <= k < |actions| && actions[k].Load? ==>
      Exec(value, actions[..k]).holding == map[] || actions[k].t !in Exec(value, actions[..k]).loading
  }

  /** Lines are in the order of their values, and no one holds an older value than was shown. */
  ghost predicate InOrder(m: Machine) {
    && (forall t, u :: t in m.holding && u in m.holding ==> t == u)
    && (forall i, j :: 0 <= i < j < |m.emitted| ==> m.emitted[i].version <= m.emitted[j].version)
    && (forall i, t :: 0 <= i < |m.emitted| && t in m.holding ==> m.emitted[i].version <= m.holding[t])
  }

  lemma InOrderStep(m: Machine, a: Action)
    requires Sane(m) && Honest(m) && InOrder(m)
    requires a.Load? && a.t in m.loading ==> m.holding == map[]
    ensures InOrder(Step(m, a))
  {
  }

  lemma {:induction false} StaysInOrder(value: real, actions: seq<Action>)
    requires Apart(value, actions)
    ensures InOrder(Exec(value, actions))
  {
    if |actions| > 0 {
      var most := actions[..|actions| - 1];
      forall k | 0 <= k < |most| ensures most[..k] == actions[..k] {}
      StaysInOrder(value, most);
      ExecInv(value, most);
      InOrderStep(Exec(value, most), actions[|actions| - 1]);
    }
  }

  /** So walks that keep apart always leave the current value as the last line. */
  lemma {:induction false} ApartWalksEndCurrent(value: real, actions: seq<Action>)
    requires Apart(value, actions) && Resting(Exec(value, actions))
    ensures var m := Exec(value, actions);
      |m.emitted| > 0 && m.emitted[|m.emitted| - 1].version == Latest(m)
  {
    ExecInv(value, actions);
    StaysInOrder(value, actions);
    NewestIsLast(Exec(value, actions));
  }

  lemma NewestIsLast(m: Machine)
    requires Sane(m) && Covered(m) && Numbered(m) && Honest(m) && InOrder(m) && Resting(m)
    ensures |m.emitted| > 0 && m.emitted[|m.emitted| - 1].version == Latest(m)
  {
    RestingReports(m);
  }

  /** A gauge is never shown more often than it was written, and always at a value it had by then. */
  lemma {:induction false} LinesArePaidFor(value: real, actions: seq<Action>)
    ensures var m := Exec(value, actions);
      |m.emitted| <= m.touches &&
      forall i :: 0 <= i < |m.emitted| ==>
        m.emitted[i].version <= m.emitted[i].current < |m.values| && m.emitted[i].value == m.values[m.emitted[i].version]
  {
    ExecInv(value, actions);
  }

  /** A walk that no one disturbs writes the current value exactly if the flag is up, and leaves the flag down. */
  lemma {:induction false} UndisturbedWalk(value: real, actions: seq<Action>, t: Tid)
    requires Idle(Exec(value, actions), t)
    ensures var m, n := Exec(value, actions), Exec(value, actions + [Swap(t), Load(t), Emit(t)]);
      n == m.(flag := false,
              emitted := m.emitted +
                if m.flag then [Emission(Latest(m), Latest(m), m.values[Latest(m)])] else [])
  {
    var m := Exec(value, actions);
    var swapped, loaded := actions + [Swap(t)], actions + [Swap(t), Load(t)];
    var all := actions + [Swap(t), Load(t), Emit(t)];
    assert swapped[..|swapped| - 1] == actions && loaded[..|loaded| - 1] == swapped && all[..|all| - 1] == loaded;
    WalkAlone(m, t);
    assert Exec(value, loaded) == Step(Step(m, Swap(t)), Load(t));
  }

  lemma WalkAlone(m: Machine, t: Tid)
    requires Sane(m) && Idle(m, t)
    ensures Step(Step(Step(m, Swap(t)), Load(t)), Emit(t)) ==
            m.(flag := false,
               emitted := m.emitted +
                 if m.flag then [Emission(Latest(m), Latest(m), m.values[Latest(m)])] else [])
  {
    var n := Step(Step(m, Swap(t)), Load(t));
    assert n.loading == m.loading && n.passing == m.passing;
    if m.flag { assert n.holding - {t} == m.holding; } else { assert m.emitted + [] == m.emitted; }
  }

  /* ---------- what the values are, and that calls get through ---------- */

  /** The stores made, in order: the calls of `Set` and `Add` that a thread was free to begin. */
  function Stores(value: real, actions: seq<Action>): seq<Action> {
    if |actions| == 0 then []
    else
      var before, a := Stores(value, actions[..|actions| - 1]), actions[|actions| - 1];
      if (a.Set? || a.Add?) && Idle(Exec(value, actions[..|actions| - 1]), a.t) then before + [a] else before
  }

  function Deltas(stores: seq<Action>): real {
    if |stores| == 0 then 0.0
    else Deltas(stores[..|stores| - 1]) + if stores[|stores| - 1].Add? then stores[|stores| - 1].delta else 0.0
  }

  /** The value is that of the last `Set`, or the one at the start, plus the deltas stored since; and every store makes
      one more value. */
  lemma {:induction false} ValueIsLastSetPlusAdded(value: real, actions: seq<Action>, n: nat)
    requires n <= |Stores(value, actions)| && (n > 0 ==> Stores(value, actions)[n - 1].Set?)
    requires forall i :: n <= i < |Stores(value, actions)| ==> Stores(value, actions)[i].Add?
    ensures var m, stores := Exec(value, actions), Stores(value, actions);
      && |m.values| == |stores| + 1 && m.values[0] == value
      && m.values[Latest(m)] == (if n > 0 then stores[n - 1].value else value) + Deltas(stores[n..])
  {
    StoresAreValues(value, actions);
    ValuesAddUp(value, Exec(value, actions).values, Stores(value, actions), n);
  }

  /** The store makes `after` of `before`. */
  predicate Makes(before: real, store: Action, after: real) {
    match store
    case Set(_, v) => after == v
    case Add(_, delta) => after == before + delta
    case _ => false
  }

  /** Each store makes the next value. */
  predicate Chained(value: real, values: seq<real>, stores: seq<Action>) {
    && |values| == |stores| + 1 && values[0] == value
    && forall i :: 0 <= i < |stores| ==> Makes(values[i], stores[i], values[i + 1])
  }

  lemma {:induction false} StoresAreValues(value: real, actions: seq<Action>)
    ensures Chained(value, Exec(value, actions).values, Stores(value, actions))
  {
    if |actions| > 0 {
      var front, a := actions[..|actions| - 1], actions[|actions| - 1];
      StoresAreValues(value, front);
      StoreStep(value, Exec(value, front), a, Stores(value, front));
    }
  }

  lemma StoreStep(value: real, m: Machine, a: Action, stores: seq<Action>)
    requires Sane(m) && Chained(value, m.values, stores)
    ensures Chained(value, Step(m, a).values, if (a.Set? || a.Add?) && Idle(m, a.t) then stores + [a] else stores)
  {
    if (a.Set? || a.Add?) && Idle(m, a.t) {
      OneMoreStore(value, m.values, stores, a);
    }
  }

  lemma OneMoreStore(value: real, values: seq<real>, stores: seq<Action>, a: Action)
    requires Chained(value, values, stores) && (a.Set? || a.Add?)
    ensures Chained(value, values + [if a.Set? then a.value else values[|values| - 1] + a.delta], stores + [a])
  {
    var next := values + [if a.Set? then a.value else values[|values| - 1] + a.delta];
    forall i | 0 <= i < |stores + [a]| ensures Makes(next[i], (stores + [a])[i], next[i + 1]) {
      if i < |stores| { assert Makes(values[i], stores[i], values[i + 1]); }
    }
  }

  lemma {:induction false} ValuesAddUp(value: real, values: seq<real>, stores: seq<Action>, n: nat)
    requires Chained(value, values, stores) && n <= |stores| && (n > 0 ==> stores[n - 1].Set?)
    requires forall i :: n <= i < |stores| ==> stores[i].Add?
    ensures values[|stores|] == (if n > 0 then stores[n - 1].value else value) + Deltas(stores[n..])
  {
    if n == |stores| {
      assert stores[n..] == [];
    } else {
      var k := |stores| - 1;
      ValuesAddUp(value, values[..k + 1], stores[..k], n);
      assert Makes(values[k], stores[k], values[k + 1]);
      assert stores[n..][..k - n] == stores[..k][n..];
    }
  }

  /** Nobody ever waits for anybody: a thread inside a write or a visit can always take the next step of it, and is out
      after two at most. */
  lemma {:induction false} AlwaysMovesOn(value: real, actions: seq<Action>, t: Tid) returns (a: Action)
    requires !Idle(Exec(value, actions), t)
    ensures var m, n := Exec(value, actions), Exec(value, actions + [a]);
      a.t == t && Left(n, t) < Left(m, t) <= 2 && forall u :: u != t ==> Left(n, u) == Left(m, u)
  {
    var m := Exec(value, actions);
    OnePlace(value, actions, t);
    a := if t in m.storing then Touch(t) else if t in m.holding then Emit(t) else Load(t);
    var all := actions + [a];
    assert all[..|all| - 1] == actions;
    MovesOn(m, a);
  }

  /** The steps left of what a thread is in the middle of. */
  function Left(m: Machine, t: Tid): nat {
    if t in m.loading then 2 else if Idle(m, t) then 0 else 1
  }

  predicate InOnePlace(m: Machine, t: Tid) {
    && !(t in m.storing && t in Visiting(m))
    && !(t in m.loading && t in m.passing) && !(t in m.loading && t in m.holding) && !(t in m.passing && t in m.holding)
  }

  lemma {:induction false} OnePlace(value: real, actions: seq<Action>, t: Tid)
    ensures InOnePlace(Exec(value, actions), t)
  {
    if |actions| > 0 {
      OnePlace(value, actions[..|actions| - 1], t);
      OnePlaceStep(Exec(value, actions[..|actions| - 1]), actions[|actions| - 1], t);
    }
  }

  lemma OnePlaceStep(m: Machine, a: Action, t: Tid)
    requires Sane(m) && InOnePlace(m, t)
    ensures InOnePlace(Step(m, a), t)
  {
  }

  lemma MovesOn(m: Machine, a: Action)
    requires Sane(m) && InOnePlace(m, a.t)
    requires if a.t in m.storing then a.Touch? else if a.t in m.holding then a.Emit? else a.Load? && !Idle(m, a.t)
    ensures Left(Step(m, a), a.t) < Left(m, a.t) <= 2
    ensures forall u :: u != a.t ==> Left(Step(m, a), u) == Left(m, u)
  {
  }

  /** A write alone: the next value is stored, the flag is up, and the call has returned. */
  lemma {:induction false} UndisturbedWrite(value: real, actions: seq<Action>, w: Action)
    requires Idle(Exec(value, actions), w.t) && (w.Set? || w.Add?)
    ensures var m, n := Exec(value, actions), Exec(value, actions + [w, Touch(w.t)]);
      n == m.(values := m.values + [if w.Set? then w.value else m.values[Latest(m)] + w.delta], flag := true,
              returned := m.returned + {|m.values|}, touches := m.touches + 1)
  {
    var one, all := actions + [w], actions + [w, Touch(w.t)];
    assert one[..|one| - 1] == actions && all[..|all| - 1] == one;
    WriteAlone(Exec(value, actions), w);
  }

  lemma WriteAlone(m: Machine, w: Action)
    requires Sane(m) && Idle(m, w.t) && (w.Set? || w.Add?)
    ensures Step(Step(m, w), Touch(w.t)) ==
            m.(values := m.values + [if w.Set? then w.value else m.values[Latest(m)] + w.delta], flag := true,
               returned := m.returned + {|m.values|}, touches := m.touches + 1)
  {
    assert Step(m, w).storing - {w.t} == m.storing;
  }

  const FIRST := [Set(0, 1.0), Touch(0), Swap(1), Load(1)]
  const SECOND := [Set(0, 2.0), Touch(0), Swap(2), Load(2)]

  /** Two walks overlap, each writing what it loaded: at rest, the last line shows the older value. */
  lemma OverlappingWalks()
    ensures var m := Exec(0.0, FIRST + SECOND + [Emit(2), Emit(1)]);
      Resting(m) && m.values[Latest(m)] == 2.0 && m.emitted == [Emission(2, 2, 2.0), Emission(1, 2, 1.0)]
  {
    BothLoaded();
    var m := Exec(0.0, FIRST + SECOND);
    var a;
    a, m := Then(FIRST + SECOND, m, Emit(2));
    assert m.holding == map[1 := 1];
    a, m := Then(a, m, Emit(1));
    assert m.holding == map[];
    assert a == FIRST + SECOND + [Emit(2), Emit(1)];
  }

  lemma BothLoaded()
    ensures Exec(0.0, FIRST + SECOND) ==
            Machine([0.0, 1.0, 2.0], false, map[], {}, {}, map[1 := 1, 2 := 2], {1, 2}, [], 2)
  {
    OneLoaded();
    FourMore(FIRST, SECOND);
    SetAndLoaded(Exec(0.0, FIRST), 2.0, 2);
  }

  lemma OneLoaded()
    ensures Exec(0.0, FIRST) == Machine([0.0, 1.0], false, map[], {}, {}, map[1 := 1], {1}, [], 1)
  {
    FourMore([], FIRST);
    SetAndLoaded(Start(0.0), 1.0, 1);
    assert [] + FIRST == FIRST;
  }

  lemma FourMore(actions: seq<Action>, more: seq<Action>)
    requires |more| == 4
    ensures Exec(0.0, actions + more) ==
            Step(Step(Step(Step(Exec(0.0, actions), more[0]), more[1]), more[2]), more[3])
  {
    TwoMore(actions, more[0], more[1]);
    TwoMore(actions + [more[0]] + [more[1]], more[2], more[3]);
    OneByOne(actions, more);
  }

  lemma OneByOne<T>(s: seq<T>, more: seq<T>)
    requires |more| == 4
    ensures s + more == s + [more[0]] + [more[1]] + [more[2]] + [more[3]]
  {
  }

  lemma TwoMore(actions: seq<Action>, a: Action, b: Action)
    ensures Exec(0.0, actions + [a] + [b]) == Step(Step(Exec(0.0, actions), a), b)
  {
    assert (actions + [a])[..|actions|] == actions;
    assert (actions + [a] + [b])[..|actions| + 1] == actions + [a];
  }

  /** A write that returns, then the first half of a walk. */
  lemma SetAndLoaded(m: Machine, value: real, t: Tid)
    requires Sane(m) && t > 0 && t !in m.holding && 0 !in m.holding && !m.flag
    requires m.storing == map[] && m.loading == {} && m.passing == {}
    ensures Step(Step(Step(Step(m, Set(0, value)), Touch(0)), Swap(t)), Load(t)) ==
            m.(values := m.values + [value], holding := m.holding[t := |m.values|],
               returned := m.returned + {|m.values|}, touches := m.touches + 1)
  {
    var stored := m.(values := m.values + [value], storing := map[0 := |m.values|]);
    var touched :=
      stored.(flag := true, storing := map[], returned := m.returned + {|m.values|}, touches := m.touches + 1);
    assert Step(m, Set(0, value)) == stored;
    assert Step(stored, Touch(0)) == touched by { assert stored.storing - {0} == map[]; }
    LoadedAlone(touched, t);
  }

  lemma LoadedAlone(m: Machine, t: Tid)
    requires Sane(m) && m.storing == map[] && m.loading == {} && m.passing == {} && t !in m.holding && m.flag
    ensures Step(Step(m, Swap(t)), Load(t)) == m.(flag := false, holding := m.holding[t := Latest(m)])
  {
    assert {t} - {t} == {};
    assert Step(m, Swap(t)) == m.(flag := false, loading := {t});
  }

  lemma Then(actions: seq<Action>, m: Machine, a: Action) returns (all: seq<Action>, n: Machine)
    requires m == Exec(0.0, actions)
    ensures all == actions + [a] && n == Exec(0.0, all) && Sane(m) && n == Step(m, a)
  {
    all, n := actions + [a], Step(m, a);
    assert all[..|all| - 1] == actions;
  }
}
