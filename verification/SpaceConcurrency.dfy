/** metrics/internal/lv/space.go under concurrency: `Observe` and `Add` look up the root node for their name, let go
    of the space's lock, and only then append under the root's lock, `Add` after reading the last value there;
    `Reset` may come in between. One action is one step; an action that is not enabled changes nothing. */
module SpaceConcurrency {
  import opened LabelValues
  import opened Spaces

  type Tid = nat

  /** Roots are numbered in the order they are made. */
  type Root = int

  datatype Obs = Obs(at: Series, value: real)

  /** The space that holds a root, and under which name. */
  datatype Slot = Slot(space: nat, name: string)

  /** A call of `Observe` or `Add` that has found its root. */
  datatype Lookup = Lookup(root: Root, call: Op)

  /** `spaces` lists the name tables, detached ones first and the live one last. `roots` lists, for every root
      ever made, the values recorded below it, in order; `slots` says where it was put; `log` lists the calls that
      have appended, in order, with the root they appended to. */
  datatype Machine = Machine(
    spaces: seq<map<string, Root>>,
    roots: seq<seq<Obs>>,
    slots: seq<Slot>,
    pending: map<Tid, Lookup>,
    recorded: multiset<Obs>,
    log: seq<Lookup>)

  datatype Action = Find(t: Tid, call: Op) | Append(t: Tid) | Reset

  const START := Machine([map[]], [], [], map[], multiset{}, [])

  /** The values of one series among those below a root. */
  function Values(below: seq<Obs>, k: Series): seq<real> {
    if |below| == 0 then []
    else
      Values(below[..|below| - 1], k) + if below[|below| - 1].at == k then [below[|below| - 1].value] else []
  }

  /** What a call appends. */
  function Result(below: seq<Obs>, call: Op): Obs
    requires !call.Emptied?
  {
    Obs(call.at, if call.Observed? then call.value else Advanced(Values(below, call.at), call.delta))
  }

  function Live(m: Machine): nat
    requires |m.spaces| > 0
  {
    |m.spaces| - 1
  }

  predicate Sane(m: Machine) {
    && |m.spaces| > 0 && |m.slots| == |m.roots|
    && (forall t :: t in m.pending ==> 0 <= m.pending[t].root < |m.roots| && !m.pending[t].call.Emptied?)
    && (forall i, name :: 0 <= i < |m.spaces| && name in m.spaces[i] ==> 0 <= m.spaces[i][name] < |m.roots|)
  }

  function Step(m: Machine, a: Action): (n: Machine)
    requires Sane(m)
    ensures Sane(n)
  {
    match a
    case Find(t, call) =>
      if t in m.pending || call.Emptied? then m
      else
        var name, table := Name(call.at), m.spaces[Live(m)];
        if name in table then
          m.(pending := m.pending[t := Lookup(table[name], call)])
        else
          m.(spaces := m.spaces[Live(m) := table[name := |m.roots|]],
             roots := m.roots + [[]],
             slots := m.slots + [Slot(Live(m), name)],
             pending := m.pending[t := Lookup(|m.roots|, call)])
    case Append(t) =>
      if t !in m.pending then m
      else
        var l := m.pending[t];
        var obs := Result(m.roots[l.root], l.call);
        m.(roots := m.roots[l.root := m.roots[l.root] + [obs]],
           pending := m.pending - {t},
           recorded := m.recorded + multiset{obs},
           log := m.log + [l])
    case Reset =>
      m.(spaces := m.spaces + [map[]])
  }

  function Exec(actions: seq<Action>): (m: Machine)
    ensures Sane(m)
  {
    if |actions| == 0 then START else Step(Exec(actions[..|actions| - 1]), actions[|actions| - 1])
  }

  /** Every root sits in exactly one table, in one place. */
  ghost predicate Tabled(m: Machine)
    requires Sane(m)
  {
    && (forall r :: 0 <= r < |m.roots| ==>
          && m.slots[r].space < |m.spaces|
          && m.slots[r].name in m.spaces[m.slots[r].space]
          && m.spaces[m.slots[r].space][m.slots[r].name] == r)
    && (forall i, name :: 0 <= i < |m.spaces| && name in m.spaces[i] ==>
          m.slots[m.spaces[i][name]] == Slot(i, name))
  }

  /** Whatever is recorded under a root bears the name the root was filed under. */
  ghost predicate Filed(m: Machine)
    requires Sane(m)
  {
    forall r, obs :: 0 <= r < |m.roots| && obs in m.roots[r] ==> Name(obs.at) == m.slots[r].name
  }

  ghost predicate Aimed(m: Machine)
    requires Sane(m)
  {
    forall t :: t in m.pending ==> Name(m.pending[t].call.at) == m.slots[m.pending[t].root].name
  }

  lemma TabledStep(m: Machine, a: Action)
    requires Sane(m) && Tabled(m)
    ensures Tabled(Step(m, a))
  {
    match a
    case Find(t, call) =>
      if t !in m.pending && !call.Emptied? && Name(call.at) !in m.spaces[Live(m)] {
        RootAdded(m, Step(m, a), Name(call.at));
      }
    case Append(t) =>
    case Reset => SpaceAdded(m, Step(m, a));
  }

  lemma RootAdded(m: Machine, n: Machine, name: string)
    requires Sane(m) && Tabled(m) && Sane(n) && name !in m.spaces[Live(m)]
    requires n.spaces == m.spaces[Live(m) := m.spaces[Live(m)][name := |m.roots|]]
    requires n.roots == m.roots + [[]] && n.slots == m.slots + [Slot(Live(m), name)]
    ensures Tabled(n)
  {
  }

  lemma SpaceAdded(m: Machine, n: Machine)
    requires Sane(m) && Tabled(m) && Sane(n)
    requires n.spaces == m.spaces + [map[]] && n.roots == m.roots && n.slots == m.slots
    ensures Tabled(n)
  {
    forall i, name | 0 <= i < |n.spaces| && name in n.spaces[i] ensures n.slots[n.spaces[i][name]] == Slot(i, name) {
      assert i < |m.spaces| && n.spaces[i] == m.spaces[i];
    }
    forall r | 0 <= r < |n.roots| ensures n.spaces[n.slots[r].space] == m.spaces[m.slots[r].space] {}
  }

  lemma FiledStep(m: Machine, a: Action)
    requires Sane(m) && Filed(m) && Aimed(m)
    ensures Filed(Step(m, a))
  {
  }

  lemma AimedStep(m: Machine, a: Action)
    requires Sane(m) && Tabled(m) && Aimed(m)
    ensures Aimed(Step(m, a))
  {
    if a.Find? && a.t !in m.pending && !a.call.Emptied? { FindAims(m, a.t, a.call); }
  }

  lemma FindAims(m: Machine, t: Tid, call: Op)
    requires Sane(m) && Tabled(m) && t !in m.pending && !call.Emptied?
    ensures var n := Step(m, Find(t, call));
      && n.pending.Keys == m.pending.Keys + {t} && m.slots <= n.slots
      && (forall u :: u in m.pending ==> n.pending[u] == m.pending[u])
      && n.pending[t].call == call && n.slots[n.pending[t].root].name == Name(call.at)
  {
  }

  lemma RecordedStep(m: Machine, a: Action)
    requires Sane(m) && m.recorded == All(m.roots)
    ensures Step(m, a).recorded == All(Step(m, a).roots)
  {
    var n := Step(m, a);
    if a.Append? && a.t in m.pending {
      AllAfterAppend(m.roots, m.pending[a.t].root, Appended(m, a.t));
    } else if |n.roots| > |m.roots| {
      assert n.roots[..|m.roots|] == m.roots;
    }
  }

  lemma {:induction false} ExecInv(actions: seq<Action>)
    ensures var m := Exec(actions); Tabled(m) && Filed(m) && Aimed(m) && m.recorded == All(m.roots)
  {
    if |actions| > 0 {
      var m, a := Exec(actions[..|actions| - 1]), actions[|actions| - 1];
      ExecInv(actions[..|actions| - 1]);
      TabledStep(m, a);
      FiledStep(m, a);
      AimedStep(m, a);
      RecordedStep(m, a);
    }
  }

  /** What thread `t` is about to append. */
  function Appended(m: Machine, t: Tid): Obs
    requires Sane(m) && t in m.pending
  {
    Result(m.roots[m.pending[t].root], m.pending[t].call)
  }

  function All(roots: seq<seq<Obs>>): multiset<Obs> {
    if |roots| == 0 then multiset{} else All(roots[..|roots| - 1]) + multiset(roots[|roots| - 1])
  }

  /** What is recorded in space `i`. */
  function Held(roots: seq<seq<Obs>>, slots: seq<Slot>, i: nat): multiset<Obs>
    requires |slots| == |roots|
  {
    if |roots| == 0 then multiset{}
    else
      var n := |roots| - 1;
      Held(roots[..n], slots[..n], i) + if slots[n].space == i then multiset(roots[n]) else multiset{}
  }

  /** What is recorded in the first `n` spaces together. */
  function HeldBy(roots: seq<seq<Obs>>, slots: seq<Slot>, n: nat): multiset<Obs>
    requires |slots| == |roots|
  {
    if n == 0 then multiset{} else HeldBy(roots, slots, n - 1) + Held(roots, slots, n - 1)
  }

  lemma {:induction false} AllAfterAppend(roots: seq<seq<Obs>>, r: nat, obs: Obs)
    requires r < |roots|
    ensures All(roots[r := roots[r] + [obs]]) == All(roots) + multiset{obs}
  {
    var n := |roots| - 1;
    var next := roots[r := roots[r] + [obs]];
    if r == n {
      assert next[..n] == roots[..n];
    } else {
      AllAfterAppend(roots[..n], r, obs);
      assert next[..n] == roots[..n][r := roots[r] + [obs]];
    }
  }

  /* ---------- each value in exactly one place ---------- */

  lemma {:induction false} HeldByNoRoots(slots: seq<Slot>, n: nat)
    requires |slots| == 0
    ensures HeldBy([], slots, n) == multiset{}
  {
    if n > 0 { HeldByNoRoots(slots, n - 1); }
  }

  /** One more root adds its values to the space it sits in. */
  lemma {:induction false} HeldByOneRoot(roots: seq<seq<Obs>>, slots: seq<Slot>, n: nat)
    requires |slots| == |roots| > 0
    ensures var k := |roots| - 1;
      HeldBy(roots, slots, n) ==
        HeldBy(roots[..k], slots[..k], n) + if slots[k].space < n then multiset(roots[k]) else multiset{}
  {
    if n > 0 { HeldByOneRoot(roots, slots, n - 1); }
  }

  lemma {:induction false} SpacesShareOut(roots: seq<seq<Obs>>, slots: seq<Slot>, n: nat)
    requires |slots| == |roots| && forall r :: 0 <= r < |roots| ==> slots[r].space < n
    ensures HeldBy(roots, slots, n) == All(roots)
  {
    if |roots| == 0 {
      assert roots == [];
      HeldByNoRoots(slots, n);
    } else {
      HeldByOneRoot(roots, slots, n);
      SpacesShareOut(roots[..|roots| - 1], slots[..|roots| - 1], n);
    }
  }

  /** The values below the roots that a name table leads to. */
  function Contents(roots: seq<seq<Obs>>, table: map<string, Root>): multiset<Obs> {
    if |roots| == 0 then multiset{}
    else
      var n := |roots| - 1;
      Contents(roots[..n], table) + if n in table.Values then multiset(roots[n]) else multiset{}
  }

  /** The contents of the first `n` spaces together. */
  function ContentsOf(m: Machine, n: nat): multiset<Obs>
    requires n <= |m.spaces|
  {
    if n == 0 then multiset{} else ContentsOf(m, n - 1) + Contents(m.roots, m.spaces[n - 1])
  }

  lemma {:induction false} ContentsAreHeld(roots: seq<seq<Obs>>, slots: seq<Slot>, table: map<string, Root>, i: nat)
    requires |slots| == |roots| && forall r :: 0 <= r < |roots| ==> (r in table.Values <==> slots[r].space == i)
    ensures Contents(roots, table) == Held(roots, slots, i)
  {
    if |roots| > 0 { ContentsAreHeld(roots[..|roots| - 1], slots[..|roots| - 1], table, i); }
  }

  /** The tables lead to the roots that were put in their spaces, and to no others. */
  lemma TableIsSpace(m: Machine, i: nat)
    requires Sane(m) && Tabled(m) && i < |m.spaces|
    ensures Contents(m.roots, m.spaces[i]) == Held(m.roots, m.slots, i)
  {
    forall r | 0 <= r < |m.roots| ensures r in m.spaces[i].Values <==> m.slots[r].space == i {
      if m.slots[r].space == i { assert m.slots[r].name in m.spaces[i]; }
    }
    ContentsAreHeld(m.roots, m.slots, m.spaces[i], i);
  }

  predicate Fits(m: Machine, i: nat)
    requires |m.slots| == |m.roots| && i < |m.spaces|
  {
    Contents(m.roots, m.spaces[i]) == Held(m.roots, m.slots, i)
  }

  lemma {:induction false} TablesAreSpaces(m: Machine, n: nat)
    requires |m.slots| == |m.roots| && n <= |m.spaces| && forall i :: 0 <= i < n ==> Fits(m, i)
    ensures ContentsOf(m, n) == HeldBy(m.roots, m.slots, n)
  {
    if n > 0 {
      TablesAreSpaces(m, n - 1);
      assert Fits(m, n - 1);
    }
  }

  /** In every interleaving of any number of observers with resets, the spaces, live and detached, together hold
      every recorded value exactly once, each under its own name. */
  lemma {:induction false} ResetConservesConcurrently(actions: seq<Action>)
    ensures var m := Exec(actions);
      && ContentsOf(m, |m.spaces|) == m.recorded
      && (forall i, name, obs ::
            0 <= i < |m.spaces| && name in m.spaces[i] && obs in m.roots[m.spaces[i][name]] ==> Name(obs.at) == name)
  {
    var m := Exec(actions);
    ExecInv(actions);
    SpacesShareOut(m.roots, m.slots, |m.spaces|);
    forall i | 0 <= i < |m.spaces| ensures Fits(m, i) { TableIsSpace(m, i); }
    TablesAreSpaces(m, |m.spaces|);
    forall i, name, obs | 0 <= i < |m.spaces| && name in m.spaces[i] && obs in m.roots[m.spaces[i][name]]
      ensures Name(obs.at) == name
    {
      assert m.slots[m.spaces[i][name]] == Slot(i, name);
    }
  }

  /* ---------- the order of values ---------- */

  /** The calls that appended below root `r`, in order. */
  function CallsAt(log: seq<Lookup>, r: Root): seq<Op> {
    if |log| == 0 then []
    else CallsAt(log[..|log| - 1], r) + if log[|log| - 1].root == r then [log[|log| - 1].call] else []
  }

  /** Below each root, each series is what a sequential space would hold after the calls that appended there. */
  ghost predicate Ordered(m: Machine) {
    && (forall i :: 0 <= i < |m.log| ==> 0 <= m.log[i].root < |m.roots|)
    && (forall r, k :: 0 <= r < |m.roots| ==> OrderedAt(m, r, k))
  }

  predicate OrderedAt(m: Machine, r: Root, k: Series)
    requires 0 <= r < |m.roots|
  {
    Values(m.roots[r], k) == Recorded(CallsAt(m.log, r), k)
  }

  lemma OneMoreCall(m: Machine, l: Lookup, r: Root)
    ensures CallsAt(m.log + [l], r) == if l.root == r then CallsAt(m.log, r) + [l.call] else CallsAt(m.log, r)
  {
    assert (m.log + [l])[..|m.log|] == m.log;
  }

  lemma OneMoreValue(below: seq<Obs>, obs: Obs, k: Series)
    ensures Values(below + [obs], k) == Values(below, k) + if obs.at == k then [obs.value] else []
  {
    assert (below + [obs])[..|below|] == below;
  }

  lemma {:induction false} NoCalls(log: seq<Lookup>, r: Root)
    requires forall i :: 0 <= i < |log| ==> log[i].root != r
    ensures CallsAt(log, r) == []
  {
    if |log| > 0 { NoCalls(log[..|log| - 1], r); }
  }

  lemma OrderedStep(m: Machine, a: Action)
    requires Sane(m) && Ordered(m)
    ensures Ordered(Step(m, a))
  {
    forall r, k | 0 <= r < |Step(m, a).roots| ensures OrderedAt(Step(m, a), r, k) {
      if a.Append? && a.t in m.pending { OrderedAppend(m, a.t, r, k); } else { OrderedOther(m, a, r, k); }
    }
  }

  lemma OrderedAppend(m: Machine, t: Tid, r: Root, k: Series)
    requires Sane(m) && t in m.pending && 0 <= r < |m.roots| && OrderedAt(m, r, k)
    ensures OrderedAt(Step(m, Append(t)), r, k)
  {
    var l := m.pending[t];
    OneMoreCall(m, l, r);
    if r == l.root {
      RecordedNext(CallsAt(m.log, r), l.call);
      OneMoreValue(m.roots[r], Appended(m, t), k);
      assert Recorded(CallsAt(m.log, r) + [l.call], k) == Effect(Recorded(CallsAt(m.log, r), k), l.call, k);
    }
  }

  lemma OrderedOther(m: Machine, a: Action, r: Root, k: Series)
    requires Sane(m) && Ordered(m) && !(a.Append? && a.t in m.pending) && 0 <= r < |Step(m, a).roots|
    ensures OrderedAt(Step(m, a), r, k)
  {
    if r < |m.roots| { assert OrderedAt(m, r, k); } else { NoCalls(m.log, r); }
  }

  /** In every interleaving, resets included: below each root, and so in each space, the values of a series are those
      of the calls that appended there, one after the other, each `Add` going on from the last value before it. */
  lemma {:induction false} SeriesKeepTheirOrder(actions: seq<Action>, r: Root, k: Series)
    requires 0 <= r < |Exec(actions).roots|
    ensures var m := Exec(actions); Values(m.roots[r], k) == Recorded(CallsAt(m.log, r), k)
  {
    ExecOrdered(actions);
    assert OrderedAt(Exec(actions), r, k);
  }

  /** So in every interleaving the last value of a series below a root is that of its last observation there, or zero,
      plus the deltas added there since. */
  lemma {:induction false} LastValueBelowRoot(actions: seq<Action>, r: Root, k: Series, n: nat, start: real)
    requires 0 <= r < |Exec(actions).roots| && AddedSince(CallsAt(Exec(actions).log, r), k, n, start)
    ensures var m := Exec(actions);
      var s, calls := Values(m.roots[r], k), CallsAt(m.log, r);
      && (|s| > 0 ==> s[|s| - 1] == start + Deltas(calls[n..], k))
      && (|s| == 0 ==> forall i :: 0 <= i < |calls| ==> i < n || calls[i].at != k)
  {
    SeriesKeepTheirOrder(actions, r, k);
    LastValueExactly(CallsAt(Exec(actions).log, r), k, n, start);
  }

  lemma {:induction false} ExecOrdered(actions: seq<Action>)
    ensures Ordered(Exec(actions))
  {
    if |actions| > 0 {
      ExecOrdered(actions[..|actions| - 1]);
      OrderedStep(Exec(actions[..|actions| - 1]), actions[|actions| - 1]);
    }
  }

  /* ---------- calls get through ---------- */

  /** Whatever else is under way, a call that has found its root appends there as soon as its thread goes on, and is
      then done: its series gains the value observed, or the last value plus the delta. */
  lemma {:induction false} AppendsWhereItLooked(actions: seq<Action>, t: Tid)
    requires t in Exec(actions).pending
    ensures var m, n, l := Exec(actions), Exec(actions + [Append(t)]), Exec(actions).pending[t];
      var before := Values(m.roots[l.root], l.call.at);
      && n.pending == m.pending - {t} && n.log == m.log + [l] && n.spaces == m.spaces && |n.roots| == |m.roots|
      && (forall r :: 0 <= r < |m.roots| && r != l.root ==> n.roots[r] == m.roots[r])
      && (forall k :: k != l.call.at ==> Values(n.roots[l.root], k) == Values(m.roots[l.root], k))
      && Values(n.roots[l.root], l.call.at) ==
         before + [if l.call.Observed? then l.call.value
                   else if |before| > 0 then before[|before| - 1] + l.call.delta else l.call.delta]
  {
    ExecOneMore(actions, Append(t));
    var m := Exec(actions);
    var l := m.pending[t];
    forall k ensures Values(Exec(actions + [Append(t)]).roots[l.root], k) ==
                     Values(m.roots[l.root], k) + if k == l.call.at then [Appended(m, t).value] else []
    {
      OneMoreValue(m.roots[l.root], Appended(m, t), k);
    }
  }

  /** A thread that is not in a call can begin one, which finds a root of the live space under its own name. */
  lemma {:induction false} FindsInTheLiveSpace(actions: seq<Action>, t: Tid, call: Op)
    requires t !in Exec(actions).pending && !call.Emptied?
    ensures var m, n := Exec(actions), Exec(actions + [Find(t, call)]);
      && t in n.pending && n.pending[t].call == call && Live(n) == Live(m)
      && Name(call.at) in n.spaces[Live(n)] && n.spaces[Live(n)][Name(call.at)] == n.pending[t].root
      && (Name(call.at) !in m.spaces[Live(m)] ==> n.roots[n.pending[t].root] == [])
      && (forall r :: 0 <= r < |m.roots| ==> r < |n.roots| && n.roots[r] == m.roots[r])
  {
    ExecOneMore(actions, Find(t, call));
  }

  /** How many calls have begun. */
  function Begun(actions: seq<Action>): nat {
    if |actions| == 0 then 0
    else
      var m, a := Exec(actions[..|actions| - 1]), actions[|actions| - 1];
      Begun(actions[..|actions| - 1]) + if a.Find? && a.t !in m.pending && !a.call.Emptied? then 1 else 0
  }

  /** No call is lost and none appends twice: those begun have appended, except those whose thread is yet to. */
  lemma {:induction false} CallsAppendOnce(actions: seq<Action>)
    ensures Begun(actions) == |Exec(actions).log| + |Exec(actions).pending|
  {
    if |actions| > 0 {
      CallsAppendOnce(actions[..|actions| - 1]);
      PendingStep(Exec(actions[..|actions| - 1]), actions[|actions| - 1]);
    }
  }

  lemma PendingStep(m: Machine, a: Action)
    requires Sane(m)
    ensures var n := Step(m, a);
      |n.log| + |n.pending| ==
      |m.log| + |m.pending| + if a.Find? && a.t !in m.pending && !a.call.Emptied? then 1 else 0
  {
    if a.Append? && a.t in m.pending { assert |m.pending - {a.t}| == |m.pending| - 1; }
  }

  /* ---------- when a detached space is final ---------- */

  /** Thread `t` has found a root of space `i` and has yet to append. */
  predicate AwaitedIn(m: Machine, i: nat, t: Tid)
    requires Sane(m)
  {
    t in m.pending && m.slots[m.pending[t].root].space == i
  }

  lemma {:induction false} HeldAfterAppend(roots: seq<seq<Obs>>, slots: seq<Slot>, i: nat, r: nat, obs: Obs)
    requires |slots| == |roots| && r < |roots|
    ensures Held(roots[r := roots[r] + [obs]], slots, i) ==
            if slots[r].space == i then Held(roots, slots, i) + multiset{obs} else Held(roots, slots, i)
  {
    var n := |roots| - 1;
    var next := roots[r := roots[r] + [obs]];
    if r == n {
      assert next[..n] == roots[..n];
    } else {
      HeldAfterAppend(roots[..n], slots[..n], i, r, obs);
      assert next[..n] == roots[..n][r := roots[r] + [obs]];
    }
  }

  /** One step moves at most one value into a space, and only from a thread that was already waiting. */
  lemma HeldAfterStep(m: Machine, a: Action, i: nat)
    requires Sane(m)
    ensures var n := Step(m, a);
      Held(n.roots, n.slots, i) ==
        if a.Append? && AwaitedIn(m, i, a.t) then Held(m.roots, m.slots, i) + multiset{Appended(m, a.t)}
        else Held(m.roots, m.slots, i)
  {
    if a.Append? && a.t in m.pending {
      HeldAfterAppend(m.roots, m.slots, i, m.pending[a.t].root, Appended(m, a.t));
    } else {
      HeldAfterOther(m, a, i);
    }
  }

  lemma HeldAfterOther(m: Machine, a: Action, i: nat)
    requires Sane(m) && !(a.Append? && a.t in m.pending)
    ensures var n := Step(m, a); Held(n.roots, n.slots, i) == Held(m.roots, m.slots, i)
  {
    if a.Find? && |Step(m, a).roots| > |m.roots| {
      HeldWithRoot(m.roots, m.slots, Slot(Live(m), Name(a.call.at)), i);
    }
  }

  lemma HeldWithRoot(roots: seq<seq<Obs>>, slots: seq<Slot>, slot: Slot, i: nat)
    requires |slots| == |roots|
    ensures Held(roots + [[]], slots + [slot], i) == Held(roots, slots, i)
  {
    assert (roots + [[]])[..|roots|] == roots && (slots + [slot])[..|roots|] == slots;
  }

  /** Nobody starts waiting for a detached space. */
  lemma NobodyJoins(m: Machine, a: Action, i: nat, t: Tid)
    requires Sane(m) && Tabled(m) && i < Live(m) && AwaitedIn(Step(m, a), i, t)
    ensures AwaitedIn(m, i, t)
  {
  }

  ghost predicate Final(m: Machine, i: nat)
    requires Sane(m)
  {
    i < Live(m) && forall t :: !AwaitedIn(m, i, t)
  }

  lemma FinalStep(m: Machine, a: Action, i: nat)
    requires Sane(m) && Tabled(m) && Final(m, i)
    ensures var n := Step(m, a); Final(n, i) && Held(n.roots, n.slots, i) == Held(m.roots, m.slots, i)
  {
    HeldAfterStep(m, a, i);
    StaysFinal(m, a, i);
  }

  lemma StaysFinal(m: Machine, a: Action, i: nat)
    requires Sane(m) && Tabled(m) && Final(m, i)
    ensures Final(Step(m, a), i)
  {
    forall t ensures !AwaitedIn(Step(m, a), i, t) {
      if AwaitedIn(Step(m, a), i, t) { NobodyJoins(m, a, i, t); }
    }
  }

  lemma {:induction false} NothingComes(actions: seq<Action>, more: seq<Action>, i: nat)
    requires Final(Exec(actions), i)
    ensures var m, n := Exec(actions), Exec(actions + more);
      Final(n, i) && Held(n.roots, n.slots, i) == Held(m.roots, m.slots, i)
  {
    if |more| == 0 {
      assert actions + more == actions;
    } else {
      var k := |more| - 1;
      var m := Exec(actions + more[..k]);
      NothingComes(actions, more[..k], i);
      ExecInv(actions + more[..k]);
      FinalStep(m, more[k], i);
      ExecMore(actions, more);
    }
  }

  lemma ExecMore(actions: seq<Action>, more: seq<Action>)
    requires |more| > 0
    ensures Exec(actions + more) == Step(Exec(actions + more[..|more| - 1]), more[|more| - 1])
  {
    assert (actions + more)[..|actions + more| - 1] == actions + more[..|more| - 1];
  }

  lemma ExecOneMore(actions: seq<Action>, a: Action)
    ensures Exec(actions + [a]) == Step(Exec(actions), a)
  {
    assert (actions + [a])[..|actions|] == actions;
  }

  /** The contents of detached space `i` never change again exactly when no observer that found its root before
      the reset is still to append: only then is the space `Reset` returned an immutable copy. */
  lemma {:induction false} DetachedIsFinalExactly(actions: seq<Action>, i: nat)
    requires i < Live(Exec(actions))
    ensures var m := Exec(actions);
      (forall more {:trigger Exec(actions + more)} :: Unchanged(m, Exec(actions + more), i))
      <==> (forall t :: !AwaitedIn(m, i, t))
  {
    if t :| AwaitedIn(Exec(actions), i, t) {
      LateChanges(actions, i, t);
    } else {
      forall more ensures Unchanged(Exec(actions), Exec(actions + more), i) { StaysUnchanged(actions, more, i); }
    }
  }

  lemma StaysUnchanged(actions: seq<Action>, more: seq<Action>, i: nat)
    requires Final(Exec(actions), i)
    ensures Unchanged(Exec(actions), Exec(actions + more), i)
  {
    NothingComes(actions, more, i);
    ExecInv(actions);
    ExecInv(actions + more);
    TableIsSpace(Exec(actions), i);
    TableIsSpace(Exec(actions + more), i);
  }

  lemma LateChanges(actions: seq<Action>, i: nat, t: Tid)
    requires i < Live(Exec(actions)) && AwaitedIn(Exec(actions), i, t)
    ensures !Unchanged(Exec(actions), Exec(actions + [Append(t)]), i)
  {
    ExecInv(actions);
    ChangesTable(Exec(actions), i, t);
    ExecOneMore(actions, Append(t));
  }

  lemma ChangesTable(m: Machine, i: nat, t: Tid)
    requires Sane(m) && Tabled(m) && i < Live(m) && AwaitedIn(m, i, t)
    ensures !Unchanged(m, Step(m, Append(t)), i)
  {
    AppendChanges(m, i, t);
    TabledStep(m, Append(t));
    TableIsSpace(m, i);
    TableIsSpace(Step(m, Append(t)), i);
  }

  /** Space `i` is there in `n` with the contents it has in `m`. */
  ghost predicate Unchanged(m: Machine, n: Machine, i: nat)
    requires i < |m.spaces|
  {
    i < |n.spaces| && Contents(n.roots, n.spaces[i]) == Contents(m.roots, m.spaces[i])
  }

  /** An observer that found its root before the reset: the detached space gains a value after it was returned. */
  lemma LateObservation()
    ensures var early, late := Exec(LATE[..2]), Exec(LATE);
      && Live(early) == Live(late) == 1
      && Contents(early.roots, early.spaces[0]) == multiset{}
      && Contents(late.roots, late.spaces[0]) == multiset{Obs(Named("x"), 1.0)}
  {
    EarlyReset();
    var m := Exec(LATE[..2]);
    assert LATE[..|LATE| - 1] == LATE[..2];
    assert Exec(LATE) == Step(m, Append(0));
    var obs := Obs(Named("x"), 1.0);
    assert Result([], Observed(Named("x"), 1.0)) == obs;
    assert Exec(LATE).roots == [[] + [obs]];
    OneRoot([], m.spaces[0]);
    OneRoot([] + [obs], m.spaces[0]);
  }

  lemma EarlyReset()
    ensures Exec(LATE[..2]) ==
            Machine([map["x" := 0], map[]], [[]], [Slot(0, "x")], map[0 := Lookup(0, LATE[0].call)], multiset{}, [])
  {
    assert LATE[..2][..1] == [LATE[0]] && [LATE[0]][..0] == [];
    assert Exec([LATE[0]]) == Step(START, LATE[0]);
    assert Name(Named("x")) == "x";
  }

  lemma OneRoot(below: seq<Obs>, table: map<string, Root>)
    requires table == map["x" := 0]
    ensures Contents([below], table) == multiset(below)
  {
    assert table["x"] == 0 && 0 in table.Values;
    assert [below][..0] == [];
  }

  const LATE := [Find(0, Observed(Named("x"), 1.0)), Reset, Append(0)]

  lemma AppendChanges(m: Machine, i: nat, t: Tid)
    requires Sane(m) && AwaitedIn(m, i, t)
    ensures var n := Step(m, Append(t)); Held(n.roots, n.slots, i) != Held(m.roots, m.slots, i)
  {
    HeldAfterStep(m, Append(t), i);
    var h := Held(m.roots, m.slots, i);
    assert (h + multiset{Appended(m, t)})[Appended(m, t)] != h[Appended(m, t)];
  }
}
