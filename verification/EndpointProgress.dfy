/** sd/endpoint_cache.go under concurrency: calls get through. A call of `Endpoints` or `Update` left to itself does what
    the sequential cache does and returns; and whatever is under way, some call can always be brought nearer to its
    return, so all can be finished. */
module EndpointProgress {
  import opened Discovery
  import opened Order
  import opened EndpointCaching
  import opened EndpointRuns
  import opened EndpointConcurrency

  /* ---------- a call by itself ---------- */

  function Steps(w: Machine, more: seq<Action>, o: Options, f: Factory): Machine
    decreases |more|
  {
    if |more| == 0 then w else Steps(Step(w, more[0], o, f), more[1..], o, f)
  }

  lemma ExecOneMore(actions: seq<Action>, a: Action, o: Options, f: Factory)
    ensures Exec(actions + [a], o, f) == Step(Exec(actions, o, f), a, o, f)
  {
    assert (actions + [a])[..|actions|] == actions;
  }

  lemma {:induction false} Follow(actions: seq<Action>, more: seq<Action>, o: Options, f: Factory)
    ensures Exec(actions + more, o, f) == Steps(Exec(actions, o, f), more, o, f)
    decreases |more|
  {
    if |more| == 0 {
      assert actions + more == actions;
    } else {
      ExecOneMore(actions, more[0], o, f);
      Follow(actions + [more[0]], more[1..], o, f);
      assert actions + [more[0]] + more[1..] == actions + more;
    }
  }

  /** Both locks are free, and thread `t` is in no call. */
  ghost predicate Free(w: Machine, t: Tid) {
    w.readers == {} && w.writer == None && At(w, t).Idle?
  }

  /** The steps of a call of `Endpoints`: the clock goes on by `first` before it is read, and by `second` before it is
      read again. */
  function Asking(w: Machine, t: Tid, first: nat, second: nat): seq<Action> {
    if Serving(w.shared, w.clock + first) then [Invoke(t), RLock(t), RCheck(t, first), RReturn(t)]
    else [Invoke(t), RLock(t), RCheck(t, first), RUnlock(t), Lock(t), WCheck(t, second), WExpire(t)]
  }

  /** Between `w` and `n` thread `t` made one call and returned from it; it took effect as `op`, at the end of the
      history, and no other thread has moved. */
  ghost predicate Called(w: Machine, n: Machine, t: Tid, request: Request, op: Op, c: Call) {
    && n.history == w.history + [op] && n.clock == op.now
    && n.begun == w.begun + [Begun(t, request)] && n.calls == w.calls + [c]
    && (forall u: Tid :: At(n, u) == At(w, u)) && n.readers == {} && n.writer == None
  }

  /** From `w` to `n` thread `t` has called `Endpoints`: it was answered as the cache answers at the time it last read
      the clock, with the list, or past the deadline with the error, and left the cache as that request leaves it. */
  ghost predicate AnsweredAlone(w: Machine, n: Machine, t: Tid, first: nat, second: nat, f: Factory) {
    var now := if Serving(w.shared, w.clock + first) then w.clock + first else w.clock + first + second;
    var (s, r) := Asked(w.shared, now, f);
    n.shared == s && Called(w, n, t, Query, Ask(now), Answered(t, |w.history|, |w.history|, |w.history| + 1, r))
  }

  /** Undisturbed, `Endpoints` returns so, with the locks free. */
  lemma {:induction false} AskAlone(actions: seq<Action>, t: Tid, first: nat, second: nat, o: Options, f: Factory)
    requires Free(Exec(actions, o, f), t)
    ensures var w := Exec(actions, o, f);
      AnsweredAlone(w, Exec(actions + Asking(w, t, first, second), o, f), t, first, second, f)
  {
    Follow(actions, Asking(Exec(actions, o, f), t, first, second), o, f);
    AskByItself(Exec(actions, o, f), t, first, second, o, f);
  }

  lemma AskByItself(w: Machine, t: Tid, first: nat, second: nat, o: Options, f: Factory)
    requires Free(w, t)
    ensures AnsweredAlone(w, Steps(w, Asking(w, t, first, second), o, f), t, first, second, f)
  {
    if Serving(w.shared, w.clock + first) {
      Answers(w, t, first, second, o, f);
    } else {
      Expires(w, t, first, second, o, f);
    }
  }

  /** The thread of `w` stands at `th`, with the locks as given and the clock at `now`. */
  function Moved(w: Machine, t: Tid, th: Thread, readers: set<Tid>, writer: Option<Tid>, now: int): Machine {
    w.(begun := w.begun + [Begun(t, Query)], threads := w.threads[t := th], readers := readers, writer := writer,
       clock := now)
  }

  lemma StepsOfTwo(w: Machine, a: Action, b: Action, o: Options, f: Factory)
    ensures Steps(w, [a, b], o, f) == Step(Step(w, a, o, f), b, o, f)
  {
    StepsOfMore(w, a, b, [], o, f);
    assert [a, b] + [] == [a, b];
  }

  lemma StepsOfMore(w: Machine, a: Action, b: Action, more: seq<Action>, o: Options, f: Factory)
    ensures Steps(w, [a, b] + more, o, f) == Steps(Step(Step(w, a, o, f), b, o, f), more, o, f)
  {
    assert ([a, b] + more)[1..] == [b] + more && ([b] + more)[1..] == more;
  }

  /** The call has been made and its thread may read. */
  lemma Locks(w: Machine, t: Tid, o: Options, f: Factory)
    requires Free(w, t)
    ensures Step(Step(w, Invoke(t), o, f), RLock(t), o, f) == Moved(w, t, Reading(|w.history|), {t}, None, w.clock)
  {
    var invoked := Step(w, Invoke(t), o, f);
    assert w.threads[t := At(invoked, t)][t := Reading(|w.history|)] == w.threads[t := Reading(|w.history|)];
  }

  lemma Answers(w: Machine, t: Tid, first: nat, second: nat, o: Options, f: Factory)
    requires Free(w, t) && Serving(w.shared, w.clock + first)
    ensures var n, k := Steps(w, Asking(w, t, first, second), o, f), |w.history|;
      && n.shared == w.shared
      && Called(w, n, t, Query, Ask(w.clock + first), Answered(t, k, k, k + 1, Available(w.shared.endpoints)))
  {
    var v := Moved(w, t, Reading(|w.history|), {t}, None, w.clock);
    Locks(w, t, o, f);
    StepsOfMore(w, Invoke(t), RLock(t), [RCheck(t, first), RReturn(t)], o, f);
    StepsOfTwo(v, RCheck(t, first), RReturn(t), o, f);
    assert [Invoke(t), RLock(t)] + [RCheck(t, first), RReturn(t)] == Asking(w, t, first, second);
    Reads(w, v, t, first, o, f);
  }

  lemma Reads(w: Machine, v: Machine, t: Tid, first: nat, o: Options, f: Factory)
    requires Free(w, t) && Serving(w.shared, w.clock + first)
    requires v == Moved(w, t, Reading(|w.history|), {t}, None, w.clock)
    ensures var n, k := Step(Step(v, RCheck(t, first), o, f), RReturn(t), o, f), |w.history|;
      && n.shared == w.shared
      && Called(w, n, t, Query, Ask(w.clock + first), Answered(t, k, k, k + 1, Available(w.shared.endpoints)))
  {
    var checked := Step(v, RCheck(t, first), o, f);
    assert At(checked, t) == ReadHit(|w.history|, |w.history|);
  }

  lemma Expires(w: Machine, t: Tid, first: nat, second: nat, o: Options, f: Factory)
    requires Free(w, t) && !Serving(w.shared, w.clock + first)
    ensures var n, k := Steps(w, Asking(w, t, first, second), o, f), |w.history|;
      && n.shared == Refreshed(w.shared, [], f)
      && Called(w, n, t, Query, Ask(w.clock + first + second),
                Answered(t, k, k, k + 1, Unavailable(w.shared.err.value)))
  {
    var k, now := |w.history|, w.clock + first;
    var v, u := Moved(w, t, Reading(k), {t}, None, w.clock), Moved(w, t, InGap(k), {}, None, now);
    Locks(w, t, o, f);
    Misses(w, v, t, first, o, f);
    InTwos(w, Invoke(t), RLock(t), v, RCheck(t, first), RUnlock(t), u, Lock(t), WCheck(t, second), WExpire(t), o, f);
    Releases(w, u, t, first, second, o, f);
  }

  lemma InTwos(w: Machine, a: Action, b: Action, v: Machine, c: Action, d: Action, u: Machine, e: Action, g: Action,
               h: Action, o: Options, f: Factory)
    requires v == Step(Step(w, a, o, f), b, o, f) && u == Step(Step(v, c, o, f), d, o, f)
    ensures Steps(w, [a, b, c, d, e, g, h], o, f) == Steps(Step(Step(u, e, o, f), g, o, f), [h], o, f)
  {
    StepsOfMore(w, a, b, [c, d, e, g, h], o, f);
    StepsOfMore(v, c, d, [e, g, h], o, f);
    StepsOfMore(u, e, g, [h], o, f);
    assert [a, b] + [c, d, e, g, h] == [a, b, c, d, e, g, h] && [c, d] + [e, g, h] == [c, d, e, g, h];
    assert [e, g] + [h] == [e, g, h];
  }

  lemma Misses(w: Machine, v: Machine, t: Tid, first: nat, o: Options, f: Factory)
    requires Free(w, t) && !Serving(w.shared, w.clock + first)
    requires v == Moved(w, t, Reading(|w.history|), {t}, None, w.clock)
    ensures Step(Step(v, RCheck(t, first), o, f), RUnlock(t), o, f) ==
            Moved(w, t, InGap(|w.history|), {}, None, w.clock + first)
  {
    var checked := Step(v, RCheck(t, first), o, f);
    assert checked == Moved(w, t, ReadMiss(|w.history|), {t}, None, w.clock + first);
  }

  lemma Releases(w: Machine, u: Machine, t: Tid, first: nat, second: nat, o: Options, f: Factory)
    requires Free(w, t) && !Serving(w.shared, w.clock + first)
    requires u == Moved(w, t, InGap(|w.history|), {}, None, w.clock + first)
    ensures var checked := Step(Step(u, Lock(t), o, f), WCheck(t, second), o, f);
      var n, k := Steps(checked, [WExpire(t)], o, f), |w.history|;
      && n.shared == Refreshed(w.shared, [], f)
      && Called(w, n, t, Query, Ask(w.clock + first + second),
                Answered(t, k, k, k + 1, Unavailable(w.shared.err.value)))
  {
    var k, now := |w.history|, w.clock + first + second;
    var locked := Step(u, Lock(t), o, f);
    assert locked == Moved(w, t, Writing(k), {}, Some(t), w.clock + first);
    var checked := Step(locked, WCheck(t, second), o, f);
    assert checked == Moved(w, t, WriteMiss(k, now), {}, Some(t), now);
    assert [WExpire(t)][1..] == [];
    Released(w, checked, t, now, o, f);
  }

  lemma Released(w: Machine, v: Machine, t: Tid, now: int, o: Options, f: Factory)
    requires Free(w, t) && w.shared.err != None && v == Moved(w, t, WriteMiss(|w.history|, now), {}, Some(t), now)
    ensures var n, k := Step(v, WExpire(t), o, f), |w.history|;
      && n.shared == Refreshed(w.shared, [], f)
      && Called(w, n, t, Query, Ask(now), Answered(t, k, k, k + 1, Unavailable(w.shared.err.value)))
  {
    assert At(v, t) == WriteMiss(|w.history|, now);
  }

  /** Undisturbed, `Update` leaves the cache as the event leaves it, at the time it read the clock, and returns with the
      locks free. */
  lemma {:induction false} UpdateAlone(actions: seq<Action>, t: Tid, event: Event, wait: nat, o: Options, f: Factory)
    requires Free(Exec(actions, o, f), t)
    ensures var w, n := Exec(actions, o, f), Exec(actions + [Submit(t, event), Lock(t), Apply(t, wait)], o, f);
      var now, k := w.clock + wait, |w.history|;
      && n.shared == Updated(w.shared, event, now, o, f)
      && Called(w, n, t, Tell(event), Deliver(event, now), Told(t, k, k, k + 1, event))
  {
    var w := Exec(actions, o, f);
    Follow(actions, [Submit(t, event), Lock(t), Apply(t, wait)], o, f);
    Applies(w, t, event, wait, o, f);
  }

  lemma Applies(w: Machine, t: Tid, event: Event, wait: nat, o: Options, f: Factory)
    requires Free(w, t)
    ensures var n, k := Steps(w, [Submit(t, event), Lock(t), Apply(t, wait)], o, f), |w.history|;
      && n.shared == Updated(w.shared, event, w.clock + wait, o, f)
      && Called(w, n, t, Tell(event), Deliver(event, w.clock + wait), Told(t, k, k, k + 1, event))
  {
    var submitted := Step(w, Submit(t, event), o, f);
    var locked := Step(submitted, Lock(t), o, f);
    StepsOfMore(w, Submit(t, event), Lock(t), [Apply(t, wait)], o, f);
    assert [Submit(t, event), Lock(t)] + [Apply(t, wait)] == [Submit(t, event), Lock(t), Apply(t, wait)];
    assert [Apply(t, wait)][1..] == [];
    assert locked == w.(begun := w.begun + [Begun(t, Tell(event))], writer := Some(t),
                        threads := w.threads[t := Updating(|w.history|, event)]);
    Applied(w, locked, t, event, wait, o, f);
  }

  lemma Applied(w: Machine, v: Machine, t: Tid, event: Event, wait: nat, o: Options, f: Factory)
    requires Free(w, t)
    requires v == w.(begun := w.begun + [Begun(t, Tell(event))], writer := Some(t),
                     threads := w.threads[t := Updating(|w.history|, event)])
    ensures var n, k := Step(v, Apply(t, wait), o, f), |w.history|;
      && n.shared == Updated(w.shared, event, w.clock + wait, o, f)
      && Called(w, n, t, Tell(event), Deliver(event, w.clock + wait), Told(t, k, k, k + 1, event))
  {
    assert At(v, t) == Updating(|w.history|, event);
  }

  /* ---------- nobody is stuck ---------- */

  /** How many steps a call is from its return, at most. */
  function Left(th: Thread): nat {
    match th
    case Idle => 0
    case ReadHit(_, _) | WriteHit(_, _) | WriteMiss(_, _) | Updating(_, _) => 1
    case Writing(_) | Submitting(_, _) => 2
    case InGap(_) => 3
    case ReadMiss(_) => 4
    case Reading(_) => 5
    case Asking(_) => 6
  }

  /** In every reachable machine with a call under way, some step brings a call nearer to its return, and holds no other
      call up. */
  lemma {:induction false} AlwaysMovesOn(actions: seq<Action>, o: Options, f: Factory, t: Tid) returns (a: Action)
    requires !At(Exec(actions, o, f), t).Idle?
    ensures var w, n := Exec(actions, o, f), Exec(actions + [a], o, f);
      && !a.Invoke? && !a.Submit? && Left(At(n, a.t)) < Left(At(w, a.t)) <= 6
      && forall u: Tid :: u != a.t ==> At(n, u) == At(w, u)
  {
    ExecInv(actions, o, f);
    a := Next(Exec(actions, o, f), t, o, f);
    ExecOneMore(actions, a, o, f);
    OthersStay(Exec(actions, o, f), a, o, f);
  }

  /** Whoever holds a lock goes on; if nobody does, whoever waits for one gets it. */
  lemma Next(w: Machine, t: Tid, o: Options, f: Factory) returns (a: Action)
    requires Inv(w, o, f) && !At(w, t).Idle?
    ensures !a.Invoke? && !a.Submit? && Left(At(Step(w, a, o, f), a.t)) < Left(At(w, a.t)) <= 6
  {
    if w.writer != None {
      a := NextOfWriter(w, w.writer.value, o, f);
    } else if u :| u in w.readers {
      a := if At(w, u).Reading? then RCheck(u, 0) else if At(w, u).ReadHit? then RReturn(u) else RUnlock(u);
    } else {
      assert !HoldsRead(At(w, t)) && !HoldsWrite(At(w, t));
      a := if At(w, t).Asking? then RLock(t) else Lock(t);
    }
  }

  lemma NextOfWriter(w: Machine, u: Tid, o: Options, f: Factory) returns (a: Action)
    requires Inv(w, o, f) && HoldsWrite(At(w, u))
    ensures !a.Invoke? && !a.Submit? && a.t == u && Left(At(Step(w, a, o, f), u)) < Left(At(w, u)) <= 6
  {
    assert ThreadOk(w, At(w, u), o, f);
    var th := At(w, u);
    a := if th.Writing? then WCheck(u, 0) else if th.WriteHit? then WReturn(u)
         else if th.WriteMiss? then WExpire(u) else Apply(u, 0);
  }

  /* ---------- everybody can finish ---------- */

  function Total(w: Machine, ts: seq<Tid>): nat {
    if |ts| == 0 then 0 else Total(w, ts[..|ts| - 1]) + Left(At(w, ts[|ts| - 1]))
  }

  lemma {:induction false} TotalDrops(w: Machine, n: Machine, t: Tid, ts: seq<Tid>)
    requires Left(At(n, t)) < Left(At(w, t)) && forall u: Tid :: u != t ==> At(n, u) == At(w, u)
    ensures Total(n, ts) <= Total(w, ts) && (t in ts ==> Total(n, ts) < Total(w, ts))
  {
    if |ts| > 0 {
      TotalDrops(w, n, t, ts[..|ts| - 1]);
      assert t in ts ==> t in ts[..|ts| - 1] || t == ts[|ts| - 1];
    }
  }

  /** Every thread in a call is listed. */
  ghost predicate Lists(w: Machine, ts: seq<Tid>) {
    forall t: Tid :: !At(w, t).Idle? ==> t in ts
  }

  lemma {:induction false} Listed(s: set<Tid>) returns (ts: seq<Tid>)
    ensures forall t :: t in s ==> t in ts
  {
    ts := [];
    if t :| t in s {
      ts := Listed(s - {t});
      ts := ts + [t];
    }
  }

  /** From wherever a run has got to, all calls under way can be finished, without a new one, and then both locks are
      free. */
  lemma {:induction false} EveryCallCanFinish(actions: seq<Action>, o: Options, f: Factory) returns (more: seq<Action>)
    ensures var n := Exec(actions + more, o, f);
      && (forall t: Tid :: At(n, t).Idle?) && n.readers == {} && n.writer == None
      && n.begun == Exec(actions, o, f).begun
  {
    var ts := Listed(Exec(actions, o, f).threads.Keys);
    more := FinishAll(actions, o, f, ts);
    ExecInv(actions + more, o, f);
    NobodyHolds(Exec(actions + more, o, f));
  }

  lemma NobodyHolds(w: Machine)
    requires Locked(w) && forall t: Tid :: At(w, t).Idle?
    ensures w.readers == {} && w.writer == None
  {
    assert forall t: Tid :: !HoldsRead(At(w, t)) && !HoldsWrite(At(w, t));
    assert w.writer == None || exists t: Tid :: w.writer == Some(t);
  }

  lemma {:induction false} FinishAll(actions: seq<Action>, o: Options, f: Factory, ts: seq<Tid>)
    returns (more: seq<Action>)
    requires Lists(Exec(actions, o, f), ts)
    ensures (forall t: Tid :: At(Exec(actions + more, o, f), t).Idle?)
    ensures Exec(actions + more, o, f).begun == Exec(actions, o, f).begun
    decreases Total(Exec(actions, o, f), ts)
  {
    var w := Exec(actions, o, f);
    if t: Tid :| !At(w, t).Idle? {
      var a := AlwaysMovesOn(actions, o, f, t);
      ExecOneMore(actions, a, o, f);
      TotalDrops(w, Exec(actions + [a], o, f), a.t, ts);
      NothingBegins(w, a, o, f);
      more := FinishAll(actions + [a], o, f, ts);
      more := [a] + more;
      assert actions + [a] + more[1..] == actions + more;
    } else {
      more := [];
      assert actions + more == actions;
    }
  }

  lemma NothingBegins(w: Machine, a: Action, o: Options, f: Factory)
    requires !a.Invoke? && !a.Submit?
    ensures Step(w, a, o, f).begun == w.begun
  {
  }
}
