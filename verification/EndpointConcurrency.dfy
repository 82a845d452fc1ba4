/** sd/endpoint_cache.go under concurrency: `Endpoints` takes a read lock, lets go, takes the write lock and
    checks again, while other threads do the same or call `Update`. One action is one step of one thread;
    an action whose thread is not ready for it, or whose lock is taken, changes nothing. */
module EndpointConcurrency {
  import opened Discovery
  import opened EndpointCaching
  import opened EndpointRuns

  type Tid = nat

  /** Where a thread stands. `start` is the number of operations that had taken effect when its call began. */
  datatype Thread =
    | Idle
    | Asking(start: nat)
    | Reading(start: nat)
    | ReadHit(start: nat, at: nat)
    | ReadMiss(start: nat)
    | InGap(start: nat)
    | Writing(start: nat)
    | WriteHit(start: nat, at: nat)
    | WriteMiss(start: nat, now: int)
    | Submitting(start: nat, event: Event)
    | Updating(start: nat, event: Event)

  /** A finished call of `Endpoints` or `Update` by thread `t`: it took effect as operation `at`. `start` and `finish`
      are the numbers of operations that had taken effect when it began and ended. */
  datatype Call =
    | Answered(t: Tid, start: nat, at: nat, finish: nat, response: Response)
    | Told(t: Tid, start: nat, at: nat, finish: nat, event: Event)

  /** What a thread calls. */
  datatype Request = Query | Tell(event: Event)

  datatype Begun = Begun(t: Tid, request: Request)

  /** `history` lists the operations in the order they took effect, `ran` the threads that ran them; `begun` and
      `calls` list the calls made and the calls finished. */
  datatype Machine = Machine(
    shared: State,
    readers: set<Tid>,
    writer: Option<Tid>,
    threads: map<Tid, Thread>,
    clock: int,
    history: seq<Op>,
    ran: seq<Tid>,
    begun: seq<Begun>,
    calls: seq<Call>)

  datatype Action =
    | Invoke(t: Tid)
    | RLock(t: Tid)
    | RCheck(t: Tid, wait: nat)
    | RReturn(t: Tid)
    | RUnlock(t: Tid)
    | Lock(t: Tid)
    | WCheck(t: Tid, wait: nat)
    | WReturn(t: Tid)
    | WExpire(t: Tid)
    | Submit(t: Tid, event: Event)
    | Apply(t: Tid, wait: nat)

  function At(w: Machine, t: Tid): Thread {
    if t in w.threads then w.threads[t] else Idle
  }

  function Put(w: Machine, t: Tid, th: Thread): Machine {
    w.(threads := w.threads[t := th])
  }

  function Begin(w: Machine, t: Tid, request: Request, th: Thread): Machine {
    Put(w.(begun := w.begun + [Begun(t, request)]), t, th)
  }

  function Perform(w: Machine, t: Tid, op: Op): Machine {
    w.(history := w.history + [op], ran := w.ran + [t])
  }

  function Finish(w: Machine, c: Call): Machine {
    Put(w.(calls := w.calls + [c]), c.t, Idle)
  }

  function Step(w: Machine, a: Action, o: Options, f: Factory): Machine {
    var th := At(w, a.t);
    match a
    case Invoke(t) =>
      if th.Idle? then Begin(w, t, Query, Asking(|w.history|)) else w
    case RLock(t) =>
      if th.Asking? && w.writer == None then Put(w.(readers := w.readers + {t}), t, Reading(th.start)) else w
    case RCheck(t, wait) =>
      if !th.Reading? then w
      else
        var now := w.clock + wait;
        if Serving(w.shared, now)
        then Put(Perform(w.(clock := now), t, Ask(now)), t, ReadHit(th.start, |w.history|))
        else Put(w.(clock := now), t, ReadMiss(th.start))
    case RReturn(t) =>
      if th.ReadHit?
      then Finish(w.(readers := w.readers - {t}),
                  Answered(t, th.start, th.at, |w.history|, Available(w.shared.endpoints)))
      else w
    case RUnlock(t) =>
      if th.ReadMiss? then Put(w.(readers := w.readers - {t}), t, InGap(th.start)) else w
    case Lock(t) =>
      if w.writer != None || w.readers != {} then w
      else if th.InGap? then Put(w.(writer := Some(t)), t, Writing(th.start))
      else if th.Submitting? then Put(w.(writer := Some(t)), t, Updating(th.start, th.event))
      else w
    case WCheck(t, wait) =>
      if !th.Writing? then w
      else
        var now := w.clock + wait;
        if Serving(w.shared, now)
        then Put(Perform(w.(clock := now), t, Ask(now)), t, WriteHit(th.start, |w.history|))
        else Put(w.(clock := now), t, WriteMiss(th.start, now))
    case WReturn(t) =>
      if th.WriteHit?
      then Finish(w.(writer := None), Answered(t, th.start, th.at, |w.history|, Available(w.shared.endpoints)))
      else w
    case WExpire(t) =>
      if th.WriteMiss? && w.shared.err != None then
        var v := Perform(w.(shared := Refreshed(w.shared, [], f), writer := None), t, Ask(th.now));
        Finish(v, Answered(t, th.start, |w.history|, |v.history|, Unavailable(v.shared.err.value)))
      else w
    case Submit(t, e) =>
      if th.Idle? then Begin(w, t, Tell(e), Submitting(|w.history|, e)) else w
    case Apply(t, wait) =>
      if th.Updating? then
        var now := w.clock + wait;
        var v := w.(shared := Updated(w.shared, th.event, now, o, f), writer := None, clock := now);
        Finish(Perform(v, t, Deliver(th.event, now)), Told(t, th.start, |w.history|, |w.history| + 1, th.event))
      else w
  }

  const START := Machine(INITIAL, {}, None, map[], 0, [], [], [], [])

  function Exec(actions: seq<Action>, o: Options, f: Factory): Machine {
    if |actions| == 0 then START else Step(Exec(actions[..|actions| - 1], o, f), actions[|actions| - 1], o, f)
  }

  /** What operation `i` of the sequential run answers. */
  function ReplyAt(history: seq<Op>, i: nat, o: Options, f: Factory): Response
    requires i < |history| && history[i].Ask?
  {
    Asked(Run(history[..i], o, f), history[i].now, f).1
  }

  predicate TookEffect(history: seq<Op>, start: nat, at: nat, r: Response, o: Options, f: Factory) {
    start <= at < |history| && history[at].Ask? && r == ReplyAt(history, at, o, f)
  }

  predicate HoldsRead(th: Thread) {
    th.Reading? || th.ReadHit? || th.ReadMiss?
  }

  predicate HoldsWrite(th: Thread) {
    th.Writing? || th.WriteHit? || th.WriteMiss? || th.Updating?
  }

  predicate ThreadOk(w: Machine, th: Thread, o: Options, f: Factory) {
    match th
    case ReadHit(start, at) => TookEffect(w.history, start, at, Available(w.shared.endpoints), o, f)
    case WriteHit(start, at) => TookEffect(w.history, start, at, Available(w.shared.endpoints), o, f)
    case WriteMiss(start, now) =>
      && start <= |w.history| && !Serving(w.shared, now) && now <= w.clock
      && (forall i :: 0 <= i < |w.history| ==> w.history[i].now <= now)
    case Asking(start) => start <= |w.history|
    case Reading(start) => start <= |w.history|
    case ReadMiss(start) => start <= |w.history|
    case InGap(start) => start <= |w.history|
    case Writing(start) => start <= |w.history|
    case _ => true
  }

  predicate Clocked(w: Machine) {
    && (forall i :: 0 <= i < |w.history| ==> w.history[i].now <= w.clock)
    && (forall i, j :: 0 <= i < j < |w.history| ==> w.history[i].now <= w.history[j].now)
  }

  predicate CallOk(w: Machine, c: Call, o: Options, f: Factory) {
    c.Answered? ==> c.at < c.finish <= |w.history| && TookEffect(w.history, c.start, c.at, c.response, o, f)
  }

  /** The lock's books agree with where the threads stand, and a writer is alone. */
  ghost predicate Locked(w: Machine) {
    && (w.writer != None ==> w.readers == {})
    && (forall t: Tid :: t in w.readers <==> HoldsRead(At(w, t)))
    && (forall t: Tid :: w.writer == Some(t) <==> HoldsWrite(At(w, t)))
  }

  ghost predicate Inv(w: Machine, o: Options, f: Factory) {
    && w.shared == Run(w.history, o, f)
    && Clocked(w)
    && Locked(w)
    && (forall t :: t in w.threads ==> ThreadOk(w, w.threads[t], o, f))
    && (forall i :: 0 <= i < |w.calls| ==> CallOk(w, w.calls[i], o, f))
  }

  lemma EffectStays(h: seq<Op>, op: Op, start: nat, at: nat, r: Response, o: Options, f: Factory)
    requires TookEffect(h, start, at, r, o, f)
    ensures TookEffect(h + [op], start, at, r, o, f)
  {
    assert (h + [op])[..at] == h[..at];
  }

  /** Recording one more operation disturbs no thread that is not inside an exclusive section. */
  lemma HistoryGrows(w: Machine, v: Machine, op: Op, o: Options, f: Factory)
    requires Inv(w, o, f) && w.clock <= v.clock
    requires v.history == w.history + [op] && v.calls == w.calls && v.shared == Do(w.shared, op, o, f)
    ensures v.shared == Run(v.history, o, f)
    ensures forall i :: 0 <= i < |v.calls| ==> CallOk(v, v.calls[i], o, f)
    ensures forall t :: t in w.threads && (v.shared == w.shared || !HoldsRead(w.threads[t])) && !HoldsWrite(w.threads[t])
              ==> ThreadOk(v, w.threads[t], o, f)
  {
    assert v.history[..|v.history| - 1] == w.history;
    forall i | 0 <= i < |v.calls| ensures CallOk(v, v.calls[i], o, f) {
      var c := v.calls[i];
      assert CallOk(w, c, o, f);
      if c.Answered? { EffectStays(w.history, op, c.start, c.at, c.response, o, f); }
    }
    forall t | t in w.threads && (v.shared == w.shared || !HoldsRead(w.threads[t])) && !HoldsWrite(w.threads[t])
      ensures ThreadOk(v, w.threads[t], o, f)
    {
      var th := w.threads[t];
      assert ThreadOk(w, th, o, f);
      if th.ReadHit? { EffectStays(w.history, op, th.start, th.at, Available(w.shared.endpoints), o, f); }
    }
  }

  lemma EffectNow(w: Machine, start: nat, now: int, o: Options, f: Factory)
    requires w.shared == Run(w.history, o, f) && start <= |w.history|
    ensures TookEffect(w.history + [Ask(now)], start, |w.history|, Asked(w.shared, now, f).1, o, f)
  {
  }

  lemma OthersStay(w: Machine, a: Action, o: Options, f: Factory)
    ensures forall t :: t != a.t ==> At(Step(w, a, o, f), t) == At(w, t)
  {
  }

  lemma LockStep(w: Machine, a: Action, o: Options, f: Factory)
    requires Locked(w)
    ensures Locked(Step(w, a, o, f))
  {
    if OfReaders(a) {
      ReadLockStep(w, a, o, f);
    } else if a.Lock? {
      WriteLockTaken(w, a.t, o, f);
    } else {
      WriteLockStep(w, a, o, f);
    }
  }

  predicate OfReaders(a: Action) {
    a.RLock? || a.RCheck? || a.RReturn? || a.RUnlock?
  }

  lemma ReadLockStep(w: Machine, a: Action, o: Options, f: Factory)
    requires Locked(w) && OfReaders(a)
    ensures Locked(Step(w, a, o, f))
  {
    OthersStay(w, a, o, f);
  }

  lemma WriteLockTaken(w: Machine, t: Tid, o: Options, f: Factory)
    requires Locked(w)
    ensures Locked(Step(w, Lock(t), o, f))
  {
    OthersStay(w, Lock(t), o, f);
  }

  lemma WriteLockStep(w: Machine, a: Action, o: Options, f: Factory)
    requires Locked(w) && !OfReaders(a) && !a.Lock?
    ensures Locked(Step(w, a, o, f))
  {
    OthersStay(w, a, o, f);
  }

  /** Steps that only move a thread or a lock. */
  lemma QuietStep(w: Machine, a: Action, o: Options, f: Factory)
    requires Inv(w, o, f) && (a.Invoke? || a.RLock? || a.RUnlock? || a.Lock? || a.Submit?)
    ensures Inv(Step(w, a, o, f), o, f)
  {
    LockStep(w, a, o, f);
    StandStill(w, Step(w, a, o, f), a.t, o, f);
    QuietThread(w, a, o, f);
  }

  lemma QuietThread(w: Machine, a: Action, o: Options, f: Factory)
    requires a.Invoke? || a.RLock? || a.RUnlock? || a.Lock? || a.Submit?
    requires ThreadOk(w, At(w, a.t), o, f)
    ensures ThreadOk(Step(w, a, o, f), At(Step(w, a, o, f), a.t), o, f)
  {
  }

  lemma StandStill(w: Machine, v: Machine, t: Tid, o: Options, f: Factory)
    requires Inv(w, o, f) && w.clock <= v.clock
    requires v.history == w.history && v.shared == w.shared && v.calls == w.calls
    requires v.threads == w.threads || v.threads == w.threads[t := At(v, t)]
    ensures Clocked(v)
    ensures forall u :: u in v.threads && u != t ==> ThreadOk(v, v.threads[u], o, f)
    ensures forall i :: 0 <= i < |v.calls| ==> CallOk(v, v.calls[i], o, f)
  {
  }

  lemma CheckStep(w: Machine, v: Machine, a: Action, o: Options, f: Factory)
    requires Inv(w, o, f) && v == Step(w, a, o, f)
    requires (a.RCheck? && At(w, a.t).Reading?) || (a.WCheck? && At(w, a.t).Writing?)
    ensures Inv(v, o, f)
  {
    var th, at, now := At(w, a.t), |w.history|, w.clock + a.wait;
    assert ThreadOk(w, th, o, f);
    if Serving(w.shared, now) {
      HitStep(w, v, a.t, now, if a.RCheck? then ReadHit(th.start, at) else WriteHit(th.start, at), o, f);
    } else {
      MissStep(w, v, a.t, now, if a.RCheck? then ReadMiss(th.start) else WriteMiss(th.start, now), o, f);
    }
  }

  lemma HitStep(w: Machine, v: Machine, t: Tid, now: int, hit: Thread, o: Options, f: Factory)
    requires Inv(w, o, f) && w.clock <= now && Serving(w.shared, now)
    requires v == Put(Perform(w.(clock := now), t, Ask(now)), t, hit)
    requires (At(w, t).Reading? && hit.ReadHit?) || (At(w, t).Writing? && hit.WriteHit?)
    requires hit.start <= |w.history| == hit.at
    ensures Inv(v, o, f)
  {
    LockHeld(w, v, t);
    HistoryGrows(w, v, Ask(now), o, f);
    EffectNow(w, hit.start, now, o, f);
    forall u | u in v.threads && u != t ensures ThreadOk(v, v.threads[u], o, f) {
      assert !HoldsWrite(At(w, u));
    }
  }

  lemma MissStep(w: Machine, v: Machine, t: Tid, now: int, miss: Thread, o: Options, f: Factory)
    requires Inv(w, o, f) && w.clock <= now && !Serving(w.shared, now)
    requires v == Put(w.(clock := now), t, miss)
    requires (At(w, t).Reading? && miss.ReadMiss?) || (At(w, t).Writing? && miss.WriteMiss? && miss.now == now)
    requires miss.start <= |w.history|
    ensures Inv(v, o, f)
  {
    LockHeld(w, v, t);
    StandStill(w, v, t, o, f);
  }

  /** A thread goes on with the lock it holds. */
  lemma LockHeld(w: Machine, v: Machine, t: Tid)
    requires Locked(w) && v.readers == w.readers && v.writer == w.writer && v.threads == w.threads[t := At(v, t)]
    requires HoldsRead(At(v, t)) == HoldsRead(At(w, t)) && HoldsWrite(At(v, t)) == HoldsWrite(At(w, t))
    ensures Locked(v)
  {
    assert forall u :: u != t ==> At(v, u) == At(w, u);
  }

  lemma ReturnStep(w: Machine, a: Action, o: Options, f: Factory)
    requires Inv(w, o, f) && (a.RReturn? || a.WReturn?)
    ensures Inv(Step(w, a, o, f), o, f)
  {
    var v, th := Step(w, a, o, f), At(w, a.t);
    LockStep(w, a, o, f);
    if (if a.RReturn? then th.ReadHit? else th.WriteHit?) {
      assert ThreadOk(w, th, o, f);
      forall i | 0 <= i < |v.calls| ensures CallOk(v, v.calls[i], o, f) {
        if i < |w.calls| { assert CallOk(w, w.calls[i], o, f); }
      }
      forall t | t in v.threads ensures ThreadOk(v, v.threads[t], o, f) {
        if t != a.t { assert ThreadOk(w, w.threads[t], o, f); }
      }
    }
  }

  lemma ExpireStep(w: Machine, a: Action, o: Options, f: Factory)
    requires Inv(w, o, f) && a.WExpire?
    ensures Inv(Step(w, a, o, f), o, f)
  {
    var v, th := Step(w, a, o, f), At(w, a.t);
    LockStep(w, a, o, f);
    if th.WriteMiss? && w.shared.err != None {
      assert ThreadOk(w, th, o, f);
      var u := v.(calls := w.calls);
      HistoryGrows(w, u, Ask(th.now), o, f);
      EffectNow(w, th.start, th.now, o, f);
      forall i | 0 <= i < |v.calls| ensures CallOk(v, v.calls[i], o, f) {
        if i < |w.calls| { assert CallOk(u, u.calls[i], o, f); }
      }
      forall t | t in v.threads ensures ThreadOk(v, v.threads[t], o, f) {
        if t != a.t {
          assert !HoldsWrite(At(w, t)) && !HoldsRead(At(w, t));
          assert ThreadOk(u, w.threads[t], o, f);
        }
      }
    }
  }

  lemma ApplyStep(w: Machine, a: Action, o: Options, f: Factory)
    requires Inv(w, o, f) && a.Apply?
    ensures Inv(Step(w, a, o, f), o, f)
  {
    var v, th := Step(w, a, o, f), At(w, a.t);
    LockStep(w, a, o, f);
    if th.Updating? {
      var u := v.(calls := w.calls);
      HistoryGrows(w, u, Deliver(th.event, w.clock + a.wait), o, f);
      forall i | 0 <= i < |v.calls| ensures CallOk(v, v.calls[i], o, f) {
        if i < |w.calls| { assert CallOk(u, u.calls[i], o, f); }
      }
      forall t | t in v.threads ensures ThreadOk(v, v.threads[t], o, f) {
        if t != a.t {
          assert !HoldsWrite(At(w, t)) && !HoldsRead(At(w, t));
          assert ThreadOk(u, w.threads[t], o, f);
        }
      }
    }
  }

  lemma StepInv(w: Machine, v: Machine, a: Action, o: Options, f: Factory)
    requires Inv(w, o, f) && v == Step(w, a, o, f)
    ensures Inv(v, o, f)
  {
    match a {
      case RCheck(t, _) => if At(w, t).Reading? { CheckStep(w, v, a, o, f); }
      case WCheck(t, _) => if At(w, t).Writing? { CheckStep(w, v, a, o, f); }
      case RReturn(_) => ReturnStep(w, a, o, f);
      case WReturn(_) => ReturnStep(w, a, o, f);
      case WExpire(_) => ExpireStep(w, a, o, f);
      case Apply(_, _) => ApplyStep(w, a, o, f);
      case _ => QuietStep(w, a, o, f);
    }
  }

  lemma {:induction false} ExecInv(actions: seq<Action>, o: Options, f: Factory)
    ensures Inv(Exec(actions, o, f), o, f)
  {
    if |actions| > 0 {
      ExecInv(actions[..|actions| - 1], o, f);
      StepInv(Exec(actions[..|actions| - 1], o, f), Exec(actions, o, f), actions[|actions| - 1], o, f);
    }
  }

  /** In every interleaving, each `Endpoints` call returns what one atomic evaluation would return at a point
      between its start and its finish, and the shared state is that of the operations run one by one,
      in an order in which clock readings never go back. */
  lemma {:induction false} CallsAreAtomic(actions: seq<Action>, o: Options, f: Factory)
    ensures var w := Exec(actions, o, f);
      && (forall i :: 0 <= i < |w.calls| && w.calls[i].Answered? ==>
            && w.calls[i].start <= w.calls[i].at < w.calls[i].finish <= |w.history|
            && w.history[w.calls[i].at].Ask?
            && w.calls[i].response == ReplyAt(w.history, w.calls[i].at, o, f))
      && w.shared == Run(w.history, o, f)
      && (forall i, j :: 0 <= i < j < |w.history| ==> w.history[i].now <= w.history[j].now)
  {
    ExecInv(actions, o, f);
    var w := Exec(actions, o, f);
    forall i | 0 <= i < |w.calls| ensures CallOk(w, w.calls[i], o, f) {}
  }

  /** So in every interleaving, nothing is closed twice, while held, or without a closer. */
  lemma {:induction false} SafetyInEveryInterleaving(actions: seq<Action>, o: Options, f: Factory)
    ensures Safe(Exec(actions, o, f).shared)
  {
    ExecInv(actions, o, f);
    SafetyHolds(Exec(actions, o, f).history, o, f);
  }

  /** And without repeated instances no interleaving leaks an endpoint either. */
  lemma {:induction false} LifecycleInEveryInterleaving(actions: seq<Action>, o: Options, f: Factory)
    requires DuplicateFree(Exec(actions, o, f).history)
    ensures Owned(Exec(actions, o, f).shared)
  {
    ExecInv(actions, o, f);
    LifecycleHolds(Exec(actions, o, f).history, o, f);
  }

  /** A call that reports an error, hence closes what is held, does so because of an error event that came after
      every success before it, those that fell into its gap included, and at least the timeout earlier. */
  lemma {:induction false} GapUpdatesAreSafe(actions: seq<Action>, o: Options, f: Factory, c: nat, success: nat)
    requires c < |Exec(actions, o, f).calls|
    requires var w := Exec(actions, o, f);
      && w.calls[c].Answered? && w.calls[c].response.Unavailable?
      && success < w.calls[c].at <= |w.history| && Success(w.history[success])
    ensures var w := Exec(actions, o, f);
      && w.calls[c].at < |w.history|
      && exists i :: success < i < w.calls[c].at
           && Expired(w.history[i], o, w.history[w.calls[c].at].now, w.calls[c].response.err)
  {
    ExecInv(actions, o, f);
    var w := Exec(actions, o, f);
    assert CallOk(w, w.calls[c], o, f);
    FaultAfter(w.history, w.calls[c].at, success, o, f, w.calls[c].response.err);
  }

  lemma FaultAfter(history: seq<Op>, at: nat, success: nat, o: Options, f: Factory, e: Error)
    requires success < at < |history| && Success(history[success]) && history[at].Ask?
    requires ReplyAt(history, at, o, f) == Unavailable(e)
    ensures exists i :: success < i < at && Expired(history[i], o, history[at].now, e)
  {
    var before := history[..at];
    DeadlineFromHistory(before, o, f, history[at].now, e);
    var last, i :| FirstFault(before, last, i) && Expired(before[i], o, history[at].now, e);
    assert before[success] == history[success] && before[i] == history[i];
  }
}
