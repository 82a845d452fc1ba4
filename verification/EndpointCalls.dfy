/** sd/endpoint_cache.go under concurrency: which call ran which operation. Every call of `Endpoints` and `Update`
    takes effect once, between its beginning and its end, and nothing else does. */
module EndpointCalls {
  import opened Discovery
  import opened EndpointCaching
  import opened EndpointRuns
  import opened EndpointConcurrency

  /** The thread has decided its answer and is about to return it. */
  predicate Hit(th: Thread) {
    th.ReadHit? || th.WriteHit?
  }

  /** What the thread is in the middle of. */
  function InFlight(th: Thread): seq<Request> {
    match th
    case Idle => []
    case Submitting(_, e) => [Tell(e)]
    case Updating(_, e) => [Tell(e)]
    case _ => [Query]
  }

  /** What thread `t` called, in order. */
  function Requests(begun: seq<Begun>, t: Tid): seq<Request> {
    if |begun| == 0 then []
    else
      var front, last := begun[..|begun| - 1], begun[|begun| - 1];
      if last.t == t then Requests(front, t) + [last.request] else Requests(front, t)
  }

  function RequestOf(c: Call): Request {
    if c.Answered? then Query else Tell(c.event)
  }

  /** The calls of thread `t` that have finished, in order. */
  function Finished(calls: seq<Call>, t: Tid): seq<Request> {
    if |calls| == 0 then []
    else
      var front, last := calls[..|calls| - 1], calls[|calls| - 1];
      if last.t == t then Finished(front, t) + [RequestOf(last)] else Finished(front, t)
  }

  /** A finished call took effect as an operation of its own kind, run by its own thread, while it was under way. */
  predicate Placed(w: Machine, c: Call) {
    && c.start <= c.at < c.finish <= |w.history| == |w.ran|
    && w.ran[c.at] == c.t
    && match c
       case Answered(_, _, at, _, _) => w.history[at].Ask?
       case Told(_, _, at, _, event) => w.history[at] == Deliver(event, w.history[at].now)
  }

  /** A call under way began after every call its thread has finished. */
  predicate Pending(w: Machine, t: Tid, th: Thread) {
    && (!th.Idle? ==>
          && th.start <= |w.history|
          && forall i :: 0 <= i < |w.calls| && w.calls[i].t == t ==> w.calls[i].finish <= th.start)
    && (Hit(th) ==> th.start <= th.at < |w.history| == |w.ran| && w.ran[th.at] == t && w.history[th.at].Ask?)
  }

  /** Operation `h` is some finished call's, or that of a thread about to return. */
  ghost predicate Claimed(w: Machine, h: nat)
    requires h < |w.ran|
  {
    || (exists i :: 0 <= i < |w.calls| && w.calls[i].at == h)
    || (Hit(At(w, w.ran[h])) && At(w, w.ran[h]).at == h)
  }

  ghost predicate Booked(w: Machine) {
    && |w.ran| == |w.history|
    && (forall i :: 0 <= i < |w.calls| ==> Placed(w, w.calls[i]))
    && (forall i, j :: 0 <= i < j < |w.calls| && w.calls[i].t == w.calls[j].t ==> w.calls[i].finish <= w.calls[j].start)
    && (forall t: Tid :: Pending(w, t, At(w, t)))
    && (forall h :: 0 <= h < |w.ran| ==> Claimed(w, h))
  }

  ghost predicate Once(w: Machine) {
    forall t: Tid :: Requests(w.begun, t) == Finished(w.calls, t) + InFlight(At(w, t))
  }

  /* ---------- steps ---------- */

  /** How a step may move its thread and the books: begin a call, go on, run an operation, and finish a call. */
  datatype Move =
    | Stay
    | Start(th: Thread)
    | GoOn(th: Thread)
    | Decide(op: Op, th: Thread)
    | Return(c: Call)
    | Act(op: Op, c: Call)

  function MoveOf(w: Machine, a: Action, o: Options, f: Factory): Move {
    var v, th, len := Step(w, a, o, f), At(w, a.t), |w.history|;
    if v == w then Stay
    else if th.Idle? then Start(At(v, a.t))
    else if |v.calls| > |w.calls| && |v.history| > len then Act(v.history[len], v.calls[|w.calls|])
    else if |v.calls| > |w.calls| then Return(v.calls[|w.calls|])
    else if |v.history| > len then Decide(v.history[len], At(v, a.t))
    else GoOn(At(v, a.t))
  }

  /** The books after a move of thread `t`. */
  ghost predicate Moved(w: Machine, v: Machine, t: Tid, m: Move) {
    var th := At(w, t);
    && (forall u: Tid :: u != t ==> At(v, u) == At(w, u))
    && match m
       case Stay => v == w
       case Start(now) =>
         && th.Idle? && !now.Idle? && !Hit(now) && now.start == |w.history| && At(v, t) == now
         && v.history == w.history && v.ran == w.ran && v.calls == w.calls
         && exists request :: v.begun == w.begun + [Begun(t, request)] && InFlight(now) == [request]
       case GoOn(now) =>
         && !th.Idle? && !now.Idle? && !Hit(th) && !Hit(now) && now.start == th.start && InFlight(now) == InFlight(th)
         && At(v, t) == now
         && v.history == w.history && v.ran == w.ran && v.calls == w.calls && v.begun == w.begun
       case Decide(op, now) =>
         && !th.Idle? && !Hit(th) && Hit(now) && now.start == th.start && now.at == |w.history| && op.Ask?
         && InFlight(now) == InFlight(th) && At(v, t) == now
         && v.history == w.history + [op] && v.ran == w.ran + [t] && v.calls == w.calls && v.begun == w.begun
       case Return(c) =>
         && Hit(th) && At(v, t).Idle? && c.Answered? && c.t == t && c.start == th.start && c.at == th.at
         && c.finish == |w.history| && InFlight(th) == [RequestOf(c)]
         && v.history == w.history && v.ran == w.ran && v.calls == w.calls + [c] && v.begun == w.begun
       case Act(op, c) =>
         && !th.Idle? && !Hit(th) && At(v, t).Idle? && c.t == t && c.start == th.start && c.at == |w.history|
         && c.finish == |w.history| + 1 && InFlight(th) == [RequestOf(c)]
         && (if c.Answered? then op.Ask? else op == Deliver(c.event, op.now))
         && v.history == w.history + [op] && v.ran == w.ran + [t] && v.calls == w.calls + [c] && v.begun == w.begun
  }

  lemma StepMoves(w: Machine, a: Action, o: Options, f: Factory)
    ensures Moved(w, Step(w, a, o, f), a.t, MoveOf(w, a, o, f))
  {
    if OfReaders(a) { ReaderMoves(w, a, o, f); } else { WriterMoves(w, a, o, f); }
  }

  lemma ReaderMoves(w: Machine, a: Action, o: Options, f: Factory)
    requires OfReaders(a)
    ensures Moved(w, Step(w, a, o, f), a.t, MoveOf(w, a, o, f))
  {
  }

  lemma WriterMoves(w: Machine, a: Action, o: Options, f: Factory)
    requires !OfReaders(a)
    ensures Moved(w, Step(w, a, o, f), a.t, MoveOf(w, a, o, f))
  {
  }

  lemma PlacedMove(w: Machine, v: Machine, t: Tid, m: Move)
    requires Booked(w) && Moved(w, v, t, m)
    ensures |v.ran| == |v.history| && forall i :: 0 <= i < |v.calls| ==> Placed(v, v.calls[i])
  {
    assert Pending(w, t, At(w, t));
    forall i | 0 <= i < |v.calls| ensures Placed(v, v.calls[i]) {
      if i < |w.calls| { assert Placed(w, w.calls[i]); }
    }
  }

  lemma OrderMove(w: Machine, v: Machine, t: Tid, m: Move)
    requires Booked(w) && Moved(w, v, t, m)
    ensures forall i, j :: 0 <= i < j < |v.calls| && v.calls[i].t == v.calls[j].t ==> v.calls[i].finish <= v.calls[j].start
  {
    assert Pending(w, t, At(w, t));
  }

  lemma PendingMove(w: Machine, v: Machine, t: Tid, m: Move)
    requires Booked(w) && Moved(w, v, t, m)
    ensures forall u: Tid :: Pending(v, u, At(v, u))
  {
    assert Pending(w, t, At(w, t));
    forall i | 0 <= i < |w.calls| ensures w.calls[i].finish <= |w.history| { assert Placed(w, w.calls[i]); }
    forall u: Tid ensures Pending(v, u, At(v, u)) {
      assert Pending(w, u, At(w, u));
    }
  }

  lemma ClaimedMove(w: Machine, v: Machine, t: Tid, m: Move)
    requires Booked(w) && Moved(w, v, t, m)
    ensures forall h :: 0 <= h < |v.ran| ==> Claimed(v, h)
  {
    assert Pending(w, t, At(w, t));
    forall h | 0 <= h < |v.ran| ensures Claimed(v, h) {
      if h == |w.ran| {
        if m.Act? { assert v.calls[|w.calls|].at == h; }
      } else {
        assert Claimed(w, h);
        if i :| 0 <= i < |w.calls| && w.calls[i].at == h {
          assert v.calls[i].at == h;
        } else if m.Return? && w.ran[h] == t {
          assert v.calls[|w.calls|].at == h;
        }
      }
    }
  }

  lemma OnceMove(w: Machine, v: Machine, t: Tid, m: Move)
    requires Once(w) && Moved(w, v, t, m)
    ensures Once(v)
  {
    forall u: Tid ensures Requests(v.begun, u) == Finished(v.calls, u) + InFlight(At(v, u)) {
      assert Requests(w.begun, u) == Finished(w.calls, u) + InFlight(At(w, u));
      match m {
        case Start(now) =>
          var request :| v.begun == w.begun + [Begun(t, request)] && InFlight(now) == [request];
          OneBegun(w.begun, Begun(t, request), u);
        case Return(c) => OneFinished(w.calls, c, u);
        case Act(_, c) => OneFinished(w.calls, c, u);
        case _ =>
      }
    }
  }

  lemma OneBegun(begun: seq<Begun>, b: Begun, t: Tid)
    ensures Requests(begun + [b], t) == Requests(begun, t) + if b.t == t then [b.request] else []
  {
    assert (begun + [b])[..|begun|] == begun;
  }

  lemma OneFinished(calls: seq<Call>, c: Call, t: Tid)
    ensures Finished(calls + [c], t) == Finished(calls, t) + if c.t == t then [RequestOf(c)] else []
  {
    assert (calls + [c])[..|calls|] == calls;
  }

  lemma {:induction false} ExecBooked(actions: seq<Action>, o: Options, f: Factory)
    ensures Booked(Exec(actions, o, f)) && Once(Exec(actions, o, f))
  {
    if |actions| > 0 {
      var w, a := Exec(actions[..|actions| - 1], o, f), actions[|actions| - 1];
      ExecBooked(actions[..|actions| - 1], o, f);
      BookedMove(w, Step(w, a, o, f), a, o, f);
    }
  }

  lemma BookedMove(w: Machine, v: Machine, a: Action, o: Options, f: Factory)
    requires Booked(w) && Once(w) && v == Step(w, a, o, f)
    ensures Booked(v) && Once(v)
  {
    StepMoves(w, a, o, f);
    var m := MoveOf(w, a, o, f);
    PlacedMove(w, v, a.t, m);
    OrderMove(w, v, a.t, m);
    PendingMove(w, v, a.t, m);
    ClaimedMove(w, v, a.t, m);
    OnceMove(w, v, a.t, m);
  }

  /* ---------- every run ---------- */

  /** Every call a thread has made took effect exactly once, in the thread's own order, unless it is under way. */
  lemma {:induction false} CallsTakeEffectOnce(actions: seq<Action>, o: Options, f: Factory, t: Tid)
    ensures var w := Exec(actions, o, f); Requests(w.begun, t) == Finished(w.calls, t) + InFlight(At(w, t))
  {
    ExecBooked(actions, o, f);
  }

  /** An update that has returned is in the history, with its own event, between its beginning and its end; and so is
      a request. */
  lemma {:induction false} FinishedCallsAreInHistory(actions: seq<Action>, o: Options, f: Factory, i: nat)
    requires i < |Exec(actions, o, f).calls|
    ensures var w := Exec(actions, o, f); var c := w.calls[i];
      && c.start <= c.at < c.finish <= |w.history|
      && if c.Answered? then w.history[c.at].Ask? else w.history[c.at].Deliver? && w.history[c.at].event == c.event
  {
    ExecBooked(actions, o, f);
    assert Placed(Exec(actions, o, f), Exec(actions, o, f).calls[i]);
  }

  /** No two calls share an operation. */
  lemma {:induction false} CallsAreApart(actions: seq<Action>, o: Options, f: Factory, i: nat, j: nat)
    requires i < j < |Exec(actions, o, f).calls|
    ensures Exec(actions, o, f).calls[i].at != Exec(actions, o, f).calls[j].at
  {
    ExecBooked(actions, o, f);
    Distinct(Exec(actions, o, f), i, j);
  }

  lemma Distinct(w: Machine, i: nat, j: nat)
    requires Booked(w) && i < j < |w.calls|
    ensures w.calls[i].at != w.calls[j].at
  {
    assert Placed(w, w.calls[i]) && Placed(w, w.calls[j]);
  }

  /** Nothing but calls is in the history: an event there is that of an update that has returned, and a request is
      one that was answered, or whose thread is about to return the answer. */
  lemma {:induction false} HistoryIsCalls(actions: seq<Action>, o: Options, f: Factory, h: nat)
    requires h < |Exec(actions, o, f).history|
    ensures var w := Exec(actions, o, f);
      || (exists i :: 0 <= i < |w.calls| && w.calls[i].at == h
            && if w.history[h].Ask? then w.calls[i].Answered?
               else w.calls[i].Told? && w.calls[i].event == w.history[h].event)
      || (w.history[h].Ask? && exists t :: Hit(At(w, t)) && At(w, t).at == h)
  {
    ExecBooked(actions, o, f);
    var w := Exec(actions, o, f);
    assert Claimed(w, h);
    if i :| 0 <= i < |w.calls| && w.calls[i].at == h {
      assert Placed(w, w.calls[i]);
    } else {
      assert Pending(w, w.ran[h], At(w, w.ran[h]));
    }
  }
}
