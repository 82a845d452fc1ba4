/** sd/lb/retry.go under concurrency: each attempt runs in a goroutine of its own and sends into a channel of one
    slot, while the caller waits for a response, an error or the end of the context. One action is one step; an
    action that is not enabled changes nothing. */
module RetryConcurrency {
  import opened Discovery
  import opened Retry

  /** The caller is about to start attempt `i`, waits for it, or has returned. */
  datatype Caller<R> = Starting(i: nat) | Waiting(i: nat) | Returned(outcome: Outcome<R>)

  /** `running` are the attempts that have not sent yet, `taken` what the caller received, in order. */
  datatype Machine<R> = Machine(
    caller: Caller<R>,
    running: set<nat>,
    responses: Option<R>,
    errs: Option<Error>,
    raw: seq<Error>,
    taken: seq<Arrival<R>>)

  datatype Action<R> =
    | Spawn
    | SendResponse(i: nat, response: R)
    | SendError(i: nat, err: Error)
    | TakeResponse
    | TakeError
    | TakeDone(err: Error)

  function Start<R>(): Machine<R> {
    Machine(Starting(1), {}, None, None, [], [])
  }

  function Step<R>(m: Machine<R>, a: Action<R>, cb: Callback): Machine<R> {
    match a
    case Spawn =>
      if m.caller.Starting?
      then m.(caller := Waiting(m.caller.i), running := m.running + {m.caller.i})
      else m
    case SendResponse(i, response) =>
      if i in m.running && m.responses.None? then m.(running := m.running - {i}, responses := Some(response)) else m
    case SendError(i, err) =>
      if i in m.running && m.errs.None? then m.(running := m.running - {i}, errs := Some(err)) else m
    case TakeResponse =>
      if m.caller.Waiting? && m.responses.Some?
      then m.(caller := Returned(Answered(m.responses.value)), responses := None,
              taken := m.taken + [Responded(m.responses.value)])
      else m
    case TakeError =>
      if m.caller.Waiting? && m.errs.Some?
      then Heard(m.(errs := None, raw := m.raw + [m.errs.value], taken := m.taken + [Failed(m.errs.value)]),
                 m.caller.i, m.errs.value, Verdict(cb, m.caller.i, m.errs.value))
      else m
    case TakeDone(err) =>
      if m.caller.Waiting?
      then m.(caller := Returned(Cancelled(err)), taken := m.taken + [Done(err)])
      else m
  }

  function Heard<R>(m: Machine<R>, i: nat, err: Error, verdict: (bool, Option<Error>)): Machine<R> {
    if verdict.0 then m.(caller := Starting(i + 1))
    else m.(caller := Returned(GaveUp(m.raw, Replaced(err, verdict.1))))
  }

  function Exec<R>(actions: seq<Action<R>>, cb: Callback): Machine<R> {
    if |actions| == 0 then Start() else Step(Exec(actions[..|actions| - 1], cb), actions[|actions| - 1], cb)
  }

  /** Attempts that have been started and not been heard of. */
  function Outstanding<R>(m: Machine<R>): nat {
    |m.running| + (if m.responses.Some? then 1 else 0) + if m.errs.Some? then 1 else 0
  }

  ghost predicate Single<R>(m: Machine<R>) {
    Outstanding(m) <= (if m.caller.Starting? then 0 else 1) && (m.caller.Waiting? ==> Outstanding(m) == 1)
  }

  /** The caller stands where the sequential loop stands after what was taken. */
  ghost predicate Tracks<R>(m: Machine<R>, cb: Callback) {
    && (m.caller.Returned? ==> Ends(m.taken, cb, |m.taken|, m.caller.outcome) && !m.caller.outcome.Pending?)
    && (!m.caller.Returned? ==>
          m.caller.i == |m.taken| + 1 && Lists(m.raw, m.taken) && Ends(m.taken, cb, |m.taken|, Pending))
  }

  lemma SingleStep<R>(m: Machine<R>, a: Action<R>, cb: Callback)
    requires Single(m)
    ensures Single(Step(m, a, cb))
  {
  }

  lemma TracksStep<R>(m: Machine<R>, a: Action<R>, cb: Callback)
    requires Tracks(m, cb)
    ensures Tracks(Step(m, a, cb), cb)
  {
  }

  lemma {:induction false} ExecInv<R>(actions: seq<Action<R>>, cb: Callback)
    ensures Single(Exec(actions, cb)) && Tracks(Exec(actions, cb), cb)
  {
    if |actions| > 0 {
      var m, a := Exec(actions[..|actions| - 1], cb), actions[|actions| - 1];
      ExecInv(actions[..|actions| - 1], cb);
      SingleStep(m, a, cb);
      TracksStep(m, a, cb);
    }
  }

  /** However attempts, deadline and caller interleave: at most one attempt is outstanding, and an attempt that is
      ready to send finds its channel empty, even after the caller has gone. */
  lemma {:induction false} SendsNeverBlock<R>(actions: seq<Action<R>>, cb: Callback)
    ensures var m := Exec(actions, cb);
      Outstanding(m) <= 1 && (m.running != {} ==> m.responses.None? && m.errs.None?)
  {
    ExecInv(actions, cb);
    var m := Exec(actions, cb);
    assert m.running != {} ==> |m.running| > 0;
  }

  /** The goroutines and channels are a loop over arrivals: what the caller returns is what the sequential loop
      returns for the arrivals it took, and for any further ones. */
  lemma {:induction false} RefinesTheLoop<R>(actions: seq<Action<R>>, cb: Callback, more: seq<Arrival<R>>,
                                             k: nat, o: Outcome<R>)
    requires Exec(actions, cb).caller.Returned?
    requires Ends(Exec(actions, cb).taken + more, cb, k, o)
    ensures o == Exec(actions, cb).caller.outcome && k == |Exec(actions, cb).taken|
  {
    ExecInv(actions, cb);
    var m := Exec(actions, cb);
    var all := m.taken + more;
    assert all[..|m.taken|] == m.taken && m.taken[..|m.taken|] == m.taken;
    EndsOnce(all, cb, k, o, |m.taken|, m.caller.outcome);
  }

  /* ---------- the caller is never left waiting ---------- */

  lemma ExecOneMore<R>(actions: seq<Action<R>>, a: Action<R>, cb: Callback)
    ensures Exec(actions + [a], cb) == Step(Exec(actions, cb), a, cb)
  {
    assert (actions + [a])[..|actions|] == actions;
  }

  lemma ExecTwoMore<R>(actions: seq<Action<R>>, a: Action<R>, b: Action<R>, cb: Callback)
    ensures Exec(actions + [a, b], cb) == Step(Step(Exec(actions, cb), a, cb), b, cb)
  {
    ExecOneMore(actions, a, cb);
    ExecOneMore(actions + [a], b, cb);
    assert actions + [a] + [b] == actions + [a, b];
  }

  /** Attempt `i` sends what it has come to. */
  function Sent<R>(i: nat, x: Arrival<R>): Action<R>
    requires !x.Done?
  {
    if x.Responded? then SendResponse(i, x.response) else SendError(i, x.err)
  }

  /** The caller takes it. */
  function Taken<R>(x: Arrival<R>): Action<R> {
    match x
    case Responded(_) => TakeResponse
    case Failed(_) => TakeError
    case Done(err) => TakeDone(err)
  }

  /** As long as the caller has not returned, its next arrival is at most three steps away: the attempt it waits for may
      come to anything, its result is sent, and the caller takes it. */
  lemma {:induction false} NextArrival<R>(actions: seq<Action<R>>, cb: Callback, x: Arrival<R>)
    returns (more: seq<Action<R>>, y: Arrival<R>)
    requires !Exec(actions, cb).caller.Returned? && !x.Done?
    ensures |more| <= 3 && forall i :: 0 <= i < |more| ==> !more[i].TakeDone?
    ensures Exec(actions + more, cb).taken == Exec(actions, cb).taken + [y]
    ensures var m := Exec(actions, cb);
      y == if m.responses.Some? then Responded(m.responses.value)
           else if m.errs.Some? then Failed(m.errs.value) else x
  {
    ExecInv(actions, cb);
    var m := Exec(actions, cb);
    if m.caller.Starting? {
      assert m.running == {};
      ExecOneMore(actions, Spawn, cb);
      ArrivesNow(actions + [Spawn], cb, m.caller.i, x);
      more, y := [Spawn, Sent(m.caller.i, x), Taken(x)], x;
      assert actions + [Spawn] + [Sent(m.caller.i, x), Taken(x)] == actions + more;
    } else if m.running != {} {
      var i :| i in m.running;
      assert |m.running| > 0;
      ArrivesNow(actions, cb, i, x);
      more, y := [Sent(i, x), Taken(x)], x;
    } else {
      y := if m.responses.Some? then Responded(m.responses.value) else Failed(m.errs.value);
      more := [Taken(y)];
      ExecOneMore(actions, Taken(y), cb);
    }
  }

  lemma ArrivesNow<R>(actions: seq<Action<R>>, cb: Callback, i: nat, x: Arrival<R>)
    requires var m := Exec(actions, cb); m.caller.Waiting? && i in m.running && m.responses.None? && m.errs.None?
    requires !x.Done?
    ensures Exec(actions + [Sent(i, x), Taken(x)], cb).taken == Exec(actions, cb).taken + [x]
  {
    ExecTwoMore(actions, Sent(i, x), Taken(x), cb);
  }

  /** The steps of one attempt and its arrival. */
  function Steps<R>(i: nat, x: Arrival<R>): seq<Action<R>> {
    if x.Done? then [Spawn, Taken(x)] else [Spawn, Sent(i, x), Taken(x)]
  }

  function Schedule<R>(arrivals: seq<Arrival<R>>): seq<Action<R>> {
    if |arrivals| == 0 then []
    else Schedule(arrivals[..|arrivals| - 1]) + Steps(|arrivals|, arrivals[|arrivals| - 1])
  }

  /** Whatever the sequential loop returns, for any arrivals, some run of caller and attempts returns. */
  lemma {:induction false} LoopsAreRuns<R>(arrivals: seq<Arrival<R>>, cb: Callback, k: nat, o: Outcome<R>)
    requires Ends(arrivals, cb, k, o) && !o.Pending?
    ensures Exec(Schedule(arrivals[..k]), cb).caller == Returned(o)
  {
    var front, last := arrivals[..k - 1], arrivals[k - 1];
    forall i | 0 <= i < |front| ensures Continues(front[i], cb, i + 1) { assert front[i] == arrivals[i]; }
    StillTrying(front, cb);
    OneMoreAttempt(front, cb, last);
    assert arrivals[..k] == front + [last] && (front + [last])[..k - 1] == front;
    LastDecides(arrivals, cb, k, o);
  }

  /** While the callback goes on, each attempt is heard before the next one starts. */
  ghost predicate Heeded<R>(m: Machine<R>, arrivals: seq<Arrival<R>>) {
    m == Machine(Starting(|arrivals| + 1), {}, None, None, m.raw, arrivals)
  }

  lemma {:induction false} StillTrying<R>(arrivals: seq<Arrival<R>>, cb: Callback)
    requires forall i :: 0 <= i < |arrivals| ==> Continues(arrivals[i], cb, i + 1)
    ensures Heeded(Exec(Schedule(arrivals), cb), arrivals)
  {
    if |arrivals| > 0 {
      var front, last := arrivals[..|arrivals| - 1], arrivals[|arrivals| - 1];
      StillTrying(front, cb);
      assert Continues(last, cb, |arrivals|);
      OneMoreAttempt(front, cb, last);
      assert front + [last] == arrivals;
    }
  }

  lemma OneMoreAttempt<R>(arrivals: seq<Arrival<R>>, cb: Callback, x: Arrival<R>)
    requires Heeded(Exec(Schedule(arrivals), cb), arrivals)
    ensures var n := Exec(Schedule(arrivals + [x]), cb);
      n.taken == arrivals + [x] &&
      if Continues(x, cb, |arrivals| + 1) then Heeded(n, arrivals + [x]) else n.caller.Returned?
  {
    assert (arrivals + [x])[..|arrivals|] == arrivals;
    ExecSteps(Schedule(arrivals), cb, |arrivals| + 1, x);
    Attempted(Exec(Schedule(arrivals), cb), arrivals, x, cb);
  }

  /** The machine after one attempt and its arrival. */
  function After<R>(m: Machine<R>, i: nat, x: Arrival<R>, cb: Callback): Machine<R> {
    var spawned := Step(m, Spawn, cb);
    if x.Done? then Step(spawned, Taken(x), cb) else Step(Step(spawned, Sent(i, x), cb), Taken(x), cb)
  }

  lemma ExecSteps<R>(actions: seq<Action<R>>, cb: Callback, i: nat, x: Arrival<R>)
    ensures Exec(actions + Steps(i, x), cb) == After(Exec(actions, cb), i, x, cb)
  {
    if x.Done? {
      ExecTwoMore(actions, Spawn, Taken(x), cb);
    } else {
      ExecOneMore(actions, Spawn, cb);
      ExecTwoMore(actions + [Spawn], Sent(i, x), Taken(x), cb);
      assert actions + [Spawn] + [Sent(i, x), Taken(x)] == actions + Steps(i, x);
    }
  }

  lemma Attempted<R>(m: Machine<R>, arrivals: seq<Arrival<R>>, x: Arrival<R>, cb: Callback)
    requires Heeded(m, arrivals)
    ensures var n := After(m, |arrivals| + 1, x, cb);
      n.taken == arrivals + [x] &&
      if Continues(x, cb, |arrivals| + 1) then Heeded(n, arrivals + [x]) else n.caller.Returned?
  {
    var i := |arrivals| + 1;
    assert m.running + {i} - {i} == {};
  }

  lemma LastDecides<R>(arrivals: seq<Arrival<R>>, cb: Callback, k: nat, o: Outcome<R>)
    requires 0 < k <= |arrivals| && Ends(arrivals, cb, k, o)
    requires var m := Exec(Schedule(arrivals[..k]), cb); m.caller.Returned? && m.taken == arrivals[..k]
    ensures Exec(Schedule(arrivals[..k]), cb).caller == Returned(o)
  {
    assert arrivals[..k] + arrivals[k..] == arrivals;
    RefinesTheLoop(Schedule(arrivals[..k]), cb, arrivals[k..], k, o);
  }
}
