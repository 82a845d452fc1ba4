/** util/conn/manager.go: the manager's select loop, its timer, its dial goroutines and their one-slot channel.
    One action is one case of the select, or one step of a dial goroutine; an action that is not enabled changes
    nothing. */
module ConnManager {
  import opened Backoff
  import opened Discovery

  /** Connections are numbered as they are dialled. */
  type Id = nat

  /** `queue` is the channel `connc`, `timer` the wait `reconnectc` was set to, if it is set, `waiting` the results of
      dials still to be sent. `startup` says that the result of the first dial is still queued. The rest is bookkeeping:
      `closes` counts the calls of each connection's Close, `dials` the goroutines started, `failed` and `worked` the
      results received, `errors` the errors put on a current connection, `early` those put before the first result was
      received, `streak` the failures received since the last success. */
  datatype Manager = Manager(
    conn: Option<Id>,
    queue: Option<Option<Id>>,
    timer: Option<int>,
    dialing: nat,
    waiting: multiset<Option<Id>>,
    backoff: int,
    startup: bool,
    next: Id,
    closes: multiset<Id>,
    dials: nat,
    failed: nat,
    worked: nat,
    errors: nat,
    early: nat,
    streak: nat)

  datatype Action =
    | Fire
    | Dialled(ok: bool)
    | Send(result: Option<Id>)
    | Receive(jitter: Jitter)
    | Put(err: bool)

  /** The first dial happens before the loop; its result is the current connection and is queued as well. */
  function Start(ok: bool): Manager {
    var first := if ok then Some(0) else None;
    Manager(first, Some(first), None, 0, multiset{}, SECOND, true, if ok then 1 else 0, multiset{}, 0, 0, 0, 0, 0, 0)
  }

  function Step(m: Manager, a: Action): Manager {
    match a
    case Fire =>
      if m.timer != None then m.(timer := None, dialing := m.dialing + 1, dials := m.dials + 1) else m
    case Dialled(ok) =>
      if m.dialing == 0 then m
      else if ok then m.(dialing := m.dialing - 1, waiting := m.waiting + multiset{Some(m.next)}, next := m.next + 1)
      else m.(dialing := m.dialing - 1, waiting := m.waiting + multiset{None})
    case Send(result) =>
      if result in m.waiting && m.queue == None
      then m.(queue := Some(result), waiting := m.waiting - multiset{result})
      else m
    case Receive(jitter) =>
      if m.queue == None then m
      else if m.queue.value == None then
        var longer := Next(m.backoff, jitter);
        m.(conn := None, queue := None, timer := Some(longer), backoff := longer, startup := false,
           failed := m.failed + 1, streak := m.streak + 1)
      else
        m.(conn := m.queue.value, queue := None, timer := None, backoff := SECOND, startup := false,
           worked := m.worked + 1, streak := 0)
    case Put(err) =>
      if err && m.conn != None
      then m.(conn := None, timer := Some(1), closes := m.closes + multiset{m.conn.value}, errors := m.errors + 1,
              early := if m.startup then m.early + 1 else m.early)
      else m
  }

  function Exec(ok: bool, actions: seq<Action>): Manager {
    if |actions| == 0 then Start(ok) else Step(Exec(ok, actions[..|actions| - 1]), actions[|actions| - 1])
  }

  lemma ExecOneMore(ok: bool, actions: seq<Action>, i: nat)
    requires i < |actions|
    ensures Exec(ok, actions[..i + 1]) == Step(Exec(ok, actions[..i]), actions[i])
  {
    assert actions[..i + 1][..i] == actions[..i];
  }

  /** The loop in its own terms: its variables, one select per step, and the connections it closes. In between, the
      dial goroutines it started move: `dialing` of them are at work, and those in `waiting` want to send. */
  method Loop(ok: bool, actions: seq<Action>)
    returns (conn: Option<Id>, connc: Option<Option<Id>>, reconnectc: Option<int>, backoff: int, closed: multiset<Id>)
    ensures var m := Exec(ok, actions);
      && conn == m.conn && connc == m.queue && reconnectc == m.timer && backoff == m.backoff && closed == m.closes
  {
    conn := if ok then Some(0) else None;
    connc, reconnectc, backoff, closed := Some(conn), None, SECOND, multiset{};
    var dialing, waiting, next := 0, multiset{}, if ok then 1 else 0;
    ghost var m := Start(ok);
    for i := 0 to |actions|
      invariant m == Exec(ok, actions[..i])
      invariant conn == m.conn && connc == m.queue && reconnectc == m.timer && backoff == m.backoff
      invariant closed == m.closes && dialing == m.dialing && waiting == m.waiting && next == m.next
    {
      ExecOneMore(ok, actions, i);
      m := Step(m, actions[i]);
      match actions[i] {
        case Fire =>
          if reconnectc != None { reconnectc, dialing := None, dialing + 1; }
        case Dialled(done) =>
          if dialing > 0 {
            var dialled := if done then Some(next) else None;
            dialing, waiting, next := dialing - 1, waiting + multiset{dialled}, if done then next + 1 else next;
          }
        case Send(result) =>
          if result in waiting && connc == None { connc, waiting := Some(result), waiting - multiset{result}; }
        case Receive(jitter) =>
          if connc != None {
            conn, connc := connc.value, None;
            if conn == None {
              backoff := Exponential(backoff, jitter);
              reconnectc := Some(backoff);
            } else {
              backoff := SECOND;
              reconnectc := None;
            }
          }
        case Put(err) =>
          if err && conn != None {
            closed := closed + multiset{conn.value};
            conn, reconnectc := None, Some(1);
          }
      }
    }
    assert actions[..|actions|] == actions;
  }

  /** Dial results still to be received. */
  function Outstanding(m: Manager): nat {
    m.dialing + |m.waiting| + if m.queue == None then 0 else 1
  }

  /** What will make the manager serve a connection: having one, a timer to dial again, or a result to come. */
  function Tokens(m: Manager): nat {
    (if m.conn == None then 0 else 1) + (if m.timer != None then 1 else 0) + Outstanding(m)
  }

  /** Where connection `id` is: current, on its way, or closed, each time it was. */
  function Places(m: Manager, id: Id): nat {
    (if m.conn == Some(id) then 1 else 0) + (if m.queue == Some(Some(id)) then 1 else 0) +
    m.waiting[Some(id)] + m.closes[id]
  }

  /** One token; every connection is in one place; a dial for every failure and every error, no more. */
  ghost predicate Strong(m: Manager) {
    && Tokens(m) == 1
    && (forall id: Id :: id < m.next ==> Places(m, id) == 1)
    && (forall id: Id :: id >= m.next ==> Places(m, id) == 0)
    && m.dials + (if m.timer != None then 1 else 0) == m.failed + m.errors
  }

  /** What holds from the very first step on: never stranded, and no dial that was not paid for. */
  ghost predicate Weak(m: Manager) {
    && Tokens(m) >= 1
    && m.dials + (if m.timer != None then 1 else 0) <= m.failed + m.errors
    && SECOND <= m.backoff <= Cap(SECOND, m.streak)
  }

  /** While the first result is queued: nothing else has moved, unless an error was put on the first connection. */
  ghost predicate Starting(ok: bool, m: Manager) {
    && m.startup && m.queue == Some(if ok then Some(0) else None)
    && (if m.early == 0 then m == Start(ok) else ok && m.conn == None && m.closes[0] == 1)
  }

  lemma WeakStep(m: Manager, a: Action)
    requires Weak(m)
    ensures Weak(Step(m, a))
  {
    WeakTokens(m, a);
    if a.Receive? && m.queue == Some(None) { NextUnderCap(SECOND, m.backoff, m.streak, a.jitter); }
  }

  lemma WeakTokens(m: Manager, a: Action)
    requires Tokens(m) >= 1
    ensures Tokens(Step(m, a)) >= 1
  {
  }

  lemma StartingStep(ok: bool, m: Manager, a: Action)
    requires Starting(ok, m) && !a.Receive?
    ensures Starting(ok, Step(m, a))
  {
  }

  lemma StartedQuietly(ok: bool, n: Manager)
    requires n.conn == Start(ok).conn && n.queue == None && (n.timer == None <==> ok) && n.dialing == 0
    requires n.waiting == multiset{} && n.closes == multiset{} && n.next == Start(ok).next
    requires n.dials == 0 && n.errors == 0 && n.failed == if ok then 0 else 1
    ensures Strong(n)
  {
  }

  lemma {:induction false} StrongStep(m: Manager, a: Action)
    requires Strong(m)
    ensures Strong(Step(m, a))
  {
    var n := Step(m, a);
    forall id: Id ensures Places(n, id) == if id < n.next then 1 else 0 {
      if a.Receive? { PlacesReceived(m, a.jitter, id); } else { PlacesMoved(m, a, id); }
    }
    StrongTokens(m, a);
  }

  lemma StrongTokens(m: Manager, a: Action)
    requires Strong(m)
    ensures var n := Step(m, a); Tokens(n) == 1 && n.dials + (if n.timer != None then 1 else 0) == n.failed + n.errors
  {
    if a.Send? && a.result in m.waiting { assert |m.waiting - multiset{a.result}| == |m.waiting| - 1; }
  }

  /** No step but a receive changes how many places a connection is in, except that a dial makes a new one. */
  lemma PlacesMoved(m: Manager, a: Action, id: Id)
    requires !a.Receive?
    ensures Places(Step(m, a), id) == Places(m, id) + if m.next <= id < Step(m, a).next then 1 else 0
  {
    match a
    case Fire =>
    case Dialled(ok) => PlacesDialled(m, ok, id);
    case Send(result) => PlacesSent(m, result, id);
    case Put(err) => PlacesClosed(m, err, id);
  }

  lemma PlacesDialled(m: Manager, ok: bool, id: Id)
    ensures var n := Step(m, Dialled(ok)); Places(n, id) == Places(m, id) + if m.next <= id < n.next then 1 else 0
  {
    if m.dialing > 0 { Joined(m.waiting, if ok then Some(m.next) else None, Some(id)); }
  }

  lemma PlacesSent(m: Manager, result: Option<Id>, id: Id)
    ensures var n := Step(m, Send(result)); n.next == m.next && Places(n, id) == Places(m, id)
  {
    if result in m.waiting && m.queue == None { Left(m.waiting, result, Some(id)); }
  }

  lemma PlacesClosed(m: Manager, err: bool, id: Id)
    ensures var n := Step(m, Put(err)); n.next == m.next && Places(n, id) == Places(m, id)
  {
    if err && m.conn != None { Joined(m.closes, m.conn.value, id); }
  }

  lemma Joined<T>(s: multiset<T>, x: T, y: T)
    ensures (s + multiset{x})[y] == s[y] + if x == y then 1 else 0
  {
  }

  lemma Left<T>(s: multiset<T>, x: T, y: T)
    requires x in s
    ensures (s - multiset{x})[y] == s[y] - if x == y then 1 else 0
  {
  }

  /** A receive loses the current connection, if there is one. */
  lemma PlacesReceived(m: Manager, jitter: Jitter, id: Id)
    requires m.conn == None || m.queue == None
    ensures Places(Step(m, Receive(jitter)), id) == Places(m, id)
  {
  }

  ghost predicate Inv(ok: bool, m: Manager) {
    Weak(m) && if m.startup then Starting(ok, m) else m.early == 0 ==> Strong(m)
  }

  lemma StepInv(ok: bool, m: Manager, a: Action)
    requires Inv(ok, m)
    ensures Inv(ok, Step(m, a))
  {
    WeakStep(m, a);
    if m.startup && a.Receive? {
      if m.early == 0 { StartedQuietly(ok, Step(m, a)); }
    } else if m.startup {
      StartingStep(ok, m, a);
    } else {
      assert !Step(m, a).startup && Step(m, a).early == m.early;
      if m.early == 0 { StrongStep(m, a); }
    }
  }

  lemma {:induction false} ExecInv(ok: bool, actions: seq<Action>)
    ensures Inv(ok, Exec(ok, actions))
  {
    if |actions| > 0 {
      ExecInv(ok, actions[..|actions| - 1]);
      StepInv(ok, Exec(ok, actions[..|actions| - 1]), actions[|actions| - 1]);
    }
  }

  /** From the first step on, whatever callers do: the manager has a connection, a timer or a result to come; it
      dials no more often than dials failed and errors were put; and its backoff stays in bounds that triple with
      every failure in a row. */
  lemma {:induction false} NeverStranded(ok: bool, actions: seq<Action>)
    ensures var m := Exec(ok, actions);
      && (m.conn != None || m.timer != None || Outstanding(m) > 0)
      && m.dials <= m.failed + m.errors
      && SECOND <= m.backoff <= Cap(SECOND, m.streak) <= MINUTE
  {
    ExecInv(ok, actions);
  }

  /** Once the first result is received, everything is accounted for, and stays so, exactly if no error was put on
      the first connection before that. */
  lemma {:induction false} StartupExactly(ok: bool, actions: seq<Action>, jitter: Jitter)
    requires Exec(ok, actions).startup
    ensures Strong(Exec(ok, actions + [Receive(jitter)])) <==> Exec(ok, actions).errors == 0
  {
    var m, all := Exec(ok, actions), actions + [Receive(jitter)];
    assert all[..|all| - 1] == actions;
    ExecInv(ok, actions);
    EarlyErrors(ok, actions);
    if m.early > 0 { Untidy(ok, m, jitter); } else { StartedQuietly(ok, Step(m, Receive(jitter))); }
  }

  lemma Untidy(ok: bool, m: Manager, jitter: Jitter)
    requires Starting(ok, m) && m.early > 0
    ensures !Strong(Step(m, Receive(jitter)))
  {
    assert Places(Step(m, Receive(jitter)), 0) >= 2;
  }

  lemma {:induction false} EarlyErrors(ok: bool, actions: seq<Action>)
    ensures var m := Exec(ok, actions); m.startup ==> m.errors == m.early
  {
    if |actions| > 0 {
      EarlyErrors(ok, actions[..|actions| - 1]);
      EarlyStep(Exec(ok, actions[..|actions| - 1]), actions[|actions| - 1]);
    }
  }

  lemma EarlyStep(m: Manager, a: Action)
    requires m.startup ==> m.errors == m.early
    ensures Step(m, a).startup ==> Step(m, a).errors == Step(m, a).early
  {
  }

  /** After a quiet start: exactly one of a current connection, a timer and one outstanding result; so a dial that
      is done finds room in the channel. Each dial is paid for by one failed dial or one error. */
  lemma {:induction false} OneToken(ok: bool, actions: seq<Action>)
    requires var m := Exec(ok, actions); !m.startup && m.early == 0
    ensures var m := Exec(ok, actions);
      && (m.conn != None ==> m.timer == None && Outstanding(m) == 0)
      && (m.timer != None ==> m.conn == None && Outstanding(m) == 0)
      && (m.conn == None && m.timer == None ==> Outstanding(m) == 1)
      && (|m.waiting| > 0 ==> m.queue == None)
      && m.dials + (if m.timer != None then 1 else 0) == m.failed + m.errors
  {
    ExecInv(ok, actions);
  }

  /** After a quiet start, no connection is leaked, closed twice, or served once closed. */
  lemma {:induction false} ConnectionsAreClosedOnce(ok: bool, actions: seq<Action>, id: Id)
    requires var m := Exec(ok, actions); !m.startup && m.early == 0 && id < m.next
    ensures var m := Exec(ok, actions);
      && m.closes[id] <= 1
      && (m.conn == Some(id) ==> m.closes[id] == 0)
      && (m.conn != Some(id) && Outstanding(m) == 0 ==> m.closes[id] == 1)
  {
    ExecInv(ok, actions);
    var m := Exec(ok, actions);
    assert Places(m, id) == 1;
    assert m.waiting[Some(id)] <= |m.waiting|;
  }

  /** An error put too soon: the first connection is closed, then served again. */
  lemma EarlyErrorServesClosed(jitter: Jitter)
    ensures var m := Exec(true, [Put(true), Receive(jitter)]); m.conn == Some(0) && m.closes[0] == 1
  {
    var one, two := [Put(true)], [Put(true), Receive(jitter)];
    assert two[..1] == one && one[..0] == [];
    assert Exec(true, one) == Step(Exec(true, []), Put(true));
  }

  /** Between successes the backoff only grows. */
  lemma {:induction false} BackoffGrows(ok: bool, actions: seq<Action>, k: nat)
    requires k <= |actions|
    ensures Exec(ok, actions[..k]).worked <= Exec(ok, actions).worked
    ensures Exec(ok, actions[..k]).worked == Exec(ok, actions).worked ==>
              Exec(ok, actions[..k]).backoff <= Exec(ok, actions).backoff
  {
    if k == |actions| {
      assert actions[..k] == actions;
    } else {
      var most := actions[..|actions| - 1];
      assert most[..k] == actions[..k];
      BackoffGrows(ok, most, k);
      ExecInv(ok, most);
      GrowsStep(Exec(ok, most), actions[|actions| - 1]);
    }
  }

  lemma GrowsStep(m: Manager, a: Action)
    requires Weak(m)
    ensures var n := Step(m, a); n.worked > m.worked || (n.worked == m.worked && n.backoff >= m.backoff)
  {
    if a.Receive? { NextBounds(m.backoff, a.jitter); }
  }

  /** How many steps away a connection is, if nothing fails from now on. */
  ghost function Distance(m: Manager): nat {
    if m.conn != None then 0
    else if m.queue != None then if m.queue.value == None then 5 else 1
    else if exists id :: Some(id) in m.waiting then 2
    else if m.dialing > 0 then 3
    else if m.timer != None then 4
    else 6
  }

  /** Never stuck: as long as there is no connection, some step of the manager's own brings one closer. */
  lemma {:induction false} AlwaysRecovering(ok: bool, actions: seq<Action>) returns (a: Action)
    requires Exec(ok, actions).conn == None
    ensures !a.Put? && Distance(Step(Exec(ok, actions), a)) < Distance(Exec(ok, actions)) <= 6
  {
    ExecInv(ok, actions);
    a := Closer(Exec(ok, actions));
  }

  lemma Closer(m: Manager) returns (a: Action)
    requires m.conn == None && Tokens(m) >= 1
    ensures !a.Put? && Distance(Step(m, a)) < Distance(m) <= 6
  {
    if m.queue != None {
      a := Receive(1.0);
    } else if id :| Some(id) in m.waiting {
      a := Send(Some(id));
    } else if m.dialing > 0 {
      a := Dialled(true);
      assert Some(m.next) in Step(m, a).waiting;
    } else if m.timer != None {
      a := Fire;
    } else {
      var result :| result in m.waiting;
      a := Send(result);
    }
  }

  /* ---------- what each event does, and how long the manager waits ---------- */

  /** A failed dial is followed by a timer at the doubled wait; a dial that worked ends the waiting; an error closes
      the current connection, which no one is given any more, and dials again at once. Nothing else sets a timer,
      changes the wait, or closes a connection. */
  lemma {:induction false} EachEventExactly(ok: bool, actions: seq<Action>, a: Action)
    ensures var m, n := Exec(ok, actions), Exec(ok, actions + [a]);
      && (a.Receive? && m.queue == Some(None) ==>
            n.conn == None && n.timer == Some(n.backoff) && Doubled(m.backoff, a.jitter, n.backoff))
      && (a.Receive? && m.queue != None && m.queue.value != None ==>
            n.conn == m.queue.value && n.timer == None && n.backoff == SECOND)
      && (a == Put(true) && m.conn != None ==>
            n.conn == None && n.timer == Some(1) && n.closes == m.closes + multiset{m.conn.value})
      && (a.Fire? && m.timer != None ==> n.timer == None && n.dialing == m.dialing + 1)
      && (!(a.Receive? && m.queue != None) ==> n.backoff == m.backoff)
      && (!(a.Receive? && m.queue != None) && !(a == Put(true) && m.conn != None) ==>
            n.conn == m.conn && n.closes == m.closes && (n.timer == m.timer || a.Fire?))
  {
    var m, all := Exec(ok, actions), actions + [a];
    assert all[..|all| - 1] == actions;
    ExecInv(ok, actions);
    if a.Receive? && m.queue == Some(None) { NextDoubles(m.backoff, a.jitter); }
  }

  /** A dial result, when the loop has received it. */
  datatype Result = Result(worked: bool, jitter: Jitter)

  /** The results received, in order, once `a` happens in state `m`. */
  function Heard(rs: seq<Result>, m: Manager, a: Action): seq<Result> {
    if a.Receive? && m.queue != None then rs + [Result(m.queue.value != None, a.jitter)] else rs
  }

  /** The results the loop has received, in order. */
  function Results(ok: bool, actions: seq<Action>): seq<Result> {
    if |actions| == 0 then []
    else
      var front := actions[..|actions| - 1];
      Heard(Results(ok, front), Exec(ok, front), actions[|actions| - 1])
  }

  /** The last `k` results were failures, and the one before them was not. */
  predicate Failing(rs: seq<Result>, k: nat) {
    && k <= |rs|
    && (forall i :: |rs| - k <= i < |rs| ==> !rs[i].worked)
    && (k < |rs| ==> rs[|rs| - k - 1].worked)
  }

  predicate Unshortened(rs: seq<Result>, k: nat) {
    k <= |rs| && forall i :: |rs| - k <= i < |rs| ==> rs[i].jitter >= 1.0
  }

  lemma ResultsBefore(before: seq<Result>, r: Result, k: nat)
    requires Failing(before + [r], k)
    ensures r.worked <==> k == 0
    ensures k > 0 ==> Failing(before, k - 1)
    ensures k > 0 && Unshortened(before + [r], k) ==> Unshortened(before, k - 1) && r.jitter >= 1.0
  {
    var rs := before + [r];
    assert rs[|before|] == r && forall i :: 0 <= i < |before| ==> before[i] == rs[i];
  }

  lemma WaitsLonger(backoff: int, jitter: Jitter, k: nat, unshortened: bool)
    requires k > 0 && SECOND <= backoff <= Cap(SECOND, k - 1) && (unshortened ==> Floor(SECOND, k - 1) <= backoff)
    ensures SECOND <= Next(backoff, jitter) <= Cap(SECOND, k)
    ensures unshortened && jitter >= 1.0 ==> Floor(SECOND, k) <= Next(backoff, jitter)
  {
    NextUnderCap(SECOND, backoff, k - 1, jitter);
    if unshortened && jitter >= 1.0 { NextOverFloor(SECOND, backoff, k - 1, jitter); }
  }

  /** The wait fits the results received. */
  predicate Waits(backoff: int, rs: seq<Result>, k: nat) {
    Failing(rs, k) ==>
      SECOND <= backoff <= Cap(SECOND, k) && (Unshortened(rs, k) ==> Floor(SECOND, k) <= backoff)
  }

  lemma WaitsStep(m: Manager, a: Action, rs: seq<Result>, k: nat)
    requires Waits(m.backoff, rs, k) && (k > 0 ==> Waits(m.backoff, rs, k - 1))
    ensures Waits(Step(m, a).backoff, Heard(rs, m, a), k)
  {
    if a.Receive? && m.queue != None {
      var r := Result(m.queue.value != None, a.jitter);
      if Failing(rs + [r], k) {
        ResultsBefore(rs, r, k);
        if k > 0 { WaitsLonger(m.backoff, a.jitter, k, Unshortened(rs, k - 1)); }
      }
    }
  }

  lemma {:induction false} ExecWaits(ok: bool, actions: seq<Action>, k: nat)
    ensures Waits(Exec(ok, actions).backoff, Results(ok, actions), k)
  {
    if |actions| > 0 {
      var front := actions[..|actions| - 1];
      ExecWaits(ok, front, k);
      if k > 0 { ExecWaits(ok, front, k - 1); }
      WaitsStep(Exec(ok, front), actions[|actions| - 1], Results(ok, front), k);
    }
  }

  /** After `k` failures in a row the manager waits at most 3^k seconds, and at least 2^k if no jitter shortened a wait,
      either way no more than a minute. */
  lemma {:induction false} BackoffAfterFailures(ok: bool, actions: seq<Action>, k: nat)
    requires Failing(Results(ok, actions), k)
    ensures SECOND <= Exec(ok, actions).backoff <= Cap(SECOND, k)
    ensures Unshortened(Results(ok, actions), k) ==> Floor(SECOND, k) <= Exec(ok, actions).backoff
  {
    ExecWaits(ok, actions, k);
    assert Waits(Exec(ok, actions).backoff, Results(ok, actions), k);
  }
}
