/** sd/eureka/registrar.go: any number of callers of Register and Deregister, taking turns under a mutex, and the
    renewal loops they start and stop by a handshake. One action is one step; an action that is not enabled changes
    nothing. */
module EurekaRegistrar {
  import opened Discovery

  /** What Eureka answers to a heartbeat; an error need not carry an HTTP status. */
  datatype Renewal = Renewed | Refused(status: Option<int>)

  predicate IsNotFound(r: Renewal) {
    r == Refused(Some(404))
  }

  /** The calls made on the connection, and the returns of the registrar's own two methods. */
  datatype Event =
    | Register
    | Heartbeat(answer: Renewal)
    | Reregister
    | Deregister
    | RegisterReturned
    | DeregisterReturned

  /** Where the caller that holds the mutex stands. */
  datatype Stage = Unlocked | Registering | Registered | Deregistering | Sending | Awaiting

  /** A channel is known by the number of the loop it was made for. */
  type Channel = nat

  /** A loop selects on the channel the registrar's field held when it got there. */
  datatype Loop =
    | Ready
    | Selecting(quitc: Option<Channel>)
    | Beating
    | Expired
    | Quitting
    | Closing
    | Gone

  /** `closed` says that the channel the deregistering caller waits on has been closed. */
  datatype Machine = Machine(
    stage: Stage,
    quitc: Option<Channel>,
    loops: seq<Loop>,
    closed: bool,
    trace: seq<Event>)

  datatype Action =
    | EnterRegister
    | RegisterInstance
    | StartLoop
    | EnterDeregister
    | CheckRegistered
    | Handshake(k: nat)
    | FinishDeregister
    | Select(k: nat)
    | Tick(k: nat)
    | Beat(k: nat, answer: Renewal)
    | ReregisterInstance(k: nat)
    | DeregisterInstance(k: nat)
    | CloseQuit(k: nat)

  const START := Machine(Unlocked, None, [], false, [])

  function LoopAt(m: Machine, k: nat): Loop {
    if k < |m.loops| then m.loops[k] else Gone
  }

  function Note(m: Machine, e: Event): Machine {
    m.(trace := m.trace + [e])
  }

  function To(m: Machine, k: nat, l: Loop): Machine
    requires k < |m.loops|
  {
    m.(loops := m.loops[k := l])
  }

  function Step(m: Machine, a: Action): Machine {
    match a
    case EnterRegister =>
      if m.stage.Unlocked? then m.(stage := Registering) else m
    case RegisterInstance =>
      if !m.stage.Registering? then m
      else if m.quitc != None then Note(m.(stage := Unlocked), RegisterReturned)
      else Note(m.(stage := Registered), Register)
    case StartLoop =>
      if m.stage.Registered?
      then Note(m.(stage := Unlocked, quitc := Some(|m.loops|), loops := m.loops + [Ready]), RegisterReturned)
      else m
    case EnterDeregister =>
      if m.stage.Unlocked? then m.(stage := Deregistering) else m
    case CheckRegistered =>
      if !m.stage.Deregistering? then m
      else if m.quitc == None then Note(m.(stage := Unlocked), DeregisterReturned)
      else m.(stage := Sending)
    case Handshake(k) =>
      if m.stage.Sending? && m.quitc != None && LoopAt(m, k) == Selecting(m.quitc)
      then To(m, k, Quitting).(stage := Awaiting, closed := false)
      else m
    case FinishDeregister =>
      if m.stage.Awaiting? && m.closed
      then Note(m.(stage := Unlocked, quitc := None), DeregisterReturned)
      else m
    case Select(k) =>
      if LoopAt(m, k).Ready? then To(m, k, Selecting(m.quitc)) else m
    case Tick(k) =>
      if LoopAt(m, k).Selecting? then To(m, k, Beating) else m
    case Beat(k, answer) =>
      if LoopAt(m, k).Beating?
      then Note(To(m, k, if IsNotFound(answer) then Expired else Ready), Heartbeat(answer))
      else m
    case ReregisterInstance(k) =>
      if LoopAt(m, k).Expired? then Note(To(m, k, Ready), Reregister) else m
    case DeregisterInstance(k) =>
      if LoopAt(m, k).Quitting? then Note(To(m, k, Closing), Deregister) else m
    case CloseQuit(k) =>
      if LoopAt(m, k).Closing? then To(m, k, Gone).(closed := true) else m
  }

  function Exec(actions: seq<Action>): Machine {
    if |actions| == 0 then START else Step(Exec(actions[..|actions| - 1]), actions[|actions| - 1])
  }

  /** The language of well-behaved traces, as an automaton: a session is opened by one registration, holds
      heartbeats, each answered "not found" followed at once by a re-registration, and is closed by one
      deregistration. Register returns inside a session, Deregister outside. */
  datatype Phase = Out | In | Lost | Broken

  function Advance(p: Phase, e: Event): Phase {
    match e
    case Register => if p == Out then In else Broken
    case Heartbeat(answer) => if p != In then Broken else if IsNotFound(answer) then Lost else In
    case Reregister => if p == Lost then In else Broken
    case Deregister => if p == In then Out else Broken
    case RegisterReturned => if p == In || p == Lost then p else Broken
    case DeregisterReturned => if p == Out then Out else Broken
  }

  function Reached(trace: seq<Event>): Phase {
    if |trace| == 0 then Out else Advance(Reached(trace[..|trace| - 1]), trace[|trace| - 1])
  }

  function Last(m: Machine): Loop {
    if |m.loops| == 0 then Gone else m.loops[|m.loops| - 1]
  }

  /** The loop renews, and will see the quit signal of the channel the field holds. */
  predicate Serving(m: Machine) {
    && m.quitc == Some(|m.loops| - 1)
    && (Last(m).Ready? || Last(m) == Selecting(m.quitc) || Last(m).Beating? || Last(m).Expired?)
  }

  /** Only the last loop may be alive, and where it stands agrees with the mutex holder. */
  ghost predicate Paired(m: Machine) {
    && (forall k :: 0 <= k < |m.loops| - 1 ==> m.loops[k].Gone?)
    && match m.stage
       case Unlocked | Registering | Deregistering => if m.quitc == None then Last(m).Gone? else Serving(m)
       case Registered => m.quitc == None && Last(m).Gone?
       case Sending => Serving(m)
       case Awaiting =>
         m.quitc == Some(|m.loops| - 1) && if m.closed then Last(m).Gone? else Last(m).Quitting? || Last(m).Closing?
  }

  function Expected(m: Machine): Phase {
    if m.stage.Registered? then In
    else
      match Last(m)
      case Gone | Closing => Out
      case Expired => Lost
      case _ => In
  }

  ghost predicate Inv(m: Machine) {
    Paired(m) && Reached(m.trace) == Expected(m)
  }

  lemma PairedStep(m: Machine, a: Action)
    requires Paired(m)
    ensures Paired(Step(m, a))
  {
  }

  lemma PhaseStep(m: Machine, a: Action)
    requires Inv(m)
    ensures Reached(Step(m, a).trace) == Expected(Step(m, a))
  {
    var n := Step(m, a);
    if |n.trace| > |m.trace| { Noted(m.trace, n.trace[|m.trace|]); }
    if a.EnterRegister? || a.RegisterInstance? || a.StartLoop? || a.EnterDeregister? || a.CheckRegistered? {
      CallerPhase(m, a);
    } else {
      LoopPhase(m, a);
    }
  }

  lemma {:induction false} Noted(trace: seq<Event>, e: Event)
    ensures Reached(trace + [e]) == Advance(Reached(trace), e)
  {
    assert (trace + [e])[..|trace|] == trace;
  }

  /** What a step adds to the trace, if anything, leads from the phase before to the phase after. */
  ghost predicate Fits(m: Machine, n: Machine) {
    if |n.trace| > |m.trace|
    then n.trace == m.trace + [n.trace[|m.trace|]] && Expected(n) == Advance(Expected(m), n.trace[|m.trace|])
    else n.trace == m.trace && Expected(n) == Expected(m)
  }

  lemma CallerPhase(m: Machine, a: Action)
    requires Paired(m)
    requires a.EnterRegister? || a.RegisterInstance? || a.StartLoop? || a.EnterDeregister? || a.CheckRegistered?
    ensures Fits(m, Step(m, a))
  {
  }

  lemma LoopPhase(m: Machine, a: Action)
    requires Paired(m)
    requires !(a.EnterRegister? || a.RegisterInstance? || a.StartLoop? || a.EnterDeregister? || a.CheckRegistered?)
    ensures Fits(m, Step(m, a))
  {
  }

  lemma {:induction false} ExecInv(actions: seq<Action>)
    ensures Inv(Exec(actions))
  {
    if |actions| > 0 {
      var m, a := Exec(actions[..|actions| - 1]), actions[|actions| - 1];
      ExecInv(actions[..|actions| - 1]);
      PairedStep(m, a);
      PhaseStep(m, a);
    }
  }

  /** Whatever callers, loops and Eureka do: the trace is sessions, one after the other, the last perhaps unfinished. */
  lemma {:induction false} TraceIsSessions(actions: seq<Action>)
    ensures Reached(Exec(actions).trace) != Broken
  {
    ExecInv(actions);
  }

  lemma {:induction false} AtMostOneLoop(actions: seq<Action>, j: nat, k: nat)
    requires var m := Exec(actions); !LoopAt(m, j).Gone? && !LoopAt(m, k).Gone?
    ensures j == k
  {
    ExecInv(actions);
  }

  /** After a Deregister that returned, no heartbeat is sent before the next registration. */
  lemma {:induction false} NoHeartbeatAfterDeregister(actions: seq<Action>, i: nat, j: nat)
    requires var trace := Exec(actions).trace;
      i < j < |trace| && trace[i] == DeregisterReturned && trace[j].Heartbeat?
    ensures var trace := Exec(actions).trace; exists r :: i < r < j && trace[r] == Register
  {
    ExecInv(actions);
    OpenedBetween(Exec(actions).trace, i, j);
  }

  lemma OpenedBetween(trace: seq<Event>, i: nat, j: nat)
    requires Reached(trace) != Broken
    requires i < j < |trace| && trace[i] == DeregisterReturned && trace[j].Heartbeat?
    ensures exists r :: i < r < j && trace[r] == Register
  {
    OneMore(trace, i);
    OneMore(trace, j);
    if forall r :: i < r < j ==> trace[r] != Register { StaysOut(trace, i + 1, j); }
  }

  lemma OneMore(trace: seq<Event>, i: nat)
    requires Reached(trace) != Broken && i < |trace|
    ensures Reached(trace[..i + 1]) == Advance(Reached(trace[..i]), trace[i]) != Broken
  {
    PrefixesAreSound(trace, i + 1);
    assert trace[..i + 1][..i] == trace[..i];
  }

  lemma {:induction false} PrefixesAreSound(trace: seq<Event>, k: nat)
    requires k <= |trace| && Reached(trace) != Broken
    ensures Reached(trace[..k]) != Broken
  {
    if k < |trace| {
      PrefixesAreSound(trace[..|trace| - 1], k);
      assert trace[..|trace| - 1][..k] == trace[..k];
    } else {
      assert trace[..k] == trace;
    }
  }

  lemma {:induction false} StaysOut(trace: seq<Event>, i: nat, j: nat)
    requires i <= j <= |trace| && Reached(trace[..i]) == Out && Reached(trace) != Broken
    requires forall r :: i <= r < j ==> trace[r] != Register
    ensures Reached(trace[..j]) == Out
  {
    if i < j {
      StaysOut(trace, i, j - 1);
      OneMore(trace, j - 1);
    }
  }

  /** A caller in Deregister never waits for a loop that has gone: the loop is on its way to select on the very
      channel the caller sends on, or has taken the signal and is on its way to close the caller's channel. */
  lemma {:induction false} HandshakeCompletes(actions: seq<Action>)
    ensures var m := Exec(actions);
      && (m.stage.Sending? ==> Serving(m))
      && (m.stage.Awaiting? ==> m.closed || Last(m).Quitting? || Last(m).Closing?)
  {
    ExecInv(actions);
  }

  /** Register returns with the session open, Deregister with it closed and every loop gone. */
  lemma {:induction false} ReturnsMeanWhatTheySay(actions: seq<Action>, a: Action)
    requires |Step(Exec(actions), a).trace| > |Exec(actions).trace|
    ensures Meant(Step(Exec(actions), a))
  {
    ExecInv(actions);
    MeantStep(Exec(actions), a);
  }

  ghost predicate Meant(m: Machine) {
    |m.trace| > 0 ==>
      && (m.trace[|m.trace| - 1] == RegisterReturned ==> Serving(m))
      && (m.trace[|m.trace| - 1] == DeregisterReturned ==> forall k :: 0 <= k < |m.loops| ==> m.loops[k].Gone?)
  }

  lemma MeantStep(m: Machine, a: Action)
    requires Paired(m) && |Step(m, a).trace| > |m.trace|
    ensures Meant(Step(m, a))
  {
  }

  /* ---------- an expired instance ---------- */

  const NOT_FOUND := Heartbeat(Refused(Some(404)))

  /** The loop registers again only when the last heartbeat was answered with status 404. */
  lemma {:induction false} ReregistersOnlyIfNotFound(actions: seq<Action>, i: nat)
    requires i < |Exec(actions).trace| && Exec(actions).trace[i] == Reregister
    ensures var trace := Exec(actions).trace;
      exists j :: 0 <= j < i && trace[j] == NOT_FOUND && forall l :: j < l < i ==> trace[l] == RegisterReturned
  {
    ExecInv(actions);
    OneMore(Exec(actions).trace, i);
    var j := LostSince(Exec(actions).trace, i);
  }

  lemma {:induction false} LostSince(trace: seq<Event>, i: nat) returns (j: nat)
    requires i <= |trace| && Reached(trace) != Broken && Reached(trace[..i]) == Lost
    ensures j < i && trace[j] == NOT_FOUND && forall l :: j < l < i ==> trace[l] == RegisterReturned
  {
    OneMore(trace, i - 1);
    j := i - 1;
    if trace[i - 1] != NOT_FOUND { j := LostSince(trace, i - 1); }
  }

  /** And it always does then: the next thing it sends is the registration. */
  lemma {:induction false} NotFoundIsFollowedUp(actions: seq<Action>, i: nat, j: nat)
    requires i < j < |Exec(actions).trace| && Exec(actions).trace[i] == NOT_FOUND
    requires Exec(actions).trace[j] != RegisterReturned
    requires forall l :: i < l < j ==> Exec(actions).trace[l] == RegisterReturned
    ensures Exec(actions).trace[j] == Reregister
  {
    ExecInv(actions);
    OneMore(Exec(actions).trace, i);
    StaysLost(Exec(actions).trace, i + 1, j);
    OneMore(Exec(actions).trace, j);
  }

  lemma {:induction false} StaysLost(trace: seq<Event>, i: nat, j: nat)
    requires i <= j <= |trace| && Reached(trace) != Broken && Reached(trace[..i]) == Lost
    requires forall l :: i <= l < j ==> trace[l] == RegisterReturned
    ensures Reached(trace[..j]) == Lost
  {
    if i < j {
      StaysLost(trace, i, j - 1);
      OneMore(trace, j - 1);
    }
  }

  /* ---------- calls return, and heartbeats go on ---------- */

  predicate Enters(a: Action) {
    a.EnterRegister? || a.EnterDeregister?
  }

  /** How many steps the holder of the mutex is away from letting it go, if the loop comes to listen. */
  function Distance(m: Machine): nat {
    match m.stage
    case Unlocked => 0
    case Registering => if m.quitc == None then 2 else 1
    case Registered => 1
    case Deregistering => if m.quitc == None then 1 else 8
    case Sending => if Last(m).Selecting? then 4 else if Last(m).Ready? then 5 else if Last(m).Expired? then 6 else 7
    case Awaiting => if m.closed then 1 else if Last(m).Closing? then 2 else 3
  }

  /** Nobody is stuck holding the mutex: some step of the holder or of the loop brings it nearer to its return. */
  lemma {:induction false} AlwaysReturning(actions: seq<Action>) returns (a: Action)
    requires !Exec(actions).stage.Unlocked?
    ensures !Enters(a) && Distance(Exec(actions + [a])) < Distance(Exec(actions)) <= 8
  {
    ExecInv(actions);
    a := Nearer(Exec(actions));
    ExecOneMore(actions, [], a);
  }

  lemma Near(m: Machine)
    ensures Distance(m) <= 8
  {
  }

  lemma Nearer(m: Machine) returns (a: Action)
    requires Paired(m) && !m.stage.Unlocked?
    ensures !Enters(a) && Distance(Step(m, a)) < Distance(m) <= 8 && Towards(m, Step(m, a))
  {
    var k := |m.loops| - 1;
    match m.stage {
      case Registering => a := RegisterInstance;
      case Registered => a := StartLoop;
      case Deregistering => a := CheckRegistered;
      case Sending =>
        a := if Last(m).Selecting? then Handshake(k) else if Last(m).Ready? then Select(k)
             else if Last(m).Expired? then ReregisterInstance(k) else Beat(k, Renewed);
      case Awaiting =>
        a := if m.closed then FinishDeregister else if Last(m).Closing? then CloseQuit(k) else DeregisterInstance(k);
      case Unlocked =>
    }
  }

  /** The holder is still in its call, or has just returned from it. */
  predicate Towards(m: Machine, n: Machine) {
    if m.stage.Registering? || m.stage.Registered?
    then n.stage.Registering? || n.stage.Registered? || (n.stage.Unlocked? && Returned(n, RegisterReturned))
    else n.stage.Deregistering? || n.stage.Sending? || n.stage.Awaiting? ||
         (n.stage.Unlocked? && Returned(n, DeregisterReturned))
  }

  predicate Returned(m: Machine, e: Event) {
    |m.trace| > 0 && m.trace[|m.trace| - 1] == e
  }

  lemma ExecOneMore(actions: seq<Action>, more: seq<Action>, a: Action)
    ensures Exec(actions + (more + [a])) == Step(Exec(actions + more), a)
    ensures more == [] ==> Exec(actions + [a]) == Step(Exec(actions), a)
  {
    assert (actions + (more + [a]))[..|actions + more|] == actions + more;
    assert more == [] ==> actions + more == actions && more + [a] == [a];
  }

  /** So a call under way can always be brought to its return in eight steps, whatever came before. */
  lemma {:induction false} CallsReturn(actions: seq<Action>) returns (more: seq<Action>)
    requires !Exec(actions).stage.Unlocked?
    ensures |more| <= 8 && forall i :: 0 <= i < |more| ==> !Enters(more[i])
    ensures var m, n := Exec(actions), Exec(actions + more);
      && n.stage.Unlocked?
      && if m.stage.Registering? || m.stage.Registered? then Returned(n, RegisterReturned) && Serving(n)
         else Returned(n, DeregisterReturned) && forall k :: 0 <= k < |n.loops| ==> n.loops[k].Gone?
  {
    var m := Exec(actions);
    more := [];
    assert actions + more == actions;
    ExecInv(actions);
    Near(m);
    while !Exec(actions + more).stage.Unlocked?
      invariant |more| + Distance(Exec(actions + more)) <= 8
      invariant forall i :: 0 <= i < |more| ==> !Enters(more[i])
      invariant more == [] || Towards(m, Exec(actions + more))
      invariant more == [] ==> Exec(actions + more) == m
      decreases Distance(Exec(actions + more))
    {
      ExecInv(actions + more);
      var a := Nearer(Exec(actions + more));
      ExecOneMore(actions, more, a);
      more := more + [a];
    }
    ExecInv(actions + more);
    Settled(Exec(actions + more));
  }

  lemma Settled(m: Machine)
    requires Paired(m) && Reached(m.trace) == Expected(m) && m.stage.Unlocked?
    ensures Returned(m, RegisterReturned) ==> Serving(m)
    ensures Returned(m, DeregisterReturned) ==> forall k :: 0 <= k < |m.loops| ==> m.loops[k].Gone?
  {
    if |m.trace| > 0 { assert m.trace == m.trace[..|m.trace| - 1] + [m.trace[|m.trace| - 1]]; }
  }

  /** A caller that finds the mutex free gets it. */
  lemma {:induction false} CallsBegin(actions: seq<Action>)
    requires Exec(actions).stage.Unlocked?
    ensures Exec(actions + [EnterRegister]) == Exec(actions).(stage := Registering)
    ensures Exec(actions + [EnterDeregister]) == Exec(actions).(stage := Deregistering)
  {
    ExecOneMore(actions, [], EnterRegister);
    ExecOneMore(actions, [], EnterDeregister);
  }

  /** As long as a registration stands, the loop can send its next heartbeat within four steps of its own, after
      registering again if it has to. */
  lemma {:induction false} HeartbeatsGoOn(actions: seq<Action>, answer: Renewal) returns (more: seq<Action>)
    requires Serving(Exec(actions))
    ensures |more| <= 4
    ensures var m, n := Exec(actions), Exec(actions + more);
      && n.trace == m.trace + (if Last(m).Expired? then [Reregister] else []) + [Heartbeat(answer)]
      && n.stage == m.stage && n.quitc == m.quitc
  {
    var m := Exec(actions);
    var k := |m.loops| - 1;
    more := if Last(m).Expired? then [ReregisterInstance(k), Select(k), Tick(k), Beat(k, answer)]
            else if Last(m).Ready? then [Select(k), Tick(k), Beat(k, answer)]
            else if Last(m).Selecting? then [Tick(k), Beat(k, answer)]
            else [Beat(k, answer)];
    Follow(actions, more);
    BeatsOn(m, k, more, answer);
  }

  function Steps(m: Machine, more: seq<Action>): Machine
    decreases |more|
  {
    if |more| == 0 then m else Steps(Step(m, more[0]), more[1..])
  }

  lemma {:induction false} Follow(actions: seq<Action>, more: seq<Action>)
    ensures Exec(actions + more) == Steps(Exec(actions), more)
    decreases |more|
  {
    if |more| == 0 {
      assert actions + more == actions;
    } else {
      ExecOneMore(actions, [], more[0]);
      Follow(actions + [more[0]], more[1..]);
      assert actions + [more[0]] + more[1..] == actions + more;
    }
  }

  lemma BeatsOn(m: Machine, k: nat, more: seq<Action>, answer: Renewal)
    requires Serving(m) && k == |m.loops| - 1
    requires more == if Last(m).Expired? then [ReregisterInstance(k), Select(k), Tick(k), Beat(k, answer)]
                     else if Last(m).Ready? then [Select(k), Tick(k), Beat(k, answer)]
                     else if Last(m).Selecting? then [Tick(k), Beat(k, answer)]
                     else [Beat(k, answer)]
    ensures var n := Steps(m, more);
      && n.trace == m.trace + (if Last(m).Expired? then [Reregister] else []) + [Heartbeat(answer)]
      && n.stage == m.stage && n.quitc == m.quitc
    decreases |more|
  {
    if !Last(m).Beating? {
      BeatsOn(Step(m, more[0]), k, more[1..], answer);
    } else {
      assert more[1..] == [];
    }
  }
}
