/** sd/internal/instance/cache.go: the latest event, sorted, de-duplicated and broadcast to subscribers. */
module InstanceCaching {
  import opened Discovery
  import opened Order

  /* ---------- specification ---------- */

  /** `logs[ch]` is everything ever delivered to `ch`, by value. */
  datatype Model<!K> = Model(state: Event, registered: set<K>, logs: map<K, seq<Event>>)

  function Log<K>(m: Model<K>, ch: K): seq<Event> {
    if ch in m.logs then m.logs[ch] else []
  }

  /** Sorting the instances is what makes permuted events equal. */
  function Normal(e: Event): Event {
    match e.instances
    case None => e
    case Some(s) => e.(instances := Some(Sort(s)))
  }

  function Updated<K>(m: Model<K>, e: Event): Model<K> {
    var n := Normal(e);
    if n == m.state then m
    else Model(n, m.registered,
               map ch | ch in m.logs.Keys + m.registered :: if ch in m.registered then Log(m, ch) + [n] else Log(m, ch))
  }

  lemma UpdatedBySorted<K>(m: Model<K>, e: Event)
    ensures Normal(Normal(e)) == Normal(e) && Updated(m, Normal(e)) == Updated(m, e)
  {
    match e.instances
    case None =>
    case Some(s) =>
      SortSorts(s);
      SortOfSorted(Sort(s));
  }

  /** An event that lists the same instances in another order is no news. */
  lemma PermutationIsDropped<K>(m: Model<K>, e: Event, instances: seq<string>)
    requires e.instances != None && multiset(instances) == multiset(e.instances.value)
    ensures Updated(Updated(m, e), e.(instances := Some(instances))) == Updated(m, e)
  {
    SortOfPermutation(e.instances.value, instances);
  }

  lemma UpdatedWithNews<K>(m: Model<K>, e: Event, logs: map<K, seq<Event>>)
    requires Normal(e) != m.state && m.registered <= m.logs.Keys && logs.Keys == m.logs.Keys
    requires forall ch :: ch in logs ==> logs[ch] == m.logs[ch] + if ch in m.registered then [Normal(e)] else []
    ensures Updated(m, e) == Model(Normal(e), m.registered, logs)
  {
    var u := Updated(m, e).logs;
    assert u.Keys == logs.Keys;
    forall ch | ch in logs ensures u[ch] == logs[ch] { assert Log(m, ch) == m.logs[ch]; }
    assert u == logs;
  }

  function Registered<K>(m: Model<K>, ch: K): Model<K> {
    Model(m.state, m.registered + {ch}, m.logs[ch := Log(m, ch) + [m.state]])
  }

  lemma RegisteredLogs<K>(m: Model<K>, ch: K, logs: map<K, seq<Event>>)
    requires logs.Keys == m.logs.Keys + {ch} && logs[ch] == Log(m, ch) + [m.state]
    requires forall c :: c in m.logs && c != ch ==> logs[c] == m.logs[c]
    ensures Registered(m, ch) == Model(m.state, m.registered + {ch}, logs)
  {
  }

  function Deregistered<K>(m: Model<K>, ch: K): Model<K> {
    m.(registered := m.registered - {ch})
  }

  datatype Op<!K> = Update(event: Event) | Register(ch: K) | Deregister(ch: K)

  function Do<K>(m: Model<K>, op: Op<K>): Model<K> {
    match op
    case Update(e) => Updated(m, e)
    case Register(ch) => Registered(m, ch)
    case Deregister(ch) => Deregistered(m, ch)
  }

  function New<K>(): Model<K> {
    Model(Event(None, None), {}, map[])
  }

  function Run<K>(ops: seq<Op<K>>): Model<K> {
    if |ops| == 0 then New() else Do(Run(ops[..|ops| - 1]), ops[|ops| - 1])
  }

  function Last<T>(s: seq<T>): T
    requires |s| > 0
  {
    s[|s| - 1]
  }

  predicate Agrees<K(!new)>(m: Model<K>, ch: K) {
    ch in m.registered ==> |Log(m, ch)| > 0 && Last(Log(m, ch)) == m.state
  }

  /** After every complete operation a registered channel's last event is the sorted state. */
  lemma {:induction false} SubscribersAgree<K(!new)>(ops: seq<Op<K>>, ch: K)
    ensures Normal(Run(ops).state) == Run(ops).state
    ensures Agrees(Run(ops), ch)
  {
    if |ops| > 0 {
      SubscribersAgree(ops[..|ops| - 1], ch);
      match ops[|ops| - 1] {
        case Update(e) =>
          if e.instances.Some? {
            SortSorts(e.instances.value);
            SortOfSorted(Sort(e.instances.value));
          }
        case _ =>
      }
    }
  }

  predicate Stutters(log: seq<Event>) {
    exists i :: 0 < i < |log| && log[i - 1] == log[i]
  }

  /** Operation `i` registers `ch` although the state is what `ch` received last. */
  predicate RepeatsState<K(==)>(ops: seq<Op<K>>, ch: K, i: int) {
    && 0 <= i < |ops| && ops[i] == Register(ch)
    && var m := Run(ops[..i]); |Log(m, ch)| > 0 && Last(Log(m, ch)) == m.state
  }

  lemma StutterOfSnoc(log: seq<Event>, e: Event)
    ensures Stutters(log + [e]) <==> Stutters(log) || (|log| > 0 && Last(log) == e)
  {
    var next := log + [e];
    if Stutters(log) {
      var i :| 0 < i < |log| && log[i - 1] == log[i];
      assert next[i - 1] == next[i];
    }
    if |log| > 0 && Last(log) == e { assert next[|log| - 1] == next[|log|]; }
  }

  lemma RepeatsOfSnoc<K(!new)>(ops: seq<Op<K>>, op: Op<K>, ch: K)
    ensures (exists i :: RepeatsState(ops + [op], ch, i)) <==>
            (exists i :: RepeatsState(ops, ch, i)) || RepeatsState(ops + [op], ch, |ops|)
  {
    var next := ops + [op];
    forall i | 0 <= i < |ops| ensures RepeatsState(next, ch, i) <==> RepeatsState(ops, ch, i) {
      assert next[..i] == ops[..i];
    }
    if i :| RepeatsState(ops, ch, i) { assert RepeatsState(next, ch, i); }
  }

  /** A channel is told the same event twice in a row exactly when it is registered again without need. */
  lemma {:induction false} StutterExactly<K(!new)>(ops: seq<Op<K>>, ch: K)
    ensures Stutters(Log(Run(ops), ch)) <==> exists i :: RepeatsState(ops, ch, i)
  {
    if |ops| > 0 {
      var front, op := ops[..|ops| - 1], ops[|ops| - 1];
      assert ops == front + [op];
      StutterExactly(front, ch);
      SubscribersAgree(front, ch);
      RepeatsOfSnoc(front, op, ch);
      var m := Run(front);
      match op {
        case Update(e) =>
          if Normal(e) != m.state && ch in m.registered { StutterOfSnoc(Log(m, ch), Normal(e)); }
        case Register(c) =>
          if c == ch { StutterOfSnoc(Log(m, ch), m.state); }
        case Deregister(_) =>
      }
    }
  }

  /** A channel that registers twice hears the first state twice in a row. */
  lemma RegisteredTwice(ch: nat)
    ensures Log(Run([Register(ch), Register(ch)]), ch) == [Event(None, None), Event(None, None)]
    ensures Stutters(Log(Run([Register(ch), Register(ch)]), ch))
  {
    var once, twice := [Register(ch)], [Register(ch), Register(ch)];
    assert once[..0] == [] && twice[..1] == once;
    assert Run(once) == Registered(New(), ch);
    assert Run(twice) == Registered(Run(once), ch);
    var log := Log(Run(twice), ch);
    assert log == [Event(None, None), Event(None, None)] && log[0] == log[1];
  }

  /** Hence a channel registered once never sees the same event twice in a row. */
  lemma {:induction false} RegisteredOnce<K(!new)>(ops: seq<Op<K>>, ch: K)
    requires forall i, j :: 0 <= i < |ops| && 0 <= j < |ops| && ops[i] == Register(ch) && ops[j] == Register(ch) ==> i == j
    ensures !Stutters(Log(Run(ops), ch))
  {
    StutterExactly(ops, ch);
    if i :| RepeatsState(ops, ch, i) {
      SilentBefore(ops[..i], ch);
    }
  }

  lemma {:induction false} SilentBefore<K(!new)>(ops: seq<Op<K>>, ch: K)
    requires forall i :: 0 <= i < |ops| ==> ops[i] != Register(ch)
    ensures Log(Run(ops), ch) == [] && ch !in Run(ops).registered
  {
    if |ops| > 0 { SilentBefore(ops[..|ops| - 1], ch); }
  }

  /** Nothing reaches a channel between its deregistration and its next registration. */
  lemma {:induction false} SilentAfterDeregister<K(!new)>(ops: seq<Op<K>>, more: seq<Op<K>>, ch: K)
    requires ch !in Run(ops).registered
    requires forall i :: 0 <= i < |more| ==> more[i] != Register(ch)
    ensures Log(Run(ops + more), ch) == Log(Run(ops), ch) && ch !in Run(ops + more).registered
  {
    if |more| == 0 {
      assert ops + more == ops;
    } else {
      SilentAfterDeregister(ops, more[..|more| - 1], ch);
      assert (ops + more)[..|ops + more| - 1] == ops + more[..|more| - 1];
    }
  }

  /* ---------- the cache itself ---------- */

  /** A subscriber's unbuffered channel. The subscriber has taken the first `received` messages; `values` records
      each message as it was when sent. */
  class Channel {
    var delivered: seq<Message>
    var received: nat
    ghost var values: seq<Event>
    var closed: bool

    constructor ()
      ensures Unused() && !closed
    {
      delivered, received, values, closed := [], 0, [], false;
    }

    ghost predicate Unused()
      reads this
    {
      delivered == [] && received == 0 && values == []
    }

    /** The arrays of the messages not taken yet. */
    ghost function Storages(): set<object>
      reads this`received, this`delivered
    {
      set i, o | 0 <= received <= i < |delivered| && o in delivered[i].Storage() :: o
    }

    /** They read as they were sent, and no two of them share storage. */
    ghost predicate AsSent()
      reads this`received, this`delivered, this`values, Storages()
    {
      && (forall i :: 0 <= received <= i < |delivered| == |values| ==> delivered[i].View() == values[i])
      && (forall i, j :: 0 <= received <= i < j < |delivered| && delivered[i].instances != null ==>
            delivered[i].instances != delivered[j].instances)
    }

    /** One more message, in storage no other has, joins those that wait. */
    twostate lemma OneMoreWaits(new m: Message, e: Event)
      requires old(AsSent()) && received == old(received) && |old(delivered)| == |old(values)|
      requires delivered == old(delivered) + [m] && values == old(values) + [e] && m.View() == e
      requires forall i :: 0 <= i < |old(delivered)| ==> delivered[i].View() == old(delivered[i].View())
      requires m.instances != null ==> forall i :: 0 <= i < |old(delivered)| ==> delivered[i].instances != m.instances
      ensures AsSent()
    {
    }

    /** What the next message carries, none behind it carries. */
    lemma NextIsApart()
      requires AsSent() && received < |delivered|
      ensures forall i :: received < i < |delivered| ==> delivered[i].Storage() !! delivered[received].Storage()
    {
    }

    /** The next message was taken. */
    twostate lemma OneTaken()
      requires old(AsSent()) && received == old(received) + 1 <= |delivered|
      requires delivered == old(delivered) && values == old(values)
      requires forall i :: received <= i < |delivered| ==> delivered[i].View() == old(delivered[i].View())
      ensures AsSent()
    {
    }

    twostate lemma OnlyNewWaits(new m: Message)
      requires received == old(received) && delivered == old(delivered) + [m]
      requires m.instances != null ==> fresh(m.instances)
      ensures fresh(Storages() - old(Storages()))
    {
    }

    /** Sending on a closed channel panics. */
    method Send(m: Message)
      requires !closed
      modifies this`delivered, this`values
      ensures delivered == old(delivered) + [m] && values == old(values) + [m.View()]
    {
      delivered := delivered + [m];
      values := values + [m.View()];
    }

    method Receive() returns (m: Message)
      requires received < |delivered|
      modifies this`received
      ensures received == old(received) + 1 && m == delivered[old(received)]
    {
      m := delivered[received];
      received := received + 1;
    }

    /** Closing a closed channel panics. */
    method Close()
      requires !closed
      modifies this`closed
      ensures closed
    {
      closed := true;
    }
  }

  /** A deep copy, except that a nil slice stays nil. */
  method CopyEvent(e: Message) returns (c: Message)
    ensures c.View() == e.View()
    ensures c.instances != null ==> fresh(c.instances)
  {
    if e.instances == null { return e; }
    var instances :=
      new string[e.instances.Length](i requires 0 <= i < e.instances.Length reads e.instances => e.instances[i]);
    assert instances[..] == e.instances[..];
    return e.(instances := instances);
  }

  method SortInstances(event: Message)
    modifies event.Storage()
    ensures event.View() == Normal(old(event.View())) == Normal(event.View())
  {
    if event.instances != null {
      SortStrings(event.instances);
      SortSorts(old(event.instances[..]));
      SortOfSorted(event.instances[..]);
    }
  }

  /** The place of a message: which channel it was sent to, and how many were sent there before. */
  datatype Place = Place(ch: Channel, i: nat)

  /** The message reads as `e`, in storage that is new. */
  twostate predicate Copies(new m: Message, e: Event)
    reads m.Storage()
  {
    m.View() == e && (m.instances != null ==> fresh(m.instances))
  }

  class Cache {
    var state: Message
    var reg: set<Channel>
    /** The state by value. */
    ghost var current: Event
    /** Every channel that was ever registered. */
    ghost var known: set<Channel>
    /** The message whose instances an array carries. So no array carries those of two. */
    ghost var owner: map<array<string>, Place>

    constructor ()
      ensures Valid() && View() == New() && state == Message(null, None) && known == {} && owner == map[]
    {
      state, current := Message(null, None), Event(None, None);
      reg, known, owner := {}, {}, map[];
    }

    ghost function View(): Model<Channel>
      reads this`current, this`reg, this`known, known`values
    {
      Model(current, reg, map ch | ch in known :: ch.values)
    }

    ghost predicate Valid()
      reads this`state, this`current, this`reg, this`known, this`owner, known, state.Storage()
    {
      Kept() && Booked() && Stored()
    }

    /** The state's slice is the cache's alone. */
    ghost predicate Kept()
      reads this`state, this`current, this`owner, state.Storage()
    {
      state.View() == current && (state.instances != null ==> state.instances !in owner)
    }

    /** A registered channel is open and was sent the current state last. */
    ghost predicate Booked()
      reads this`current, this`reg, this`known, known
    {
      && reg <= known
      && (forall ch :: ch in known ==> ch.received <= |ch.delivered| == |ch.values|)
      && (forall ch :: ch in reg ==> !ch.closed && |ch.values| > 0 && Last(ch.values) == current)
    }

    /** Each message has storage of its own. */
    ghost predicate Stored()
      reads this`known, this`owner, known`delivered
    {
      forall ch, i :: ch in known && 0 <= i < |ch.delivered| && ch.delivered[i].instances != null ==>
        ch.delivered[i].instances in owner && owner[ch.delivered[i].instances] == Place(ch, i)
    }

    /** Only new storage is handed out. */
    twostate predicate Carries()
      reads this`owner
    {
      forall a :: a in owner && a !in old(owner) ==> fresh(a)
    }

    /** The slice of `event` becomes the cache's own: nobody else may write it from here on. `sent` says what went
        to whom: to every registered channel, if the sorted event is news, and otherwise to nobody. */
    method Update(event: Message) returns (ghost sent: map<Channel, Message>)
      requires Valid()
      requires event.instances != null ==> event.instances !in owner && event.instances != state.instances
      modifies this`state, this`current, this`owner, event.Storage(), reg`delivered, reg`values
      ensures Valid() && reg == old(reg) && known == old(known)
      ensures View() == Updated(old(View()), old(event.View())) && current == Normal(old(event.View()))
      ensures sent.Keys == if Normal(old(event.View())) == old(current) then {} else reg
      ensures forall ch :: ch in reg ==> ch.delivered == old(ch.delivered) + if ch in sent then [sent[ch]] else []
      ensures forall ch :: ch in reg ==> ch.values == old(ch.values) + if ch in sent then [current] else []
      ensures forall ch :: ch in sent ==> Copies(sent[ch], Normal(old(event.View())))
      ensures Carries()
    {
      Settle(event);
      UpdatedBySorted(old(View()), old(event.View()));
      if state.View() == event.View() { return map[]; }
      sent := Publish(event);
    }

    /** Sorting the event in place touches nothing of the cache. */
    method Settle(event: Message)
      requires Valid()
      requires event.instances != null ==> event.instances !in owner && event.instances != state.instances
      modifies event.Storage()
      ensures Valid() && View() == old(View())
      ensures event.View() == Normal(old(event.View())) == Normal(event.View())
    {
      SortInstances(event);
    }

    /** The part of `Update` that runs when the event, sorted by now, is news. */
    method Publish(event: Message) returns (ghost sent: map<Channel, Message>)
      requires Valid() && (event.instances != null ==> event.instances !in owner)
      requires Normal(event.View()) == event.View() != current
      modifies this`state, this`current, this`owner, reg`delivered, reg`values
      ensures Valid() && reg == old(reg) && known == old(known)
      ensures View() == Updated(old(View()), old(event.View()))
      ensures forall ch :: ch in reg ==> ch.values == old(ch.values) + [current]
      ensures sent.Keys == reg
      ensures forall ch :: ch in reg ==> ch.delivered == old(ch.delivered) + [sent[ch]]
      ensures forall ch :: ch in sent ==> Copies(sent[ch], old(event.View()))
      ensures Carries()
    {
      sent := Announce(event);
      NewsSpread();
    }

    method Announce(event: Message) returns (ghost sent: map<Channel, Message>)
      requires Valid() && (event.instances != null ==> event.instances !in owner)
      requires Normal(event.View()) == event.View() != current
      modifies this`state, this`current, this`owner, reg`delivered, reg`values
      ensures Valid() && reg == old(reg) && known == old(known)
      ensures current == old(event.View()) && forall ch :: ch in reg ==> ch.values == old(ch.values) + [current]
      ensures sent.Keys == reg
      ensures forall ch :: ch in reg ==> ch.delivered == old(ch.delivered) + [sent[ch]]
      ensures forall ch :: ch in sent ==> Copies(sent[ch], old(event.View()))
      ensures Carries()
    {
      state, current := event, event.View();
      sent := Broadcast(event);
      StillBooked();
    }

    /** Every registered channel was sent the new state. */
    twostate lemma StillBooked()
      requires old(Booked()) && reg == old(reg) && known == old(known)
      requires forall ch :: ch in known ==> ch.received == old(ch.received) && ch.closed == old(ch.closed)
      requires forall ch :: ch in reg ==>
        ch.values == old(ch.values) + [current] && |ch.delivered| == |old(ch.delivered)| + 1
      requires forall ch :: ch in known && ch !in reg ==>
        ch.values == old(ch.values) && ch.delivered == old(ch.delivered)
      ensures Booked()
    {
    }

    /** What the specification says of an event that is news. */
    twostate lemma NewsSpread()
      requires reg == old(reg) <= known == old(known) && current == Normal(current) != old(current)
      requires forall ch :: ch in known ==> ch.values == old(ch.values) + if ch in reg then [current] else []
      ensures View() == Updated(old(View()), current)
    {
      UpdatedWithNews(old(View()), current, View().logs);
    }

    method Broadcast(event: Message) returns (ghost sent: map<Channel, Message>)
      requires Stored() && reg <= known && forall ch :: ch in reg ==> !ch.closed
      modifies this`owner, reg`delivered, reg`values
      ensures Stored()
      ensures sent.Keys == reg && forall ch :: ch in sent ==> Copies(sent[ch], old(event.View()))
      ensures forall ch :: ch in reg ==> ch.delivered == old(ch.delivered) + [sent[ch]]
      ensures forall ch :: ch in reg ==> ch.values == old(ch.values) + [old(event.View())]
      ensures Carries()
    {
      var rest := reg;
      sent := map[];
      while rest != {}
        invariant rest + sent.Keys == reg && rest !! sent.Keys
        invariant Stored() && Carries()
        invariant forall ch :: ch in sent ==> Copies(sent[ch], old(event.View()))
        invariant forall ch :: ch in rest ==> ch.values == old(ch.values) && ch.delivered == old(ch.delivered)
        invariant forall ch :: ch in sent ==>
          ch.values == old(ch.values) + [old(event.View())] && ch.delivered == old(ch.delivered) + [sent[ch]]
      {
        var ch :| ch in rest;
        var eventCopy := SendCopy(ch, event);
        sent := sent[ch := eventCopy];
        rest := rest - {ch};
      }
    }

    /** One channel is sent a copy of `event` that nothing else carries. */
    method SendCopy(ch: Channel, event: Message) returns (eventCopy: Message)
      requires Stored() && ch in known && !ch.closed
      modifies this`owner, ch`delivered, ch`values
      ensures Stored()
      ensures eventCopy.View() == event.View() && (eventCopy.instances != null ==> fresh(eventCopy.instances))
      ensures ch.delivered == old(ch.delivered) + [eventCopy] && ch.values == old(ch.values) + [event.View()]
      ensures Carries()
    {
      eventCopy := CopyEvent(event);
      ch.Send(eventCopy);
      if eventCopy.instances != null {
        owner := owner[eventCopy.instances := Place(ch, |ch.delivered| - 1)];
      }
    }

    /** A copy of the current state. */
    method State() returns (e: Message)
      ensures e.View() == state.View()
      ensures e.instances != null ==> fresh(e.instances)
    {
      e := CopyEvent(state);
    }

    /** The channel is pushed the current state at once, even if it was registered already. */
    method Register(ch: Channel)
      requires Valid() && !ch.closed && (ch !in known ==> ch.Unused())
      modifies this`reg, this`known, this`owner, ch`delivered, ch`values
      ensures Valid() && known == old(known) + {ch}
      ensures View() == Registered(old(View()), ch)
      ensures |ch.delivered| == |old(ch.delivered)| + 1 && old(ch.delivered) <= ch.delivered
      ensures Copies(Last(ch.delivered), current) && ch.values == old(ch.values) + [current]
      ensures Carries()
    {
      var eventCopy := Enrol(ch);
      RegisteredLogs(old(View()), ch, View().logs);
    }

    method Enrol(ch: Channel) returns (eventCopy: Message)
      requires Valid() && !ch.closed && (ch !in known ==> ch.Unused())
      modifies this`reg, this`known, this`owner, ch`delivered, ch`values
      ensures Valid() && known == old(known) + {ch} && reg == old(reg) + {ch}
      ensures ch.delivered == old(ch.delivered) + [eventCopy] && ch.values == old(ch.values) + [current]
      ensures Copies(eventCopy, current) && Carries()
    {
      reg, known := reg + {ch}, known + {ch};
      eventCopy := SendCopy(ch, state);
    }

    /** No message is carried by the storage of the state. */
    lemma Carried(ch: Channel, i: nat)
      requires Valid() && ch in known && i < |ch.delivered|
      ensures ch.delivered[i].Storage() !! state.Storage()
    {
    }

    /** Taking messages, and writing what none of them and not the state carries, leaves the cache valid. */
    twostate lemma Undisturbed()
      requires old(Valid()) && unchanged(this) && state.View() == old(state.View())
      requires forall ch :: ch in known ==>
        ch.delivered == old(ch.delivered) && ch.values == old(ch.values) && ch.closed == old(ch.closed) &&
        ch.received <= |ch.delivered|
      ensures Valid() && View() == old(View())
    {
    }

    method Deregister(ch: Channel)
      requires Valid()
      modifies this`reg
      ensures Valid()
      ensures View() == Deregistered(old(View()), ch)
    {
      reg := reg - {ch};
    }
  }

  /** An update as a subscriber sees it, however much it has taken so far: at most one more message, the sorted event;
      those that wait still read as they were sent. */
  method UpdateSeen(c: Cache, ch: Channel, event: Message) returns (ghost news: bool)
    requires c.Valid() && ch in c.reg && ch.AsSent()
    requires event.instances != null ==> event.instances !in c.owner && event.instances != c.state.instances
    modifies c`state, c`current, c`owner, event.Storage(), c.reg`delivered, c.reg`values
    ensures c.Valid() && c.reg == old(c.reg) && c.current == Normal(old(event.View()))
    ensures news <==> c.current != old(c.current)
    ensures ch.values == old(ch.values) + if news then [c.current] else []
    ensures ch.AsSent() && fresh(ch.Storages() - old(ch.Storages()))
  {
    CarriedApart(c, ch, event);
    ghost var m;
    news, m := UpdateFor(c, ch, event);
    if news { ch.OneMoreWaits(m, c.current); ch.OnlyNewWaits(m); }
  }

  method UpdateFor(c: Cache, ch: Channel, event: Message) returns (ghost news: bool, ghost m: Message)
    requires c.Valid() && ch in c.reg
    requires event.instances != null ==> event.instances !in c.owner && event.instances != c.state.instances
    modifies c`state, c`current, c`owner, event.Storage(), c.reg`delivered, c.reg`values
    ensures c.Valid() && c.reg == old(c.reg) && c.current == Normal(old(event.View()))
    ensures news <==> c.current != old(c.current)
    ensures ch.values == old(ch.values) + if news then [c.current] else []
    ensures ch.delivered == old(ch.delivered) + if news then [m] else []
    ensures |ch.delivered| == |ch.values| && (news ==> Copies(m, c.current))
  {
    ghost var sent := c.Update(event);
    news := ch in sent;
    m := if news then sent[ch] else c.state;
  }

  /** What no message carries is apart from all of them. */
  lemma CarriedApart(c: Cache, ch: Channel, event: Message)
    requires c.Valid() && ch in c.known && (event.instances != null ==> event.instances !in c.owner)
    ensures forall i :: 0 <= i < |ch.delivered| ==> ch.delivered[i].Storage() !! event.Storage()
  {
  }

  /** A subscriber may write what it has taken: the cache and every other message ever sent stay as they are. */
  method Scribble(c: Cache, ch: Channel, i: nat, k: nat, text: string)
    requires c.Valid() && ch in c.known && i < |ch.delivered|
    requires ch.delivered[i].instances != null && k < ch.delivered[i].instances.Length
    modifies ch.delivered[i].instances
    ensures c.Valid() && c.View() == old(c.View())
    ensures forall d, j :: d in c.known && 0 <= j < |d.delivered| && (d != ch || j != i) ==>
      d.delivered[j].View() == old(d.delivered[j].View())
  {
    var a := ch.delivered[i].instances;
    a[k] := text;
  }
}
