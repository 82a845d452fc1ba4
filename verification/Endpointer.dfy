/** sd/endpointer.go: a subscriber of the instance cache that feeds what it receives to the endpoint cache. */
module Endpointer {
  import opened Discovery
  import opened EndpointCaching
  import opened EndpointRuns
  import opened Suppression
  import Source = InstanceCaching

  /** The events among some operations, in order. */
  function Heard(ops: seq<Op>): seq<Event> {
    if |ops| == 0 then []
    else Heard(ops[..|ops| - 1]) + if ops[|ops| - 1].Deliver? then [ops[|ops| - 1].event] else []
  }

  lemma OneHeard(ops: seq<Op>, op: Op)
    ensures Heard(ops + [op]) == Heard(ops) + if op.Deliver? then [op.event] else []
  {
    assert (ops + [op])[..|ops|] == ops;
  }

  lemma OneMore(ops: seq<Op>, op: Op, o: Options, f: Factory)
    ensures Heard(ops + [op]) == Heard(ops) + if op.Deliver? then [op.event] else []
    ensures Run(ops + [op], o, f) == Do(Run(ops, o, f), op, o, f)
  {
    OneHeard(ops, op);
    assert (ops + [op])[..|ops|] == ops;
  }

  class DefaultEndpointer {
    const cache: EndpointCache
    const instancer: Source.Cache
    const ch: Source.Channel
    /** What the endpoint cache was told and asked so far. */
    ghost var history: seq<Op>

    /** The endpoint cache is where its history leads. */
    ghost predicate Led()
      reads this`history, cache, cache.world, if cache.endpoints == null then {} else {cache.endpoints}
    {
      cache.Valid() && cache.View() == Run(history, cache.options, cache.world.factory)
    }

    /** The events in the history are those sent and taken, as they were when sent; those not taken yet still read
        that way. */
    ghost predicate Read()
      reads this`history, ch, ch.Storages()
    {
      && ch.received <= |ch.delivered| == |ch.values|
      && Heard(history) == ch.values[..ch.received]
      && ch.AsSent()
    }

    twostate lemma StillLed()
      requires old(Led()) && unchanged(this`history, cache, cache.world)
      requires cache.endpoints != null ==> cache.endpoints[..] == old(cache.endpoints[..])
      ensures Led()
    {
    }

    constructor (src: Source.Cache, factory: Factory, options: Options)
      ensures instancer == src && fresh(ch) && fresh(cache) && fresh(cache.world)
      ensures cache.options == options && cache.world.factory == factory
      ensures Led() && history == [] && ch.Unused() && !ch.closed
    {
      cache := new EndpointCache(options, factory);
      instancer := src;
      ch := new Source.Channel();
      history := [];
    }

    /** Subscribing pushes the current state at once. */
    method Subscribe()
      requires instancer.Valid() && ch !in instancer.known && ch.Unused() && !ch.closed && history == []
      modifies instancer`reg, instancer`known, instancer`owner, ch`delivered, ch`values
      ensures instancer.Valid() && instancer.reg == old(instancer.reg) + {ch}
      ensures instancer.View() == Source.Registered(old(instancer.View()), ch)
      ensures Read() && |ch.delivered| == 1 && ch.values == [instancer.current]
      ensures fresh(ch.delivered[0].Storage())
    {
      instancer.Register(ch);
    }

    /** One turn of `receive`: takes the next message and passes it on. */
    method Receive(now: int)
      requires Led() && Read() && ch.received < |ch.delivered|
      modifies this`history, ch`received, cache, cache.world, ch.delivered[ch.received].Storage()
      ensures Led() && Read() && ch.received == old(ch.received) + 1
      ensures history == old(history) + [Deliver(ch.values[old(ch.received)], now)]
    {
      ch.NextIsApart();
      var event := ch.Receive();
      Tell(event, now);
      ch.OneTaken();
    }

    /** The endpoint cache is told, and sorts the slice it is given. */
    method Tell(event: Message, now: int)
      requires Led()
      modifies this`history, cache, cache.world, event.Storage()
      ensures Led() && history == old(history) + [Deliver(old(event.View()), now)]
      ensures Heard(history) == Heard(old(history)) + [old(event.View())]
    {
      ghost var told := event.View();
      cache.Update(event, now);
      OneMore(history, Deliver(told, now), cache.options, cache.world.factory);
      history := history + [Deliver(told, now)];
    }

    method Endpoints(now: int) returns (served: array?<Id>, failure: Option<Error>)
      requires Led() && Read()
      modifies this`history, cache`cache, cache`endpoints, cache.world
      ensures Led() && Read() && history == old(history) + [Ask(now)]
      ensures var (s, r) := Asked(old(cache.View()), now, cache.world.factory);
        && cache.View() == s
        && match r
           case Available(list) => failure == None && (if served == null then [] else served[..]) == list
           case Unavailable(e) => failure == Some(e) && served == null
    {
      history := history + [Ask(now)];
      served, failure := cache.Endpoints(now);
      OneMore(old(history), Ask(now), cache.options, cache.world.factory);
    }

    /** A request as the history sees it. */
    method Inquire(now: int)
      requires Led() && Read()
      modifies this`history, cache`cache, cache`endpoints, cache.world
      ensures Led() && Read() && history == old(history) + [Ask(now)]
    {
      var served, failure := Endpoints(now);
    }

    /** Deregisters first, so that nothing is ever sent to the closed channel. */
    method Close()
      requires instancer.Valid() && !ch.closed
      modifies instancer`reg, ch`closed
      ensures instancer.Valid() && ch.closed && ch !in instancer.reg
      ensures instancer.View() == Source.Deregistered(old(instancer.View()), ch)
    {
      instancer.Deregister(ch);
      ch.Close();
    }
  }

  method NewEndpointer(src: Source.Cache, factory: Factory, options: Options) returns (de: DefaultEndpointer)
    requires src.Valid()
    modifies src`reg, src`known, src`owner
    ensures fresh(de) && fresh(de.ch) && fresh(de.cache) && fresh(de.cache.world) && de.instancer == src
    ensures de.cache.options == options && de.cache.world.factory == factory
    ensures src.Valid() && src.reg == old(src.reg) + {de.ch}
    ensures src.View() == Source.Registered(old(src.View()), de.ch)
    ensures de.Led() && de.history == [] && de.Read() && de.ch.values == [src.current]
    ensures |de.ch.delivered| == 1 && fresh(de.ch.delivered[0].Storage())
  {
    de := new DefaultEndpointer(src, factory, options);
    src.Undisturbed();
    de.Subscribe();
  }

  /* ---------- from source updates to endpoints ---------- */

  /** A slice made for one event, as a registry client makes it. */
  method Sliced(e: Event) returns (m: Message)
    ensures m.View() == e && (m.instances != null ==> fresh(m.instances))
  {
    if e.instances == None { return Message(null, e.err); }
    var list := e.instances.value;
    var instances := new string[|list|](i requires 0 <= i < |list| => list[i]);
    assert instances[..] == list;
    m := Message(instances, e.err);
  }

  /** The endpointer is subscribed to a source in order, however far it has come with what it was sent. */
  ghost predicate Serving(de: DefaultEndpointer)
    reads de`history, de.ch, de.ch.Storages(), de.cache, de.cache.world
    reads if de.cache.endpoints == null then {} else {de.cache.endpoints}
    reads de.instancer, de.instancer.known, de.instancer.state.Storage()
  {
    de.instancer.Valid() && de.ch in de.instancer.reg && de.Led() && de.Read()
  }

  /** An update of the source sends the endpointer at most one message, the sorted event, behind those that wait. */
  method Publish(de: DefaultEndpointer, e: Event)
    requires Serving(de)
    modifies de.instancer`state, de.instancer`current, de.instancer`owner
    modifies de.instancer.reg`delivered, de.instancer.reg`values
    ensures Serving(de) && de.instancer.reg == old(de.instancer.reg)
    ensures de.instancer.current == Source.Normal(e)
    ensures de.ch.values == old(de.ch.values) +
              if Source.Normal(e) == old(de.instancer.current) then [] else [Source.Normal(e)]
    ensures fresh(de.ch.Storages() - old(de.ch.Storages()))
  {
    Push(de, e);
    de.StillLed();
  }

  method Push(de: DefaultEndpointer, e: Event)
    requires de.instancer.Valid() && de.ch in de.instancer.reg && de.Read()
    modifies de.instancer`state, de.instancer`current, de.instancer`owner
    modifies de.instancer.reg`delivered, de.instancer.reg`values
    ensures de.instancer.Valid() && de.instancer.reg == old(de.instancer.reg) && de.Read()
    ensures de.instancer.current == Source.Normal(e)
    ensures de.ch.values == old(de.ch.values) +
              if Source.Normal(e) == old(de.instancer.current) then [] else [Source.Normal(e)]
    ensures fresh(de.ch.Storages() - old(de.ch.Storages()))
  {
    var message := Sliced(e);
    ghost var news := Source.UpdateSeen(de.instancer, de.ch, message);
    assert de.ch.values[..de.ch.received] == old(de.ch.values)[..de.ch.received];
  }

  /** The endpointer takes a message that waits. */
  method TakeOne(de: DefaultEndpointer, now: int)
    requires Serving(de) && de.ch.received < |de.ch.delivered|
    modifies de`history, de.ch`received, de.cache, de.cache.world, de.ch.delivered[de.ch.received].Storage()
    ensures Serving(de) && de.instancer.View() == old(de.instancer.View())
    ensures de.ch.received == old(de.ch.received) + 1 && de.ch.values == old(de.ch.values)
    ensures de.ch.Storages() <= old(de.ch.Storages())
    ensures de.history == old(de.history) + [Deliver(de.ch.values[old(de.ch.received)], now)]
  {
    de.instancer.Carried(de.ch, de.ch.received);
    de.Receive(now);
    de.instancer.Undisturbed();
  }

  /** A caller asks; the source notices nothing. */
  method AskOne(de: DefaultEndpointer, now: int)
    requires Serving(de)
    modifies de`history, de.cache`cache, de.cache`endpoints, de.cache.world
    ensures Serving(de) && de.history == old(de.history) + [Ask(now)] && de.ch.Storages() == old(de.ch.Storages())
  {
    de.Inquire(now);
    de.instancer.Undisturbed();
  }

  /** What may come next: the registry reports an event, the goroutine takes a message, or a caller wants endpoints. */
  datatype Turn = Report(event: Event) | Take(now: int) | Inquire(now: int)

  /** By value: the state of the source, what it sent, how much of that was taken, and what the endpoint cache was told
      and asked. */
  datatype Progress = Progress(latest: Event, sent: seq<Event>, taken: nat, history: seq<Op>)

  function After(p: Progress, turn: Turn): Progress {
    match turn
    case Report(e) =>
      var n := Source.Normal(e);
      if n == p.latest then p else p.(latest := n, sent := p.sent + [n])
    case Take(now) =>
      if p.taken < |p.sent| then p.(taken := p.taken + 1, history := p.history + [Deliver(p.sent[p.taken], now)]) else p
    case Inquire(now) =>
      p.(history := p.history + [Ask(now)])
  }

  /** Subscribing sends the state the source is in. */
  function Progressed(state: Event, turns: seq<Turn>): Progress {
    if |turns| == 0 then Progress(state, [state], 0, [])
    else After(Progressed(state, turns[..|turns| - 1]), turns[|turns| - 1])
  }

  ghost predicate Shows(de: DefaultEndpointer, p: Progress)
    reads de`history, de.ch`received, de.ch`values, de.instancer`current
  {
    p == Progress(de.instancer.current, de.ch.values, de.ch.received, de.history)
  }

  method Handle(de: DefaultEndpointer, turn: Turn, ghost p: Progress)
    requires Serving(de) && Shows(de, p)
    modifies de.instancer`state, de.instancer`current, de.instancer`owner
    modifies de.instancer.reg`delivered, de.instancer.reg`values
    modifies de`history, de.ch`received, de.cache, de.cache.world, de.ch.Storages()
    ensures Serving(de) && Shows(de, After(p, turn)) && de.instancer.reg == old(de.instancer.reg)
    ensures forall o :: o in de.ch.Storages() && o !in old(de.ch.Storages()) ==> fresh(o)
  {
    match turn {
      case Report(e) => Publish(de, e);
      case Take(now) => if de.ch.received < |de.ch.delivered| { TakeOne(de, now); }
      case Inquire(now) => AskOne(de, now);
    }
  }

  /** Whatever order reports, takes and requests come in, and however far the goroutine lags behind: the endpoint cache
      is where its history leads, and the events of that history are, in order, the first of those sent. */
  method Served(src: Source.Cache, turns: seq<Turn>, options: Options, factory: Factory) returns (de: DefaultEndpointer)
    requires src.Valid()
    modifies src`reg, src`known, src`owner, src`state, src`current, src.reg`delivered, src.reg`values
    ensures Serving(de) && de.instancer == src && Shows(de, Progressed(old(src.current), turns))
    ensures de.cache.options == options && de.cache.world.factory == factory
    ensures Heard(de.history) == de.ch.values[..de.ch.received]
    ensures de.cache.View() == Run(de.history, options, factory)
  {
    de := NewEndpointer(src, factory, options);
    HandleAll(de, turns);
  }

  method HandleAll(de: DefaultEndpointer, turns: seq<Turn>)
    requires Serving(de) && Shows(de, Progressed(de.instancer.current, []))
    modifies de.instancer`state, de.instancer`current, de.instancer`owner
    modifies de.instancer.reg`delivered, de.instancer.reg`values
    modifies de`history, de.ch`received, de.cache, de.cache.world, de.ch.Storages()
    ensures Serving(de) && Shows(de, Progressed(old(de.instancer.current), turns))
  {
    ghost var state, p := de.instancer.current, Progressed(de.instancer.current, []);
    for i := 0 to |turns|
      invariant Serving(de) && Shows(de, p) && p == Progressed(state, turns[..i])
      invariant de.instancer.reg == old(de.instancer.reg)
      invariant forall o :: o in de.ch.Storages() && o !in old(de.ch.Storages()) ==> fresh(o)
    {
      Handle(de, turns[i], p);
      NextTurn(state, turns, i);
      p := After(p, turns[i]);
    }
    AllTurns(turns);
  }

  lemma NextTurn(state: Event, turns: seq<Turn>, i: nat)
    requires i < |turns|
    ensures Progressed(state, turns[..i + 1]) == After(Progressed(state, turns[..i]), turns[i])
  {
    assert turns[..i + 1][..i] == turns[..i];
  }

  lemma AllTurns(turns: seq<Turn>)
    ensures turns[..|turns|] == turns
  {
  }

  lemma OneTurnMore(state: Event, turns: seq<Turn>, turn: Turn)
    ensures Progressed(state, turns + [turn]) == After(Progressed(state, turns), turn)
  {
    assert (turns + [turn])[..|turns|] == turns;
  }

  /** What was sent begins with the state at the subscription and ends with the state of the source; what followed the
      first is sorted, no two neighbours are equal, and what was taken is what was heard. */
  predicate Orderly(state: Event, p: Progress) {
    && 0 < |p.sent| && p.sent[0] == state && p.sent[|p.sent| - 1] == p.latest
    && (forall i :: 0 < i < |p.sent| ==> p.sent[i - 1] != p.sent[i] == Source.Normal(p.sent[i]))
    && p.taken <= |p.sent| && Heard(p.history) == p.sent[..p.taken]
  }

  lemma {:induction false} SentAndHeard(state: Event, turns: seq<Turn>)
    ensures Orderly(state, Progressed(state, turns))
  {
    if |turns| > 0 {
      SentAndHeard(state, turns[..|turns| - 1]);
      OrderlyAfter(state, Progressed(state, turns[..|turns| - 1]), turns[|turns| - 1]);
    }
  }

  lemma OrderlyAfter(state: Event, p: Progress, turn: Turn)
    requires Orderly(state, p)
    ensures Orderly(state, After(p, turn))
  {
    match turn {
      case Report(e) => OrderlyReport(state, p, e);
      case Take(now) =>
        if p.taken < |p.sent| {
          OneHeard(p.history, Deliver(p.sent[p.taken], now));
          assert p.sent[..p.taken + 1] == p.sent[..p.taken] + [p.sent[p.taken]];
        }
      case Inquire(now) => OneHeard(p.history, Ask(now));
    }
  }

  lemma OrderlyReport(state: Event, p: Progress, e: Event)
    requires Orderly(state, p)
    ensures Orderly(state, After(p, Report(e)))
  {
    NormalTwice(e);
    assert (p.sent + [Source.Normal(e)])[..p.taken] == p.sent[..p.taken];
  }

  /** What the endpoint cache is told or asked next, when the source's state is `latest`. */
  function News(latest: Event, item: Item): seq<Op> {
    match item
    case Request(now) => [Ask(now)]
    case Notify(e, now) => if Source.Normal(e) == latest then [] else [Deliver(Source.Normal(e), now)]
  }

  /** What the endpoint cache is told and asked: the state the source started with, then every request, and every
      event that is not dropped, sorted. */
  function Told(state: Event, start: int, items: seq<Item>): seq<Op> {
    if |items| == 0 then [Deliver(state, start)]
    else
      var n := |items| - 1;
      Told(state, start, items[..n]) + News(Latest(state, items[..n]), items[n])
  }

  lemma {:induction false} ToldLeads(state: Event, start: int, items: seq<Item>, o: Options, f: Factory)
    ensures Run(Told(state, start, items), o, f) == Follow(state, start, items, o, f).filtered
  {
    if |items| == 0 {
      OneMore([], Deliver(state, start), o, f);
      assert [] + [Deliver(state, start)] == [Deliver(state, start)];
    } else {
      var n := |items| - 1;
      ToldLeads(state, start, items[..n], o, f);
      NewsLeads(state, start, items, Told(state, start, items[..n]), o, f);
    }
  }

  lemma NewsLeads(state: Event, start: int, items: seq<Item>, told: seq<Op>, o: Options, f: Factory)
    requires |items| > 0 && Run(told, o, f) == Follow(state, start, items[..|items| - 1], o, f).filtered
    ensures Run(told + News(Latest(state, items[..|items| - 1]), items[|items| - 1]), o, f) ==
            Follow(state, start, items, o, f).filtered
  {
    var n := |items| - 1;
    SourceFollows(state, start, items, o, f);
    match items[n] {
      case Request(now) => OneMore(told, Ask(now), o, f);
      case Notify(e, now) =>
        if Dropped(state, items, n) {
          assert told + [] == told;
        } else {
          NormalTwice(e);
          OneMore(told, Deliver(Source.Normal(e), now), o, f);
        }
    }
  }

  /** What follows the requests made before the first event. */
  function Later(ops: seq<Op>): seq<Op> {
    if |ops| == 0 then []
    else
      var later, op := Later(ops[..|ops| - 1]), ops[|ops| - 1];
      if later == [] && op.Ask? then [] else later + [op]
  }

  lemma LaterOfSnoc(ops: seq<Op>, op: Op)
    ensures Later(ops + [op]) == if Later(ops) == [] && op.Ask? then [] else Later(ops) + [op]
  {
    assert (ops + [op])[..|ops|] == ops;
  }

  /** Requests before the first event change nothing. */
  lemma {:induction false} LaterLeads(ops: seq<Op>, o: Options, f: Factory)
    ensures Run(Later(ops), o, f) == Run(ops, o, f)
  {
    if |ops| > 0 {
      var front, op := ops[..|ops| - 1], ops[|ops| - 1];
      LaterLeads(front, o, f);
      OneMore(Later(front), op, o, f);
    }
  }

  /** After the requests made before the first event, the history is what the twins tell and ask. */
  predicate ToldSoFar(state: Event, history: seq<Op>, start: int, items: seq<Item>) {
    var heard := Heard(history);
    && Later(history) == (if heard == [] then [] else Told(state, start, items))
    && (heard != [] ==> Latest(state, items) == heard[|heard| - 1])
  }

  /** Every order of turns is one the twins can follow, with each event where the goroutine takes it. */
  lemma {:induction false} TurnsAreTold(state: Event, turns: seq<Turn>) returns (start: int, items: seq<Item>)
    ensures ToldSoFar(state, Progressed(state, turns).history, start, items)
  {
    start, items := 0, [];
    if |turns| > 0 {
      var p, turn := Progressed(state, turns[..|turns| - 1]), turns[|turns| - 1];
      start, items := TurnsAreTold(state, turns[..|turns| - 1]);
      SentAndHeard(state, turns[..|turns| - 1]);
      match turn {
        case Report(_) =>
        case Take(now) =>
          if p.taken < |p.sent| {
            NextIsNews(state, p);
            start, items := ToldMore(state, p.history, Deliver(p.sent[p.taken], now), start, items);
          }
        case Inquire(now) =>
          start, items := ToldMore(state, p.history, Ask(now), start, items);
      }
    }
  }

  /** The first event is the state at the subscription, and any other differs from the one before it. */
  predicate IsNews(state: Event, heard: seq<Event>, e: Event) {
    if heard == [] then e == state else heard[|heard| - 1] != e == Source.Normal(e)
  }

  lemma NextIsNews(state: Event, p: Progress)
    requires Orderly(state, p) && p.taken < |p.sent|
    ensures IsNews(state, Heard(p.history), p.sent[p.taken])
  {
  }

  lemma ToldMore(state: Event, history: seq<Op>, op: Op, start: int, items: seq<Item>)
    returns (first: int, more: seq<Item>)
    requires ToldSoFar(state, history, start, items)
    requires op.Deliver? ==> IsNews(state, Heard(history), op.event)
    ensures ToldSoFar(state, history + [op], first, more)
  {
    first, more := start, items;
    if Heard(history) == [] {
      if op.Deliver? { first, more := op.now, []; }
      FirstTold(state, history, op, first, more);
    } else if op.Ask? {
      more := items + [Request(op.now)];
      OneAskMore(state, history, start, items, op.now);
    } else {
      more := items + [Notify(op.event, op.now)];
      OneEventMore(state, history, start, items, op.event, op.now);
    }
  }

  lemma FirstTold(state: Event, history: seq<Op>, op: Op, start: int, items: seq<Item>)
    requires Heard(history) == [] && Later(history) == []
    requires op.Deliver? ==> op.event == state && op.now == start && items == []
    ensures ToldSoFar(state, history + [op], start, items)
  {
    OneHeard(history, op);
    LaterOfSnoc(history, op);
  }

  lemma OneAskMore(state: Event, history: seq<Op>, start: int, items: seq<Item>, now: int)
    requires ToldSoFar(state, history, start, items) && Heard(history) != []
    ensures ToldSoFar(state, history + [Ask(now)], start, items + [Request(now)])
  {
    OneHeard(history, Ask(now));
    LaterOfSnoc(history, Ask(now));
    ToldNotEmpty(state, start, items);
    OneItemMore(state, start, items, Request(now));
  }

  lemma OneEventMore(state: Event, history: seq<Op>, start: int, items: seq<Item>, e: Event, now: int)
    requires ToldSoFar(state, history, start, items) && Heard(history) != [] && IsNews(state, Heard(history), e)
    ensures ToldSoFar(state, history + [Deliver(e, now)], start, items + [Notify(e, now)])
  {
    OneHeard(history, Deliver(e, now));
    LaterOfSnoc(history, Deliver(e, now));
    OneItemMore(state, start, items, Notify(e, now));
  }

  lemma {:induction false} ToldNotEmpty(state: Event, start: int, items: seq<Item>)
    ensures Told(state, start, items) != []
  {
    if |items| > 0 { ToldNotEmpty(state, start, items[..|items| - 1]); }
  }

  lemma OneItemMore(state: Event, start: int, items: seq<Item>, item: Item)
    ensures Told(state, start, items + [item]) == Told(state, start, items) + News(Latest(state, items), item)
    ensures Latest(state, items + [item]) ==
            if item.Request? then Latest(state, items) else Source.Normal(item.event)
  {
    assert (items + [item])[..|items|] == items;
  }

  /** The goroutine takes each event as soon as it is sent. */
  function Prompt(start: int, items: seq<Item>): seq<Turn> {
    if |items| == 0 then [Take(start)]
    else
      var n := |items| - 1;
      Prompt(start, items[..n]) +
      match items[n]
      case Request(now) => [Inquire(now)]
      case Notify(e, now) => [Report(e), Take(now)]
  }

  /** Everything sent was taken, and the history is what `items` tells and asks. */
  predicate CaughtUp(p: Progress, state: Event, start: int, items: seq<Item>) {
    p.taken == |p.sent| && p.latest == Latest(state, items) && p.history == Told(state, start, items)
  }

  /** Then the endpoint cache is told every event that is not dropped, in its place between the requests. */
  lemma {:induction false} PromptlyTold(state: Event, start: int, items: seq<Item>)
    ensures CaughtUp(Progressed(state, Prompt(start, items)), state, start, items)
  {
    if |items| == 0 {
      OneTurnMore(state, [], Take(start));
      assert [] + [Take(start)] == [Take(start)] && Prompt(start, items) == [Take(start)];
    } else {
      var front, last := items[..|items| - 1], items[|items| - 1];
      var turns := Prompt(start, front);
      PromptlyTold(state, start, front);
      assert items == front + [last];
      StaysCaughtUp(Progressed(state, turns), state, start, front, last);
      match last {
        case Request(now) => OneTurnMore(state, turns, Inquire(now));
        case Notify(e, now) => ReportedAndTaken(state, turns, e, now);
      }
    }
  }

  lemma StaysCaughtUp(p: Progress, state: Event, start: int, items: seq<Item>, item: Item)
    requires CaughtUp(p, state, start, items)
    ensures match item
      case Request(now) => CaughtUp(After(p, Inquire(now)), state, start, items + [item])
      case Notify(e, now) => CaughtUp(After(After(p, Report(e)), Take(now)), state, start, items + [item])
  {
    OneItemMore(state, start, items, item);
  }

  lemma ReportedAndTaken(state: Event, turns: seq<Turn>, e: Event, now: int)
    ensures Progressed(state, turns + [Report(e), Take(now)]) ==
            After(After(Progressed(state, turns), Report(e)), Take(now))
  {
    OneTurnMore(state, turns, Report(e));
    OneTurnMore(state, turns + [Report(e)], Take(now));
    assert turns + [Report(e)] + [Take(now)] == turns + [Report(e), Take(now)];
  }

  /** End to end, for every order of turns: wherever the endpoint cache comes to be told and asked what `items` says,
      dropped events left out, it is in the state the twins give for being told the undropped events; and in that for
      being told all of them, as long as no dropped success event repeats an instance and the factory judges by the
      instance alone. */
  method Pipeline(src: Source.Cache, turns: seq<Turn>, options: Options, factory: Factory, start: int, items: seq<Item>)
    returns (de: DefaultEndpointer)
    requires src.Valid()
    modifies src`reg, src`known, src`owner, src`state, src`current, src.reg`delivered, src.reg`values
    ensures Serving(de) && de.instancer == src && Shows(de, Progressed(old(src.current), turns))
    ensures Later(de.history) == Told(old(src.current), start, items) ==>
              var t := Follow(old(src.current), start, items, options, factory);
              && de.cache.View() == t.filtered
              && ((Source.Normal(old(src.current)) == old(src.current) && Steady(factory) &&
                   DropsClean(old(src.current), items)) ==> Same(t.full, de.cache.View()))
  {
    ghost var state := src.current;
    de := Served(src, turns, options, factory);
    LaterLeads(de.history, options, factory);
    ToldLeads(state, start, items, options, factory);
    if Source.Normal(state) == state && Steady(factory) && DropsClean(state, items) {
      DropsInvisible(state, start, items, options, factory);
    }
  }
}
