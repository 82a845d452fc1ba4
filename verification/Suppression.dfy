/** The two caches in a row (sd/internal/instance/cache.go feeding sd/endpoint_cache.go, as sd/endpointer.go
    wires them): dropping an event equal to the last one is invisible to those who ask for endpoints. */
module Suppression {
  import opened Discovery
  import opened Order
  import opened EndpointCaching
  import opened EndpointRuns
  import Source = InstanceCaching

  datatype Item = Notify(event: Event, now: int) | Request(now: int)

  /** One history seen twice: `full` is told every event, `filtered` only what subscriber 0 of `source` receives. */
  datatype Twins = Twins(source: Source.Model<nat>, full: State, filtered: State)

  function Advance(t: Twins, item: Item, o: Options, f: Factory): Twins {
    match item
    case Request(now) =>
      t.(full := Asked(t.full, now, f).0, filtered := Asked(t.filtered, now, f).0)
    case Notify(e, now) =>
      var source := Source.Updated(t.source, e);
      var log := Source.Log(source, 0);
      Twins(source, Updated(t.full, e, now, o, f),
            if |log| > |Source.Log(t.source, 0)| then Updated(t.filtered, log[|log| - 1], now, o, f) else t.filtered)
  }

  /** The subscription starts with the state the source is in, pushed on registration. */
  function Begin(state: Event, now: int, o: Options, f: Factory): Twins {
    var s := Updated(INITIAL, state, now, o, f);
    Twins(Source.Registered(Source.Model(state, {}, map[]), 0), s, s)
  }

  function Follow(state: Event, now: int, items: seq<Item>, o: Options, f: Factory): Twins {
    if |items| == 0 then Begin(state, now, o, f)
    else Advance(Follow(state, now, items[..|items| - 1], o, f), items[|items| - 1], o, f)
  }

  /** The state of the source: the last event, sorted. */
  function Latest(state: Event, items: seq<Item>): Event {
    if |items| == 0 then state
    else match items[|items| - 1]
         case Request(_) => Latest(state, items[..|items| - 1])
         case Notify(e, _) => Source.Normal(e)
  }

  predicate Dropped(state: Event, items: seq<Item>, i: int) {
    0 <= i < |items| && items[i].Notify? && Source.Normal(items[i].event) == Latest(state, items[..i])
  }

  /** Equal in everything but the number of refused factory calls. */
  predicate Same(a: State, b: State) {
    a.(world := a.world.(calls := 0)) == b.(world := b.world.(calls := 0))
  }

  /** The factory's answer depends on the instance alone. */
  ghost predicate Steady(f: Factory) {
    forall x, n, m :: f(x, n) == f(x, m)
  }

  lemma NormalTwice(e: Event)
    ensures Source.Normal(Source.Normal(e)) == Source.Normal(e)
    ensures Sort(Listed(Source.Normal(e))) == Sort(Listed(e))
  {
    SortSorts(Listed(e));
    SortOfSorted(Sort(Listed(e)));
  }

  /** The source is as `Latest` says, and its subscriber hears of an event unless it is dropped. */
  lemma {:induction false} SourceFollows(state: Event, now: int, items: seq<Item>, o: Options, f: Factory)
    ensures var t := Follow(state, now, items, o, f);
      t.source.state == Latest(state, items) && 0 in t.source.registered
    ensures |items| > 0 && items[|items| - 1].Notify? ==>
      var n := |items| - 1;
      var t := Follow(state, now, items[..n], o, f);
      Follow(state, now, items, o, f) ==
        Twins(Source.Updated(t.source, items[n].event),
              Updated(t.full, items[n].event, items[n].now, o, f),
              if Dropped(state, items, n) then t.filtered else Updated(t.filtered, items[n].event, items[n].now, o, f))
  {
    if |items| > 0 {
      SourceFollows(state, now, items[..|items| - 1], o, f);
      if items[|items| - 1].Notify? { NormalTwice(items[|items| - 1].event); }
    }
  }

  /* ---------- updates on states that differ in refused calls ---------- */

  lemma {:induction false} AcquireSame(names: seq<string>, cache: map<string, Live>, w: World, calls: nat, f: Factory)
    requires Steady(f)
    ensures var a, b := AcquireAll(names, cache, w, f), AcquireAll(names, cache, w.(calls := calls), f);
      a.next == b.next && a.prior == b.prior && a.world.made == b.world.made && a.world.closed == b.world.closed
  {
    if |names| > 0 {
      AcquireSame(names[..|names| - 1], cache, w, calls, f);
      var a := AcquireAll(names[..|names| - 1], cache, w, f);
      var b := AcquireAll(names[..|names| - 1], cache, w.(calls := calls), f);
      assert f(names[|names| - 1], a.world.calls) == f(names[|names| - 1], b.world.calls);
    }
  }

  lemma RefreshSame(a: State, b: State, names: seq<string>, f: Factory)
    requires Same(a, b) && Steady(f)
    ensures Same(Refreshed(a, names, f), Refreshed(b, names, f))
  {
    AcquireSame(Sort(names), a.cache, a.world, b.world.calls, f);
    assert b.world == a.world.(calls := b.world.calls);
  }

  /* ---------- a settled cache ---------- */

  predicate Accepts(f: Factory, cache: map<string, Live>) {
    forall k :: k in cache ==> f(k, 0) == Made(cache[k].closer)
  }

  /** The cache already is what the list and the factory call for. */
  ghost predicate Settled(s: State, names: seq<string>, f: Factory) {
    && (forall k :: k in s.cache <==> k in names && f(k, 0).Made?)
    && s.endpoints == Listing(Sort(names), s.cache)
  }

  lemma {:induction false} AcceptsAll(names: seq<string>, cache: map<string, Live>, w: World, f: Factory)
    requires Steady(f) && Accepts(f, cache)
    ensures var b := AcquireAll(names, cache, w, f);
      && Accepts(f, b.next) && Accepts(f, b.prior)
      && (forall k :: k in b.next <==> k in names && f(k, 0).Made?)
  {
    if |names| > 0 {
      var front, last := names[..|names| - 1], names[|names| - 1];
      AcceptsAll(front, cache, w, f);
      assert names == front + [last];
      assert f(last, AcquireAll(front, cache, w, f).world.calls) == f(last, 0);
    }
  }

  lemma RefreshSettles(s: State, names: seq<string>, f: Factory)
    requires Steady(f) && Accepts(f, s.cache)
    ensures var t := Refreshed(s, names, f); Settled(t, names, f) && Accepts(f, t.cache)
  {
    AcceptsAll(Sort(names), s.cache, s.world, f);
    SortElements(names);
  }

  /** Acquiring what is there already, and what the factory keeps refusing, changes only the call count. */
  lemma {:induction false} AcquireNothing(names: seq<string>, cache: map<string, Live>, w: World, f: Factory)
    requires Steady(f) && NoDup(names)
    requires forall k :: k in names ==> (k in cache <==> f(k, 0).Made?)
    ensures var b := AcquireAll(names, cache, w, f);
      && b.world.(calls := 0) == w.(calls := 0)
      && Shares(b.next, cache) && Shares(b.prior, cache)
      && (forall k :: k in b.next <==> k in cache && k in names)
      && (forall k :: k in b.prior <==> k in cache && k !in names)
  {
    if |names| > 0 {
      var front, last := names[..|names| - 1], names[|names| - 1];
      AcquireNothing(front, cache, w, f);
      assert names == front + [last] && last !in front;
      assert f(last, AcquireAll(front, cache, w, f).world.calls) == f(last, 0);
    }
  }

  predicate Shares(m: map<string, Live>, cache: map<string, Live>) {
    forall k :: k in m ==> k in cache && m[k] == cache[k]
  }

  lemma RefreshSettled(s: State, names: seq<string>, f: Factory)
    requires Steady(f) && NoDup(names) && Settled(s, names, f)
    ensures Same(Refreshed(s, names, f), s)
  {
    SortElements(names);
    SortNoDup(names);
    AcquireNothing(Sort(names), s.cache, s.world, f);
    var b := AcquireAll(Sort(names), s.cache, s.world, f);
    assert b.next == s.cache && b.prior == map[];
  }

  /* ---------- the invariant ---------- */

  /** How the endpoint cache stands to the source's last event. */
  ghost predicate InStep(latest: Event, s: State, o: Options, f: Factory) {
    && Accepts(f, s.cache)
    && (latest.err == None ==> s.err == None && Settled(s, Listed(latest), f))
    && (latest.err != None && o.invalidateOnError ==> s.err != None)
  }

  lemma UpdateInStep(latest: Event, s: State, e: Event, now: int, o: Options, f: Factory)
    requires InStep(latest, s, o, f) && Steady(f)
    ensures InStep(Source.Normal(e), Updated(s, e, now, o, f), o, f)
  {
    if e.err == None {
      RefreshSettles(s, Listed(e), f);
      NormalTwice(e);
      SortElements(Listed(e));
      SortElements(Listed(Source.Normal(e)));
    }
  }

  lemma AskInStep(latest: Event, s: State, now: int, o: Options, f: Factory)
    requires InStep(latest, s, o, f) && Steady(f)
    ensures InStep(latest, Asked(s, now, f).0, o, f)
  {
  }

  lemma UpdateDropped(s: State, e: Event, now: int, o: Options, f: Factory)
    requires InStep(Source.Normal(e), s, o, f) && Steady(f)
    requires e.err == None ==> NoDup(Listed(e))
    ensures Same(Updated(s, e, now, o, f), s)
  {
    if e.err == None {
      NormalTwice(e);
      SortElements(Listed(e));
      SortElements(Listed(Source.Normal(e)));
      RefreshSettled(s, Listed(e), f);
    }
  }

  ghost predicate DropsClean(state: Event, items: seq<Item>) {
    forall i :: Dropped(state, items, i) && items[i].event.err == None ==> NoDup(Listed(items[i].event))
  }

  lemma DropsCleanPrefix(state: Event, items: seq<Item>, n: nat)
    requires DropsClean(state, items) && n <= |items|
    ensures DropsClean(state, items[..n])
  {
    forall i | Dropped(state, items[..n], i) && items[i].event.err == None ensures NoDup(Listed(items[..n][i].event)) {
      assert items[..n][..i] == items[..i];
      assert Dropped(state, items, i);
    }
  }

  lemma {:induction false} DropsInvisible(state: Event, now: int, items: seq<Item>, o: Options, f: Factory)
    requires Source.Normal(state) == state && Steady(f) && DropsClean(state, items)
    ensures var t := Follow(state, now, items, o, f);
      Same(t.full, t.filtered) && InStep(Latest(state, items), t.full, o, f)
  {
    var n := |items| - 1;
    if n < 0 {
      if state.err == None { RefreshSettles(INITIAL, Listed(state), f); }
    } else {
      DropsCleanPrefix(state, items, n);
      DropsInvisible(state, now, items[..n], o, f);
      SourceFollows(state, now, items, o, f);
      var t := Follow(state, now, items[..n], o, f);
      match items[n] {
        case Request(at) =>
          AskInStep(Latest(state, items), t.full, at, o, f);
          if !Serving(t.full, at) { RefreshSame(t.full, t.filtered, [], f); }
        case Notify(e, at) =>
          UpdateInStep(Latest(state, items[..n]), t.full, e, at, o, f);
          if Dropped(state, items, n) {
            UpdateDropped(t.full, e, at, o, f);
          } else if e.err == None {
            RefreshSame(t.full, t.filtered, Listed(e), f);
          }
      }
    }
  }

  /* ---------- the converse: a dropped event with a repeated instance would have been noticed ---------- */

  lemma {:induction false} EagerCount(names: seq<string>, cache: map<string, Live>, w: World)
    ensures var b := AcquireAll(names, cache, w, Eager());
      && |b.world.made| - |b.prior.Keys| == |w.made| - |cache.Keys| + |names|
      && |b.world.made| >= |w.made|
  {
    var n := |names| - 1;
    if n >= 0 {
      var b := AcquireAll(names[..n], cache, w, Eager());
      EagerCount(names[..n], cache, w);
      EagerOne(b, names[n]);
      RemoveOne(b.prior.Keys, names[n]);
    }
  }

  lemma RemoveOne<T>(s: set<T>, x: T)
    ensures |s - {x}| == |s| - if x in s then 1 else 0
  {
  }

  /** Under that factory the two states agree on what is cached and on the error, and `full` never made fewer. */
  predicate Ahead(latest: Event, full: State, filtered: State, o: Options, lead: nat) {
    && full.cache.Keys == filtered.cache.Keys
    && full.err == filtered.err && full.deadline == filtered.deadline
    && |full.world.made| >= |filtered.world.made| + lead
    && (latest.err == None ==> full.err == None && full.cache.Keys == Elements(Listed(latest)))
    && (latest.err != None && o.invalidateOnError ==> full.err != None)
  }

  lemma {:induction false} RepeatsNoticed(state: Event, now: int, items: seq<Item>, o: Options)
    requires Source.Normal(state) == state
    ensures var t := Follow(state, now, items, o, Eager());
      Ahead(Latest(state, items), t.full, t.filtered, o, if DropsClean(state, items) then 0 else 1)
  {
    var n := |items| - 1;
    if n < 0 {
      EagerRefresh(INITIAL, Listed(state));
    } else {
      RepeatsNoticed(state, now, items[..n], o);
      var t, u := Follow(state, now, items[..n], o, Eager()), Follow(state, now, items, o, Eager());
      match items[n] {
        case Request(at) =>
          EagerRequest(t, Latest(state, items), at, o);
          if !DropsClean(state, items) { StillUnclean(state, items); }
        case Notify(e, at) =>
          SourceFollows(state, now, items, o, Eager());
          EagerNotify(t, Latest(state, items[..n]), e, at, o);
          if !DropsClean(state, items) { StillUnclean(state, items); }
          assert u.full == Updated(t.full, e, at, o, Eager());
      }
    }
  }

  /** What is unclean was so before, or becomes so by dropping the last event. */
  lemma StillUnclean(state: Event, items: seq<Item>)
    requires |items| > 0 && !DropsClean(state, items)
    ensures var n := |items| - 1;
      || !DropsClean(state, items[..n])
      || (Dropped(state, items, n) && items[n].event.err == None && !NoDup(Listed(items[n].event)))
  {
    var n := |items| - 1;
    var i :| Dropped(state, items, i) && items[i].event.err == None && !NoDup(Listed(items[i].event));
    if i < n {
      assert items[..n][..i] == items[..i];
      assert Dropped(state, items[..n], i);
    }
  }

  lemma EagerRequest(t: Twins, latest: Event, now: int, o: Options)
    requires Ahead(latest, t.full, t.filtered, o, 0)
    ensures Ahead(latest, Asked(t.full, now, Eager()).0, Asked(t.filtered, now, Eager()).0, o,
                  |t.full.world.made| - |t.filtered.world.made|)
  {
  }

  lemma EagerNotify(t: Twins, latest: Event, e: Event, now: int, o: Options)
    requires Ahead(latest, t.full, t.filtered, o, 0)
    ensures var full, filtered := Updated(t.full, e, now, o, Eager()), Updated(t.filtered, e, now, o, Eager());
      && var n := |t.full.world.made| - |t.filtered.world.made|;
      && Ahead(Source.Normal(e), full, filtered, o, n)
      && (Source.Normal(e) == latest ==> Ahead(latest, full, t.filtered, o, n))
      && (Source.Normal(e) == latest && e.err == None && !NoDup(Listed(e)) ==> Ahead(latest, full, t.filtered, o, n + 1))
  {
    if e.err == None {
      EagerUpdate(t.full, t.filtered, Listed(e));
      NormalTwice(e);
      SortElements(Listed(e));
      SortElements(Listed(Source.Normal(e)));
      assert Elements(Listed(Source.Normal(e))) == Elements(Listed(e));
    }
  }

  lemma EagerRefresh(a: State, names: seq<string>)
    ensures var t := Refreshed(a, names, Eager());
      && t.cache.Keys == Elements(names)
      && |t.world.made| - |a.world.made| == |names| - |a.cache.Keys| + |a.cache.Keys - Elements(names)| >= 0
  {
    EagerKeys(Sort(names), a.cache, a.world);
    EagerCount(Sort(names), a.cache, a.world);
    SortElements(names);
    assert Elements(Sort(names)) == Elements(names);
  }

  lemma EagerUpdate(a: State, b: State, names: seq<string>)
    requires a.cache.Keys == b.cache.Keys
    ensures var a', b' := Refreshed(a, names, Eager()), Refreshed(b, names, Eager());
      && a'.cache.Keys == b'.cache.Keys == Elements(names)
      && |a'.world.made| - |a.world.made| == |b'.world.made| - |b.world.made| >= 0
      && (a.cache.Keys == Elements(names) && !NoDup(names) ==> |a'.world.made| > |a.world.made|)
  {
    EagerRefresh(a, names);
    EagerRefresh(b, names);
    SizeOfElements(names);
    if a.cache.Keys == Elements(names) { assert a.cache.Keys - Elements(names) == {}; }
  }

  /** Dropping repeated events is invisible, for every factory that judges by the instance alone, exactly when
      no dropped success event repeats an instance. Every request is answered alike in both runs. */
  lemma {:induction false} SuppressionExactly(state: Event, now: int, items: seq<Item>, o: Options)
    requires Source.Normal(state) == state
    ensures (forall f: Factory :: Steady(f) ==>
               var t := Follow(state, now, items, o, f); Same(t.full, t.filtered))
            <==> DropsClean(state, items)
  {
    if DropsClean(state, items) {
      forall f: Factory | Steady(f) ensures var t := Follow(state, now, items, o, f); Same(t.full, t.filtered) {
        DropsInvisible(state, now, items, o, f);
      }
    } else {
      RepeatsNoticed(state, now, items, o);
      var t := Follow(state, now, items, o, Eager());
      assert Steady(Eager()) && !Same(t.full, t.filtered);
    }
  }
}
