/** What the endpoint cache keeps over whole runs: any list of events and of requests, at any times. */
module EndpointRuns {
  import opened Discovery
  import opened Order
  import opened EndpointCaching

  datatype Op = Deliver(event: Event, now: int) | Ask(now: int)

  function Do(s: State, op: Op, o: Options, f: Factory): State {
    match op
    case Deliver(e, now) => Updated(s, e, now, o, f)
    case Ask(now) => Asked(s, now, f).0
  }

  function Run(ops: seq<Op>, o: Options, f: Factory): State {
    if |ops| == 0 then INITIAL else Do(Run(ops[..|ops| - 1], o, f), ops[|ops| - 1], o, f)
  }

  predicate Success(op: Op) {
    op.Deliver? && op.event.err == None
  }

  predicate Fault(op: Op) {
    op.Deliver? && op.event.err != None
  }

  /** No successful event names an instance twice. */
  predicate DuplicateFree(ops: seq<Op>) {
    forall i :: 0 <= i < |ops| && Success(ops[i]) ==> NoDup(Listed(ops[i].event))
  }

  /* ---------- one refresh, exactly ---------- */

  /** How many of the first `i` names are not cached: the factory calls made before reaching name `i`. */
  function Misses(names: seq<string>, cache: map<string, Live>, i: nat): nat
    requires i <= |names|
  {
    if i == 0 then 0 else Misses(names, cache, i - 1) + if names[i - 1] in cache then 0 else 1
  }

  /** The factory's answer for name `i` of the sorted list, when it is not cached. */
  function Answer(names: seq<string>, s: State, f: Factory, i: nat): Reply
    requires i < |names|
  {
    f(names[i], s.world.calls + Misses(names, s.cache, i))
  }

  lemma {:induction false} MissesOfPrefix(names: seq<string>, cache: map<string, Live>, n: nat, i: nat)
    requires i <= n <= |names|
    ensures Misses(names[..n], cache, i) == Misses(names, cache, i)
  {
    if i > 0 { MissesOfPrefix(names, cache, n, i - 1); }
  }

  /** What became of name `i`: kept if it was cached, otherwise made if the factory accepted it. */
  ghost predicate Settled(names: seq<string>, s: State, f: Factory, b: Batch, i: nat)
    requires i < |names|
  {
    var k, answer := names[i], Answer(names, s, f, i);
    if k in s.cache then k in b.next && b.next[k] == s.cache[k]
    else if answer.Made? then
      && k in b.next && b.next[k].closer == answer.closer
      && |s.world.made| <= b.next[k].endpoint < |b.world.made|
      && b.world.made[b.next[k].endpoint] == Origin(k, answer.closer)
    else k !in b.next
  }

  /** The batch after working through a list without repeats. */
  ghost predicate Acquired(names: seq<string>, s: State, f: Factory, b: Batch) {
    && b.world.calls == s.world.calls + Misses(names, s.cache, |names|)
    && s.world.made <= b.world.made
    && b.world.closed == s.world.closed
    && (forall k :: k in b.next ==> k in names)
    && (forall i :: 0 <= i < |names| ==> Settled(names, s, f, b, i))
    && (forall id: Id :: |s.world.made| <= id < |b.world.made| ==> Held(b.next, b.world, id))
  }

  /** Working through one more, new name. */
  lemma AcquiredExtends(names: seq<string>, s: State, f: Factory, b: Batch)
    requires |names| > 0 && NoDup(names)
    requires Acquired(names[..|names| - 1], s, f, b) && Sound(b.prior, b.world)
    requires var last := names[|names| - 1];
      (last in b.prior <==> last in s.cache) && (last in b.prior ==> b.prior[last] == s.cache[last])
    ensures Acquired(names, s, f, Acquire(b, names[|names| - 1], f))
  {
    var n := |names| - 1;
    var front, last, c := names[..n], names[n], Acquire(b, names[n], f);
    MissesOfPrefix(names, s.cache, n, n);
    assert last !in front;
    AcquireElsewhere(b, last, f);
    forall i | 0 <= i < n ensures Settled(names, s, f, c, i) { SettledStays(names, s, f, b, i); }
    forall id: Id | |s.world.made| <= id < |c.world.made| ensures Held(c.next, c.world, id) {
      if id < |b.world.made| { assert Held(b.next, b.world, id); }
    }
  }

  lemma SettledStays(names: seq<string>, s: State, f: Factory, b: Batch, i: nat)
    requires i < |names| - 1 && NoDup(names) && Settled(names[..|names| - 1], s, f, b, i)
    ensures Settled(names, s, f, Acquire(b, names[|names| - 1], f), i)
  {
    MissesOfPrefix(names, s.cache, |names| - 1, i);
    AcquireElsewhere(b, names[|names| - 1], f);
  }

  lemma AcquireElsewhere(b: Batch, name: string, f: Factory)
    ensures var c := Acquire(b, name, f);
      && b.world.made <= c.world.made
      && forall k :: k != name ==> (k in c.next <==> k in b.next) && (k in b.next ==> c.next[k] == b.next[k])
  {
  }

  lemma {:induction false} AcquiredExactly(names: seq<string>, s: State, f: Factory)
    requires Sound(s.cache, s.world) && NoDup(names)
    ensures Acquired(names, s, f, AcquireAll(names, s.cache, s.world, f))
  {
    var n := |names|;
    if n > 0 {
      AcquiredExactly(names[..n - 1], s, f);
      AcquireSound(names[..n - 1], s.cache, s.world, f);
      assert names[n - 1] !in names[..n - 1];
      AcquiredExtends(names, s, f, AcquireAll(names[..n - 1], s.cache, s.world, f));
    }
  }

  /** After a success event the keys are exactly the listed instances that were live or that the factory
      accepted; each new instance costs one factory call, in ascending order; survivors keep their endpoint. */
  lemma RefreshKeepsAndAdds(s: State, instances: seq<string>, f: Factory, i: nat)
    requires Sound(s.cache, s.world) && NoDup(instances) && i < |instances|
    ensures var names, t := Sort(instances), Refreshed(s, instances, f);
      && i < |names|
      && (names[i] in t.cache <==> names[i] in s.cache || Answer(names, s, f, i).Made?)
      && (names[i] in s.cache ==> t.cache[names[i]] == s.cache[names[i]])
      && (names[i] in t.cache && names[i] !in s.cache ==> |s.world.made| <= t.cache[names[i]].endpoint < |t.world.made|)
      && t.world.calls == s.world.calls + Misses(names, s.cache, |names|)
    ensures forall k :: k in Refreshed(s, instances, f).cache ==> k in instances
  {
    SortElements(instances);
    SortNoDup(instances);
    AcquiredExactly(Sort(instances), s, f);
    assert Settled(Sort(instances), s, f, AcquireAll(Sort(instances), s.cache, s.world, f), i);
  }

  /* ---------- safety: no assumption on the lists ---------- */

  /** Only endpoints that were made, have a closer and are no longer held have been closed, and those once. */
  ghost predicate Safe(s: State) {
    && Sound(s.cache, s.world)
    && (forall id: Id :: id < |s.world.made| ==> s.world.closed[id] <= 1)
    && (forall id: Id :: id < |s.world.made| && id in s.world.closed ==>
          s.world.made[id].closer && !Held(s.cache, s.world, id))
    && (forall id: Id :: id >= |s.world.made| ==> id !in s.world.closed)
  }

  /** Every endpoint with a closer that is no longer held has been closed. */
  ghost predicate LeakFree(s: State) {
    forall id: Id :: id < |s.world.made| && s.world.made[id].closer && !Held(s.cache, s.world, id) ==>
      id in s.world.closed
  }

  lemma RefreshSafe(s: State, instances: seq<string>, f: Factory)
    requires Safe(s)
    ensures Safe(Refreshed(s, instances, f))
  {
    var names, t := Sort(instances), Refreshed(s, instances, f);
    AcquireSound(names, s.cache, s.world, f);
    AcquireMakesNew(names, s.cache, s.world, f);
    var b := AcquireAll(names, s.cache, s.world, f);
    forall id: Id | id in ClosersOf(b.prior)
      ensures id < |s.world.made| && Held(s.cache, s.world, id) && s.world.made[id].closer && !Held(t.cache, t.world, id)
    {
      var k :| k in b.prior && b.prior[k].closer && b.prior[k].endpoint == id;
      assert s.world.made[id] == Origin(k, true) == t.world.made[id];
    }
    forall id: Id | id < |s.world.made| && id in s.world.closed ensures !Held(t.cache, t.world, id) {
      assert t.world.made[id] == s.world.made[id];
    }
  }

  /** Over every run, repeated instances included: nothing is closed twice, while held, or without a closer. */
  lemma {:induction false} SafetyHolds(ops: seq<Op>, o: Options, f: Factory)
    ensures Safe(Run(ops, o, f))
  {
    var n := |ops|;
    if n > 0 {
      SafetyHolds(ops[..n - 1], o, f);
      var s := Run(ops[..n - 1], o, f);
      match ops[n - 1] {
        case Deliver(e, _) => if e.err == None { RefreshSafe(s, Listed(e), f); }
        case Ask(_) => RefreshSafe(s, [], f);
      }
    }
  }

  /* ---------- lifecycle ---------- */

  lemma RefreshOwned(s: State, instances: seq<string>, f: Factory)
    requires Owned(s) && NoDup(instances)
    ensures Owned(Refreshed(s, instances, f))
  {
    var names, t := Sort(instances), Refreshed(s, instances, f);
    SortNoDup(instances);
    AcquiredExactly(names, s, f);
    AcquireSound(names, s.cache, s.world, f);
    var b := AcquireAll(names, s.cache, s.world, f);
    forall id: Id | id < |t.world.made|
      ensures t.world.closed[id] == if t.world.made[id].closer && !Held(t.cache, t.world, id) then 1 else 0
    {
      if id < |s.world.made| {
        var k := s.world.made[id].instance;
        assert t.world.made[id] == s.world.made[id];
        AcquireMakesNew(names, s.cache, s.world, f);
        if k in names {
          var i :| 0 <= i < |names| && names[i] == k;
          assert Settled(names, s, f, b, i);
        }
        assert Held(t.cache, t.world, id) <==> Held(s.cache, s.world, id) && k in names;
        if k in b.prior && b.prior[k].closer && b.prior[k].endpoint == id {
          assert id in ClosersOf(b.prior);
        }
        assert id in ClosersOf(b.prior) <==> Held(s.cache, s.world, id) && k !in names && s.world.made[id].closer;
      } else {
        assert Held(b.next, b.world, id);
        assert id !in ClosersOf(b.prior);
      }
    }
    forall id: Id | id >= |t.world.made| ensures t.world.closed[id] == 0 {
      assert id !in ClosersOf(b.prior);
    }
  }

  lemma {:induction false} LifecycleHolds(ops: seq<Op>, o: Options, f: Factory)
    requires DuplicateFree(ops)
    ensures Owned(Run(ops, o, f))
  {
    var n := |ops|;
    if n > 0 {
      LifecycleHolds(ops[..n - 1], o, f);
      var s := Run(ops[..n - 1], o, f);
      match ops[n - 1] {
        case Deliver(e, _) => if e.err == None { RefreshOwned(s, Listed(e), f); }
        case Ask(_) => RefreshOwned(s, [], f);
      }
    }
  }

  /** An endpoint whose closer nobody will call: unreachable, and never closed. */
  predicate LostIn(next: map<string, Live>, prior: map<string, Live>, w: World, id: Id) {
    && id < |w.made| && w.made[id].closer && w.closed[id] == 0
    && !Held(next, w, id) && w.made[id].instance !in prior
  }

  function Eager(): Factory {
    (instance, calls) => Made(true)
  }

  /** Acquiring a name from an eager factory either uses up a cached entry or makes an endpoint. */
  lemma EagerOne(b: Batch, name: string)
    ensures var c := Acquire(b, name, Eager());
      && |c.world.made| == |b.world.made| + (if name in b.prior then 0 else 1)
      && c.next.Keys == b.next.Keys + {name}
      && c.prior.Keys == b.prior.Keys - {name}
  {
  }

  lemma {:induction false} EagerKeys(names: seq<string>, cache: map<string, Live>, w: World)
    ensures var b := AcquireAll(names, cache, w, Eager());
      b.next.Keys == Elements(names) && b.prior.Keys == cache.Keys - Elements(names)
  {
    var n := |names| - 1;
    if n >= 0 {
      EagerKeys(names[..n], cache, w);
      EagerOne(AcquireAll(names[..n], cache, w, Eager()), names[n]);
      ElementsOfSnoc(names);
    }
  }

  lemma ElementsOfSnoc(s: seq<string>)
    requires |s| > 0
    ensures Elements(s) == Elements(s[..|s| - 1]) + {s[|s| - 1]}
  {
  }

  ghost predicate AllClosable(w: World) {
    forall id :: 0 <= id < |w.made| ==> w.made[id].closer
  }

  /** Nothing reachable has been closed. */
  ghost predicate Unclosed(cache: map<string, Live>, w: World) {
    Sound(cache, w) && forall k :: k in cache ==> w.closed[cache[k].endpoint] == 0
  }

  lemma LostStays(b: Batch, name: string, f: Factory, id: Id)
    requires Sound(b.prior, b.world) && LostIn(b.next, b.prior, b.world, id)
    ensures var c := Acquire(b, name, f); LostIn(c.next, c.prior, c.world, id)
  {
  }

  /** Acquiring a name a second time overwrites an entry that nothing closes. */
  lemma AcquireTwice(b: Batch, name: string)
    requires Unclosed(b.next, b.world) && AllClosable(b.world) && name in b.next && name !in b.prior
    ensures var c := Acquire(b, name, Eager()); LostIn(c.next, c.prior, c.world, b.next[name].endpoint)
  {
  }

  lemma EagerStep(b: Batch, name: string)
    requires EagerOk(b)
    ensures var c := Acquire(b, name, Eager()); EagerOk(c) && c.next.Keys == b.next.Keys + {name}
  {
    EagerUnclosed(b, name);
  }

  lemma EagerUnclosed(b: Batch, name: string)
    requires EagerOk(b)
    ensures var c := Acquire(b, name, Eager()); Unclosed(c.next, c.world) && Unclosed(c.prior, c.world)
  {
    AcquireKeepsSound(b, name, Eager());
  }

  ghost predicate EagerOk(b: Batch) {
    && Unclosed(b.next, b.world) && Unclosed(b.prior, b.world) && AllClosable(b.world)
    && forall id: Id :: id >= |b.world.made| ==> b.world.closed[id] == 0
  }

  lemma OwnedUnclosed(s: State)
    requires Owned(s)
    ensures Unclosed(s.cache, s.world)
  {
    forall k | k in s.cache ensures s.world.closed[s.cache[k].endpoint] == 0 {
      assert Held(s.cache, s.world, s.cache[k].endpoint);
    }
  }

  lemma {:induction false} EagerAll(names: seq<string>, s: State)
    requires Owned(s) && AllClosable(s.world)
    ensures var b := AcquireAll(names, s.cache, s.world, Eager());
      EagerOk(b) && b.next.Keys == Elements(names)
  {
    var n := |names|;
    if n == 0 {
      OwnedUnclosed(s);
    } else {
      EagerAll(names[..n - 1], s);
      EagerStep(AcquireAll(names[..n - 1], s.cache, s.world, Eager()), names[n - 1]);
      ElementsOfSnoc(names);
    }
  }

  /** With a factory that never refuses, a repeated name costs an endpoint. */
  lemma {:induction false} RepeatLoses(names: seq<string>, s: State) returns (id: Id)
    requires Owned(s) && AllClosable(s.world) && !NoDup(names)
    ensures var b := AcquireAll(names, s.cache, s.world, Eager()); LostIn(b.next, b.prior, b.world, id)
  {
    var n := |names| - 1;
    var front, last := names[..n], names[n];
    var b := AcquireAll(front, s.cache, s.world, Eager());
    AcquireSound(front, s.cache, s.world, Eager());
    if !NoDup(front) {
      id := RepeatLoses(front, s);
      LostStays(b, last, Eager(), id);
    } else {
      assert last in front;
      EagerAll(front, s);
      AcquireTwice(b, last);
      id := b.next[last].endpoint;
    }
  }

  lemma LostForever(s: State, op: Op, o: Options, f: Factory, id: Id)
    requires Sound(s.cache, s.world) && LostIn(s.cache, map[], s.world, id)
    ensures var t := Do(s, op, o, f); Sound(t.cache, t.world) && LostIn(t.cache, map[], t.world, id)
  {
    var names := match op { case Deliver(e, _) => Sort(Listed(e)) case Ask(_) => Sort([]) };
    AcquireSound(names, s.cache, s.world, f);
    AcquireMakesNew(names, s.cache, s.world, f);
    var b := AcquireAll(names, s.cache, s.world, f);
    assert id !in ClosersOf(b.prior);
  }

  /** What a batch holds was either cached before or made by this batch. */
  lemma {:induction false} AcquireMakesNew(names: seq<string>, cache: map<string, Live>, w: World, f: Factory)
    requires Sound(cache, w)
    ensures var b := AcquireAll(names, cache, w, f);
      forall k :: k in b.next ==> (k in cache && b.next[k] == cache[k]) || b.next[k].endpoint >= |w.made|
  {
    var n := |names|;
    if n > 0 {
      AcquireMakesNew(names[..n - 1], cache, w, f);
      AcquireSound(names[..n - 1], cache, w, f);
    }
  }

  lemma EagerClosable(ops: seq<Op>, o: Options)
    ensures AllClosable(Run(ops, o, Eager()).world)
  {
    var n := |ops|;
    if n > 0 {
      EagerClosable(ops[..n - 1], o);
      var s := Run(ops[..n - 1], o, Eager());
      match ops[n - 1] {
        case Deliver(e, _) => EagerBatch(Sort(Listed(e)), s.cache, s.world);
        case Ask(_) => EagerBatch(Sort([]), s.cache, s.world);
      }
    }
  }

  lemma {:induction false} EagerBatch(names: seq<string>, cache: map<string, Live>, w: World)
    requires AllClosable(w)
    ensures AllClosable(AcquireAll(names, cache, w, Eager()).world)
  {
    if |names| > 0 { EagerBatch(names[..|names| - 1], cache, w); }
  }

  lemma {:induction false} RepeatLeaks(ops: seq<Op>, o: Options)
    requires !DuplicateFree(ops)
    ensures var s := Run(ops, o, Eager()); Sound(s.cache, s.world) && exists id :: LostIn(s.cache, map[], s.world, id)
  {
    var n := |ops|;
    var front, s := ops[..n - 1], Run(ops[..n - 1], o, Eager());
    if !DuplicateFree(front) {
      RepeatLeaks(front, o);
      var id :| LostIn(s.cache, map[], s.world, id);
      LostForever(s, ops[n - 1], o, Eager(), id);
    } else {
      LifecycleHolds(front, o, Eager());
      EagerClosable(front, o);
      var names := Sort(Listed(ops[n - 1].event));
      SortNoDup(Listed(ops[n - 1].event));
      var id := RepeatLoses(names, s);
      AcquireSound(names, s.cache, s.world, Eager());
      var b := AcquireAll(names, s.cache, s.world, Eager());
      assert id !in ClosersOf(b.prior);
      var t := Run(ops, o, Eager());
      assert LostIn(t.cache, map[], t.world, id);
    }
  }

  /** Over every run and every factory, no endpoint leaks, is closed twice, or is closed while served,
      exactly when no successful event repeats an instance. */
  lemma {:induction false} LifecycleExactly(ops: seq<Op>, o: Options)
    ensures (forall f: Factory :: Owned(Run(ops, o, f))) <==> DuplicateFree(ops)
  {
    if DuplicateFree(ops) {
      forall f: Factory ensures Owned(Run(ops, o, f)) { LifecycleHolds(ops, o, f); }
    } else {
      RepeatLeaks(ops, o);
      var s := Run(ops, o, Eager());
      var id :| LostIn(s.cache, map[], s.world, id);
      assert !Owned(s);
    }
  }

  /** Leaks are all that can go wrong, and they can exactly when a successful event repeats an instance. */
  lemma {:induction false} LeakFreeExactly(ops: seq<Op>, o: Options)
    ensures (forall f: Factory :: LeakFree(Run(ops, o, f))) <==> DuplicateFree(ops)
  {
    LifecycleExactly(ops, o);
    forall f: Factory ensures Owned(Run(ops, o, f)) <==> LeakFree(Run(ops, o, f)) {
      SafetyHolds(ops, o, f);
      OwnedExactly(Run(ops, o, f));
    }
  }

  lemma OwnedExactly(s: State)
    requires Safe(s)
    ensures Owned(s) <==> LeakFree(s)
  {
  }

  /* ---------- the exposed list ---------- */

  /** `keys` is the cache's key set in ascending order, and the exposed list follows it. */
  predicate ListedBy(s: State, keys: seq<string>) {
    && StrictlySorted(keys)
    && Elements(keys) == s.cache.Keys
    && |s.endpoints| == |keys|
    && forall i :: 0 <= i < |keys| ==> s.endpoints[i] == s.cache[keys[i]].endpoint
  }

  function Present(names: seq<string>, cache: map<string, Live>): seq<string> {
    if |names| == 0 then []
    else
      var last := names[|names| - 1];
      Present(names[..|names| - 1], cache) + if last in cache then [last] else []
  }

  lemma {:induction false} PresentLists(names: seq<string>, cache: map<string, Live>)
    requires StrictlySorted(names)
    ensures var keys := Present(names, cache);
      && StrictlySorted(keys)
      && (forall k :: k in keys <==> k in names && k in cache)
      && |Listing(names, cache)| == |keys|
      && forall i :: 0 <= i < |keys| ==> Listing(names, cache)[i] == cache[keys[i]].endpoint
  {
    var n := |names|;
    if n > 0 {
      PresentLists(names[..n - 1], cache);
      assert names == names[..n - 1] + [names[n - 1]];
      var keys := Present(names[..n - 1], cache);
      forall i | 0 <= i < |keys| ensures Less(keys[i], names[n - 1]) {
        assert keys[i] in names[..n - 1];
      }
    }
  }

  /** The instances the cache was last refreshed with: those of the last success, or none if a request has failed
      since. Whether it has does not depend on the factory. */
  function Refresh(ops: seq<Op>, o: Options): seq<string> {
    if |ops| == 0 then []
    else
      var n := |ops| - 1;
      match ops[n]
      case Deliver(e, _) => if e.err == None then Listed(e) else Refresh(ops[..n], o)
      case Ask(now) => if Serving(Run(ops[..n], o, Eager()), now) then Refresh(ops[..n], o) else []
  }

  lemma {:induction false} SameStatus(ops: seq<Op>, o: Options, f: Factory)
    ensures Run(ops, o, f).err == Run(ops, o, Eager()).err && Run(ops, o, f).deadline == Run(ops, o, Eager()).deadline
  {
    if |ops| > 0 { SameStatus(ops[..|ops| - 1], o, f); }
  }

  /** Map and list are what the last refresh left. */
  ghost predicate LeftBy(s: State, names: seq<string>) {
    s.endpoints == Listing(names, s.cache) && forall k :: k in s.cache ==> k in names
  }

  lemma RefreshLeaves(s: State, instances: seq<string>, f: Factory)
    requires Sound(s.cache, s.world)
    ensures LeftBy(Refreshed(s, instances, f), Sort(instances))
    ensures f == Eager() ==> Refreshed(s, instances, f).cache.Keys == Elements(instances)
  {
    AcquireSound(Sort(instances), s.cache, s.world, f);
    SortElements(instances);
    if f == Eager() {
      EagerKeys(Sort(instances), s.cache, s.world);
      assert Elements(Sort(instances)) == Elements(instances);
    }
  }

  lemma {:induction false} RunLeaves(ops: seq<Op>, o: Options, f: Factory)
    ensures LeftBy(Run(ops, o, f), Sort(Refresh(ops, o)))
    ensures f == Eager() ==> Run(ops, o, f).cache.Keys == Elements(Refresh(ops, o))
  {
    if |ops| > 0 {
      var n := |ops| - 1;
      RunLeaves(ops[..n], o, f);
      SafetyHolds(ops[..n], o, f);
      SameStatus(ops[..n], o, f);
      match ops[n] {
        case Deliver(e, _) => if e.err == None { RefreshLeaves(Run(ops[..n], o, f), Listed(e), f); }
        case Ask(now) => RefreshLeaves(Run(ops[..n], o, f), [], f);
      }
    }
  }

  /** The endpoints a caller sees are the cache's endpoints in ascending key order, for every factory, exactly if the
      cache was last refreshed with a list that repeats no instance. */
  lemma {:induction false} ExposedInKeyOrderExactly(ops: seq<Op>, o: Options)
    ensures (forall f: Factory :: InKeyOrder(Run(ops, o, f))) <==> NoDup(Refresh(ops, o))
  {
    if NoDup(Refresh(ops, o)) {
      forall f: Factory ensures InKeyOrder(Run(ops, o, f)) {
        var keys := ExposedInKeyOrder(ops, o, f);
      }
    } else {
      forall keys ensures !ListedBy(Run(ops, o, Eager()), keys) { RepeatsAreExposed(ops, o, keys); }
      assert !InKeyOrder(Run(ops, o, Eager()));
    }
  }

  ghost predicate InKeyOrder(s: State) {
    exists keys :: ListedBy(s, keys)
  }

  /** In particular after every run that repeats no instance at all. */
  lemma {:induction false} DuplicateFreeRefresh(ops: seq<Op>, o: Options)
    requires DuplicateFree(ops)
    ensures NoDup(Refresh(ops, o))
  {
    if |ops| > 0 {
      assert Success(ops[|ops| - 1]) ==> NoDup(Listed(ops[|ops| - 1].event));
      DuplicateFreeRefresh(ops[..|ops| - 1], o);
    }
  }

  lemma {:induction false} ExposedInKeyOrder(ops: seq<Op>, o: Options, f: Factory) returns (keys: seq<string>)
    requires NoDup(Refresh(ops, o))
    ensures ListedBy(Run(ops, o, f), keys)
  {
    var s, names := Run(ops, o, f), Sort(Refresh(ops, o));
    RunLeaves(ops, o, f);
    SortNoDup(Refresh(ops, o));
    PresentLists(names, s.cache);
    keys := Present(names, s.cache);
  }

  /** A list that repeats an instance is exposed with an endpoint too many. */
  lemma RepeatsAreExposed(ops: seq<Op>, o: Options, keys: seq<string>)
    requires !NoDup(Refresh(ops, o))
    ensures !ListedBy(Run(ops, o, Eager()), keys)
  {
    var s, names := Run(ops, o, Eager()), Refresh(ops, o);
    RunLeaves(ops, o, Eager());
    SortElements(names);
    SortSorts(names);
    AllListed(Sort(names), s.cache);
    assert |Sort(names)| == |multiset(Sort(names))| == |multiset(names)| == |names|;
    SizeOfElements(names);
    SizeOfElements(keys);
    forall i, j | 0 <= i < j < |keys| && Less(keys[i], keys[j]) ensures keys[i] != keys[j] { LessIrreflexive(keys[i]); }
    assert StrictlySorted(keys) ==> NoDup(keys);
  }

  lemma {:induction false} AllListed(names: seq<string>, cache: map<string, Live>)
    requires forall i :: 0 <= i < |names| ==> names[i] in cache
    ensures |Listing(names, cache)| == |names|
  {
    if |names| > 0 { AllListed(names[..|names| - 1], cache); }
  }

  /* ---------- the deadline ---------- */

  /** Event `i` is the first error since the success at `last` (or since the start, when `last` is -1),
      and no success has come since. */
  predicate FirstFault(ops: seq<Op>, last: int, i: int) {
    && -1 <= last < i < |ops|
    && Fault(ops[i])
    && (last >= 0 ==> Success(ops[last]))
    && (forall j :: last < j < i ==> ops[j].Ask?)
    && (forall j :: i < j < |ops| ==> !Success(ops[j]))
  }

  lemma {:induction false} ErrorState(ops: seq<Op>, o: Options, f: Factory) returns (last: int, i: int)
    ensures var s := Run(ops, o, f);
      && -1 <= last < |ops|
      && (s.err != None ==>
            && o.invalidateOnError
            && FirstFault(ops, last, i)
            && s.err == ops[i].event.err && s.deadline == ops[i].now + o.invalidateTimeout)
      && (s.err == None && o.invalidateOnError ==>
            && (last >= 0 ==> Success(ops[last]))
            && (forall j :: last < j < |ops| ==> ops[j].Ask?))
      && (!o.invalidateOnError ==> s.err == None)
  {
    var n := |ops|;
    if n == 0 { return -1, 0; }
    last, i := ErrorState(ops[..n - 1], o, f);
    var s, op := Run(ops[..n - 1], o, f), ops[n - 1];
    if Success(op) {
      last := n - 1;
    } else if Fault(op) && o.invalidateOnError && s.err == None {
      i := n - 1;
    }
  }

  predicate Expired(op: Op, o: Options, t: int, e: Error) {
    o.invalidateOnError && Fault(op) && op.event.err == Some(e) && t >= op.now + o.invalidateTimeout
  }

  /** A request fails at time `t` exactly when invalidation is on, an error has followed the last success,
      and `t` is at or past the first such error's time plus the timeout; the error reported is that first one. */
  lemma {:induction false} DeadlineFromHistory(ops: seq<Op>, o: Options, f: Factory, t: int, e: Error)
    ensures Asked(Run(ops, o, f), t, f).1 == Unavailable(e) <==>
            exists last, i :: FirstFault(ops, last, i) && Expired(ops[i], o, t, e)
  {
    var last, i := ErrorState(ops, o, f);
    var s := Run(ops, o, f);
    if b, j :| FirstFault(ops, b, j) && Expired(ops[j], o, t, e) {
      if s.err == None { assert false; }
      if i != j { assert false; }
    }
  }

  /** Whatever came before, a request that fails closes what is held and has a closer, each once, and nothing else; and
      until the next event the exposed list is empty. */
  lemma {:induction false} FailureReleasesAll(s: State, now: int, f: Factory)
    requires Safe(s) && !Serving(s, now)
    ensures var (t, r) := Asked(s, now, f);
      && t.cache == map[] && t.endpoints == [] && r == Unavailable(s.err.value) && t.err == s.err
      && t.world.made == s.world.made
      && (forall id: Id :: id < |s.world.made| && Held(s.cache, s.world, id) ==>
            t.world.closed[id] == if s.world.made[id].closer then 1 else 0)
      && (forall id: Id :: id < |s.world.made| && !Held(s.cache, s.world, id) ==>
            t.world.closed[id] == s.world.closed[id])
      && (Owned(s) ==> forall id: Id :: id < |t.world.made| && t.world.made[id].closer ==> t.world.closed[id] == 1)
  {
    forall id: Id | id < |s.world.made|
      ensures id in ClosersOf(s.cache) <==> Held(s.cache, s.world, id) && s.world.made[id].closer
    {
      var k := s.world.made[id].instance;
      if Held(s.cache, s.world, id) && s.world.made[id].closer { assert s.cache[k].closer && s.cache[k].endpoint == id; }
    }
  }

  /* ---------- what callers are served ---------- */

  lemma {:induction false} ListingIsHeld(names: seq<string>, cache: map<string, Live>, i: nat)
    requires i < |Listing(names, cache)|
    ensures exists k :: k in names && k in cache && Listing(names, cache)[i] == cache[k].endpoint
  {
    var front, last := names[..|names| - 1], names[|names| - 1];
    if i < |Listing(front, cache)| {
      ListingIsHeld(front, cache, i);
    } else {
      assert last in names && last in cache;
    }
  }

  /** Over every run, a request that does not fail changes nothing, and is served endpoints that the cache holds and no
      one has closed. */
  lemma {:induction false} ServedAreOpen(ops: seq<Op>, o: Options, f: Factory, t: int, list: seq<Id>, i: nat)
    requires Asked(Run(ops, o, f), t, f).1 == Available(list) && i < |list|
    ensures var s := Run(ops, o, f);
      && Asked(s, t, f).0 == s
      && list[i] < |s.world.made| && Held(s.cache, s.world, list[i]) && s.world.closed[list[i]] == 0
  {
    var s := Run(ops, o, f);
    SafetyHolds(ops, o, f);
    RunLeaves(ops, o, f);
    ListingIsHeld(Sort(Refresh(ops, o)), s.cache, i);
  }

  /** After a last refresh without repeats they are all of the cache's, in ascending order of their instances. */
  lemma {:induction false} ServedInKeyOrder(ops: seq<Op>, o: Options, f: Factory, t: int, list: seq<Id>)
    returns (keys: seq<string>)
    requires NoDup(Refresh(ops, o)) && Asked(Run(ops, o, f), t, f).1 == Available(list)
    ensures var s := Run(ops, o, f);
      && StrictlySorted(keys) && Elements(keys) == s.cache.Keys && |list| == |keys|
      && forall i :: 0 <= i < |keys| ==> list[i] == s.cache[keys[i]].endpoint
  {
    keys := ExposedInKeyOrder(ops, o, f);
  }
}
