/** sd/endpoint_cache.go: instances become live endpoints, which the cache owns and closes. */
module EndpointCaching {
  import opened Discovery
  import opened Order

  /** An endpoint is known by the serial number of the factory call that made it, among successful calls;
      its closer, when there is one, carries the same number. */
  type Id = nat

  datatype Reply = Refused(reason: Error) | Made(closer: bool)

  /** A factory may answer differently on each call: its second argument counts the calls before this one. */
  type Factory = (string, nat) -> Reply

  datatype Live = Live(endpoint: Id, closer: bool)

  datatype Origin = Origin(instance: string, closer: bool)

  /** What the outside world has seen: factory calls, endpoints made (by serial number), closers called. */
  datatype World = World(calls: nat, made: seq<Origin>, closed: multiset<Id>)

  datatype Options = Options(invalidateOnError: bool, invalidateTimeout: int)

  datatype State = State(
    cache: map<string, Live>,
    endpoints: seq<Id>,
    err: Option<Error>,
    deadline: int,
    world: World)

  datatype Response = Available(endpoints: seq<Id>) | Unavailable(err: Error)

  /* ---------- specification: one update ---------- */

  datatype Batch = Batch(next: map<string, Live>, prior: map<string, Live>, world: World)

  function Acquire(b: Batch, instance: string, f: Factory): Batch {
    if instance in b.prior then
      b.(next := b.next[instance := b.prior[instance]], prior := b.prior - {instance})
    else
      var w := b.world;
      match f(instance, w.calls)
      case Refused(_) => b.(world := w.(calls := w.calls + 1))
      case Made(closer) =>
        Batch(b.next[instance := Live(|w.made|, closer)], b.prior,
              w.(calls := w.calls + 1, made := w.made + [Origin(instance, closer)]))
  }

  function AcquireAll(instances: seq<string>, cache: map<string, Live>, w: World, f: Factory): Batch {
    if |instances| == 0 then Batch(map[], cache, w)
    else Acquire(AcquireAll(instances[..|instances| - 1], cache, w, f), instances[|instances| - 1], f)
  }

  function Listing(instances: seq<string>, cache: map<string, Live>): seq<Id> {
    if |instances| == 0 then []
    else
      var last := instances[|instances| - 1];
      Listing(instances[..|instances| - 1], cache) + if last in cache then [cache[last].endpoint] else []
  }

  function ClosersOf(m: map<string, Live>): set<Id> {
    set k | k in m && m[k].closer :: m[k].endpoint
  }

  function CloserOf(v: Live): multiset<Id> {
    if v.closer then multiset{v.endpoint} else multiset{}
  }

  /** `m` falls into the entries already visited and those still to come. */
  ghost predicate Split(m: map<string, Live>, done: map<string, Live>, rest: map<string, Live>) {
    && done.Keys !! rest.Keys
    && done.Keys + rest.Keys == m.Keys
    && (forall k :: k in rest ==> rest[k] == m[k])
    && (forall k :: k in done ==> done[k] == m[k])
  }

  lemma ClosersOfAdded(m: map<string, Live>, k: string, v: Live)
    requires k !in m && forall j :: j in m ==> m[j].endpoint != v.endpoint
    ensures multiset(ClosersOf(m[k := v])) == multiset(ClosersOf(m)) + CloserOf(v)
  {
    var m' := m[k := v];
    forall x | x in ClosersOf(m) ensures x in ClosersOf(m') && x != v.endpoint {
      var j :| j in m && m[j].closer && m[j].endpoint == x;
      assert m'[j] == m[j];
    }
    if v.closer { assert m'[k] == v; }
    assert ClosersOf(m') == ClosersOf(m) + if v.closer then {v.endpoint} else {};
  }

  function Refreshed(s: State, instances: seq<string>, f: Factory): State {
    var sorted := Sort(instances);
    var b := AcquireAll(sorted, s.cache, s.world, f);
    s.(cache := b.next,
       endpoints := Listing(sorted, b.next),
       world := b.world.(closed := b.world.closed + multiset(ClosersOf(b.prior))))
  }

  function Updated(s: State, e: Event, now: int, o: Options, f: Factory): State {
    if e.err == None then
      Refreshed(s, Listed(e), f).(err := None)
    else if !o.invalidateOnError || s.err != None then
      s
    else
      s.(err := e.err, deadline := now + o.invalidateTimeout)
  }

  /** Whether a caller at time `now` is still served the known endpoints. */
  predicate Serving(s: State, now: int) {
    s.err == None || now < s.deadline
  }

  function Asked(s: State, now: int, f: Factory): (State, Response) {
    if Serving(s, now) then (s, Available(s.endpoints))
    else (Refreshed(s, [], f), Unavailable(s.err.value))
  }

  const INITIAL := State(map[], [], None, 0, World(0, [], multiset{}))

  /* ---------- ownership invariant ---------- */

  /** Every cached endpoint was made for the key it is cached under. */
  predicate Sound(cache: map<string, Live>, w: World) {
    forall k :: k in cache ==>
      cache[k].endpoint < |w.made| && w.made[cache[k].endpoint] == Origin(k, cache[k].closer)
  }

  /** Endpoint `id` is reachable through the cache. */
  predicate Held(cache: map<string, Live>, w: World, id: Id)
    requires id < |w.made|
  {
    var k := w.made[id].instance;
    k in cache && cache[k].endpoint == id
  }

  /** Each endpoint ever made is held and unclosed, or was closed once (never, when it has no closer). */
  ghost predicate Owned(s: State) {
    && Sound(s.cache, s.world)
    && (forall id: Id :: id < |s.world.made| ==>
          s.world.closed[id] == if s.world.made[id].closer && !Held(s.cache, s.world, id) then 1 else 0)
    && (forall id: Id :: id >= |s.world.made| ==> s.world.closed[id] == 0)
  }

  lemma AcquireKeepsSound(b: Batch, instance: string, f: Factory)
    requires Sound(b.next, b.world) && Sound(b.prior, b.world)
    ensures var c := Acquire(b, instance, f);
      && Sound(c.next, c.world) && Sound(c.prior, c.world)
      && b.world.made <= c.world.made && b.world.calls <= c.world.calls && c.world.closed == b.world.closed
  {
    AcquireAppends(b, instance, f);
    AcquireNextSound(b, instance, f);
  }

  lemma AcquireAppends(b: Batch, instance: string, f: Factory)
    ensures var c := Acquire(b, instance, f);
      && b.world.made <= c.world.made && b.world.calls <= c.world.calls && c.world.closed == b.world.closed
      && forall k :: k in c.prior ==> k in b.prior && c.prior[k] == b.prior[k]
  {
  }

  lemma AcquireNextSound(b: Batch, instance: string, f: Factory)
    requires Sound(b.next, b.world) && Sound(b.prior, b.world)
    ensures var c := Acquire(b, instance, f); Sound(c.next, c.world)
  {
  }

  lemma {:induction false} AcquireSound(instances: seq<string>, cache: map<string, Live>, w: World, f: Factory)
    requires Sound(cache, w)
    ensures var b := AcquireAll(instances, cache, w, f);
      && Sound(b.next, b.world) && Sound(b.prior, b.world)
      && w.made <= b.world.made && w.calls <= b.world.calls && b.world.closed == w.closed
      && (forall k :: k in b.next ==> k in instances)
      && (forall k :: k in b.prior <==> k in cache && k !in instances)
      && (forall k :: k in b.prior ==> b.prior[k] == cache[k])
  {
    var n := |instances|;
    if n > 0 {
      AcquireSound(instances[..n - 1], cache, w, f);
      AcquireKeepsSound(AcquireAll(instances[..n - 1], cache, w, f), instances[n - 1], f);
      assert instances == instances[..n - 1] + [instances[n - 1]];
    }
  }

  /** Soundness needs no assumption on the list: it survives every update. */
  lemma UpdateSound(s: State, e: Event, now: int, o: Options, f: Factory)
    requires Sound(s.cache, s.world)
    ensures var t := Updated(s, e, now, o, f); Sound(t.cache, t.world)
  {
    AcquireSound(Sort(Listed(e)), s.cache, s.world, f);
  }

  lemma Joined(a: multiset<Id>, b: multiset<Id>, c: multiset<Id>)
    ensures a + b + c == a + (b + c)
  {
  }

  lemma AllVisited(m: map<string, Live>, done: map<string, Live>)
    requires Split(m, done, map[])
    ensures done == m
  {
    assert done.Keys == m.Keys;
  }

  /** Visiting one more entry of a sound map. */
  lemma OneClosed(m: map<string, Live>, w: World, done: map<string, Live>, rest: map<string, Live>, k: string)
    requires Sound(m, w) && Split(m, done, rest) && k in rest
    ensures Split(m, done[k := rest[k]], rest - {k}) && (rest - {k}).Keys < rest.Keys
    ensures multiset(ClosersOf(done[k := rest[k]])) == multiset(ClosersOf(done)) + CloserOf(rest[k])
  {
    ClosersOfAdded(done, k, rest[k]);
    assert k !in (rest - {k}).Keys;
  }

  /* ---------- the cache itself ---------- */

  /** The factory and the closers it hands out, with a record of their use. */
  class Surroundings {
    const factory: Factory
    var calls: nat
    var made: seq<Origin>
    var closed: multiset<Id>

    constructor (factory: Factory)
      ensures this.factory == factory && View() == INITIAL.world
    {
      this.factory := factory;
      calls, made, closed := 0, [], multiset{};
    }

    function View(): World
      reads this
    {
      World(calls, made, closed)
    }

    method Make(instance: string) returns (reply: Reply, id: Id)
      modifies this
      ensures reply == factory(instance, old(calls)) && calls == old(calls) + 1
      ensures closed == old(closed)
      ensures reply.Refused? ==> made == old(made)
      ensures reply.Made? ==> id == |old(made)| && made == old(made) + [Origin(instance, reply.closer)]
    {
      reply, id := factory(instance, calls), |made|;
      calls := calls + 1;
      if reply.Made? { made := made + [Origin(instance, reply.closer)]; }
    }

    method Close(id: Id)
      modifies this`closed
      ensures closed == old(closed) + multiset{id}
    {
      closed := closed + multiset{id};
    }
  }

  class EndpointCache {
    const options: Options
    const world: Surroundings
    var cache: map<string, Live>
    var endpoints: array?<Id>
    var err: Option<Error>
    var invalidateDeadline: int

    constructor (options: Options, factory: Factory)
      ensures Valid() && fresh(world) && world.factory == factory && this.options == options
      ensures View() == INITIAL
    {
      this.options := options;
      world := new Surroundings(factory);
      cache, endpoints, err, invalidateDeadline := map[], null, None, 0;
    }

    function View(): State
      reads this, world, if endpoints == null then {} else {endpoints}
    {
      State(cache, if endpoints == null then [] else endpoints[..], err, invalidateDeadline, world.View())
    }

    ghost predicate Valid()
      reads this, world
    {
      Sound(cache, world.View())
    }

    /** Takes over `event`'s slice, sorting it in place. `now` is the clock reading. */
    method Update(event: Message, now: int)
      requires Valid()
      modifies this, world, event.Storage()
      ensures Valid()
      ensures View() == Updated(old(View()), old(event.View()), now, options, world.factory)
      ensures endpoints == old(endpoints) || fresh(endpoints)
    {
      if event.err == None {
        UpdateCache(event.instances);
        err := None;
        return;
      }
      if !options.invalidateOnError { return; }
      if err != None { return; }
      err := event.err;
      invalidateDeadline := now + options.invalidateTimeout;
    }

    method UpdateCache(instances: array?<string>)
      requires Valid()
      modifies this`cache, this`endpoints, world, if instances == null then {} else {instances}
      ensures Valid()
      ensures View() == Refreshed(old(View()), old(Listed(Event(Contents(instances), None))), world.factory)
      ensures endpoints != null && fresh(endpoints)
    {
      ghost var before := View();
      if instances != null { SortStrings(instances); }
      ghost var sorted := Listed(Event(Contents(instances), None));
      AcquireSound(sorted, before.cache, before.world, world.factory);
      var next := AcquireEach(instances);
      CloseLeftovers();
      endpoints := ListEndpoints(instances, next);
      cache := next;
    }

    /** Moves what is already live out of the map, and asks the factory for the rest. */
    method AcquireEach(instances: array?<string>) returns (next: map<string, Live>)
      modifies this`cache, world
      ensures Batch(next, cache, world.View()) ==
              AcquireAll(Listed(Event(Contents(instances), None)), old(cache), old(world.View()), world.factory)
    {
      var n := if instances == null then 0 else instances.Length;
      ghost var names := Listed(Event(Contents(instances), None));
      next := map[];
      for i := 0 to n
        invariant Batch(next, cache, world.View()) == AcquireAll(names[..i], old(cache), old(world.View()), world.factory)
      {
        var instance := instances[i];
        assert names[..i + 1][..i] == names[..i];
        if instance in cache {
          next := next[instance := cache[instance]];
          cache := cache - {instance};
          continue;
        }
        var reply, id := world.Make(instance);
        if reply.Refused? { continue; }
        next := next[instance := Live(id, reply.closer)];
      }
      assert names[..n] == names;
    }

    /** Calls every non-nil closer still in the map, in whatever order the map yields them. */
    method CloseLeftovers()
      requires Valid()
      modifies world`closed
      ensures world.closed == old(world.closed) + multiset(ClosersOf(cache))
    {
      var rest := cache;
      ghost var done: map<string, Live> := map[];
      while rest != map[]
        invariant Split(cache, done, rest)
        invariant world.closed == old(world.closed) + multiset(ClosersOf(done))
        decreases rest.Keys
      {
        var k :| k in rest;
        OneClosed(cache, world.View(), done, rest, k);
        Joined(old(world.closed), multiset(ClosersOf(done)), CloserOf(rest[k]));
        CloseLeftover(rest[k]);
        rest, done := rest - {k}, done[k := rest[k]];
      }
      AllVisited(cache, done);
    }

    /** Calls the closer, if there is one. */
    method CloseLeftover(live: Live)
      modifies world`closed
      ensures world.closed == old(world.closed) + CloserOf(live)
    {
      if live.closer { world.Close(live.endpoint); }
    }

    /** A new slice every time, so a slice handed out earlier is never written again. */
    static method ListEndpoints(instances: array?<string>, next: map<string, Live>) returns (made: array<Id>)
      ensures fresh(made)
      ensures made[..] == Listing(Listed(Event(Contents(instances), None)), next)
    {
      var n := if instances == null then 0 else instances.Length;
      ghost var names := Listed(Event(Contents(instances), None));
      var list: seq<Id> := [];
      for i := 0 to n
        invariant list == Listing(names[..i], next)
      {
        assert names[..i + 1][..i] == names[..i];
        if instances[i] !in next { continue; }
        list := list + [next[instances[i]].endpoint];
      }
      assert names[..n] == names;
      made := new Id[|list|](i requires 0 <= i < |list| => list[i]);
      assert made[..] == list;
    }

    /** The two-phase read; here both phases run without interference. */
    method Endpoints(now: int) returns (served: array?<Id>, failure: Option<Error>)
      requires Valid()
      modifies this`cache, this`endpoints, world
      ensures Valid()
      ensures var (s, r) := Asked(old(View()), now, world.factory);
        && View() == s
        && match r
           case Available(list) =>
             failure == None && served == old(endpoints) && (if served == null then [] else served[..]) == list
           case Unavailable(e) => failure == Some(e) && served == null
    {
      if err == None || now < invalidateDeadline { return endpoints, None; }
      UpdateCache(null);
      return null, err;
    }
  }
}
