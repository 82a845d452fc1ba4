/** metrics/internal/lv/space.go: tries of mutable nodes that stand for a flat map from series to values. */
module Spaces {
  import opened LabelValues
  import opened Order
  import opened TrieWalks

  /** The value `Add` appends to a series. */
  function Advanced(s: seq<real>, delta: real): real {
    if |s| > 0 then s[|s| - 1] + delta else delta
  }

  /** One call of a walk's callback: the arguments as they were during the call. */
  datatype Visit = Visit(name: string, labels: seq<string>, observations: seq<real>)

  /* ---------- the flat map as a function of history ---------- */

  datatype Op = Observed(at: Series, value: real) | Added(at: Series, delta: real) | Emptied

  /** One operation's effect on a series. */
  function Effect(before: seq<real>, op: Op, k: Series): seq<real> {
    match op
    case Observed(at, value) => if at == k then before + [value] else before
    case Added(at, delta) => if at == k then before + [Advanced(before, delta)] else before
    case Emptied => []
  }

  /** What a series holds after a history of operations. */
  function Recorded(history: seq<Op>, k: Series): seq<real> {
    if |history| == 0 then []
    else Effect(Recorded(history[..|history| - 1], k), history[|history| - 1], k)
  }

  lemma RecordedNext(history: seq<Op>, op: Op)
    ensures forall k :: Recorded(history + [op], k) == Effect(Recorded(history, k), op, k)
  {
  }

  /** The sum of the deltas added to a series. */
  function Deltas(history: seq<Op>, k: Series): real {
    if |history| == 0 then 0.0
    else
      var op := history[|history| - 1];
      Deltas(history[..|history| - 1], k) + if op.Added? && op.at == k then op.delta else 0.0
  }

  /** From operation `n` on there is no reset, and `k` is only added to; before that it was observed to be `start`, or
      held nothing. */
  predicate AddedSince(history: seq<Op>, k: Series, n: nat, start: real) {
    && n <= |history|
    && (forall i :: n <= i < |history| ==> !history[i].Emptied? && (history[i].at == k ==> history[i].Added?))
    && if n > 0 && history[n - 1].Observed? then history[n - 1] == Observed(k, start)
       else (n > 0 ==> history[n - 1].Emptied?) && start == 0.0
  }

  /** The last value of a series is that of its last observation, or zero, plus the deltas added since. */
  lemma {:induction false} LastValueExactly(history: seq<Op>, k: Series, n: nat, start: real)
    requires AddedSince(history, k, n, start)
    ensures var s := Recorded(history, k);
      && (|s| > 0 ==> s[|s| - 1] == start + Deltas(history[n..], k))
      && (|s| == 0 <==>
            (n > 0 ==> history[n - 1].Emptied?) && forall i :: n <= i < |history| ==> history[i].at != k)
      && (|s| == 0 ==> Deltas(history[n..], k) == 0.0)
  {
    if n < |history| {
      var front := history[..|history| - 1];
      LastValueExactly(front, k, n, start);
      assert history[n..][..|history| - 1 - n] == front[n..];
    } else {
      assert history[n..] == [];
    }
  }

  /** A reset empties every series; any other operation adds one value to its own series, at the end, and leaves the
      others alone. */
  lemma RecordedGrows(history: seq<Op>, op: Op, k: Series)
    ensures var s, t := Recorded(history, k), Recorded(history + [op], k);
      if op.Emptied? then t == [] else if op.at != k then t == s else s < t && |t| == |s| + 1
  {
    RecordedNext(history, op);
    assert Recorded(history + [op], k) == Effect(Recorded(history, k), op, k);
  }

  /** What the spaces detached so far hold for a series, oldest first. */
  function Detached(history: seq<Op>, k: Series): seq<real> {
    if |history| == 0 then []
    else
      var front := history[..|history| - 1];
      Detached(front, k) + if history[|history| - 1].Emptied? then Recorded(front, k) else []
  }

  /** Every value ever appended to a series, in order. */
  function Appended(history: seq<Op>, k: Series): seq<real> {
    if |history| == 0 then []
    else
      var front := history[..|history| - 1];
      Appended(front, k) +
      match history[|history| - 1]
      case Observed(at, value) => if at == k then [value] else []
      case Added(at, delta) => if at == k then [Advanced(Recorded(front, k), delta)] else []
      case Emptied => []
  }

  /** Resets lose nothing and duplicate nothing: series by series, what was detached followed by what is still
      held is everything appended, in order. */
  lemma {:induction false} ResetConserves(history: seq<Op>, k: Series)
    ensures Detached(history, k) + Recorded(history, k) == Appended(history, k)
  {
    if |history| > 0 { ResetConserves(history[..|history| - 1], k); }
  }

  /* ---------- the tries ---------- */

  class Node {
    var observations: seq<real>
    var children: map<Pair, Node>
    /** The series this node stands for. */
    ghost const key: Series

    constructor (ghost key: Series)
      ensures observations == [] && children == map[] && this.key == key
    {
      observations, children, this.key := [], map[], key;
    }

    /** Appends `value` to the series `lvs` names from here. An odd list panics once its pairs are used up,
        after which no series has changed. */
    method Observe(lvs: seq<string>, value: real, ghost s: Space) returns (panicked: bool)
      requires s.Linked() && s.Holds(this)
      modifies s`place, s.place.Values
      ensures s.Linked() && s.Grown()
      ensures panicked <==> Odd(lvs)
      ensures forall k :: s.Values(k) ==
                if !panicked && k == Target(key, lvs) then old(s.Values(k)) + [value] else old(s.Values(k))
      decreases |lvs|
    {
      if |lvs| == 0 {
        Append(value, s);
        return false;
      }
      if |lvs| < 2 { return true; }
      var head, tail := Pair(lvs[0], lvs[1]), lvs[2..];
      var child := ChildFor(head, s);
      panicked := child.Observe(tail, value, s);
    }

    /** Appends the last value plus `delta`, or `delta` to an empty series. */
    method Add(lvs: seq<string>, delta: real, ghost s: Space) returns (panicked: bool, ghost value: real)
      requires s.Linked() && s.Holds(this)
      modifies s`place, s.place.Values
      ensures s.Linked() && s.Grown()
      ensures panicked <==> Odd(lvs)
      ensures forall k :: s.Values(k) ==
                if !panicked && k == Target(key, lvs) then old(s.Values(k)) + [value] else old(s.Values(k))
      ensures !panicked ==>
        var before := old(s.Values(Target(key, lvs)));
        value == if |before| > 0 then before[|before| - 1] + delta else delta
      decreases |lvs|
    {
      if |lvs| == 0 {
        var last := if |observations| > 0 then observations[|observations| - 1] + delta else delta;
        Append(last, s);
        return false, last;
      }
      if |lvs| < 2 { return true, 0.0; }
      var head, tail := Pair(lvs[0], lvs[1]), lvs[2..];
      var child := ChildFor(head, s);
      panicked, value := child.Add(tail, delta, s);
    }

    method Append(value: real, ghost s: Space)
      requires s.Linked() && s.Holds(this)
      modifies this`observations
      ensures s.Linked()
      ensures forall k :: s.Values(k) == old(s.Values(k)) + if k == key then [value] else []
    {
      observations := observations + [value];
    }

    /** The child under `head`, made on first use. */
    method ChildFor(head: Pair, ghost s: Space) returns (child: Node)
      requires s.Linked() && s.Holds(this)
      modifies s`place, this`children
      ensures s.Linked() && s.Grown()
      ensures s.Holds(child) && child.key == At(key, head)
      ensures forall k :: s.Values(k) == old(s.Values(k))
    {
      if head in children { return children[head]; }
      child := AddChild(head, s);
    }

    method AddChild(head: Pair, ghost s: Space) returns (child: Node)
      requires s.Linked() && s.Holds(this) && head !in children
      modifies s`place, this`children
      ensures s.Linked() && s.Grown()
      ensures s.Holds(child) && child.key == At(key, head)
      ensures forall k :: s.Values(k) == old(s.Values(k))
    {
      child := new Node(At(key, head));
      s.place := s.place[child.key := child];
      children := children[head := child];
      s.HungBelow(key, head);
    }

    /** Shows `fn` every non-empty series at or below this node, children in any order, until `fn` says no.
        The labels shown are read from the slice when `fn` is called, so siblings may overwrite them later:
        deeper calls write only past the first `len` cells. `shown` is what `fn` saw before; `visited` lists the
        series of the new calls; `bound` only serves termination. */
    method Walk(name: string, buf: array<string>, len: nat, shown: seq<Visit>, fn: Callback<Visit>,
                ghost s: Space, ghost items: map<Series, Visit>, ghost bound: nat)
      returns (all: seq<Visit>, go: bool, ghost visited: seq<Series>)
      requires s.Linked() && s.Holds(this) && s.Shows(items) && name == Name(key)
      requires len <= buf.Length && buf[..len] == Labels(key)
      requires forall k :: k in s.place ==> Depth(k) <= bound
      modifies buf
      ensures buf[..len] == old(buf[..len]) && s.Linked() && s.Shows(items)
      ensures Walked(items, key, {}, shown, all, visited, go, fn)
      decreases bound - Depth(key), 1
    {
      all, go, visited := shown, true, [];
      if |observations| > 0 {
        all, visited := all + [Visit(name, buf[..len], observations)], [key];
        go := fn(all);
      }
      Entered(s, items, shown, all, visited, go, fn);
      if !go { return; }
      var rest := children.Keys;
      while rest != {}
        invariant rest <= children.Keys && buf[..len] == Labels(key)
        invariant s.Linked() && s.Holds(this) && s.Shows(items)
        invariant Walked(items, key, rest, shown, all, visited, true, fn)
        decreases rest
      {
        var p :| p in rest;
        ghost var before, below := all, [];
        all, go, below := WalkChild(p, name, buf, len, all, fn, s, items, bound);
        ChildWalked(items, key, rest, shown, before, visited, p, all, below, go, fn);
        visited := visited + below;
        if !go {
          WalkStopped(items, key, rest - {p}, shown, all, visited, fn);
          return;
        }
        rest := rest - {p};
      }
    }

    /** Once this node itself has been shown, everything else lies below its children. */
    lemma Entered(s: Space, items: map<Series, Visit>, shown: seq<Visit>, all: seq<Visit>, visited: seq<Series>,
                  go: bool, fn: Callback<Visit>)
      requires s.Linked() && s.Holds(this) && s.Shows(items)
      requires visited == if |observations| > 0 then [key] else []
      requires all == shown + if |observations| > 0 then [Visit(Name(key), Labels(key), observations)] else []
      requires go == if |observations| > 0 then fn(all) else true
      ensures Walked(items, key, if go then children.Keys else {}, shown, all, visited, go, fn)
    {
      forall j | Within(key, j) && Within(j, key) ensures j == key {
        WithinDepth(key, j);
        WithinDepth(j, key);
        SameDepth(key, j);
      }
      forall p | p in children ensures !Within(key, At(key, p)) {
        if Within(key, At(key, p)) { WithinDepth(key, At(key, p)); }
      }
      forall k | k in items && Within(k, key)
        ensures k in visited || exists p :: p in children.Keys && Within(k, At(key, p))
      {
        if k != key { var p := WithinChild(k, key, s.place.Keys); }
      }
    }

    /** `child.walk(append(lvs, p.label, p.value), fn)`: all it may write of the slice lies past `len`. */
    method WalkChild(p: Pair, name: string, buf: array<string>, len: nat, shown: seq<Visit>, fn: Callback<Visit>,
                     ghost s: Space, ghost items: map<Series, Visit>, ghost bound: nat)
      returns (all: seq<Visit>, go: bool, ghost below: seq<Series>)
      requires s.Linked() && s.Holds(this) && s.Shows(items) && name == Name(key) && p in children
      requires len <= buf.Length && buf[..len] == Labels(key)
      requires forall k :: k in s.place ==> Depth(k) <= bound
      modifies buf
      ensures buf[..len] == old(buf[..len]) && s.Linked() && s.Shows(items)
      ensures Walked(items, At(key, p), {}, shown, all, below, go, fn)
      decreases bound - Depth(key), 0
    {
      var grown := LabelValues.Append(buf, len, [p.key, p.value]);
      ghost var labels := grown[..len + 2];
      assert Depth(At(key, p)) <= bound;
      all, go, below := children[p].Walk(name, grown, len + 2, shown, fn, s, items, bound);
      assert grown == buf ==> buf[..len] == labels[..len];
    }
  }

  class Space {
    var nodes: map<string, Node>
    /** The node at every series that has one. */
    ghost var place: map<Series, Node>
    /** Every operation so far, panicked ones excepted. */
    ghost var history: seq<Op>

    constructor ()
      ensures Valid() && nodes == map[] && place == map[] && history == []
    {
      nodes, place, history := map[], map[], [];
    }

    /** The tries hold exactly what the history calls for. */
    ghost predicate Valid()
      reads this, place.Values
    {
      && Linked() && Rooted()
      && (forall k {:trigger Recorded(history, k)} :: Values(k) == Recorded(history, k))
    }

    /** A change that touches no series keeps the history faithful. */
    twostate lemma Kept()
      requires old(Valid()) && Linked() && Rooted() && history == old(history)
      requires forall k :: Values(k) == old(Values(k))
      ensures Valid()
    {
      forall k ensures Values(k) == Recorded(history, k) { assert old(Values(k)) == Recorded(history, k); }
    }

    /** Doing to every series what `op` does keeps the history faithful. */
    twostate lemma Recounted(op: Op)
      requires old(Valid()) && Linked() && Rooted() && history == old(history) + [op]
      requires forall k :: Values(k) == Effect(old(Values(k)), op, k)
      ensures Valid()
    {
      RecordedNext(old(history), op);
      forall k ensures Values(k) == Recorded(history, k) { assert old(Values(k)) == Recorded(old(history), k); }
    }

    /** One series has gained the value that `op` calls for, unless the call panicked. */
    twostate lemma Gained(op: Op, new value: real, new panicked: bool)
      requires old(Valid()) && Linked() && Rooted() && !op.Emptied?
      requires history == old(history) + if panicked then [] else [op]
      requires forall k :: Values(k) == if !panicked && k == op.at then old(Values(k)) + [value] else old(Values(k))
      requires panicked || value == if op.Observed? then op.value else Advanced(old(Values(op.at)), op.delta)
      ensures Valid()
    {
      if panicked {
        Kept();
      } else {
        forall k ensures Values(k) == Effect(old(Values(k)), op, k) {}
        Recounted(op);
      }
    }

    ghost predicate Rooted()
      reads this`nodes, this`place
    {
      && (forall name :: name in nodes <==> Named(name) in place)
      && (forall name :: name in nodes ==> nodes[name] == place[Named(name)])
    }

    /** Each node knows its series, leads to exactly the nodes one pair further, and hangs from a node. */
    ghost predicate Linked()
      reads this`place, place.Values
    {
      && (forall k :: k in place ==> place[k].key == k)
      && (forall k, p :: k in place ==> (p in place[k].children <==> At(k, p) in place))
      && (forall k, p :: k in place && p in place[k].children ==> place[k].children[p] == place[At(k, p)])
      && (forall k, p :: At(k, p) in place ==> k in place)
    }

    ghost predicate Holds(n: Node)
      reads this`place
    {
      n.key in place && place[n.key] == n
    }

    /** The flat map. */
    ghost function Values(k: Series): seq<real>
      reads this`place, place.Values
    {
      if k in place then place[k].observations else []
    }

    /** `items` are the calls a full walk has to make. */
    ghost predicate Shows(items: map<Series, Visit>)
      reads this`place, place.Values
    {
      && (forall k :: k in items <==> k in place && place[k].observations != [])
      && (forall k :: k in items ==> items[k] == Visit(Name(k), Labels(k), place[k].observations))
    }

    twostate predicate Extended()
      reads this`place
    {
      forall k :: k in place ==> (k in old(place) && place[k] == old(place)[k]) || fresh(place[k])
    }

    /** Nodes are only ever added, and only new ones. */
    twostate predicate Grown()
      reads this`nodes, this`place
    {
      && nodes == old(nodes)
      && (forall k :: k in old(place) ==> k in place && place[k] == old(place)[k])
      && (forall k :: k in place && k !in old(place) ==> k.At? && fresh(place[k]))
    }

    /** A new, empty node hangs from the one for `k`. */
    twostate lemma HungBelow(new k: Series, new p: Pair)
      requires old(Linked()) && k in old(place) && At(k, p) !in old(place)
      requires At(k, p) in place && place == old(place)[At(k, p) := place[At(k, p)]]
      requires place[At(k, p)].key == At(k, p) && place[At(k, p)].children == map[]
      requires place[k].children == old(place[k].children)[p := place[At(k, p)]]
      requires forall j :: j in old(place) && j != k ==> place[j].children == old(place[j].children)
      ensures Linked()
    {
    }

    /** The root of the trie for `name`, made on first use. */
    method NodeFor(name: string) returns (n: Node)
      requires Valid()
      modifies this`nodes, this`place
      ensures Valid() && Holds(n) && n.key == Named(name)
      ensures Extended()
    {
      if name in nodes { return nodes[name]; }
      n := new Node(Named(name));
      nodes := nodes[name := n];
      place := place[Named(name) := n];
      Kept();
    }

    method Observe(name: string, lvs: seq<string>, value: real) returns (panicked: bool)
      requires Valid()
      modifies this, place.Values
      ensures Valid() && Extended()
      ensures panicked <==> Odd(lvs)
      ensures history == old(history) + if panicked then [] else [Observed(Target(Named(name), lvs), value)]
    {
      var n := NodeFor(name);
      panicked := ObserveAt(n, lvs, value);
    }

    method ObserveAt(n: Node, lvs: seq<string>, value: real) returns (panicked: bool)
      requires Valid() && Holds(n)
      modifies `place, `history, place.Values
      ensures Valid() && Extended()
      ensures panicked <==> Odd(lvs)
      ensures history == old(history) + if panicked then [] else [Observed(Target(n.key, lvs), value)]
    {
      ghost var op := Observed(Target(n.key, lvs), value);
      panicked := ObserveBelow(n, lvs, value, op);
      Gained(op, value, panicked);
    }

    ghost method Note(op: Op)
      modifies `history
      ensures history == old(history) + [op]
      ensures Linked() == old(Linked()) && Rooted() == old(Rooted()) && forall k :: Values(k) == old(Values(k))
    {
      history := history + [op];
    }

    method ObserveBelow(n: Node, lvs: seq<string>, value: real, ghost op: Op) returns (panicked: bool)
      requires Linked() && Rooted() && Holds(n) && op == Observed(Target(n.key, lvs), value)
      modifies `place, `history, place.Values
      ensures Linked() && Rooted() && Extended() && (panicked <==> Odd(lvs))
      ensures history == old(history) + if panicked then [] else [op]
      ensures forall k :: Values(k) == if !panicked && k == op.at then old(Values(k)) + [value] else old(Values(k))
    {
      panicked := n.Observe(lvs, value, this);
      if !panicked { Note(op); }
    }

    method Add(name: string, lvs: seq<string>, delta: real) returns (panicked: bool)
      requires Valid()
      modifies this, place.Values
      ensures Valid() && Extended()
      ensures panicked <==> Odd(lvs)
      ensures history == old(history) + if panicked then [] else [Added(Target(Named(name), lvs), delta)]
    {
      var n := NodeFor(name);
      panicked := AddAt(n, lvs, delta);
    }

    method AddAt(n: Node, lvs: seq<string>, delta: real) returns (panicked: bool)
      requires Valid() && Holds(n)
      modifies `place, `history, place.Values
      ensures Valid() && Extended()
      ensures panicked <==> Odd(lvs)
      ensures history == old(history) + if panicked then [] else [Added(Target(n.key, lvs), delta)]
    {
      ghost var op, value := Added(Target(n.key, lvs), delta), 0.0;
      panicked, value := AddBelow(n, lvs, delta, op);
      Gained(op, value, panicked);
    }

    method AddBelow(n: Node, lvs: seq<string>, delta: real, ghost op: Op) returns (panicked: bool, ghost value: real)
      requires Linked() && Rooted() && Holds(n) && op == Added(Target(n.key, lvs), delta)
      modifies `place, `history, place.Values
      ensures Linked() && Rooted() && Extended() && (panicked <==> Odd(lvs))
      ensures history == old(history) + if panicked then [] else [op]
      ensures forall k :: Values(k) == if !panicked && k == op.at then old(Values(k)) + [value] else old(Values(k))
      ensures !panicked ==> value == Advanced(old(Values(op.at)), delta)
    {
      panicked, value := n.Add(lvs, delta, this);
      if !panicked { Note(op); }
    }

    /** Hands the old contents over to a new space and starts again with none. */
    method Reset() returns (n: Space)
      requires Valid()
      modifies this
      ensures Valid() && place == map[] && history == old(history) + [Emptied]
      ensures fresh(n) && n.Valid() && n.place == old(place) && n.history == old(history)
    {
      n := new Space();
      n.nodes, nodes := nodes, n.nodes;
      n.place, place := place, n.place;
      n.history, history := history, history + [Emptied];
      RecordedNext(n.history, Emptied);
      HandedOver(n);
    }

    /** A space that takes over all nodes is as valid as this one was. */
    twostate lemma HandedOver(new n: Space)
      requires old(Valid()) && n.nodes == old(nodes) && n.place == old(place) && n.history == old(history)
      requires forall k :: k in n.place ==> unchanged(n.place[k])
      ensures n.Valid()
    {
      forall k ensures n.Values(k) == Recorded(n.history, k) {
        assert old(Values(k)) == Recorded(n.history, k);
      }
    }

    /** A walk that is not stopped calls `fn` exactly once for every non-empty series, with its name, its labels
        and all its values; one that is stopped makes no call after the one that said no. */
    method Walk(fn: Callback<Visit>) returns (all: seq<Visit>, go: bool, ghost visited: seq<Series>)
      requires Valid()
      ensures |all| == |visited| && NoDup(visited)
      ensures forall i :: 0 <= i < |visited| ==>
                && Recorded(history, visited[i]) != []
                && all[i] == Visit(Name(visited[i]), Labels(visited[i]), Recorded(history, visited[i]))
      ensures Heeded([], all, go, fn)
      ensures go ==> forall k :: Recorded(history, k) != [] ==> k in visited
    {
      ghost var items :=
        map k | k in place && place[k].observations != [] :: Visit(Name(k), Labels(k), place[k].observations);
      all, go, visited := Tour(fn, items);
      forall k ensures Recorded(history, k) == if k in items then items[k].observations else [] {
        assert Recorded(history, k) == Values(k);
      }
    }

    method Tour(fn: Callback<Visit>, ghost items: map<Series, Visit>)
      returns (all: seq<Visit>, go: bool, ghost visited: seq<Series>)
      requires Linked() && Rooted() && Shows(items)
      ensures Toured(items, {}, all, visited, go, fn)
    {
      TourBegins(items, fn);
      ghost var bound := DepthBound(place.Keys);
      var rest := nodes.Keys;
      all, go, visited := [], true, [];
      while rest != {}
        invariant rest <= nodes.Keys
        invariant Toured(items, rest, all, visited, true, fn)
        decreases rest
      {
        var name :| name in rest;
        ghost var before, below := all, [];
        var empty := new string[0];
        all, go, below := nodes[name].Walk(name, empty, 0, all, fn, this, items, bound);
        NameToured(items, rest, before, visited, name, all, below, go, fn);
        visited := visited + below;
        if !go { return; }
        rest := rest - {name};
      }
    }

    lemma TourBegins(items: map<Series, Visit>, fn: Callback<Visit>)
      requires Linked() && Rooted() && Shows(items)
      ensures Toured(items, nodes.Keys, [], [], true, fn)
    {
      forall k | k in items ensures Name(k) in nodes { RootPresent(k, place.Keys); }
    }
  }
}
