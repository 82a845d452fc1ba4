/** metrics/dogstatsd/dogstatsd.go: gauges live in a get-or-create trie; a walk emits those written since the last. */
module Gauges {
  import opened LabelValues
  import opened Order
  import opened TrieWalks

  /** One line written by a walk's callback. */
  datatype Emission = Emission(name: string, labels: seq<string>, value: real)

  class Gauge {
    const name: string
    const lvs: seq<string>
    var value: real
    /** Written since it was last read. */
    var touched: bool

    constructor (name: string, lvs: seq<string>, value: real)
      ensures this.name == name && this.lvs == lvs && this.value == value && !touched
    {
      this.name, this.lvs, this.value, touched := name, lvs, value, false;
    }

    method Set(value: real)
      modifies this
      ensures this.value == value && touched
    {
      this.value := value;
      touched := true;
    }

    method Add(delta: real)
      modifies this
      ensures value == old(value) + delta && touched
    {
      value := value + delta;
      touched := true;
    }

    method Read() returns (v: real, ok: bool)
      modifies this`touched
      ensures v == value && ok == old(touched) && !touched
    {
      ok := touched;
      touched := false;
      v := value;
    }
  }

  class GaugeNode {
    var gauge: Gauge?
    var children: map<Pair, GaugeNode>
    /** The series this node stands for. */
    ghost const key: Series

    constructor (gauge: Gauge?, ghost key: Series)
      ensures this.gauge == gauge && children == map[] && this.key == key
    {
      this.gauge, children, this.key := gauge, map[], key;
    }

    /** The gauge at the series `lvs` names from here: `g` if there is none yet. An odd list panics, shown as null. */
    method AddGauge(g: Gauge, lvs: seq<string>, ghost d: Dogstatsd) returns (r: Gauge?)
      requires d.Linked() && d.Holds(this)
      modifies d`place, d`owned, d.place.Values
      ensures d.Linked() && d.Grown() && d.owned == old(d.owned) + if r == null then {} else {r}
      ensures r == null <==> Odd(lvs)
      ensures r != null ==> r == if old(d.At(Target(key, lvs))) == null then g else old(d.At(Target(key, lvs)))
      ensures forall k :: d.At(k) == if r != null && k == Target(key, lvs) then r else old(d.At(k))
      decreases |lvs|
    {
      if |lvs| == 0 {
        r := Own(g, d);
        return;
      }
      if |lvs| < 2 { return null; }
      var head, tail := Pair(lvs[0], lvs[1]), lvs[2..];
      var child := ChildFor(head, d);
      r := child.AddGauge(g, tail, d);
    }

    /** The gauge of this node: `g` if there is none yet. */
    method Own(g: Gauge, ghost d: Dogstatsd) returns (r: Gauge)
      requires d.Linked() && d.Holds(this)
      modifies d`owned, this`gauge
      ensures d.Linked() && d.owned == old(d.owned) + {r}
      ensures r == if old(d.At(key)) == null then g else old(d.At(key))
      ensures forall k :: d.At(k) == if k == key then r else old(d.At(k))
    {
      if gauge == null { gauge := g; }
      d.owned := d.owned + {gauge};
      return gauge;
    }

    method ChildFor(head: Pair, ghost d: Dogstatsd) returns (child: GaugeNode)
      requires d.Linked() && d.Holds(this)
      modifies d`place, this`children
      ensures d.Linked() && d.Grown()
      ensures d.Holds(child) && child.key == Series.At(key, head)
      ensures forall k :: d.At(k) == old(d.At(k))
    {
      if head in children { return children[head]; }
      child := AddChild(head, d);
    }

    method AddChild(head: Pair, ghost d: Dogstatsd) returns (child: GaugeNode)
      requires d.Linked() && d.Holds(this) && head !in children
      modifies d`place, this`children
      ensures d.Linked() && d.Grown()
      ensures d.Holds(child) && child.key == Series.At(key, head)
      ensures forall k :: d.At(k) == old(d.At(k))
    {
      child := new GaugeNode(null, Series.At(key, head));
      d.place := d.place[child.key := child];
      children := children[head := child];
      d.HungBelow(key, head);
    }

    /** Emits this node's own gauge, if it has been written. */
    method Emit(shown: seq<Emission>, fn: Callback<Emission>, ghost before: set<Series>,
                ghost d: Dogstatsd, ghost items: map<Series, Emission>)
      returns (all: seq<Emission>, go: bool, ghost visited: seq<Series>)
      requires d.Valid() && d.Holds(this) && d.Awaits(items, before) && key !in before
      modifies d.owned`touched
      ensures d.Valid() && d.Awaits(items, before + Elements(visited))
      ensures visited == if key in items then [key] else []
      ensures all == shown + if key in items then [items[key]] else []
      ensures go == if key in items then fn(all) else true
    {
      all, go, visited := shown, true, [];
      if gauge != null {
        assert d.At(key) == gauge;
        var value, ok := gauge.Read();
        d.OneLowered(key, items, before);
        if ok {
          all, visited := all + [Emission(gauge.name, gauge.lvs, value)], [key];
          go := fn(all);
        }
      }
    }

    /** Emits every gauge written since its last read, at or below this node, until `fn` says no. `items` are the
        lines to be written by the walk this one is part of, `shown` those already written, those of the series in
        `before`. */
    method Walk(shown: seq<Emission>, fn: Callback<Emission>, ghost before: set<Series>,
                ghost d: Dogstatsd, ghost items: map<Series, Emission>, ghost bound: nat)
      returns (all: seq<Emission>, go: bool, ghost visited: seq<Series>)
      requires d.Valid() && d.Holds(this)
      requires d.Awaits(items, before) && forall k :: k in before ==> !Within(k, key)
      requires forall k :: k in d.place ==> Depth(k) <= bound
      modifies d.owned`touched
      ensures Walked(items, key, {}, shown, all, visited, go, fn)
      ensures d.Valid() && d.Awaits(items, before + Elements(visited))
      decreases bound - Depth(key), 1
    {
      all, go, visited := Emit(shown, fn, before, d, items);
      Entered(d, items, shown, all, visited, go, fn);
      if !go { return; }
      var rest := children.Keys;
      while rest != {}
        invariant rest <= children.Keys
        invariant Walked(items, key, rest, shown, all, visited, true, fn)
        invariant d.Valid() && d.Holds(this) && d.Awaits(items, before + Elements(visited))
        decreases rest
      {
        var p :| p in rest;
        ghost var sofar, below := all, [];
        NotYetBelow(before, visited, rest, p);
        all, go, below := children[p].Walk(all, fn, before + Elements(visited), d, items, bound);
        ChildWalked(items, key, rest, shown, sofar, visited, p, all, below, go, fn);
        EmittedSoFar(before, visited, below);
        visited := visited + below;
        if !go {
          WalkStopped(items, key, rest - {p}, shown, all, visited, fn);
          return;
        }
        rest := rest - {p};
      }
    }

    lemma EmittedSoFar(before: set<Series>, visited: seq<Series>, below: seq<Series>)
      ensures before + Elements(visited + below) == before + Elements(visited) + Elements(below)
    {
    }

    lemma NotYetBelow(before: set<Series>, visited: seq<Series>, rest: set<Pair>, p: Pair)
      requires p in rest && Outside(visited, key, rest) && forall k :: k in before ==> !Within(k, key)
      ensures forall k :: k in before + Elements(visited) ==> !Within(k, Series.At(key, p))
    {
      forall k | k in before ensures !Within(k, Series.At(key, p)) {
        if Within(k, Series.At(key, p)) { WithinParent(k, key, p); }
      }
    }

    lemma Entered(d: Dogstatsd, items: map<Series, Emission>, shown: seq<Emission>, all: seq<Emission>,
                  visited: seq<Series>, go: bool, fn: Callback<Emission>)
      requires d.Linked() && d.Holds(this) && items.Keys <= d.place.Keys
      requires visited == if key in items then [key] else []
      requires all == shown + if key in items then [items[key]] else []
      requires go == if key in items then fn(all) else true
      ensures Walked(items, key, if go then children.Keys else {}, shown, all, visited, go, fn)
    {
      forall j | Within(key, j) && Within(j, key) ensures j == key {
        WithinDepth(key, j);
        WithinDepth(j, key);
        SameDepth(key, j);
      }
      forall p | p in children ensures !Within(key, Series.At(key, p)) {
        if Within(key, Series.At(key, p)) { WithinDepth(key, Series.At(key, p)); }
      }
      forall k | k in items && Within(k, key)
        ensures k in visited || exists p :: p in children.Keys && Within(k, Series.At(key, p))
      {
        if k != key { var p := WithinChild(k, key, d.place.Keys); }
      }
    }
  }

  class Dogstatsd {
    var gauges: map<string, GaugeNode>
    /** The node at every series that has one. */
    ghost var place: map<Series, GaugeNode>
    /** Every gauge in the tries. */
    ghost var owned: set<Gauge>

    /** Each node knows its series, leads to exactly the nodes one pair further, and hangs from a node. */
    ghost predicate Linked()
      reads this`place, place.Values
    {
      && (forall k :: k in place ==> place[k].key == k)
      && (forall k, p :: k in place && p in place[k].children ==>
            Series.At(k, p) in place && place[k].children[p] == place[Series.At(k, p)])
      && (forall k, p :: Series.At(k, p) in place ==> k in place && p in place[k].children)
    }

    ghost predicate Rooted()
      reads this`gauges, this`place, place.Values
    {
      && (forall name :: name in gauges <==> Named(name) in place)
      && (forall name :: name in gauges ==> gauges[name] == place[Named(name)] && gauges[name].gauge != null)
    }

    /** A gauge carries the name and the labels of the series it is filed under. */
    ghost predicate Labelled()
      reads this`place, this`owned, place.Values
    {
      forall k :: At(k) != null ==> At(k).name == Name(k) && At(k).lvs == Labels(k) && At(k) in owned
    }

    ghost predicate Valid()
      reads this, place.Values
    {
      Linked() && Rooted() && Labelled()
    }

    ghost predicate Holds(n: GaugeNode)
      reads this`place
    {
      n.key in place && place[n.key] == n
    }

    /** The gauge of a series, if it was ever asked for. */
    ghost function At(k: Series): Gauge?
      reads this`place, place.Values
    {
      if k in place then place[k].gauge else null
    }

    twostate predicate Grown()
      reads this`gauges, this`place
    {
      && gauges == old(gauges)
      && (forall k :: k in old(place) ==> k in place && place[k] == old(place)[k])
      && (forall k :: k in place && k !in old(place) ==> k.At? && fresh(place[k]))
    }

    twostate predicate NodesExtended()
      reads this`place
    {
      forall k :: k in place ==> (k in old(place) && place[k] == old(place)[k]) || fresh(place[k])
    }

    /** Only new nodes and gauges join the tries. */
    twostate predicate Extended()
      reads this`place, this`owned
    {
      NodesExtended() && forall g :: g in owned ==> g in old(owned) || fresh(g)
    }

    /** The gauges still flagged are those of `items` not yet emitted, at the values `items` gives. */
    ghost predicate Awaits(items: map<Series, Emission>, emitted: set<Series>)
      reads this`place, this`owned, place.Values, owned
    {
      && (forall k :: k in items ==> At(k) != null)
      && (forall k :: At(k) != null && At(k) in owned ==> (At(k).touched <==> k in items && k !in emitted))
      && (forall k :: k in items && At(k) in owned ==> items[k] == Emission(Name(k), Labels(k), At(k).value))
    }

    /** A new node without gauge or children hangs from the one for `k`. */
    twostate lemma HungBelow(new k: Series, new p: Pair)
      requires old(Linked()) && k in old(place) && Series.At(k, p) !in old(place)
      requires Series.At(k, p) in place && place == old(place)[Series.At(k, p) := place[Series.At(k, p)]]
      requires place[Series.At(k, p)].key == Series.At(k, p) && place[Series.At(k, p)].children == map[]
      requires place[k].children == old(place[k].children)[p := place[Series.At(k, p)]]
      requires forall j :: j in old(place) && j != k ==> place[j].children == old(place[j].children)
      ensures Linked()
    {
    }

    /** Once the gauge of `k` has been read, it is no longer awaited; no other series has the same gauge. */
    twostate lemma OneLowered(new k: Series, new items: map<Series, Emission>, new emitted: set<Series>)
      requires old(Labelled()) && old(Awaits(items, emitted)) && unchanged(this) && At(k) != null
      requires forall j :: j in place ==> place[j].gauge == old(place[j].gauge)
      requires forall g :: g in owned ==>
        g.value == old(g.value) && g.touched == (if g == At(k) then false else old(g.touched))
      ensures Awaits(items, emitted + {k})
    {
      forall j | At(j) == At(k) ensures j == k {
        TargetOfLabels(j);
        TargetOfLabels(k);
      }
    }

    constructor ()
      ensures Valid() && place == map[] && owned == {}
    {
      gauges, place, owned := map[], map[], {};
    }

    /** The gauge without labels, made on first use. */
    method NewGauge(name: string) returns (g: Gauge)
      requires Valid()
      modifies this
      ensures Valid() && g == At(Named(name))
      ensures old(At(Named(name))) != null ==> g == old(At(Named(name)))
      ensures old(At(Named(name))) == null ==> fresh(g) && g.value == 0.0 && !g.touched
      ensures forall k :: k != Named(name) ==> At(k) == old(At(k))
      ensures Extended()
    {
      if name in gauges { return gauges[name].gauge; }
      g := new Gauge(name, [], 0.0);
      Plant(g);
    }

    /** A new trie, with `g` at its root. */
    method Plant(g: Gauge)
      requires Valid() && g.name !in gauges && g.lvs == []
      modifies this
      ensures Valid() && At(Named(g.name)) == g && owned == old(owned) + {g} && NodesExtended()
      ensures forall k :: k != Named(g.name) ==> At(k) == old(At(k))
    {
      var n := new GaugeNode(g, Named(g.name));
      place := place[n.key := n];
      owned := owned + {g};
      gauges := gauges[g.name := n];
    }

    /** `g.With(more...)`: one label path always leads to the same gauge. A new one starts from `g`'s value. */
    method With(g: Gauge, more: seq<string>) returns (r: Gauge)
      requires Valid() && At(Target(Named(g.name), g.lvs)) == g
      modifies this`place, this`owned, place.Values
      ensures Valid()
      ensures var k := Target(Named(g.name), g.lvs + Padded(more));
        && r == At(k)
        && (if old(At(k)) != null then r == old(At(k)) else fresh(r) && r.value == g.value && !r.touched)
        && forall j :: j != k ==> At(j) == old(At(j))
      ensures owned == old(owned) + {r} && NodesExtended()
    {
      ghost var at := Target(Named(g.name), g.lvs + Padded(more));
      var lvs := PathFrom(g, more, at);
      var ga := new Gauge(g.name, lvs, g.value);
      r := File(ga, at);
    }

    /** The labels of the gauge that `more` leads to. */
    method PathFrom(g: Gauge, more: seq<string>, ghost at: Series) returns (lvs: seq<string>)
      requires Valid() && At(Target(Named(g.name), g.lvs)) == g && at == Target(Named(g.name), g.lvs + Padded(more))
      ensures g.name in gauges && !Odd(lvs) && at == Target(Named(g.name), lvs)
      ensures Name(at) == g.name && Labels(at) == lvs
    {
      lvs := LabelValues.With(g.lvs, more);
      PathOf(g, lvs);
    }

    /** A gauge of this object hangs below a root, and an even list names a series of the same root by its labels. */
    lemma PathOf(g: Gauge, lvs: seq<string>)
      requires Valid() && At(Target(Named(g.name), g.lvs)) == g
      ensures g.name in gauges && |g.lvs| % 2 == 0
      ensures |lvs| % 2 == 0 ==>
                var at := Target(Named(g.name), lvs); !Odd(lvs) && Name(at) == g.name && Labels(at) == lvs
    {
      var k := Target(Named(g.name), g.lvs);
      TargetOfLabels(k);
      OddByLength(g.lvs);
      LabelsOfTarget(Named(g.name), g.lvs);
      RootPresent(k, place.Keys);
      OddByLength(lvs);
      if |lvs| % 2 == 0 { LabelsOfTarget(Named(g.name), lvs); }
    }

    /** The last step of `With`: files `ga` under its series, unless another gauge is there already. */
    method File(ga: Gauge, ghost at: Series) returns (r: Gauge)
      requires Valid() && ga.name in gauges && at == Target(Named(ga.name), ga.lvs) && !Odd(ga.lvs)
      requires ga.name == Name(at) && ga.lvs == Labels(at)
      modifies this`place, this`owned, place.Values
      ensures Valid()
      ensures r == if old(At(at)) != null then old(At(at)) else ga
      ensures forall k :: At(k) == if k == at then r else old(At(k))
      ensures owned == old(owned) + {r} && NodesExtended()
    {
      r := gauges[ga.name].AddGauge(ga, ga.lvs, this);
      StillValid(at, r);
    }

    /** Filing one gauge under its own series keeps everything in order. */
    twostate lemma StillValid(new at: Series, r: Gauge)
      requires old(Valid()) && Linked() && Grown() && owned == old(owned) + {r}
      requires r.name == Name(at) && r.lvs == Labels(at)
      requires forall k :: At(k) == if k == at then r else old(At(k))
      ensures Valid()
    {
      forall name ensures name in gauges <==> Named(name) in place { assert !Named(name).At?; }
      forall name | name in gauges ensures gauges[name].gauge != null {
        assert gauges[name].gauge == At(Named(name));
        assert old(gauges[name].gauge) == old(At(Named(name)));
      }
    }

    /** The gauges part of `WriteTo`: the gauges written since their last read are emitted, once each, with their
        name, labels and value, and are no longer flagged. A callback that says no ends the walk of its own trie
        only; a trie in which it never does is emitted completely. */
    method WriteGauges(fn: Callback<Emission>, ghost items: map<Series, Emission>)
      returns (all: seq<Emission>, ghost visited: seq<Series>)
      requires Valid() && Awaits(items, {})
      modifies owned`touched
      ensures Valid() && Awaits(items, Elements(visited))
      ensures Passed(items, all, visited, fn)
    {
      ghost var bound := DepthBound(place.Keys);
      EmissionBegins(items, fn);
      var rest := gauges.Keys;
      all, visited := [], [];
      while rest != {}
        invariant rest <= gauges.Keys && Valid()
        invariant Awaits(items, Elements(visited))
        invariant Emitted(items, rest, all, visited, fn)
        decreases rest
      {
        var name :| name in rest;
        ghost var sofar, below := all, [];
        var go;
        forall k | k in visited ensures !Within(k, Named(name)) { WithinRoot(k, name); }
        all, go, below := gauges[name].Walk(all, fn, Elements(visited), this, items, bound);
        RootEmitted(items, rest, sofar, visited, name, all, below, go, fn);
        ElementsOfConcat(visited, below);
        visited := visited + below;
        rest := rest - {name};
      }
    }

    lemma EmissionBegins(items: map<Series, Emission>, fn: Callback<Emission>)
      requires Valid() && items.Keys <= place.Keys
      ensures Emitted(items, gauges.Keys, [], [], fn)
    {
      forall k | k in items ensures Name(k) in gauges { RootPresent(k, place.Keys); }
    }
  }

  /** The writer refused line `i`. */
  predicate Refused(all: seq<Emission>, fn: Callback<Emission>, i: nat)
    requires i < |all|
  {
    !fn(all[..i + 1])
  }

  /** A refusal was the last line of its name: nothing follows it in the same trie. */
  ghost predicate StopsTrie(all: seq<Emission>, visited: seq<Series>, fn: Callback<Emission>)
    requires |all| == |visited|
  {
    forall i, j :: 0 <= i < j < |all| && Name(visited[i]) == Name(visited[j]) ==> !Refused(all, fn, i)
  }

  /** The lines of one name stand together. */
  ghost predicate Grouped(visited: seq<Series>) {
    forall i, j, l :: 0 <= i < j < l < |visited| && Name(visited[i]) == Name(visited[l]) ==>
      Name(visited[j]) == Name(visited[i])
  }

  /** A pending series above another comes first. */
  ghost predicate Descends(items: map<Series, Emission>, visited: seq<Series>) {
    forall i, j :: 0 <= i < |visited| && j in items && Above(Named(Name(visited[i])), visited[i], j) ==> j in visited[..i]
  }

  /** A line of `k`'s name was refused. */
  ghost predicate Silenced(all: seq<Emission>, visited: seq<Series>, fn: Callback<Emission>, k: Series)
    requires |all| == |visited|
  {
    exists i :: 0 <= i < |all| && Name(visited[i]) == Name(k) && Refused(all, fn, i)
  }

  /** The lines written once the roots not in `rest` have been walked: each pending series once, trie by trie, each
      trie until the writer refuses a line of it, and completely if it does not. */
  ghost predicate Emitted(items: map<Series, Emission>, rest: set<string>, all: seq<Emission>, visited: seq<Series>,
                          fn: Callback<Emission>) {
    && Shown(items, [], all, visited)
    && (forall k :: k in visited ==> Name(k) !in rest)
    && StopsTrie(all, visited, fn)
    && Grouped(visited)
    && Descends(items, visited)
    && (forall k :: k in items && k !in visited && Name(k) !in rest ==> Silenced(all, visited, fn, k))
  }

  /** A pass over all the tries. */
  ghost predicate Passed(items: map<Series, Emission>, all: seq<Emission>, visited: seq<Series>, fn: Callback<Emission>) {
    Emitted(items, {}, all, visited, fn)
  }

  /** A pass writes everything pending exactly if every refused line was the last one pending in its trie. */
  lemma CompleteExactly(items: map<Series, Emission>, all: seq<Emission>, visited: seq<Series>, fn: Callback<Emission>)
    requires Passed(items, all, visited, fn)
    ensures Elements(visited) == items.Keys <==>
            forall i, k :: 0 <= i < |all| && Refused(all, fn, i) && k in items && Name(k) == Name(visited[i]) ==>
              k in visited
  {
  }

  /** A refusal does not end the pass: more lines follow exactly if something is pending under a name of which
      nothing was written so far. */
  lemma FollowsExactly(items: map<Series, Emission>, all: seq<Emission>, visited: seq<Series>, fn: Callback<Emission>,
                       i: nat)
    requires Passed(items, all, visited, fn) && i < |all| && Refused(all, fn, i)
    ensures i + 1 < |all| <==>
            exists k :: k in items && forall j :: 0 <= j <= i ==> Name(visited[j]) != Name(k)
  {
    if i + 1 < |all| {
      assert Name(visited[i]) != Name(visited[i + 1]);
      assert visited[i + 1] in items && forall j :: 0 <= j <= i ==> Name(visited[j]) != Name(visited[i + 1]);
    } else {
      forall k | k in items ensures exists j :: 0 <= j <= i && Name(visited[j]) == Name(k) {
        assert k in visited || Silenced(all, visited, fn, k);
      }
    }
  }

  /** Two gauges without labels, both pending, and a writer that refuses everything: it is still asked twice. */
  lemma TwoRootsAskedTwice(a: string, b: string, x: real, y: real, all: seq<Emission>, visited: seq<Series>)
    requires a != b
    requires Passed(map[Named(a) := Emission(a, [], x), Named(b) := Emission(b, [], y)], all, visited, lines => false)
    ensures |all| == 2
  {
    var items, fn := map[Named(a) := Emission(a, [], x), Named(b) := Emission(b, [], y)], (lines: seq<Emission>) => false;
    CompleteExactly(items, all, visited, fn);
    forall i, k | 0 <= i < |all| && k in items && Name(k) == Name(visited[i]) ensures k in visited {
      assert visited[i] in items;
    }
    assert Elements(visited) == {Named(a), Named(b)};
    SizeOfElements(visited);
  }

  lemma {:induction false} LabelsOfTarget(k: Series, lvs: seq<string>)
    requires !Odd(lvs)
    ensures Labels(Target(k, lvs)) == Labels(k) + lvs && Name(Target(k, lvs)) == Name(k)
    decreases |lvs|
  {
    if |lvs| >= 2 {
      LabelsOfTarget(At(k, Pair(lvs[0], lvs[1])), lvs[2..]);
      assert Labels(k) + [lvs[0], lvs[1]] + lvs[2..] == Labels(k) + lvs;
    } else {
      assert Labels(k) + lvs == Labels(k);
    }
  }

  /** What one more root adds to the lines written. */
  lemma RootEmitted(items: map<Series, Emission>, rest: set<string>, all: seq<Emission>, visited: seq<Series>,
                    name: string, more: seq<Emission>, below: seq<Series>, go: bool, fn: Callback<Emission>)
    requires name in rest && Emitted(items, rest, all, visited, fn)
    requires Walked(items, Named(name), {}, all, more, below, go, fn)
    ensures Emitted(items, rest - {name}, more, visited + below, fn)
  {
    forall k | k in below ensures Name(k) == name { WithinRoot(k, name); }
    ShownMore(items, [], all, visited, more, below);
    TrieStopped(all, visited, more, below, name, go, fn);
    TrieDescended(items, visited, below, name);
    forall k | k in items && k !in visited + below && Name(k) !in rest - {name}
      ensures Silenced(more, visited + below, fn, k)
    {
      if Name(k) == name {
        TrieSilenced(items, all, visited, more, below, name, go, fn, k);
      } else {
        StaysSilenced(all, visited, more, below, fn, k);
      }
    }
  }

  lemma TrieSilenced(items: map<Series, Emission>, all: seq<Emission>, visited: seq<Series>, more: seq<Emission>,
                     below: seq<Series>, name: string, go: bool, fn: Callback<Emission>, k: Series)
    requires Walked(items, Named(name), {}, all, more, below, go, fn) && |all| == |visited|
    requires k in items && Name(k) == name && k !in below
    ensures Silenced(more, visited + below, fn, k)
  {
    WithinRoot(k, name);
    var last := below[|below| - 1];
    WithinRoot(last, name);
    assert last in below && (visited + below)[|more| - 1] == last;
    assert more[..|more|] == more;
    assert Refused(more, fn, |more| - 1);
  }

  lemma StaysSilenced(all: seq<Emission>, visited: seq<Series>, more: seq<Emission>, below: seq<Series>,
                      fn: Callback<Emission>, k: Series)
    requires |all| == |visited| && all <= more && |more| == |all| + |below| && Silenced(all, visited, fn, k)
    ensures Silenced(more, visited + below, fn, k)
  {
    var i :| 0 <= i < |all| && Name(visited[i]) == Name(k) && Refused(all, fn, i);
    assert all[..i + 1] == more[..i + 1];
    assert Refused(more, fn, i) && (visited + below)[i] == visited[i];
  }

  lemma TrieDescended(items: map<Series, Emission>, visited: seq<Series>, below: seq<Series>, name: string)
    requires Descends(items, visited) && TopDown(items, Named(name), below) && forall k :: k in below ==> Name(k) == name
    ensures Descends(items, visited + below)
  {
    var ks := visited + below;
    forall i, j | 0 <= i < |ks| && j in items && Above(Named(Name(ks[i])), ks[i], j) ensures j in ks[..i] {
      if i < |visited| {
        assert ks[..i] == visited[..i];
      } else {
        assert ks[..i] == visited + below[..i - |visited|];
        assert ks[i] == below[i - |visited|] && ks[i] in below;
      }
    }
  }

  lemma TrieStopped(all: seq<Emission>, visited: seq<Series>, more: seq<Emission>, below: seq<Series>, name: string,
                    go: bool, fn: Callback<Emission>)
    requires |all| == |visited| && |more| == |all| + |below| && StopsTrie(all, visited, fn) && Grouped(visited)
    requires Heeded(all, more, go, fn)
    requires (forall k :: k in visited ==> Name(k) != name) && forall k :: k in below ==> Name(k) == name
    ensures StopsTrie(more, visited + below, fn) && Grouped(visited + below)
  {
    var ks := visited + below;
    forall i | 0 <= i < |ks| ensures Name(ks[i]) == name <==> i >= |visited| {
      assert if i < |visited| then ks[i] in visited else ks[i] in below;
    }
    forall i, j | 0 <= i < j < |more| && Name(ks[i]) == Name(ks[j]) ensures !Refused(more, fn, i) {
      assert i < |all| ==> more[..i + 1] == all[..i + 1] && !Refused(all, fn, i);
    }
  }
}
