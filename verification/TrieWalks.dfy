/** Depth-first walks over tries of label pairs, with a callback that may stop them: what it means to show every
    series exactly once. Used for the tries of metrics/internal/lv/space.go and metrics/dogstatsd/dogstatsd.go. */
module TrieWalks {
  import opened LabelValues
  import opened Order

  /* ---------- positions in the tries ---------- */

  /** `k` is `a` or lies below it. */
  predicate Within(k: Series, a: Series) {
    k == a || (k.At? && Within(k.parent, a))
  }

  function Depth(k: Series): nat {
    match k case Named(_) => 0 case At(parent, _) => 1 + Depth(parent)
  }

  lemma WithinDepth(k: Series, a: Series)
    requires Within(k, a)
    ensures Depth(k) >= Depth(a) && Name(k) == Name(a)
  {
  }

  lemma {:induction false} WithinParent(k: Series, a: Series, p: Pair)
    requires Within(k, At(a, p))
    ensures Within(k, a) && k != a
  {
    if k != At(a, p) { WithinParent(k.parent, a, p); }
    WithinDepth(k, At(a, p));
  }

  /** Nothing lies below two siblings. */
  lemma {:induction false} WithinOne(k: Series, a: Series, p: Pair, q: Pair)
    requires Within(k, At(a, p)) && Within(k, At(a, q))
    ensures p == q
  {
    if k == At(a, p) || k == At(a, q) {
      WithinDepth(k, At(a, p));
      WithinDepth(k, At(a, q));
      if p != q {
        assert Within(a, At(a, p)) || Within(a, At(a, q));
        WithinDepth(a, if Within(a, At(a, p)) then At(a, p) else At(a, q));
      }
    } else {
      WithinOne(k.parent, a, p, q);
    }
  }

  /** What lies properly below `a` lies below one of its children. */
  lemma {:induction false} WithinChild(k: Series, a: Series, keys: set<Series>) returns (p: Pair)
    requires Within(k, a) && k != a && k in keys && forall j, q :: At(j, q) in keys ==> j in keys
    ensures Within(k, At(a, p)) && At(a, p) in keys
  {
    assert k == At(k.parent, k.pair);
    if k.parent == a { return k.pair; }
    p := WithinChild(k.parent, a, keys);
  }

  /** What lies above `k` lies on one line. */
  lemma {:induction false} WithinBetween(k: Series, j: Series, a: Series, p: Pair)
    requires Within(k, j) && Within(j, a) && j != a && Within(k, At(a, p))
    ensures Within(j, At(a, p))
  {
    if k != j {
      if k == At(a, p) {
        WithinDepth(a, j);
        WithinDepth(j, a);
        SameDepth(a, j);
      } else {
        WithinBetween(k.parent, j, a, p);
      }
    }
  }

  lemma {:induction false} SameDepth(k: Series, a: Series)
    requires Within(k, a) && Depth(k) == Depth(a)
    ensures k == a
  {
    if k != a { WithinDepth(k.parent, a); }
  }

  lemma {:induction false} WithinRoot(k: Series, name: string)
    ensures Within(k, Named(name)) <==> Name(k) == name
  {
    if k.At? { WithinRoot(k.parent, name); }
  }

  lemma {:induction false} RootPresent(k: Series, keys: set<Series>)
    requires k in keys && forall j, q :: At(j, q) in keys ==> j in keys
    ensures Named(Name(k)) in keys
  {
    if k.At? {
      assert k == At(k.parent, k.pair);
      RootPresent(k.parent, keys);
    }
  }

  lemma DepthBound(keys: set<Series>) returns (bound: nat)
    ensures forall k :: k in keys ==> Depth(k) <= bound
  {
    bound := 0;
    var rest := keys;
    while rest != {}
      invariant rest <= keys && forall k :: k in keys - rest ==> Depth(k) <= bound
      decreases |rest|
    {
      var k :| k in rest;
      if Depth(k) > bound { bound := Depth(k); }
      rest := rest - {k};
    }
  }

  /* ---------- walks ---------- */

  /** A callback's verdict may depend on everything it has been shown, the current call last. */
  type Callback<!V> = seq<V> -> bool

  /** The calls after `shown` present the `items` of the series in `visited`, each once. */
  predicate Shown<V(==)>(items: map<Series, V>, shown: seq<V>, all: seq<V>, visited: seq<Series>) {
    && shown <= all && |all| == |shown| + |visited| && NoDup(visited)
    && forall i :: 0 <= i < |visited| ==> visited[i] in items && all[|shown| + i] == items[visited[i]]
  }

  /** `fn` agreed to every call made since `shown`, except the last one when the walk was stopped. */
  predicate Heeded<V(==)>(shown: seq<V>, all: seq<V>, go: bool, fn: Callback<V>) {
    && shown <= all
    && (forall i :: |shown| < i < |all| ==> fn(all[..i]))
    && (if go then |all| > |shown| ==> fn(all) else |all| > |shown| && !fn(all))
  }

  lemma ShownMore<V>(items: map<Series, V>, shown: seq<V>, all: seq<V>, visited: seq<Series>,
                     more: seq<V>, below: seq<Series>)
    requires Shown(items, shown, all, visited) && Shown(items, all, more, below)
    requires forall k :: k in visited ==> k !in below
    ensures Shown(items, shown, more, visited + below)
  {
    var ks := visited + below;
    forall i, j | 0 <= i < j < |ks| ensures ks[i] != ks[j] {
      if i < |visited| <= j { assert ks[i] in visited && ks[j] in below; }
    }
  }

  lemma HeededMore<V>(shown: seq<V>, all: seq<V>, more: seq<V>, go: bool, fn: Callback<V>)
    requires Heeded(shown, all, true, fn) && Heeded(all, more, go, fn)
    ensures Heeded(shown, more, go, fn)
  {
    forall i | |shown| < i < |more| ensures fn(more[..i]) {
      if i <= |all| { assert more[..i] == all[..i] && all[..|all|] == all; }
    }
    if |more| == |all| { assert more == all; }
  }

  /** The items below `a` are in `visited`, those below the children in `rest` excepted. */
  ghost predicate Complete<V>(items: map<Series, V>, a: Series, rest: set<Pair>, visited: seq<Series>) {
    forall k :: k in items && Within(k, a) ==> k in visited || exists p :: p in rest && Within(k, At(a, p))
  }

  ghost predicate Outside(visited: seq<Series>, a: Series, rest: set<Pair>) {
    forall k :: k in visited ==> Within(k, a) && forall p :: p in rest ==> !Within(k, At(a, p))
  }

  /** Whatever of `items` lies above a series, up to `a`, was shown before it. */
  ghost predicate TopDown<V>(items: map<Series, V>, a: Series, visited: seq<Series>) {
    forall i, j :: 0 <= i < |visited| && j in items && Above(a, visited[i], j) ==> j in visited[..i]
  }

  predicate Above(a: Series, k: Series, j: Series) {
    j != k && Within(k, j) && Within(j, a)
  }

  /** A walk from `a`, with the children in `rest` still to come. */
  ghost predicate Walked<V>(items: map<Series, V>, a: Series, rest: set<Pair>, shown: seq<V>, all: seq<V>,
                         visited: seq<Series>, go: bool, fn: Callback<V>) {
    && Shown(items, shown, all, visited)
    && Heeded(shown, all, go, fn)
    && Outside(visited, a, rest)
    && TopDown(items, a, visited)
    && (go ==> Complete(items, a, rest, visited))
  }

  lemma TopDownMore<V>(items: map<Series, V>, a: Series, rest: set<Pair>, visited: seq<Series>, p: Pair, below: seq<Series>)
    requires TopDown(items, a, visited) && Complete(items, a, rest, visited)
    requires TopDown(items, At(a, p), below) && Outside(below, At(a, p), {})
    ensures TopDown(items, a, visited + below)
  {
    var ks := visited + below;
    forall i, j | 0 <= i < |ks| && j in items && Above(a, ks[i], j) ensures j in ks[..i] {
      if i < |visited| {
        assert ks[..i] == visited[..i];
      } else {
        assert ks[..i] == visited + below[..i - |visited|];
        assert ks[i] == below[i - |visited|] && ks[i] in below;
        if j == a {
          if q :| Within(a, At(a, q)) { WithinDepth(a, At(a, q)); }
        } else {
          WithinBetween(ks[i], j, a, p);
          assert Above(At(a, p), below[i - |visited|], j);
        }
      }
    }
  }

  lemma OutsideBelow(a: Series, rest: set<Pair>, p: Pair, below: seq<Series>)
    requires Outside(below, At(a, p), {})
    ensures Outside(below, a, rest - {p})
  {
    forall k | k in below ensures Within(k, a) && forall q :: q in rest - {p} ==> !Within(k, At(a, q)) {
      WithinParent(k, a, p);
      forall q | q in rest - {p} ensures !Within(k, At(a, q)) {
        if Within(k, At(a, q)) { WithinOne(k, a, p, q); }
      }
    }
  }

  /** Walking the child under `p` continues the walk, and leaves only the other children. */
  lemma ChildWalked<V>(items: map<Series, V>, a: Series, rest: set<Pair>, shown: seq<V>, all: seq<V>, visited: seq<Series>,
                    p: Pair, more: seq<V>, below: seq<Series>, go: bool, fn: Callback<V>)
    requires p in rest && Walked(items, a, rest, shown, all, visited, true, fn)
    requires Walked(items, At(a, p), {}, all, more, below, go, fn)
    ensures Walked(items, a, rest - {p}, shown, more, visited + below, go, fn)
  {
    ShownMore(items, shown, all, visited, more, below);
    HeededMore(shown, all, more, go, fn);
    OutsideBelow(a, rest, p, below);
    TopDownMore(items, a, rest, visited, p, below);
  }

  lemma WalkStopped<V>(items: map<Series, V>, a: Series, rest: set<Pair>, shown: seq<V>, all: seq<V>,
                       visited: seq<Series>, fn: Callback<V>)
    requires Walked(items, a, rest, shown, all, visited, false, fn)
    ensures Walked(items, a, {}, shown, all, visited, false, fn)
  {
  }

  /* ---------- a walk over all names ---------- */

  /** A walk of all tries, those for the names in `rest` still to come. */
  ghost predicate Toured<V>(items: map<Series, V>, rest: set<string>, all: seq<V>, visited: seq<Series>,
                            go: bool, fn: Callback<V>) {
    && Shown(items, [], all, visited)
    && Heeded([], all, go, fn)
    && (forall k :: k in visited ==> Name(k) !in rest)
    && (go ==> forall k :: k in items && Name(k) !in rest ==> k in visited)
  }

  lemma NameToured<V>(items: map<Series, V>, rest: set<string>, all: seq<V>, visited: seq<Series>,
                   name: string, more: seq<V>, below: seq<Series>, go: bool, fn: Callback<V>)
    requires name in rest && Toured(items, rest, all, visited, true, fn)
    requires Walked(items, Named(name), {}, all, more, below, go, fn)
    ensures Toured(items, rest - {name}, more, visited + below, go, fn)
  {
    forall k | k in below ensures Name(k) == name { WithinRoot(k, name); }
    ShownMore(items, [], all, visited, more, below);
    HeededMore([], all, more, go, fn);
    forall k | k in items && Name(k) !in rest - {name} && go ensures k in visited + below {
      WithinRoot(k, name);
    }
  }
}
