/** metrics/dogstatsd/dogstatsd.go: which gauges a pass over the tries writes, when the writer judges each line by
    itself. */
module GaugePasses {
  import opened Gauges
  import opened LabelValues
  import opened Order
  import opened TrieWalks

  /** The verdict of such a writer. */
  function LineByLine(ok: Emission -> bool): Callback<Emission> {
    lines => |lines| > 0 && ok(lines[|lines| - 1])
  }

  lemma Verdict(ok: Emission -> bool, all: seq<Emission>, i: nat)
    requires i < |all|
    ensures LineByLine(ok)(all[..i + 1]) == ok(all[i])
  {
    assert all[..i + 1][i] == all[i];
  }

  /** Every pending line of `name` that the writer refuses has all other pending series of that name above it. */
  ghost predicate RefusesLeaves(items: map<Series, Emission>, name: string, ok: Emission -> bool) {
    forall k, j :: k in items && j in items && Name(k) == name && Name(j) == name && !ok(items[k]) ==> Within(k, j)
  }

  lemma AboveComesFirst(items: map<Series, Emission>, visited: seq<Series>, i: nat, k: Series)
    requires Descends(items, visited) && i < |visited| && k in items && Within(visited[i], k)
    ensures k in visited
  {
    WithinDepth(visited[i], k);
    WithinRoot(k, Name(visited[i]));
    assert k == visited[i] || Above(Named(Name(visited[i])), visited[i], k);
  }

  /** If that holds of every name, every pass writes everything pending, whatever order it takes the maps in. */
  lemma RefusedLeavesLoseNothing(items: map<Series, Emission>, ok: Emission -> bool, all: seq<Emission>,
                                 visited: seq<Series>)
    requires forall k :: k in items ==> RefusesLeaves(items, Name(k), ok)
    requires Passed(items, all, visited, LineByLine(ok))
    ensures Elements(visited) == items.Keys
  {
    forall k | k in items ensures k in visited {
      if k !in visited { NotSilenced(items, ok, all, visited, k); }
    }
  }

  lemma NotSilenced(items: map<Series, Emission>, ok: Emission -> bool, all: seq<Emission>, visited: seq<Series>, k: Series)
    requires Shown(items, [], all, visited) && Descends(items, visited) && k in items
    requires RefusesLeaves(items, Name(k), ok) && Silenced(all, visited, LineByLine(ok), k)
    ensures k in visited
  {
    var i :| 0 <= i < |all| && Name(visited[i]) == Name(k) && Refused(all, LineByLine(ok), i);
    Verdict(ok, all, i);
    assert visited[i] in items && all[i] == items[visited[i]];
    AboveComesFirst(items, visited, i, k);
  }

  /* ---------- exactly, trie by trie ---------- */

  /** A walk of the trie for `name`, by itself. */
  ghost predicate TrieWalked(items: map<Series, Emission>, name: string, ok: Emission -> bool, all: seq<Emission>,
                             visited: seq<Series>, go: bool) {
    Walked(items, Named(name), {}, [], all, visited, go, LineByLine(ok))
  }

  ghost predicate TrieComplete(items: map<Series, Emission>, name: string, visited: seq<Series>) {
    forall k :: k in items && Name(k) == name ==> k in visited
  }

  /** Whatever order the walk takes the maps in. */
  ghost predicate AlwaysComplete(items: map<Series, Emission>, name: string, ok: Emission -> bool) {
    forall all, visited, go :: TrieWalked(items, name, ok, all, visited, go) ==> TrieComplete(items, name, visited)
  }

  /** A trie is always written completely exactly if each pending line the writer refuses has all other pending series
      of the trie above it. Otherwise some are left out by the walk that goes straight down to the refused line. */
  lemma TrieCompleteExactly(items: map<Series, Emission>, name: string, ok: Emission -> bool)
    ensures AlwaysComplete(items, name, ok) <==> RefusesLeaves(items, name, ok)
  {
    if RefusesLeaves(items, name, ok) {
      forall all, visited, go | TrieWalked(items, name, ok, all, visited, go) ensures TrieComplete(items, name, visited) {
        forall k | k in items && Name(k) == name ensures k in visited {
          TrieLosesNothing(items, name, ok, all, visited, go, k);
        }
      }
    } else {
      var k, j :| k in items && j in items && Name(k) == name && Name(j) == name && !ok(items[k]) && !Within(k, j);
      var all, visited := StraightDown(items, k, ok);
      assert !TrieComplete(items, name, visited);
    }
  }

  lemma TrieLosesNothing(items: map<Series, Emission>, name: string, ok: Emission -> bool, all: seq<Emission>,
                         visited: seq<Series>, go: bool, k: Series)
    requires TrieWalked(items, name, ok, all, visited, go) && RefusesLeaves(items, name, ok)
    requires k in items && Name(k) == name
    ensures k in visited
  {
    WithinRoot(k, name);
    if !go {
      LastIsRefused(items, name, ok, all, visited);
      var last := visited[|visited| - 1];
      assert k == last || Above(Named(name), last, k);
    }
  }

  lemma LastIsRefused(items: map<Series, Emission>, name: string, ok: Emission -> bool, all: seq<Emission>,
                      visited: seq<Series>)
    requires TrieWalked(items, name, ok, all, visited, false)
    ensures |visited| > 0
    ensures var last := visited[|visited| - 1]; last in items && Name(last) == name && !ok(items[last])
  {
    var i := |visited| - 1;
    Verdict(ok, all, i);
    assert all[..i + 1] == all && visited[i] in visited;
    WithinRoot(visited[i], name);
  }

  /* ---------- the walk straight down ---------- */

  /** The pending series on the way down to `k`, `k` included. */
  function Line(items: map<Series, Emission>, k: Series): seq<Series> {
    var above := if k.At? then Line(items, k.parent) else [];
    if k in items then above + [k] else above
  }

  lemma {:induction false} LineIsAbove(items: map<Series, Emission>, k: Series, i: nat)
    requires i < |Line(items, k)|
    ensures Line(items, k)[i] in items && Within(k, Line(items, k)[i])
  {
    if k.At? && i < |Line(items, k.parent)| { LineIsAbove(items, k.parent, i); }
  }

  lemma {:induction false} LineHasAll(items: map<Series, Emission>, k: Series, j: Series)
    requires j in items && Within(k, j)
    ensures j in Line(items, k)
  {
    if j != k { LineHasAll(items, k.parent, j); }
  }

  lemma {:induction false} LineGoesDown(items: map<Series, Emission>, k: Series, i: nat, j: nat)
    requires i < j < |Line(items, k)|
    ensures Within(Line(items, k)[j], Line(items, k)[i]) && Line(items, k)[i] != Line(items, k)[j]
  {
    if k.At? {
      var above := Line(items, k.parent);
      if j < |above| {
        LineGoesDown(items, k.parent, i, j);
      } else {
        LineIsAbove(items, k.parent, i);
        WithinDepth(k.parent, above[i]);
      }
    }
  }

  /** What lies above a series of the line is in the line, before it. */
  lemma LineIsTopDown(items: map<Series, Emission>, k: Series, i: nat, j: Series)
    requires i < |Line(items, k)| && j in items && j != Line(items, k)[i] && Within(Line(items, k)[i], j)
    ensures j in Line(items, k)[..i]
  {
    var line := Line(items, k);
    LineIsAbove(items, k, i);
    WithinTrans(k, line[i], j);
    LineHasAll(items, k, j);
    var m :| 0 <= m < |line| && line[m] == j;
    if i < m {
      LineGoesDown(items, k, i, m);
      WithinDepth(line[i], j);
      WithinDepth(j, line[i]);
      SameDepth(line[i], j);
    }
    assert line[..i][m] == j;
  }

  lemma {:induction false} WithinTrans(k: Series, j: Series, a: Series)
    requires Within(k, j) && Within(j, a)
    ensures Within(k, a)
  {
    if k != j { WithinTrans(k.parent, j, a); }
  }

  /** The first refused line on the way down. */
  lemma FirstRefused(items: map<Series, Emission>, k: Series, ok: Emission -> bool) returns (n: nat)
    requires k in items && !ok(items[k])
    ensures n < |Line(items, k)| && forall i :: 0 <= i < |Line(items, k)| ==> Line(items, k)[i] in items
    ensures !ok(items[Line(items, k)[n]]) && forall i :: 0 <= i < n ==> ok(items[Line(items, k)[i]])
  {
    var line := Line(items, k);
    forall i | 0 <= i < |line| ensures line[i] in items { LineIsAbove(items, k, i); }
    assert line[|line| - 1] == k;
    n := 0;
    while ok(items[line[n]])
      invariant n < |line| && forall i :: 0 <= i < n ==> ok(items[line[i]])
      decreases |line| - n
    {
      n := n + 1;
    }
  }

  lemma StraightDown(items: map<Series, Emission>, k: Series, ok: Emission -> bool)
    returns (all: seq<Emission>, visited: seq<Series>)
    requires k in items && !ok(items[k])
    ensures TrieWalked(items, Name(k), ok, all, visited, false)
    ensures forall x :: x in visited ==> Within(k, x)
  {
    var n := FirstRefused(items, k, ok);
    var line := Line(items, k);
    visited := line[..n + 1];
    all := seq(n + 1, i requires 0 <= i <= n => items[line[i]]);
    LineIsWalk(items, k, n + 1);
    StoppedAtLast(ok, all);
  }

  /** A line down is a walk of its trie, as far as it goes. */
  lemma LineIsWalk(items: map<Series, Emission>, k: Series, n: nat)
    requires n <= |Line(items, k)|
    ensures var visited := Line(items, k)[..n];
      && NoDup(visited) && Outside(visited, Named(Name(k)), {}) && TopDown(items, Named(Name(k)), visited)
      && forall x :: x in visited ==> Within(k, x)
  {
    var line := Line(items, k);
    forall x | x in line[..n] ensures Within(k, x) && Within(x, Named(Name(k))) {
      var i :| 0 <= i < n && line[i] == x;
      LineIsAbove(items, k, i);
      WithinDepth(k, x);
      WithinRoot(x, Name(k));
    }
    forall i, j | 0 <= i < j < n ensures line[i] != line[j] { LineGoesDown(items, k, i, j); }
    forall i, j | 0 <= i < n && j in items && Above(Named(Name(k)), line[i], j) ensures j in line[..i] {
      LineIsTopDown(items, k, i, j);
    }
    forall i | 0 <= i < n ensures line[..n][..i] == line[..i] {}
  }

  lemma StoppedAtLast(ok: Emission -> bool, all: seq<Emission>)
    requires |all| > 0 && !ok(all[|all| - 1]) && forall i :: 0 <= i < |all| - 1 ==> ok(all[i])
    ensures Heeded([], all, false, LineByLine(ok))
  {
    forall i | 0 < i < |all| ensures LineByLine(ok)(all[..i]) { Verdict(ok, all, i - 1); }
    Verdict(ok, all, |all| - 1);
    assert all[..|all|] == all;
  }
}
