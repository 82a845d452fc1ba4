/** metrics/dogstatsd/dogstatsd.go and metrics/generic/generic.go: what a gauge shows, from the calls made since it
    was asked for. */
module GaugeHistories {
  import opened Gauges
  import opened LabelValues
  import opened Order
  import opened TrieWalks

  /** The calls that concern gauges, each gauge known by its series. */
  datatype Call =
    | NewGauge(name: string)
    | With(k: Series, more: seq<string>)
    | Set(k: Series, value: real)
    | Add(k: Series, delta: real)

  /** The series of the gauge that a `With` leads to. */
  function Derived(k: Series, more: seq<string>): Series {
    Target(Named(Name(k)), Labels(k) + Padded(more))
  }

  /** One more call. Calls on gauges that no one has are left out. */
  function Do(held: map<Series, real>, call: Call): map<Series, real> {
    match call
    case NewGauge(name) => if Named(name) in held then held else held[Named(name) := 0.0]
    case With(k, more) =>
      if k !in held || Derived(k, more) in held then held else held[Derived(k, more) := held[k]]
    case Set(k, value) => if k in held then held[k := value] else held
    case Add(k, delta) => if k in held then held[k := held[k] + delta] else held
  }

  /** The gauges there are after some calls, with their values. */
  function Held(calls: seq<Call>): map<Series, real> {
    if |calls| == 0 then map[] else Do(Held(calls[..|calls| - 1]), calls[|calls| - 1])
  }

  /** The gauges written once `call` is made. */
  function Marked(written: set<Series>, held: map<Series, real>, call: Call): set<Series> {
    if (call.Set? || call.Add?) && call.k in held then written + {call.k} else written
  }

  /** The gauges written. */
  function Written(calls: seq<Call>): set<Series> {
    if |calls| == 0 then {}
    else Marked(Written(calls[..|calls| - 1]), Held(calls[..|calls| - 1]), calls[|calls| - 1])
  }

  /* ---------- the value of a gauge ---------- */

  /** The sum of the deltas added to a series. */
  function Deltas(calls: seq<Call>, k: Series): real {
    if |calls| == 0 then 0.0
    else
      var call := calls[|calls| - 1];
      Deltas(calls[..|calls| - 1], k) + if call.Add? && call.k == k then call.delta else 0.0
  }

  /** Call `n - 1` set gauge `k` to `start`, or made it: with zero if it was asked for by its name, and with the value
      its parent had by then if it was derived. */
  predicate Begins(calls: seq<Call>, n: nat, k: Series, start: real) {
    && 0 < n <= |calls|
    && var before := Held(calls[..n - 1]);
       match calls[n - 1]
       case NewGauge(name) => k == Named(name) && k !in before && start == 0.0
       case With(parent, more) =>
         parent in before && k == Derived(parent, more) && k !in before && start == before[parent]
       case Set(j, value) => j == k && k in before && start == value
       case Add(_, _) => false
  }

  lemma OneMore(held: map<Series, real>, call: Call, k: Series)
    requires k in held && !(call.Set? && call.k == k)
    ensures k in Do(held, call)
    ensures Do(held, call)[k] == held[k] + if call.Add? && call.k == k then call.delta else 0.0
  {
  }

  lemma DeltasOfOneMore(calls: seq<Call>, call: Call, k: Series)
    ensures Deltas(calls + [call], k) == Deltas(calls, k) + if call.Add? && call.k == k then call.delta else 0.0
  {
    assert (calls + [call])[..|calls|] == calls;
  }

  /** The value of a gauge is what it was last set to, or began with, plus the deltas added since. */
  lemma {:induction false} ValueExactly(calls: seq<Call>, n: nat, k: Series, start: real)
    requires Begins(calls, n, k, start) && forall i :: n <= i < |calls| && calls[i].Set? ==> calls[i].k != k
    ensures k in Held(calls) && Held(calls)[k] == start + Deltas(calls[n..], k)
  {
    if n == |calls| {
      assert calls[n..] == [] && calls[..|calls| - 1] == calls[..n - 1];
    } else {
      var front, call := calls[..|calls| - 1], calls[|calls| - 1];
      BeginsBefore(calls, n, k, start);
      ValueExactly(front, n, k, start);
      OneMore(Held(front), call, k);
      DeltasOfOneMore(front[n..], call, k);
      assert calls[n..] == front[n..] + [call];
    }
  }

  lemma BeginsBefore(calls: seq<Call>, n: nat, k: Series, start: real)
    requires 0 < n < |calls|
    ensures Begins(calls, n, k, start) <==> Begins(calls[..|calls| - 1], n, k, start)
  {
    assert calls[..|calls| - 1][..n - 1] == calls[..n - 1];
  }

  /** Every gauge began somewhere, and one that was not written still has the value it was made with. */
  lemma {:induction false} EveryGaugeBegins(calls: seq<Call>, k: Series) returns (n: nat, start: real)
    requires k in Held(calls)
    ensures Begins(calls, n, k, start) && forall i :: n <= i < |calls| && calls[i].Set? ==> calls[i].k != k
    ensures k !in Written(calls) ==> Held(calls)[k] == start
  {
    var front, call := calls[..|calls| - 1], calls[|calls| - 1];
    if k in Held(front) && !(call.Set? && call.k == k) {
      n, start := EveryGaugeBegins(front, k);
      BeginsBefore(calls, n, k, start);
      OneMore(Held(front), call, k);
    } else {
      n, start := |calls|, Held(calls)[k];
      BeginsHere(calls, k);
    }
  }

  lemma BeginsHere(calls: seq<Call>, k: Series)
    requires |calls| > 0 && k in Held(calls)
    requires var call := calls[|calls| - 1]; k !in Held(calls[..|calls| - 1]) || (call.Set? && call.k == k)
    ensures Begins(calls, |calls|, k, Held(calls)[k])
  {
  }

  /* ---------- the calls made ---------- */

  /** `handles` are the gauges callers have been given: all there are. Those in `written` are flagged. */
  ghost predicate Shows(d: Dogstatsd, handles: map<Series, Gauge>, held: map<Series, real>, written: set<Series>)
    reads d`place, d.place.Values, handles.Values
  {
    Filed(d, handles) && Values(handles, held, written)
  }

  ghost predicate Filed(d: Dogstatsd, handles: map<Series, Gauge>)
    reads d`place, d.place.Values
  {
    forall k :: d.At(k) == if k in handles then handles[k] else null
  }

  ghost predicate Values(handles: map<Series, Gauge>, held: map<Series, real>, written: set<Series>)
    reads handles.Values
  {
    && handles.Keys == held.Keys
    && forall k :: k in handles ==> handles[k].value == held[k] && (handles[k].touched <==> k in written)
  }

  /** A gauge is filed under one series only, the one its name and labels lead to. */
  lemma FiledOnce(d: Dogstatsd, handles: map<Series, Gauge>, k: Series)
    requires d.Valid() && Filed(d, handles) && k in handles
    ensures forall j :: j in handles && handles[j] == handles[k] ==> j == k
    ensures handles[k] in d.owned && d.At(k) == handles[k]
  {
    TargetOfLabels(k);
    assert d.At(k) == handles[k];
    forall j | j in handles && handles[j] == handles[k] ensures j == k {
      assert d.At(j) == handles[j];
      TargetOfLabels(j);
    }
  }

  method Write(d: Dogstatsd, handles: map<Series, Gauge>, call: Call,
               ghost held: map<Series, real>, ghost written: set<Series>)
    requires d.Valid() && Shows(d, handles, held, written) && (call.Set? || call.Add?) && call.k in handles
    modifies d.owned
    ensures d.Valid() && Shows(d, handles, Do(held, call), Marked(written, held, call))
  {
    FiledOnce(d, handles, call.k);
    WriteTo(handles, call, held, written);
  }

  method WriteTo(handles: map<Series, Gauge>, call: Call, ghost held: map<Series, real>, ghost written: set<Series>)
    requires Values(handles, held, written) && (call.Set? || call.Add?) && call.k in handles
    requires forall j :: j in handles && handles[j] == handles[call.k] ==> j == call.k
    modifies handles[call.k]
    ensures Values(handles, Do(held, call), Marked(written, held, call))
  {
    if call.Set? { handles[call.k].Set(call.value); } else { handles[call.k].Add(call.delta); }
  }

  /** A caller is given a gauge: one that was there, or a new one. */
  lemma OneMoreHandle(handles: map<Series, Gauge>, at: Series, g: Gauge, value: real,
                      held: map<Series, real>, written: set<Series>)
    requires Values(handles, held, written) && written <= held.Keys
    requires if at in handles then g == handles[at] else g.value == value && !g.touched
    ensures Values(handles[at := g], if at in held then held else held[at := value], written)
  {
  }

  /** `g` is what a caller is given under `at`; no other gauge is touched. */
  ghost predicate Given(d: Dogstatsd, handles: map<Series, Gauge>, at: Series, g: Gauge, value: real,
                        held: map<Series, real>, written: set<Series>)
    reads d`place, d.place.Values, handles.Values, g
  {
    && Filed(d, handles[at := g]) && Values(handles, held, written)
    && if at in handles then g == handles[at] else g.value == value && !g.touched
  }

  method FindByName(d: Dogstatsd, handles: map<Series, Gauge>, name: string,
                    ghost held: map<Series, real>, ghost written: set<Series>)
    returns (g: Gauge)
    requires d.Valid() && Shows(d, handles, held, written)
    modifies d
    ensures d.Valid() && d.Extended() && Given(d, handles, Named(name), g, 0.0, held, written)
  {
    g := d.NewGauge(name);
  }

  method FindByLabels(d: Dogstatsd, handles: map<Series, Gauge>, k: Series, labels: seq<string>, ghost at: Series,
                      ghost held: map<Series, real>, ghost written: set<Series>)
    returns (g: Gauge)
    requires d.Valid() && Shows(d, handles, held, written) && k in handles && at == Derived(k, labels)
    modifies d`place, d`owned, d.place.Values
    ensures d.Valid() && d.Extended() && Given(d, handles, at, g, held[k], held, written)
  {
    g := Derive(d, handles[k], k, labels, at);
  }

  method Derive(d: Dogstatsd, g: Gauge, k: Series, labels: seq<string>, ghost at: Series) returns (r: Gauge)
    requires d.Valid() && d.At(k) == g && at == Derived(k, labels)
    modifies d`place, d`owned, d.place.Values
    ensures d.Valid() && d.Extended() && r == d.At(at) && forall j :: j != at ==> d.At(j) == old(d.At(j))
    ensures if old(d.At(at)) != null then r == old(d.At(at)) else fresh(r) && r.value == g.value && !r.touched
  {
    TargetOfLabels(k);
    r := d.With(g, labels);
  }

  method Make(d: Dogstatsd, handles: map<Series, Gauge>, call: Call,
              ghost held: map<Series, real>, ghost written: set<Series>,
              ghost after: map<Series, real>, ghost marked: set<Series>)
    returns (more: map<Series, Gauge>)
    requires d.Valid() && Shows(d, handles, held, written) && written <= held.Keys
    requires after == Do(held, call) && marked == Marked(written, held, call)
    modifies d, d.place.Values, d.owned
    ensures d.Valid() && Shows(d, more, after, marked) && d.Extended()
  {
    more := handles;
    if call.NewGauge? {
      more := Ask(d, handles, call, held, written);
    } else if call.k !in handles {
      NothingDone(held, written, call);
    } else if call.With? {
      more := Ask(d, handles, call, held, written);
    } else {
      Write(d, handles, call, held, written);
    }
  }

  lemma NothingDone(held: map<Series, real>, written: set<Series>, call: Call)
    requires !call.NewGauge? && call.k !in held
    ensures Do(held, call) == held && Marked(written, held, call) == written
  {
  }

  method Ask(d: Dogstatsd, handles: map<Series, Gauge>, call: Call,
             ghost held: map<Series, real>, ghost written: set<Series>)
    returns (more: map<Series, Gauge>)
    requires d.Valid() && Shows(d, handles, held, written) && written <= held.Keys
    requires call.NewGauge? || (call.With? && call.k in handles)
    modifies d, d.place.Values
    ensures d.Valid() && Shows(d, more, Do(held, call), written) && d.Extended()
  {
    var at := if call.NewGauge? then Named(call.name) else Derived(call.k, call.more);
    var g;
    if call.NewGauge? {
      g := FindByName(d, handles, call.name, held, written);
    } else {
      g := FindByLabels(d, handles, call.k, call.more, at, held, written);
    }
    OneMoreHandle(handles, at, g, if call.NewGauge? then 0.0 else held[call.k], held, written);
    more := handles[at := g];
  }

  /** Any calls on a new object, in order. */
  method Session(calls: seq<Call>) returns (d: Dogstatsd, handles: map<Series, Gauge>)
    ensures fresh(d) && Fresh(d) && d.Valid() && Shows(d, handles, Held(calls), Written(calls))
  {
    d := new Dogstatsd();
    handles := map[];
    ghost var held, written := map[], {};
    for i := 0 to |calls|
      invariant fresh(d) && Fresh(d) && d.Valid() && Shows(d, handles, held, written)
      invariant held == Held(calls[..i]) && written == Written(calls[..i]) && written <= held.Keys
    {
      OneCallMore(calls, i);
      ghost var after, marked := Do(held, calls[i]), Marked(written, held, calls[i]);
      handles := Make(d, handles, calls[i], held, written, after, marked);
      held, written := after, marked;
    }
    assert calls[..|calls|] == calls;
  }

  twostate predicate Fresh(new d: Dogstatsd)
    reads d`place, d`owned
  {
    (forall k :: k in d.place ==> fresh(d.place[k])) && forall g :: g in d.owned ==> fresh(g)
  }

  lemma OneCallMore(calls: seq<Call>, i: nat)
    requires i < |calls|
    ensures Held(calls[..i + 1]) == Do(Held(calls[..i]), calls[i])
    ensures Written(calls[..i + 1]) == Marked(Written(calls[..i]), Held(calls[..i]), calls[i])
    ensures Written(calls[..i + 1]) <= Held(calls[..i + 1]).Keys
  {
    assert calls[..i + 1][..i] == calls[..i];
    WrittenAreHeld(calls[..i + 1]);
  }

  /** The line of a gauge that was written. */
  function LineOf(calls: seq<Call>, k: Series): Emission
    requires k in Held(calls)
  {
    Emission(Name(k), Labels(k), Held(calls)[k])
  }

  ghost predicate IsLine(calls: seq<Call>, line: Emission) {
    exists k :: k in Written(calls) && k in Held(calls) && line == LineOf(calls, k)
  }

  /** And then a pass: each line shows the value its gauge was last set to, or began with, plus the deltas added since;
      the gauges pending are those written, and a writer that refuses nothing is shown them all. */
  method Report(calls: seq<Call>, fn: Callback<Emission>)
    returns (all: seq<Emission>, ghost visited: seq<Series>, ghost items: map<Series, Emission>)
    ensures items.Keys == Written(calls) <= Held(calls).Keys && Passed(items, all, visited, fn)
    ensures forall k :: k in items ==> items[k] == LineOf(calls, k)
    ensures forall i :: 0 <= i < |all| ==> IsLine(calls, all[i])
    ensures (forall lines :: fn(lines)) ==> forall k :: k in Written(calls) ==> LineOf(calls, k) in all
  {
    WrittenAreHeld(calls);
    items := map k | k in Written(calls) :: LineOf(calls, k);
    all, visited := PassAfter(calls, fn, items);
    LinesAre(calls, items, all, visited, fn);
  }

  method PassAfter(calls: seq<Call>, fn: Callback<Emission>, ghost items: map<Series, Emission>)
    returns (all: seq<Emission>, ghost visited: seq<Series>)
    requires items.Keys == Written(calls) <= Held(calls).Keys
    requires forall k :: k in items ==> items[k] == LineOf(calls, k)
    ensures Passed(items, all, visited, fn)
  {
    var d, handles := Session(calls);
    all, visited := d.WriteGauges(fn, items);
  }

  lemma LinesAre(calls: seq<Call>, items: map<Series, Emission>, all: seq<Emission>, visited: seq<Series>,
                 fn: Callback<Emission>)
    requires items.Keys == Written(calls) <= Held(calls).Keys && Passed(items, all, visited, fn)
    requires forall k :: k in items ==> items[k] == LineOf(calls, k)
    ensures forall i :: 0 <= i < |all| ==> IsLine(calls, all[i])
    ensures (forall lines :: fn(lines)) ==> forall k :: k in Written(calls) ==> LineOf(calls, k) in all
  {
    forall i | 0 <= i < |all| ensures IsLine(calls, all[i]) { OfAVisit(items, all, visited, fn, i); }
    if forall lines :: fn(lines) {
      forall k | k in items ensures items[k] in all { ShownToAll(items, all, visited, fn, k); }
    }
  }

  lemma OfAVisit(items: map<Series, Emission>, all: seq<Emission>, visited: seq<Series>, fn: Callback<Emission>, i: nat)
    requires Passed(items, all, visited, fn) && i < |all|
    ensures |visited| == |all| && visited[i] in items && all[i] == items[visited[i]]
  {
  }

  lemma ShownToAll(items: map<Series, Emission>, all: seq<Emission>, visited: seq<Series>, fn: Callback<Emission>,
                   k: Series)
    requires Passed(items, all, visited, fn) && k in items && forall lines :: fn(lines)
    ensures items[k] in all
  {
    assert !Silenced(all, visited, fn, k);
    assert k in visited;
    var i :| 0 <= i < |visited| && visited[i] == k;
    assert all[i] == items[k];
  }

  lemma {:induction false} WrittenAreHeld(calls: seq<Call>)
    ensures Written(calls) <= Held(calls).Keys
  {
    if |calls| > 0 { WrittenAreHeld(calls[..|calls| - 1]); }
  }
}
