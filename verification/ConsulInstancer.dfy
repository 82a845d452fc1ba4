/** sd/consul/instancer.go: the long-polling loop, an index and backoff state machine that publishes to the instance
    cache; and the filtering of service entries by tag. */
module ConsulInstancer {
  import opened Backoff
  import opened Discovery

  /** Ten milliseconds, the wait after a first fault. */
  const LEAST := 10_000_000

  /** What a query of Consul comes back with. The jitter is that of the backoff a fault leads to. */
  datatype Answer =
    | Stopped
    | Failure(err: Error, jitter: Jitter)
    | Response(instances: seq<string>, index: nat, jitter: Jitter)

  datatype Act = Sleep(d: int) | Publish(event: Event)

  /** One turn of the loop: the index it waited for, and what it then did, in order. */
  datatype Turn = Turn(query: nat, did: seq<Act>)

  datatype State = State(lastIndex: nat, d: int)

  predicate Accepted(query: nat, a: Answer) {
    a.Response? && a.index != 0 && a.index >= query
  }

  predicate Backward(query: nat, a: Answer) {
    a.Response? && a.index != 0 && a.index < query
  }

  function Reaction(s: State, a: Answer): seq<Act> {
    if Accepted(s.lastIndex, a) then [Publish(Event(Some(a.instances), None))]
    else if a.Failure? then [Sleep(s.d), Publish(Event(None, Some(a.err)))]
    else if a.Response? then [Sleep(s.d)]
    else []
  }

  function NextState(s: State, a: Answer): State {
    if a.Stopped? then s
    else if Accepted(s.lastIndex, a) then State(a.index, LEAST)
    else State(if Backward(s.lastIndex, a) then 0 else s.lastIndex, Next(s.d, a.jitter))
  }

  /** The loop's variables after a series of answers. */
  function After(index: nat, answers: seq<Answer>): State {
    if |answers| == 0 then State(index, LEAST)
    else NextState(After(index, answers[..|answers| - 1]), answers[|answers| - 1])
  }

  function Run(index: nat, answers: seq<Answer>): (turns: seq<Turn>)
    ensures |turns| == |answers|
  {
    if |answers| == 0 then []
    else
      var most, s := answers[..|answers| - 1], After(index, answers[..|answers| - 1]);
      Run(index, most) + [Turn(s.lastIndex, Reaction(s, answers[|answers| - 1]))]
  }

  /** The loop, until it is stopped or there are no more answers. `k` counts the turns. */
  method Loop(index: nat, answers: seq<Answer>) returns (turns: seq<Turn>, k: nat)
    ensures k <= |answers| && (forall i :: 0 <= i < k ==> !answers[i].Stopped?)
    ensures k < |answers| ==> answers[k].Stopped?
    ensures turns == Run(index, answers[..k])
  {
    var lastIndex, d := index, LEAST;
    turns := [];
    var i := 0;
    while i < |answers|
      invariant 0 <= i <= |answers| && forall j :: 0 <= j < i ==> !answers[j].Stopped?
      invariant turns == Run(index, answers[..i]) && State(lastIndex, d) == After(index, answers[..i])
    {
      assert answers[..i + 1][..i] == answers[..i];
      var did, query := [], lastIndex;
      match answers[i] {
        case Stopped =>
          return turns, i;
        case Failure(err, jitter) =>
          did := did + [Sleep(d)];
          d := Exponential(d, jitter);
          did := did + [Publish(Event(None, Some(err)))];
        case Response(instances, newIndex, jitter) =>
          if newIndex == 0 {
            did := did + [Sleep(d)];
            d := Exponential(d, jitter);
          } else if newIndex < lastIndex {
            lastIndex := 0;
            did := did + [Sleep(d)];
            d := Exponential(d, jitter);
          } else {
            lastIndex := newIndex;
            did := did + [Publish(Event(Some(instances), None))];
            d := LEAST;
          }
      }
      assert did == Reaction(After(index, answers[..i]), answers[i]);
      turns := turns + [Turn(query, did)];
      i := i + 1;
    }
    assert answers[..i] == answers;
    return turns, i;
  }

  lemma {:induction false} RunAt(index: nat, answers: seq<Answer>, i: nat)
    requires i < |answers|
    ensures var s := After(index, answers[..i]); Run(index, answers)[i] == Turn(s.lastIndex, Reaction(s, answers[i]))
  {
    if i < |answers| - 1 {
      RunAt(index, answers[..|answers| - 1], i);
      assert answers[..|answers| - 1][..i] == answers[..i];
    }
  }

  lemma AfterOneMore(index: nat, answers: seq<Answer>, i: nat)
    requires i < |answers|
    ensures After(index, answers[..i + 1]) == NextState(After(index, answers[..i]), answers[i])
  {
    assert answers[..i + 1][..i] == answers[..i];
  }

  /** A turn publishes instances exactly when its answer bears a non-zero index not below the one waited for, and
      then that answer's; it publishes an error exactly when the query failed, and then that error. */
  lemma {:induction false} PublishesExactly(index: nat, answers: seq<Answer>, i: nat, event: Event)
    requires i < |answers|
    ensures Publish(event) in Run(index, answers)[i].did <==>
      || (answers[i].Failure? && event == Event(None, Some(answers[i].err)))
      || (answers[i].Response? && answers[i].index > 0 && answers[i].index >= Run(index, answers)[i].query
          && event == Event(Some(answers[i].instances), None))
  {
    RunAt(index, answers, i);
  }

  /** The answer is a failure, or bears no sane index: none, or one below the index waited for. */
  predicate Faulty(query: nat, a: Answer) {
    a.Failure? || (a.Response? && (a.index == 0 || a.index < query))
  }

  function Sleeps(did: seq<Act>): nat {
    if |did| == 0 then 0 else Sleeps(did[..|did| - 1]) + if did[|did| - 1].Sleep? then 1 else 0
  }

  /** A turn with a faulty answer begins with a sleep, its only one, which is followed by the error if there is one and
      by nothing otherwise; a sound answer is published at once, and nothing else is done. */
  lemma {:induction false} SleepsExactly(index: nat, answers: seq<Answer>, i: nat)
    requires i < |answers|
    ensures var t := Run(index, answers)[i];
      && Sleeps(t.did) == (if Faulty(t.query, answers[i]) then 1 else 0)
      && (Faulty(t.query, answers[i]) ==>
            && |t.did| > 0 && t.did[0].Sleep?
            && t.did[1..] == if answers[i].Failure? then [Publish(Event(None, Some(answers[i].err)))] else [])
      && (!Faulty(t.query, answers[i]) ==>
            t.did == if answers[i].Response? then [Publish(Event(Some(answers[i].instances), None))] else [])
  {
    RunAt(index, answers, i);
    var did := Run(index, answers)[i].did;
    if |did| > 0 {
      assert did[..|did|] == did && did[..0] == [];
      SleepsOfTwo(did);
    }
  }

  lemma SleepsOfTwo(did: seq<Act>)
    requires 0 < |did| <= 2
    ensures Sleeps(did) == (if did[0].Sleep? then 1 else 0) + if |did| == 2 && did[1].Sleep? then 1 else 0
  {
    assert did[..|did| - 1] == if |did| == 2 then [did[0]] else [];
    assert [did[0]][..0] == [];
  }

  /** A query waits for the index of the last sound answer, or for any if there was none or an answer went back since. */
  lemma {:induction false} QueriesFollow(index: nat, answers: seq<Answer>, i: nat)
    requires i < |answers|
    ensures Run(index, answers)[0].query == index
    ensures i > 0 ==>
      var t, a := Run(index, answers)[i - 1], answers[i - 1];
      Run(index, answers)[i].query ==
        if a.Response? && a.index >= t.query && a.index > 0 then a.index
        else if a.Response? && 0 < a.index < t.query then 0
        else t.query
  {
    RunAt(index, answers, 0);
    assert answers[..0] == [];
    if i > 0 {
      RunAt(index, answers, i);
      RunAt(index, answers, i - 1);
      AfterOneMore(index, answers, i - 1);
    }
  }

  /** The index waited for only ever grows, unless an answer goes back behind it. */
  lemma {:induction false} IndexGrows(index: nat, answers: seq<Answer>, i: nat, j: nat)
    requires i <= j < |answers|
    requires forall k :: i <= k < j ==> !Backward(Run(index, answers)[k].query, answers[k])
    ensures Run(index, answers)[i].query <= Run(index, answers)[j].query
  {
    if i < j {
      IndexGrows(index, answers, i, j - 1);
      RunAt(index, answers, j - 1);
      RunAt(index, answers, j);
      AfterOneMore(index, answers, j - 1);
    }
  }

  /** After an answer that goes back, the next sound answer is published, however low its index. */
  lemma {:induction false} ResetThenPublish(index: nat, answers: seq<Answer>, i: nat, j: nat)
    requires i < j < |answers| && Backward(Run(index, answers)[i].query, answers[i])
    requires forall k :: i < k < j ==> !(answers[k].Response? && answers[k].index != 0)
    requires answers[j].Response? && answers[j].index != 0
    ensures Run(index, answers)[j] == Turn(0, [Publish(Event(Some(answers[j].instances), None))])
  {
    RunAt(index, answers, i);
    StaysReset(index, answers, i, j);
    RunAt(index, answers, j);
  }

  lemma {:induction false} StaysReset(index: nat, answers: seq<Answer>, i: nat, j: nat)
    requires i < j < |answers| && Backward(After(index, answers[..i]).lastIndex, answers[i])
    requires forall k :: i < k < j ==> !(answers[k].Response? && answers[k].index != 0)
    ensures After(index, answers[..j]).lastIndex == 0
  {
    AfterOneMore(index, answers, j - 1);
    if i < j - 1 { StaysReset(index, answers, i, j - 1); }
  }

  /** The `k` turns before turn `i` all had a fault; the one before those had none, or there is none. */
  ghost predicate Streak(index: nat, answers: seq<Answer>, i: nat, k: nat) {
    && k <= i <= |answers|
    && (forall j :: i - k <= j < i ==> !answers[j].Stopped? && !Accepted(Run(index, answers)[j].query, answers[j]))
    && (k < i ==> Accepted(Run(index, answers)[i - k - 1].query, answers[i - k - 1]))
  }

  lemma StreakBefore(index: nat, answers: seq<Answer>, i: nat, k: nat)
    requires Streak(index, answers, i, k) && k > 0
    ensures Streak(index, answers, i - 1, k - 1)
  {
  }

  lemma {:induction false} DelayAfter(index: nat, answers: seq<Answer>, i: nat, k: nat)
    requires Streak(index, answers, i, k)
    ensures LEAST <= After(index, answers[..i]).d <= Cap(LEAST, k)
  {
    if i > 0 {
      AfterOneMore(index, answers, i - 1);
      RunAt(index, answers, i - 1);
      if k > 0 {
        StreakBefore(index, answers, i, k);
        DelayAfter(index, answers, i - 1, k - 1);
        DelayNext(After(index, answers[..i - 1]), answers[i - 1], k);
      }
    }
  }

  lemma DelayNext(s: State, a: Answer, k: nat)
    requires k > 0 && !a.Stopped? && !Accepted(s.lastIndex, a) && LEAST <= s.d <= Cap(LEAST, k - 1)
    ensures LEAST <= NextState(s, a).d <= Cap(LEAST, k)
  {
    NextUnderCap(LEAST, s.d, k - 1, a.jitter);
  }

  /** After `k` faults in a row the loop sleeps between ten milliseconds and 3^k times that, never over a minute. */
  lemma {:induction false} DelaysAreBounded(index: nat, answers: seq<Answer>, i: nat, k: nat, d: int)
    requires i < |answers| && Streak(index, answers, i, k) && Sleep(d) in Run(index, answers)[i].did
    ensures LEAST <= d <= Cap(LEAST, k) <= MINUTE
  {
    RunAt(index, answers, i);
    DelayAfter(index, answers, i, k);
  }

  /** And, if no jitter shortened a wait since the last success, at least 2^k times that, or a minute. */
  lemma {:induction false} DelaysDouble(index: nat, answers: seq<Answer>, i: nat, k: nat, d: int)
    requires i < |answers| && Streak(index, answers, i, k) && Sleep(d) in Run(index, answers)[i].did
    requires forall j :: i - k <= j < i ==> answers[j].jitter >= 1.0
    ensures Floor(LEAST, k) <= d
  {
    RunAt(index, answers, i);
    DelayOverFloor(index, answers, i, k);
  }

  lemma {:induction false} DelayOverFloor(index: nat, answers: seq<Answer>, i: nat, k: nat)
    requires Streak(index, answers, i, k) && forall j :: i - k <= j < i ==> answers[j].jitter >= 1.0
    ensures Floor(LEAST, k) <= After(index, answers[..i]).d <= MINUTE
  {
    DelayAfter(index, answers, i, k);
    if k > 0 {
      StreakBefore(index, answers, i, k);
      DelayOverFloor(index, answers, i - 1, k - 1);
      AfterOneMore(index, answers, i - 1);
      RunAt(index, answers, i - 1);
      DelayDoubles(After(index, answers[..i - 1]), answers[i - 1], k);
    }
  }

  lemma DelayDoubles(s: State, a: Answer, k: nat)
    requires k > 0 && !a.Stopped? && !Accepted(s.lastIndex, a) && Floor(LEAST, k - 1) <= s.d <= MINUTE && a.jitter >= 1.0
    ensures Floor(LEAST, k) <= NextState(s, a).d
  {
    NextOverFloor(LEAST, s.d, k - 1, a.jitter);
  }

  /** From a fault to any later one, with no success in between, the loop never sleeps less. */
  lemma {:induction false} DelaysGrow(index: nat, answers: seq<Answer>, i: nat, j: nat, d: int, e: int)
    requires i <= j < |answers|
    requires forall k :: i <= k < j ==> !Accepted(Run(index, answers)[k].query, answers[k])
    requires Sleep(d) in Run(index, answers)[i].did && Sleep(e) in Run(index, answers)[j].did
    ensures d <= e
  {
    RunAt(index, answers, i);
    RunAt(index, answers, j);
    BackoffGrows(index, answers, i, j);
  }

  lemma {:induction false} BackoffGrows(index: nat, answers: seq<Answer>, i: nat, j: nat)
    requires i <= j < |answers|
    requires forall k :: i <= k < j ==> !Accepted(Run(index, answers)[k].query, answers[k])
    ensures After(index, answers[..i]).d <= After(index, answers[..j]).d
  {
    if i < j {
      BackoffGrows(index, answers, i, j - 1);
      RunAt(index, answers, j - 1);
      AfterOneMore(index, answers, j - 1);
      BackoffBounds(index, answers[..j - 1]);
      if !answers[j - 1].Stopped? { NextBounds(After(index, answers[..j - 1]).d, answers[j - 1].jitter); }
    }
  }

  lemma {:induction false} BackoffBounds(index: nat, answers: seq<Answer>)
    ensures LEAST <= After(index, answers).d <= MINUTE
  {
    if |answers| > 0 {
      var most, a := answers[..|answers| - 1], answers[|answers| - 1];
      BackoffBounds(index, most);
      if !a.Stopped? { NextBounds(After(index, most).d, a.jitter); }
    }
  }

  /* ---------- entries and tags ---------- */

  datatype Entry = Entry(nodeAddress: string, serviceAddress: string, port: int, tags: seq<string>)

  predicate HasAll(entry: Entry, tags: seq<string>) {
    forall i :: 0 <= i < |tags| ==> tags[i] in entry.tags
  }

  /** The entries that bear all the tags, in order. */
  function Matching(entries: seq<Entry>, tags: seq<string>): seq<Entry> {
    if |entries| == 0 then []
    else
      var rest, e := Matching(entries[..|entries| - 1], tags), entries[|entries| - 1];
      if HasAll(e, tags) then rest + [e] else rest
  }

  /** Exactly the entries that bear all the tags, each as often as it is listed, and in the order of the list: those
      at the ascending places `at`. */
  method FilterEntries(entries: seq<Entry>, tags: seq<string>) returns (es: seq<Entry>, ghost at: seq<nat>)
    ensures es == Matching(entries, tags) && |at| == |es|
    ensures forall e :: multiset(es)[e] == if HasAll(e, tags) then multiset(entries)[e] else 0
    ensures forall i :: 0 <= i < |at| ==> at[i] < |entries| && es[i] == entries[at[i]]
    ensures forall i, j :: 0 <= i < j < |at| ==> at[i] < at[j]
  {
    es := [];
    for n := 0 to |entries|
      invariant es == Matching(entries[..n], tags)
    {
      assert entries[..n + 1][..n] == entries[..n];
      var entry := entries[n];
      var ts := TagSet(entry);
      var missing := false;
      for i := 0 to |tags|
        invariant !missing && forall j :: 0 <= j < i ==> tags[j] in entry.tags
      {
        if tags[i] !in ts {
          missing := true;
          break;
        }
      }
      if !missing { es := es + [entry]; }
    }
    assert entries[..|entries|] == entries;
    forall e ensures multiset(es)[e] == if HasAll(e, tags) then multiset(entries)[e] else 0 {
      MatchingKeeps(entries, tags, e);
    }
    at := MatchingKeepsOrder(entries, tags);
  }

  method TagSet(entry: Entry) returns (ts: set<string>)
    ensures forall tag :: tag in ts <==> tag in entry.tags
  {
    ts := {};
    for i := 0 to |entry.tags|
      invariant forall tag :: tag in ts <==> tag in entry.tags[..i]
    {
      ts := ts + {entry.tags[i]};
    }
    assert entry.tags[..|entry.tags|] == entry.tags;
  }

  /** Exactly the entries that bear all the tags are kept, each as often as it was listed. */
  lemma {:induction false} MatchingKeeps(entries: seq<Entry>, tags: seq<string>, e: Entry)
    ensures multiset(Matching(entries, tags))[e] == if HasAll(e, tags) then multiset(entries)[e] else 0
  {
    if |entries| > 0 {
      MatchingKeeps(entries[..|entries| - 1], tags, e);
      assert entries == entries[..|entries| - 1] + [entries[|entries| - 1]];
    }
  }

  /** Order is kept: the kept entries stand in the list at ascending places. */
  lemma {:induction false} MatchingKeepsOrder(entries: seq<Entry>, tags: seq<string>) returns (at: seq<nat>)
    ensures |at| == |Matching(entries, tags)|
    ensures forall i :: 0 <= i < |at| ==> at[i] < |entries| && Matching(entries, tags)[i] == entries[at[i]]
    ensures forall i, j :: 0 <= i < j < |at| ==> at[i] < at[j]
  {
    at := [];
    if |entries| > 0 {
      at := MatchingKeepsOrder(entries[..|entries| - 1], tags);
      if HasAll(entries[|entries| - 1], tags) { at := at + [|entries| - 1]; }
    }
  }

  /** Consul filters by the first tag and the instancer by the others: together, by all of them. */
  lemma {:induction false} FirstTagThenOthers(entries: seq<Entry>, tags: seq<string>)
    requires |tags| > 0
    ensures Matching(Matching(entries, tags[..1]), tags[1..]) == Matching(entries, tags)
  {
    if |entries| > 0 {
      var most, e := entries[..|entries| - 1], entries[|entries| - 1];
      FirstTagThenOthers(most, tags);
      assert HasAll(e, tags) <==> HasAll(e, tags[..1]) && HasAll(e, tags[1..]) by {
        assert forall i :: 0 <= i < |tags| ==> tags[i] == if i == 0 then tags[..1][0] else tags[1..][i - 1];
      }
      var kept := Matching(most, tags[..1]);
      assert (kept + [e])[..|kept|] == kept;
    }
  }

  /** An instance is named by the address of the service if it has one, of the node otherwise, and by the port. */
  function InstanceOf(entry: Entry): string {
    (if entry.serviceAddress != "" then entry.serviceAddress else entry.nodeAddress) + ":" + Decimal(entry.port)
  }

  /** `instance` is the address to use for the entry, a colon, and the port in decimal. */
  predicate Names(instance: string, entry: Entry) {
    var address := if entry.serviceAddress == "" then entry.nodeAddress else entry.serviceAddress;
    address + ":" <= instance && Denotes(instance[|address| + 1..], entry.port)
  }

  function Decimal(n: int): string {
    if n < 0 then "-" + Digits(-n) else Digits(n)
  }

  function Digits(n: nat): string {
    if n < 10 then [DIGITS[n]] else Digits(n / 10) + [DIGITS[n % 10]]
  }

  const DIGITS := "0123456789"

  /** The number that a text of digits denotes, most significant digit first. */
  function Parsed(s: string): int {
    if |s| == 0 then 0 else 10 * Parsed(s[..|s| - 1]) + (s[|s| - 1] as int - '0' as int)
  }

  /** Digits only, and none too many. */
  predicate Plain(s: string) {
    |s| > 0 && (forall i :: 0 <= i < |s| ==> '0' <= s[i] <= '9') && (s[0] == '0' ==> |s| == 1)
  }

  /** `s` is how `n` is written. */
  predicate Denotes(s: string, n: int) {
    if |s| > 0 && s[0] == '-' then Plain(s[1..]) && n == -Parsed(s[1..]) && n != 0 else Plain(s) && n == Parsed(s)
  }

  lemma {:induction false} DigitsParse(n: nat)
    ensures Plain(Digits(n)) && Parsed(Digits(n)) == n && (n > 0 ==> Digits(n)[0] != '0')
  {
    assert forall k: nat :: k < 10 ==> DIGITS[k] as int == '0' as int + k;
    if n >= 10 {
      DigitsParse(n / 10);
      assert Digits(n)[..|Digits(n)| - 1] == Digits(n / 10);
    } else {
      assert Digits(n)[..0] == "";
    }
  }

  lemma {:induction false} DecimalDenotes(n: int)
    ensures Denotes(Decimal(n), n)
  {
    DigitsParse(if n < 0 then -n else n);
    if n < 0 { assert Decimal(n)[1..] == Digits(-n); }
  }

  lemma {:induction false} DecimalIsUnique(m: int, n: int)
    requires Decimal(m) == Decimal(n)
    ensures m == n
  {
    DecimalDenotes(m);
    DecimalDenotes(n);
  }

  lemma InstanceNames(entry: Entry)
    ensures Names(InstanceOf(entry), entry)
  {
    var address := if entry.serviceAddress == "" then entry.nodeAddress else entry.serviceAddress;
    DecimalDenotes(entry.port);
    assert InstanceOf(entry)[|address| + 1..] == Decimal(entry.port);
  }

  predicate SameAddress(a: Entry, b: Entry) {
    a.serviceAddress == b.serviceAddress && a.nodeAddress == b.nodeAddress
  }

  /** Two entries at one address name the same instance exactly if their ports are equal. */
  lemma SamePortExactly(a: Entry, b: Entry)
    requires SameAddress(a, b)
    ensures InstanceOf(a) == InstanceOf(b) <==> a.port == b.port
  {
    var address := if a.serviceAddress != "" then a.serviceAddress else a.nodeAddress;
    if InstanceOf(a) == InstanceOf(b) {
      var p, q := Decimal(a.port), Decimal(b.port);
      assert InstanceOf(a)[|address| + 1..] == p && InstanceOf(b)[|address| + 1..] == q;
      DecimalIsUnique(a.port, b.port);
    }
  }

  method MakeInstances(entries: seq<Entry>) returns (instances: array<string>)
    ensures fresh(instances) && instances.Length == |entries|
    ensures forall i :: 0 <= i < |entries| ==> instances[i] == InstanceOf(entries[i]) && Names(instances[i], entries[i])
    ensures forall i, j :: 0 <= i < |entries| && 0 <= j < |entries| && SameAddress(entries[i], entries[j]) ==>
              (instances[i] == instances[j] <==> entries[i].port == entries[j].port)
  {
    instances := new string[|entries|];
    for i := 0 to |entries|
      invariant forall j :: 0 <= j < i ==> instances[j] == InstanceOf(entries[j])
    {
      var addr := entries[i].nodeAddress;
      if entries[i].serviceAddress != "" { addr := entries[i].serviceAddress; }
      instances[i] := addr + ":" + Decimal(entries[i].port);
    }
    forall i | 0 <= i < |entries| ensures Names(instances[i], entries[i]) { InstanceNames(entries[i]); }
    forall i, j | 0 <= i < |entries| && 0 <= j < |entries| && SameAddress(entries[i], entries[j])
      ensures instances[i] == instances[j] <==> entries[i].port == entries[j].port
    {
      SamePortExactly(entries[i], entries[j]);
    }
  }

  /** `answer` is what Consul returns of `all` its entries when asked for those with the first tag, if there is one. */
  method Resolve(answer: seq<Entry>, tags: seq<string>, ghost all: seq<Entry>) returns (instances: array<string>)
    requires answer == if |tags| == 0 then all else Matching(all, tags[..1])
    ensures fresh(instances) && instances.Length == |Matching(all, tags)|
    ensures forall i :: 0 <= i < instances.Length ==>
              instances[i] == InstanceOf(Matching(all, tags)[i]) && Names(instances[i], Matching(all, tags)[i])
  {
    assert |tags| == 0 ==> tags == [];
    assert |tags| == 1 ==> tags[1..] == [];
    if |tags| == 0 { Untagged(all); } else { FirstTagThenOthers(all, tags); }
    var entries := answer;
    if |tags| > 1 {
      ghost var at;
      entries, at := FilterEntries(entries, tags[1..]);
    } else if |tags| == 1 {
      Untagged(answer);
    }
    instances := MakeInstances(entries);
  }

  lemma {:induction false} Untagged(entries: seq<Entry>)
    ensures Matching(entries, []) == entries
  {
    if |entries| > 0 { Untagged(entries[..|entries| - 1]); }
  }
}
