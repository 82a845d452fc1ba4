/** sd/lb/retry.go: try endpoint after endpoint until one answers, the callback gives up, or the context is done. */
module Retry {
  import opened Discovery
  import opened RoundRobin

  /** What the loop receives while it waits for an attempt. */
  datatype Arrival<R> = Done(err: Error) | Responded(response: R) | Failed(err: Error)

  /** Given the attempt's number and its error: whether to keep trying, and an error to replace it. */
  type Callback = (nat, Error) -> (bool, Option<Error>)

  /** `Pending`: nothing more has arrived. */
  datatype Outcome<R> = Pending | Cancelled(err: Error) | Answered(response: R) | GaveUp(raw: seq<Error>, final: Error)

  function MaxRetries(max: int): Callback {
    (n, err) => (n < max, None)
  }

  function AlwaysRetry(): Callback {
    (n, err) => (true, None)
  }

  function Effective(callback: Option<Callback>): Callback {
    if callback == None then AlwaysRetry() else callback.value
  }

  function Verdict(cb: Callback, n: nat, received: Error): (bool, Option<Error>) {
    cb(n, received)
  }

  predicate Continues<R>(a: Arrival<R>, cb: Callback, n: nat) {
    a.Failed? && Verdict(cb, n, a.err).0
  }

  function Replaced(err: Error, replacement: Option<Error>): Error {
    if replacement == None then err else replacement.value
  }

  /** `raw` lists the errors of the arrivals in order. */
  predicate Lists<R>(raw: seq<Error>, arrivals: seq<Arrival<R>>) {
    |raw| == |arrivals| && forall i :: 0 <= i < |raw| ==> arrivals[i].Failed? && raw[i] == arrivals[i].err
  }

  /** The first `k` arrivals lead to outcome `o`: all but the last are failures the callback accepts. */
  ghost predicate Ends<R>(arrivals: seq<Arrival<R>>, cb: Callback, k: nat, o: Outcome<R>) {
    && k <= |arrivals|
    && (forall i :: 0 <= i < k - 1 ==> Continues(arrivals[i], cb, i + 1))
    && (o.Pending? ==> k == |arrivals| && (k > 0 ==> Continues(arrivals[k - 1], cb, k)))
    && (!o.Pending? ==>
          && k > 0
          && match arrivals[k - 1]
             case Done(err) => o == Cancelled(err)
             case Responded(response) => o == Answered(response)
             case Failed(err) =>
               !Verdict(cb, k, err).0 && o.GaveUp? && Lists(o.raw, arrivals[..k]) &&
               o.final == Replaced(err, Verdict(cb, k, err).1))
  }

  method RetryWithCallback<R>(arrivals: seq<Arrival<R>>, callback: Option<Callback>)
    returns (o: Outcome<R>, k: nat)
    ensures Ends(arrivals, Effective(callback), k, o)
  {
    var cb := if callback == None then AlwaysRetry() else callback.value;
    var raw: seq<Error> := [];
    var i := 1;
    while i <= |arrivals|
      invariant 1 <= i <= |arrivals| + 1
      invariant forall j :: 0 <= j < i - 1 ==> Continues(arrivals[j], cb, j + 1)
      invariant Lists(raw, arrivals[..i - 1])
    {
      match arrivals[i - 1]
      case Done(err) => return Cancelled(err), i;
      case Responded(response) => return Answered(response), i;
      case Failed(received) =>
        var err := received;
        raw := raw + [err];
        var verdict := Verdict(cb, i, err);
        if verdict.1 != None { err := verdict.1.value; }
        if !verdict.0 { return GaveUp(raw, err), i; }
        i := i + 1;
    }
    return Pending, i - 1;
  }

  /** What arrives decides the outcome, and when it is reached. */
  lemma {:induction false} EndsOnce<R>(arrivals: seq<Arrival<R>>, cb: Callback, k: nat, o: Outcome<R>,
                                       l: nat, p: Outcome<R>)
    requires Ends(arrivals, cb, k, o) && Ends(arrivals, cb, l, p)
    ensures k == l && o == p
  {
  }

  /** Only a callback makes the loop give up: it accepts every error before the last and says no to the last, which is
      reported as it came unless the callback gave another for it. Without one, failures go on being retried. */
  lemma {:induction false} GivesUpExactly<R>(arrivals: seq<Arrival<R>>, callback: Option<Callback>, k: nat, o: Outcome<R>)
    requires Ends(arrivals, Effective(callback), k, o)
    ensures forall i :: 0 <= i < k - 1 ==>
              arrivals[i].Failed? && (callback.Some? ==> callback.value(i + 1, arrivals[i].err).0)
    ensures o.GaveUp? ==>
              && callback.Some? && k > 0 && arrivals[k - 1].Failed?
              && var (goOn, other) := callback.value(k, arrivals[k - 1].err);
                 !goOn && o.final == (if other.Some? then other.value else arrivals[k - 1].err)
    ensures k > 0 && arrivals[k - 1].Failed? && !o.GaveUp? && callback.Some? ==> callback.value(k, arrivals[k - 1].err).0
  {
    forall i | 0 <= i < k - 1 ensures arrivals[i].Failed? && Verdict(Effective(callback), i + 1, arrivals[i].err).0 {
      assert Continues(arrivals[i], Effective(callback), i + 1);
    }
  }

  /** The attempts `Retry(max, ...)` may make. */
  function Attempts(max: int): nat {
    if max < 1 then 1 else max
  }

  lemma AttemptsAreBounded<R>(arrivals: seq<Arrival<R>>, max: int, k: nat, o: Outcome<R>)
    requires Ends(arrivals, MaxRetries(max), k, o)
    ensures k <= Attempts(max)
    ensures 0 < k < Attempts(max) && k < |arrivals| ==> !arrivals[k - 1].Failed?
    ensures forall i :: 0 <= i < k - 1 ==> arrivals[i].Failed?
  {
    assert Attempts(max) < k ==> Continues(arrivals[Attempts(max) - 1], MaxRetries(max), Attempts(max));
  }

  /** Total failure: exactly max(1, max) attempts, all their errors in order, the last one final. */
  lemma {:induction false} TotalFailure<R>(arrivals: seq<Arrival<R>>, max: int, k: nat, o: Outcome<R>)
    requires |arrivals| >= Attempts(max) && Ends(arrivals, MaxRetries(max), k, o)
    requires forall i :: 0 <= i < Attempts(max) ==> arrivals[i].Failed?
    ensures k == (if max > 1 then max else 1) && o.GaveUp?
    ensures Lists(o.raw, arrivals[..k]) && o.final == arrivals[k - 1].err
  {
    AttemptsAreBounded(arrivals, max, k, o);
  }

  /** Undisturbed by its context, `Retry` succeeds exactly if one of its attempts does, with the first answer. */
  lemma {:induction false} SucceedsExactly<R>(arrivals: seq<Arrival<R>>, max: int, k: nat, o: Outcome<R>)
    requires |arrivals| >= Attempts(max) && Ends(arrivals, MaxRetries(max), k, o)
    requires forall i :: 0 <= i < Attempts(max) ==> !arrivals[i].Done?
    ensures o.Answered? <==> exists i :: 0 <= i < Attempts(max) && arrivals[i].Responded?
    ensures o.Answered? ==> k > 0 && arrivals[k - 1] == Responded(o.response)
    ensures forall i :: 0 <= i < k - 1 ==> !arrivals[i].Responded?
  {
    AttemptsAreBounded(arrivals, max, k, o);
  }

  /** Each attempt goes to the endpoint the balancer picks next from ticket `c` on; endpoint `healthy` always
      answers. */
  ghost predicate Served<R>(arrivals: seq<Arrival<R>>, c: nat, n: nat, healthy: nat)
    requires n > 0
  {
    forall i :: 0 <= i < |arrivals| ==>
      !arrivals[i].Done? && (Index(c, i, n, WORD) == healthy ==> arrivals[i].Responded?)
  }

  /** With one healthy endpoint among `n`, at least `n` attempts and no other callers, `Retry` succeeds within `n`. */
  lemma {:induction false} OneHealthyIsEnough<R>(arrivals: seq<Arrival<R>>, max: int, c: nat, n: nat, healthy: nat,
                                                 k: nat, o: Outcome<R>)
    requires healthy < n <= Attempts(max) <= |arrivals| && (c + n <= WORD || WORD % n == 0)
    requires Served(arrivals, c, n, healthy) && Ends(arrivals, MaxRetries(max), k, o)
    ensures o.Answered? && k <= n
  {
    if c + n <= WORD {
      Fair(c, n, n, healthy);
      Division(n, n, 1, 0);
    } else {
      AlwaysRounded(c, n, WORD);
    }
    var i := Occurs(c, n, n, WORD, healthy);
    SucceedsExactly(arrivals, max, k, o);
    assert arrivals[i].Responded?;
  }

  lemma {:induction false} Occurs(c: nat, k: nat, n: nat, word: nat, j: nat) returns (i: nat)
    requires n > 0 && word > 0 && Times(c, k, n, word, j) > 0
    ensures i < k && Index(c, i, n, word) == j
  {
    i := k - 1;
    if Index(c, i, n, word) != j { i := Occurs(c, k - 1, n, word, j); }
  }

  /** With fewer attempts, some ticket misses the healthy endpoint every time. */
  lemma FewerMayMiss(n: nat, healthy: nat, attempts: nat) returns (c: nat)
    requires healthy < n <= WORD && attempts < n
    ensures c < n && forall i :: 0 <= i < attempts && c + i < WORD ==> Index(c, i, n, WORD) != healthy
  {
    c := if healthy + 1 < n then healthy + 1 else 0;
    forall i | 0 <= i < attempts && c + i < WORD ensures Index(c, i, n, WORD) != healthy {
      Division(c + i, WORD, 0, c + i);
      if c + i < n { Division(c + i, n, 0, c + i); } else { Division(c + i, n, 1, c + i - n); }
    }
  }
}
