/** sd/lb/round_robin.go: picks endpoints by a ticket counter of 64 bits. */
module RoundRobin {
  import opened Discovery

  const WORD := 0x1_0000_0000_0000_0000

  /** What the endpointer answers. */
  datatype Offer<T> = Offered(endpoints: seq<T>) | Unreachable(err: Error)

  datatype Pick<T> = Picked(endpoint: T) | NoPick(err: Error)

  const ERR_NO_ENDPOINTS := Error("no endpoints available")

  class Balancer {
    /** The next ticket. */
    var c: nat

    ghost predicate Valid()
      reads this
    {
      c < WORD
    }

    constructor ()
      ensures Valid() && c == 0
    {
      c := 0;
    }

    /** A ticket is spent only when there is something to pick. */
    method Endpoint<T>(offer: Offer<T>) returns (r: Pick<T>)
      requires Valid()
      modifies this
      ensures Valid()
      ensures match offer
        case Unreachable(err) => r == NoPick(err) && c == old(c)
        case Offered(es) =>
          if |es| == 0 then r == NoPick(ERR_NO_ENDPOINTS) && c == old(c)
          else r == Picked(es[old(c) % |es|]) && c == (if old(c) + 1 == WORD then 0 else old(c) + 1)
    {
      if offer.Unreachable? { return NoPick(offer.err); }
      if |offer.endpoints| <= 0 { return NoPick(ERR_NO_ENDPOINTS); }
      c := (c + 1) % WORD;
      var ticket := (c - 1) % WORD;
      r := Picked(offer.endpoints[ticket % |offer.endpoints|]);
    }
  }

  /** The index of the `i`th pick from ticket `c` on, among `n` endpoints, with a counter that wraps at `word`. */
  function Index(c: nat, i: nat, n: nat, word: nat): (index: nat)
    requires n > 0 && word > 0
    ensures index < n
  {
    (c + i) % word % n
  }

  /** The counter after `i` picks. */
  function After(c: nat, i: nat): nat {
    if i == 0 then c else (After(c, i - 1) + 1) % WORD
  }

  lemma {:induction false} PicksInARow(c: nat, i: nat, n: nat)
    requires c < WORD && n > 0
    ensures After(c, i) == (c + i) % WORD && After(c, i) % n == Index(c, i, n, WORD)
  {
    AfterWraps(c, i);
    Division((c + i) % WORD, WORD, 0, (c + i) % WORD);
  }

  lemma {:induction false} AfterWraps(c: nat, i: nat)
    requires c < WORD
    ensures After(c, i) == (c + i) % WORD
  {
    if i == 0 {
      Division(c, WORD, 0, c);
    } else {
      AfterWraps(c, i - 1);
      NextRemainder(c + i - 1, WORD);
    }
  }

  lemma NextRemainder(x: nat, word: nat)
    requires word > 0
    ensures (x % word + 1) % word == (x + 1) % word
  {
    var q, r := x / word, x % word;
    if r + 1 < word {
      Division(x + 1, word, q, r + 1);
      Division(r + 1, word, 0, r + 1);
    } else {
      assert (q + 1) * word == q * word + word;
      Division(x + 1, word, q + 1, 0);
      Division(r + 1, word, 1, 0);
    }
  }

  /** How many of the first `k` picks from ticket `c` on are index `j`. */
  function Times(c: nat, k: nat, n: nat, word: nat, j: nat): nat
    requires n > 0 && word > 0
  {
    if k == 0 then 0 else Times(c, k - 1, n, word, j) + if Index(c, k - 1, n, word) == j then 1 else 0
  }

  /** Tickets below `x` that fall on `j`. */
  function Falls(x: nat, n: nat, j: nat): nat
    requires n > 0
  {
    x / n + if j < x % n then 1 else 0
  }

  lemma Division(x: nat, n: nat, q: nat, r: nat)
    requires r < n && x == q * n + r
    ensures x / n == q && x % n == r
  {
    var d := x / n - q;
    assert d * n == r - x % n by {
      assert x == x / n * n + x % n;
      assert (x / n - q) * n == x / n * n - q * n;
    }
  }

  lemma FallsNext(x: nat, n: nat, j: nat)
    requires j < n
    ensures Falls(x + 1, n, j) == Falls(x, n, j) + if x % n == j then 1 else 0
  {
    var q, r := x / n, x % n;
    assert x == q * n + r;
    if r + 1 < n {
      Division(x + 1, n, q, r + 1);
    } else {
      assert (q + 1) * n == q * n + n;
      Division(x + 1, n, q + 1, 0);
    }
  }

  lemma {:induction false} TimesIsFalls(c: nat, k: nat, n: nat, word: nat, j: nat)
    requires j < n && c + k <= word && word > 0
    ensures Times(c, k, n, word, j) == Falls(c + k, n, j) - Falls(c, n, j)
  {
    if k > 0 {
      TimesIsFalls(c, k - 1, n, word, j);
      FallsNext(c + k - 1, n, j);
      Division(c + k - 1, word, 0, c + k - 1);
    }
  }

  /** Fairness: as long as the counter does not wrap, `k` picks in a row take each index `k / n` times, rounded down
      or up. */
  lemma {:induction false} Fair(c: nat, k: nat, n: nat, j: nat)
    requires j < n && c + k <= WORD
    ensures k / n <= Times(c, k, n, WORD, j) <= (k + n - 1) / n
  {
    TimesIsFalls(c, k, n, WORD, j);
    FallsDiffer(c, k, n, j);
  }

  lemma FallsDiffer(c: nat, k: nat, n: nat, j: nat)
    requires j < n
    ensures k / n <= Falls(c + k, n, j) - Falls(c, n, j) <= (k + n - 1) / n
  {
    var q, r, p, s := (c + k) / n, (c + k) % n, c / n, c % n;
    assert (q - p) * n == q * n - p * n;
    Rounds(k, n, q - p, r - s);
  }

  lemma Rounds(k: nat, n: nat, q: int, r: int)
    requires 0 < n + r && r < n && k == q * n + r
    ensures k / n == if r < 0 then q - 1 else q
    ensures (k + n - 1) / n == if r > 0 then q + 1 else q
  {
    Whole(n, q);
    if r < 0 {
      Whole(n, q - 1);
      Division(k, n, q - 1, n + r);
      Division(k + n - 1, n, q, n + r - 1);
    } else if r == 0 {
      Division(k, n, q, 0);
      Division(k + n - 1, n, q, n - 1);
    } else {
      Division(k, n, q, r);
      Division(k + n - 1, n, q + 1, r - 1);
    }
  }

  lemma Whole(n: int, q: int)
    requires n > 0
    ensures (q + 1) * n == q * n + n
    ensures q * n + n > 0 ==> q >= 0
  {
    if q < 0 {
      Product(-q - 1, n);
      assert (-q - 1) * n == -(q * n) - n;
    }
  }

  lemma Product(x: int, y: int)
    requires x >= 0 && y >= 0
    ensures x * y >= 0
  {
  }

  /** Whether some `n` picks in a row, from ticket `c` on, take every index once. */
  ghost predicate Rounded(c: nat, n: nat, word: nat)
    requires n > 0 && word > 0
  {
    forall j :: 0 <= j < n ==> Times(c, n, n, word, j) == 1
  }

  /** Wherever the counter stands, wrapping included, the next `n` picks take every index once: exactly if `n`
      divides the counter's range. */
  lemma {:induction false} RoundsExactly(n: nat, word: nat)
    requires 0 < n <= word
    ensures (forall c :: 0 <= c < word ==> Rounded(c, n, word)) <==> word % n == 0
  {
    if word % n == 0 {
      forall c | 0 <= c < word ensures Rounded(c, n, word) { AlwaysRounded(c, n, word); }
    } else {
      WrapSkips(n, word);
      assert !Rounded(word - word % n, n, word);
    }
  }

  /** The counter of the balancer: the picks stay fair across the wrap exactly if `n` divides 2^64. */
  lemma {:induction false} FairAcrossTheWrapExactly(n: nat)
    requires 0 < n <= WORD
    ensures (forall c :: 0 <= c < WORD ==> Rounded(c, n, WORD)) <==> WORD % n == 0
  {
    RoundsExactly(n, WORD);
  }

  lemma {:induction false} AlwaysRounded(c: nat, n: nat, word: nat)
    requires 0 < n && 0 < word && word % n == 0
    ensures Rounded(c, n, word)
  {
    forall j | 0 <= j < n ensures Times(c, n, n, word, j) == 1 {
      TimesUnwrapped(c, n, n, word, j);
      FallsDiffer(c, n, n, j);
      Division(n, n, 1, 0);
      Division(n + n - 1, n, 1, n - 1);
    }
  }

  lemma {:induction false} TimesUnwrapped(c: nat, k: nat, n: nat, word: nat, j: nat)
    requires j < n && 0 < word && word % n == 0
    ensures Times(c, k, n, word, j) == Falls(c + k, n, j) - Falls(c, n, j)
  {
    if k > 0 {
      TimesUnwrapped(c, k - 1, n, word, j);
      FallsNext(c + k - 1, n, j);
      ModMod(c + k - 1, n, word);
    }
  }

  lemma ModMod(x: nat, n: nat, word: nat)
    requires 0 < n && 0 < word && word % n == 0
    ensures x % word % n == x % n
  {
    var a, b, y := x / word, word / n, x % word;
    Regroup(a, b, y / n, n);
    Product(a, b);
    Division(x, n, a * b + y / n, y % n);
  }

  lemma Regroup(a: int, b: int, c: int, n: int)
    ensures (a * b + c) * n == a * (b * n) + c * n
  {
    assert (a * b + c) * n == (a * b) * n + c * n;
    assert (a * b) * n == a * (b * n);
  }

  /** When the counter wraps in the middle of a round, the last index is left out. */
  lemma {:induction false} WrapSkips(n: nat, word: nat)
    requires 0 < n <= word && word % n != 0
    ensures Times(word - word % n, n, n, word, n - 1) == 0
  {
    WrapMisses(n, n, word);
  }

  lemma {:induction false} WrapMisses(k: nat, n: nat, word: nat)
    requires 0 < n <= word && word % n != 0 && k <= n
    ensures Times(word - word % n, k, n, word, n - 1) == 0
  {
    if k > 0 {
      WrapMisses(k - 1, n, word);
      MissedAt(k - 1, n, word / n, word % n, word);
    }
  }

  lemma MissedAt(i: nat, n: nat, q: nat, r: nat, word: nat)
    requires i < n <= word && 0 < r < n && word == q * n + r
    ensures Index(word - r, i, n, word) != n - 1
  {
    if i < r {
      Division(q * n + i, word, 0, q * n + i);
      Division(q * n + i, n, q, i);
    } else {
      Division(word + i - r, word, 1, i - r);
      Division(i - r, n, 0, i - r);
    }
  }
}
