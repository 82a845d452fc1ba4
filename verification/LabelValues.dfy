/** metrics/internal/lv/labelvalues.go, and the series that a label list names. */
module LabelValues {

  datatype Pair = Pair(key: string, value: string)

  /** A time series: a metric name, then label pairs one below the other. Order matters. */
  datatype Series = Named(name: string) | At(parent: Series, pair: Pair)

  /** The series that `labels` names, starting from `k`; a trailing odd label is left over. */
  function Target(k: Series, labels: seq<string>): Series
    decreases |labels|
  {
    if |labels| < 2 then k else Target(At(k, Pair(labels[0], labels[1])), labels[2..])
  }

  predicate Odd(labels: seq<string>) {
    if |labels| < 2 then |labels| == 1 else Odd(labels[2..])
  }

  lemma {:induction false} OddByLength(labels: seq<string>)
    ensures Odd(labels) <==> |labels| % 2 == 1
  {
    if |labels| >= 2 { OddByLength(labels[2..]); }
  }

  function Name(k: Series): string {
    match k case Named(name) => name case At(parent, _) => Name(parent)
  }

  /** The full label list of a series, root first. */
  function Labels(k: Series): seq<string> {
    match k case Named(_) => [] case At(parent, pair) => Labels(parent) + [pair.key, pair.value]
  }

  /** Reading a series' labels from its name leads back to it: no two series share name and labels. */
  lemma {:induction false} TargetOfLabels(k: Series)
    ensures Target(Named(Name(k)), Labels(k)) == k && |Labels(k)| % 2 == 0
  {
    if k.At? {
      TargetOfLabels(k.parent);
      TargetOfAppend(Named(Name(k)), Labels(k.parent), [k.pair.key, k.pair.value]);
    }
  }

  lemma {:induction false} TargetOfAppend(k: Series, labels: seq<string>, more: seq<string>)
    requires |labels| % 2 == 0
    ensures Target(k, labels + more) == Target(Target(k, labels), more)
    decreases |labels|
  {
    if |labels| == 0 {
      assert labels + more == more;
    } else {
      assert (labels + more)[2..] == labels[2..] + more;
      TargetOfAppend(At(k, Pair(labels[0], labels[1])), labels[2..], more);
    }
  }

  function Padded(labels: seq<string>): seq<string> {
    if Odd(labels) then labels + ["unknown"] else labels
  }

  /** `lvs.With(more...)`: a missing last value becomes "unknown", so that an even list stays even
      and names the series reached by going on from the one it named before. */
  method With(lvs: seq<string>, more: seq<string>) returns (all: seq<string>)
    ensures all == lvs + Padded(more) && (|lvs| % 2 == 0 ==> |all| % 2 == 0)
    ensures all == if |more| % 2 == 0 then lvs + more else lvs + more + ["unknown"]
    ensures |lvs| % 2 == 0 ==> forall k :: Target(k, all) == Target(Target(k, lvs), Padded(more))
  {
    OddByLength(more);
    var labelValues := more;
    if |labelValues| % 2 != 0 { labelValues := labelValues + ["unknown"]; }
    if |lvs| % 2 == 0 {
      forall k ensures Target(k, lvs + labelValues) == Target(Target(k, lvs), labelValues) {
        TargetOfAppend(k, lvs, labelValues);
      }
    }
    return lvs + labelValues;
  }

  /* ---------- the same on slices ---------- */

  /** Go's `append(lvs, more...)` on the slice made of the first `len` cells of `buf`: with room to spare it writes
      into the shared storage, otherwise it moves to a larger array, of whatever size the runtime picks. */
  method Append(buf: array<string>, len: nat, more: seq<string>) returns (grown: array<string>)
    requires len <= buf.Length
    modifies buf
    ensures if len + |more| <= buf.Length then grown == buf else fresh(grown) && buf[..] == old(buf[..])
    ensures grown == buf ==> forall i :: len + |more| <= i < buf.Length ==> buf[i] == old(buf[i])
    ensures buf[..len] == old(buf[..len])
    ensures len + |more| <= grown.Length && grown[..len + |more|] == old(buf[..len]) + more
  {
    grown := buf;
    if buf.Length < len + |more| { grown := Grow(buf, len, len + |more|); }
    CopyIn(grown, len, more);
  }

  /** A new array of at least `least` cells that begins with the first `len` of `buf`. */
  method Grow(buf: array<string>, len: nat, least: nat) returns (grown: array<string>)
    requires len <= buf.Length < least
    ensures fresh(grown) && least <= grown.Length && grown[..len] == buf[..len]
  {
    assert least >= least;
    var room: nat :| room >= least;
    grown := new string[room](i reads buf => if 0 <= i < len && i < buf.Length then buf[i] else "");
  }

  /** Writes `more` from cell `len` on and nothing else. */
  method CopyIn(a: array<string>, len: nat, more: seq<string>)
    requires len + |more| <= a.Length
    modifies a
    ensures a[..len + |more|] == old(a[..len]) + more
    ensures forall i :: len + |more| <= i < a.Length ==> a[i] == old(a[i])
  {
    for i := 0 to |more|
      invariant forall j :: 0 <= j < i ==> a[len + j] == more[j]
      invariant forall j :: 0 <= j < len || len + |more| <= j < a.Length ==> a[j] == old(a[j])
    {
      a[len + i] := more[i];
    }
  }

  method WithOnSlice(buf: array<string>, len: nat, more: seq<string>) returns (all: array<string>, n: nat)
    requires len <= buf.Length
    modifies buf
    ensures n == len + |Padded(more)|
    ensures if n <= buf.Length then all == buf else fresh(all) && buf[..] == old(buf[..])
    ensures all == buf ==> forall i :: n <= i < buf.Length ==> buf[i] == old(buf[i])
    ensures buf[..len] == old(buf[..len])
    ensures n <= all.Length && all[..n] == old(buf[..len]) + Padded(more)
  {
    OddByLength(more);
    var labelValues := more;
    if |labelValues| % 2 != 0 { labelValues := labelValues + ["unknown"]; }
    n := len + |labelValues|;
    all := Append(buf, len, labelValues);
  }

  /** Whether making a second list from a parent with `room` spare cells leaves the first one alone. */
  predicate Spared(room: nat, first: seq<string>, second: seq<string>) {
    || |first| > room
    || |second| > room
    || forall i :: 0 <= i < |first| && i < |second| ==> first[i] == second[i]
  }

  /** Two lists made from one parent, one after the other: the second is always right; the first still is exactly if
      one of them had to move, or they agree as far as both go. */
  method Siblings(parent: array<string>, len: nat, x: seq<string>, y: seq<string>)
    returns (a: array<string>, b: array<string>, n: nat, m: nat)
    requires len <= parent.Length
    modifies parent
    ensures n == len + |Padded(x)| <= a.Length && m == len + |Padded(y)| <= b.Length
    ensures b[..m] == old(parent[..len]) + Padded(y)
    ensures a[..n] == old(parent[..len]) + Padded(x) <==> Spared(parent.Length - len, Padded(x), Padded(y))
  {
    a, n := WithOnSlice(parent, len, x);
    ghost var was := a[..n];
    b, m := WithOnSlice(parent, len, y);
    ghost var now, second := a[..n], b[..m];
    if a == b {
      assert forall i :: 0 <= i < n ==> now[i] == if len <= i < m then second[i] else was[i];
      Overwritten(old(parent[..len]), Padded(x), Padded(y), now);
    } else {
      assert now == was;
    }
  }

  lemma Overwritten(prefix: seq<string>, x: seq<string>, y: seq<string>, now: seq<string>)
    requires |now| == |prefix| + |x|
    requires forall i :: 0 <= i < |now| ==>
      now[i] == if |prefix| <= i < |prefix| + |y| then y[i - |prefix|] else (prefix + x)[i]
    ensures now == prefix + x <==> forall i :: 0 <= i < |x| && i < |y| ==> x[i] == y[i]
  {
    if now == prefix + x {
      forall i | 0 <= i < |x| && i < |y| ensures x[i] == y[i] { assert now[|prefix| + i] == (prefix + x)[|prefix| + i]; }
    }
  }

  /** A parent without labels but with room for two: the second list made from it takes over the first one's cells. */
  method OverwrittenSibling() returns (first: seq<string>, second: seq<string>)
    ensures first == second == ["b", "2"]
  {
    var parent := new string[2](_ => "");
    var x, y := ["a", "1"], ["b", "2"];
    assert !Odd(x) && !Odd(y);
    var a, n := WithOnSlice(parent, 0, x);
    var b, m := WithOnSlice(parent, 0, y);
    first, second := a[..n], b[..m];
  }
}
