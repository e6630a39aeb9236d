/** The 7-day moving window shared by plotData and plotVaccinationsForURL:
    a list of seven slots, initially zero, overwritten at a rotating index,
    whose sum divided by seven is emitted every day.

    Slots(s, n) and Index(n) give the slots and the index after the first n
    values of s were written, exactly as the scripts update them. The
    specification they are proved against is Trailing(s, n): the last seven
    values written, oldest first, padded with zeros in front while fewer
    than seven have been written. */
module Window {

  const WINDOW_SIZE: nat := 7

  function Sum(s: seq<int>): int {
    if s == [] then 0 else Sum(s[..|s| - 1]) + s[|s| - 1]
  }

  lemma {:induction false} SumConcat(a: seq<int>, b: seq<int>)
    ensures Sum(a + b) == Sum(a) + Sum(b)
    decreases |b|
  {
    if b != [] {
      assert (a + b)[..|a + b| - 1] == a + b[..|b| - 1];
      SumConcat(a, b[..|b| - 1]);
    } else {
      assert a + b == a;
    }
  }

  function Zeros(n: nat): (z: seq<int>)
    ensures |z| == n && forall i :: 0 <= i < n ==> z[i] == 0
  {
    seq(n, _ => 0)
  }

  lemma {:induction false} SumZeros(n: nat)
    ensures Sum(Zeros(n)) == 0
  {
    if n > 0 {
      assert Zeros(n)[..n - 1] == Zeros(n - 1);
      SumZeros(n - 1);
    }
  }

  /** The window ending after the first n values of s were written: the
      last seven of them, oldest first, zero-padded in front while fewer
      than seven have been written. */
  function Trailing(s: seq<int>, n: nat): (t: seq<int>)
    requires n <= |s|
    ensures |t| == WINDOW_SIZE
  {
    seq(WINDOW_SIZE, j requires 0 <= j < WINDOW_SIZE =>
      if n + j >= WINDOW_SIZE then s[n + j - WINDOW_SIZE] else 0)
  }

  /** Writing one more value drops the oldest and appends the new one. */
  lemma TrailingAppend(s: seq<int>, n: nat)
    requires n < |s|
    ensures Trailing(s, n + 1) == Trailing(s, n)[1..] + [s[n]]
  {
  }

  /** The window sum is the sum of the last seven values written, or of all
      of them while fewer than seven have been written. */
  lemma SumTrailing(s: seq<int>, n: nat)
    requires n <= |s|
    ensures n >= WINDOW_SIZE ==> Sum(Trailing(s, n)) == Sum(s[n - WINDOW_SIZE..n])
    ensures n < WINDOW_SIZE ==> Sum(Trailing(s, n)) == Sum(s[..n])
  {
    if n < WINDOW_SIZE {
      assert Trailing(s, n) == Zeros(WINDOW_SIZE - n) + s[..n];
      SumConcat(Zeros(WINDOW_SIZE - n), s[..n]);
      SumZeros(WINDOW_SIZE - n);
    } else {
      assert Trailing(s, n) == s[n - WINDOW_SIZE..n];
    }
  }

  /** The successor of a window index: `0 if index == windowSize - 1 else index + 1`. */
  function NextIndex(index: nat): (next: nat)
    requires index < WINDOW_SIZE
    ensures next < WINDOW_SIZE && next == (index + 1) % WINDOW_SIZE
  {
    if index == WINDOW_SIZE - 1 then 0 else index + 1
  }

  /** The slot the next value goes to after n values were written, the
      first of them at slot 0. */
  function Index(n: nat): (index: nat)
    ensures index < WINDOW_SIZE
  {
    if n == 0 then 0 else NextIndex(Index(n - 1))
  }

  /** The contents of the seven slots after the first n values of s were
      written one by one, each at the then current index. */
  function Slots(s: seq<int>, n: nat): (w: seq<int>)
    requires n <= |s|
    ensures |w| == WINDOW_SIZE
  {
    if n == 0 then Zeros(WINDOW_SIZE)
    else Slots(s, n - 1)[Index(n - 1) := s[n - 1]]
  }

  /** The index advances cyclically: after n values it is n mod 7. */
  lemma {:induction false} IndexIsCount(n: nat)
    ensures Index(n) == n % WINDOW_SIZE
  {
    if n > 0 {
      IndexIsCount(n - 1);
    }
  }

  /** Read from the slot about to be overwritten round to the one last
      written, the slots hold the trailing window of the values written. */
  lemma {:induction false} SlotsRotated(s: seq<int>, n: nat)
    requires n <= |s|
    ensures Slots(s, n)[Index(n)..] + Slots(s, n)[..Index(n)] == Trailing(s, n)
  {
    if n == 0 {
      assert Slots(s, n)[0..] + Slots(s, n)[..0] == Zeros(WINDOW_SIZE);
    } else {
      SlotsRotated(s, n - 1);
      TrailingAppend(s, n - 1);
      var w, index := Slots(s, n - 1), Index(n - 1);
      var w', next := Slots(s, n), Index(n);
      if index == WINDOW_SIZE - 1 {
        assert w[index..] == [w[index]];
        assert w' == w[..index] + [s[n - 1]];
        assert w'[next..] + w'[..next] == w';
      } else {
        assert w[index..][1..] == w[next..];
        assert w'[next..] + w'[..next] == w[next..] + w[..index] + [s[n - 1]];
      }
    }
  }

  /** The slots add up to the trailing window: sum(window) is the sum of the
      last seven values written, whatever slot each of them sits in. */
  lemma SumSlots(s: seq<int>, n: nat)
    requires n <= |s|
    ensures Sum(Slots(s, n)) == Sum(Trailing(s, n))
  {
    var w, index := Slots(s, n), Index(n);
    SlotsRotated(s, n);
    assert w[..index] + w[index..] == w;
    SumConcat(w[..index], w[index..]);
    SumConcat(w[index..], w[..index]);
  }

  /** `7 * [0]`: a fresh window of seven zero slots, as no value has been
      written yet. */
  method NewWindow() returns (window: array<int>)
    ensures fresh(window) && window[..] == Slots([], 0)
  {
    window := new int[WINDOW_SIZE](_ => 0);
    assert window[..] == Zeros(WINDOW_SIZE);
  }

  /** One day's work on one window: `window[index] = x` followed by
      `sum(window) / len(window)`, where x is the n-th value of s. The
      result is the average of the trailing window including x: the next
      element of the series of averages. */
  method WriteSlot(window: array<int>, index: nat, x: int, ghost s: seq<int>, ghost n: nat) returns (average: real)
    requires n < |s| && x == s[n]
    requires window[..] == Slots(s, n) && index == Index(n)
    modifies window
    ensures window[..] == Slots(s, n + 1)
    ensures average == Average(s, n + 1)
  {
    window[index] := x;
    SumSlots(s, n + 1);
    average := Sum(window[..]) as real / window.Length as real;
  }

  /** What the scripts emit each day: sum(window) / len(window), once the
      first n values of s are written. */
  function Average(s: seq<int>, n: nat): real
    requires n <= |s|
  {
    Sum(Trailing(s, n)) as real / WINDOW_SIZE as real
  }

  /** The series of daily averages emitted while the first n values of s
      are written one by one: one average per value, in order. */
  function Averages(s: seq<int>, n: nat): (r: seq<real>)
    requires n <= |s|
    ensures |r| == n
  {
    if n == 0 then [] else Averages(s, n - 1) + [Average(s, n)]
  }

  /** The k-th emitted average is the average of the window after the k-th
      value was written. */
  lemma {:induction false} AveragesAt(s: seq<int>, n: nat, k: nat)
    requires k < n <= |s|
    ensures Averages(s, n)[k] == Average(s, k + 1)
  {
    if k < n - 1 {
      AveragesAt(s, n - 1, k);
    }
  }

  /** Day-over-day differences of a cumulative series, with the previous
      cumulative value taken as 0 before the first day. */
  function Deltas(cum: seq<int>): (d: seq<int>)
    ensures |d| == |cum|
  {
    seq(|cum|, i requires 0 <= i < |cum| => cum[i] - (if i == 0 then 0 else cum[i - 1]))
  }

  /** The deltas of days lo..hi-1 add up to the growth of the cumulative
      value over those days. */
  lemma {:induction false} SumDeltasRange(cum: seq<int>, lo: nat, hi: nat)
    requires lo < hi <= |cum|
    ensures Sum(Deltas(cum)[lo..hi]) == cum[hi - 1] - (if lo == 0 then 0 else cum[lo - 1])
    decreases hi - lo
  {
    if hi - 1 > lo {
      assert Deltas(cum)[lo..hi] == Deltas(cum)[lo..hi - 1] + [Deltas(cum)[hi - 1]];
      SumDeltasRange(cum, lo, hi - 1);
    } else {
      assert Deltas(cum)[lo..hi] == [] + [Deltas(cum)[lo]];
    }
  }

  /** Summing the deltas of the first k+1 days gives back the cumulative
      value of day k: Deltas is inverted by running sums. */
  lemma DeltasRecover(cum: seq<int>, k: nat)
    requires k < |cum|
    ensures Sum(Deltas(cum)[..k + 1]) == cum[k]
  {
    assert Deltas(cum)[..k + 1] == Deltas(cum)[0..k + 1];
    SumDeltasRange(cum, 0, k + 1);
  }

  /** The window after day k holds the last seven deltas, so its sum
      telescopes to cum[k] - cum[k-7], or to cum[k] during the first seven days. */
  lemma WindowTelescopes(cum: seq<int>, k: nat)
    requires k < |cum|
    ensures Sum(Trailing(Deltas(cum), k + 1)) == cum[k] - (if k >= WINDOW_SIZE then cum[k - WINDOW_SIZE] else 0)
  {
    SumTrailing(Deltas(cum), k + 1);
    if k + 1 >= WINDOW_SIZE {
      SumDeltasRange(cum, k + 1 - WINDOW_SIZE, k + 1);
    } else {
      DeltasRecover(cum, k);
    }
  }

  /** The emitted average of a cumulative series: during warm-up (the first
      seven days) it is cum[k] / 7, divided by 7 and not by the number of days
      seen; afterwards it is the 7-day growth divided by 7. */
  lemma AverageOfCumulative(cum: seq<int>, k: nat)
    requires k < |cum|
    ensures k < WINDOW_SIZE ==> Average(Deltas(cum), k + 1) == cum[k] as real / 7.0
    ensures k >= WINDOW_SIZE ==> Average(Deltas(cum), k + 1) == (cum[k] - cum[k - WINDOW_SIZE]) as real / 7.0
  {
    WindowTelescopes(cum, k);
  }

  /** A series of changes averaged during warm-up: the sum of the changes so
      far divided by 7. */
  lemma WarmUpAverage(s: seq<int>, k: nat)
    requires k < |s| && k < WINDOW_SIZE
    ensures Average(s, k + 1) == Sum(s[..k + 1]) as real / 7.0
  {
    SumTrailing(s, k + 1);
  }
}
