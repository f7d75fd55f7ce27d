/** The rolling-average noise filter applied to the ultrasonic channel of a
    sweep (`updateBuffer`, `mean`, `rollingAverageFilter`). */
module Filter {
  import opened Ints
  import opened Scan

  /** `BUFFER_SIZE`: capacity of the filter's window buffer. */
  const BUFFER_SIZE: nat := 10

  /** Sum of a sequence of bytes, as a mathematical integer. */
  function Sum(s: seq<byte>): nat
  {
    if |s| == 0 then 0 else Sum(s[..|s| - 1]) + s[|s| - 1]
  }

  /** Every element of `s` lies in [lo, hi]. */
  predicate Bounded(s: seq<byte>, lo: int, hi: int)
  {
    forall k :: 0 <= k < |s| ==> lo <= s[k] <= hi
  }

  /** The sum of n values in [lo, hi] lies in [n * lo, n * hi]. */
  lemma {:induction false} SumBounded(s: seq<byte>, lo: int, hi: int)
    requires Bounded(s, lo, hi)
    ensures lo * |s| <= Sum(s) <= hi * |s|
  {
    if |s| > 0 {
      var init := s[..|s| - 1];
      assert Bounded(init, lo, hi) by {
        forall k | 0 <= k < |init| ensures lo <= init[k] <= hi {
          assert init[k] == s[k];
        }
      }
      SumBounded(init, lo, hi);
      MulStep(lo, |init|);
      MulStep(hi, |init|);
    }
  }

  lemma MulStep(a: int, n: nat)
    ensures a * (n + 1) == a * n + a
  {
  }

  /** The truncating integer mean of a non-empty sequence of bytes; it fits
      a byte because the sum of n bytes is at most 255 * n. */
  function MeanOf(s: seq<byte>): byte
    requires |s| > 0
  {
    SumBounded(s, 0, 0xFF);
    Sum(s) / |s|
  }

  /** The mean is the largest m with m * |s| <= Sum(s). */
  lemma MeanIsFloor(s: seq<byte>)
    requires |s| > 0
    ensures MeanOf(s) * |s| <= Sum(s) < (MeanOf(s) + 1) * |s|
  {
  }

  /** Multiplying by a natural number keeps the order. */
  lemma {:induction false} MulMonotone(a: int, b: int, n: nat)
    requires a <= b
    ensures a * n <= b * n
  {
    if n > 0 {
      MulMonotone(a, b, n - 1);
      assert a * n == a * (n - 1) + a;
      assert b * n == b * (n - 1) + b;
    }
  }

  /** A mean never leaves the range of the values it averages. */
  lemma MeanWithin(s: seq<byte>, lo: int, hi: int)
    requires |s| > 0 && Bounded(s, lo, hi)
    ensures lo <= MeanOf(s) <= hi
  {
    SumBounded(s, lo, hi);
    MeanIsFloor(s);
    var m, n := MeanOf(s), |s|;
    assert (hi + 1) * n == hi * n + n;
    if m < lo {
      MulMonotone(m + 1, lo, n);
    }
    if m > hi {
      MulMonotone(hi + 1, m, n);
    }
  }

  /** The ultrasonic channel of a sweep. */
  function Pings(v: seq<Sample>): (p: seq<byte>)
    ensures |p| == |v| && forall k :: 0 <= k < |v| ==> p[k] == v[k].ping
  {
    seq(|v|, k requires 0 <= k < |v| => v[k].ping)
  }

  /** The filtered value at index i of `p` with window size b. Up to N - b
      the window is p[i .. i + b). For the last b indices the buffer is no
      longer advanced: the window keeps starting at N - b and loses one
      element from its right end per index. */
  function WindowMean(p: seq<byte>, b: nat, i: nat): byte
    requires 1 <= b <= |p| && i < |p|
  {
    if i < |p| - b then MeanOf(p[i..i + b])
    else
      var j := i - (|p| - b);
      MeanOf(p[|p| - b..|p| - j])
  }

  /** The whole filtered channel. */
  function Filtered(p: seq<byte>, b: nat): (f: seq<byte>)
    requires 1 <= b <= |p|
    ensures |f| == |p|
  {
    seq(|p|, i requires 0 <= i < |p| => WindowMean(p, b, i))
  }

  /** `updateBuffer`: shift every element one place to the front and put
      `newValue` last, i.e. a FIFO push that drops the oldest value. */
  method UpdateBuffer(buffer: seq<byte>, newValue: byte) returns (r: seq<byte>)
    requires |buffer| >= 1
    ensures |r| == |buffer|
    ensures forall k :: 0 <= k < |buffer| - 1 ==> r[k] == buffer[k + 1]
    ensures r[|buffer| - 1] == newValue
    ensures r == buffer[1..] + [newValue]
  {
    r := buffer;
    var i := 0;
    while i < |buffer| - 1
      invariant 0 <= i <= |buffer| - 1 && |r| == |buffer|
      invariant forall k :: 0 <= k < i ==> r[k] == buffer[k + 1]
      invariant forall k :: i <= k < |buffer| ==> r[k] == buffer[k]
    {
      r := r[i := r[i + 1]];
      i := i + 1;
    }
    r := r[|buffer| - 1 := newValue];
  }

  /** `mean`: the sum is kept in a uint16_t, which cannot wrap for at most
      255 byte values; `length` must be positive, as C division by zero is
      undefined. */
  method Mean(values: seq<byte>, length: byte) returns (m: byte)
    requires 1 <= length <= |values|
    ensures m == MeanOf(values[..length])
  {
    var total: uint16 := 0;
    var i := 0;
    while i < length
      invariant 0 <= i <= length
      invariant total == Sum(values[..i]) <= 0xFF * i
    {
      assert values[..i + 1][..i] == values[..i];
      assert Sum(values[..i + 1]) == Sum(values[..i]) + values[i];
      assert total + values[i] < 0x1_0000;
      total := (total + values[i]) % 0x1_0000;
      i := i + 1;
    }
    assert values[..i] == values[..length];
    assert total / length == MeanOf(values[..length]);
    m := total / length;
  }

  /** `out` differs from `v` at most in the ping of the samples in [lo, hi). */
  ghost predicate PingsChangedOnlyIn(out: seq<Sample>, v: seq<Sample>, lo: int, hi: int)
  {
    && |out| == |v|
    && (forall k :: 0 <= k < |v| ==> out[k].angle == v[k].angle && out[k].ir == v[k].ir)
    && (forall k :: 0 <= k < |v| && !(lo <= k < hi) ==> out[k] == v[k])
  }

  /** First loop of `rollingAverageFilter`: b pushes replace the whole
      buffer with the first b pings. */
  method PrimeBuffer(v: seq<Sample>, b: nat, stale: seq<byte>) returns (buffer: seq<byte>)
    requires 1 <= b <= |v| && b <= |stale|
    ensures buffer == Pings(v)[..b]
  {
    ghost var p := Pings(v);
    buffer := stale[..b];
    var i := 0;
    while i < b
      invariant 0 <= i <= b && |buffer| == b
      invariant buffer == stale[i..b] + p[..i]
    {
      buffer := UpdateBuffer(buffer, v[i].ping);
      assert p[..i + 1] == p[..i] + [p[i]];
      i := i + 1;
    }
  }

  /** Second loop: sample i gets the mean of the buffer, which holds the
      original pings i .. i + b - 1, then the buffer takes in ping i + b,
      which is still unmodified. */
  method SlideWindow(v: seq<Sample>, n: nat, b: nat, buffer0: seq<byte>) returns (out: seq<Sample>, buffer: seq<byte>)
    requires 1 <= b <= n <= |v| && b <= 0xFF
    requires buffer0 == Pings(v)[..b]
    ensures PingsChangedOnlyIn(out, v, 0, n - b)
    ensures forall k :: 0 <= k < n - b ==> out[k].ping == MeanOf(Pings(v)[k..k + b])
    ensures buffer == Pings(v)[n - b..n]
  {
    ghost var p := Pings(v);
    out, buffer := v, buffer0;
    var i := 0;
    while i < n - b
      invariant 0 <= i <= n - b
      invariant buffer == p[i..i + b]
      invariant PingsChangedOnlyIn(out, v, 0, i)
      invariant forall k :: 0 <= k < i ==> out[k].ping == MeanOf(p[k..k + b])
    {
      var m := Mean(buffer, b);
      assert buffer[..b] == p[i..i + b];
      out := out[i := out[i].(ping := m)];
      buffer := UpdateBuffer(buffer, out[i + b].ping);
      assert buffer == p[i + 1..i + 1 + b];
      i := i + 1;
    }
  }

  /** Third loop: the buffer is no longer advanced, and sample n - b + j
      gets the mean of its first b - j elements. */
  method DrainTail(v: seq<Sample>, n: nat, b: nat, buffer: seq<byte>) returns (out: seq<Sample>)
    requires 1 <= b <= n <= |v| && b <= 0xFF && |buffer| == b
    ensures PingsChangedOnlyIn(out, v, n - b, n)
    ensures forall k :: n - b <= k < n ==> out[k].ping == MeanOf(buffer[..b - (k - (n - b))])
  {
    out := v;
    var i, j := n - b, 0;
    while i < n
      invariant n - b <= i <= n && j == i - (n - b)
      invariant PingsChangedOnlyIn(out, v, n - b, i)
      invariant forall k :: n - b <= k < i ==> out[k].ping == MeanOf(buffer[..b - (k - (n - b))])
    {
      var m := Mean(buffer, b - j);
      out := out[i := out[i].(ping := m)];
      i := i + 1;
      j := j + 1;
    }
  }

  /** `rollingAverageFilter`, in place on the first `numValues` samples.
      `stale` is whatever the uninitialised buffer held on entry; it is
      shifted out before it is ever read. The buffer has room for
      `BUFFER_SIZE` values, and the first loop reads `bufferSize` samples,
      hence the bounds on `bufferSize`. */
  method RollingAverageFilter(v: seq<Sample>, numValues: byte, bufferSize: byte, stale: seq<byte>)
    returns (out: seq<Sample>)
    requires 1 <= bufferSize <= BUFFER_SIZE && bufferSize <= numValues <= |v|
    requires |stale| == BUFFER_SIZE
    ensures PingsChangedOnlyIn(out, v, 0, numValues)
    ensures forall i :: 0 <= i < numValues - bufferSize ==>
              out[i].ping == MeanOf(Pings(v)[i..i + bufferSize])
    ensures forall k :: numValues - bufferSize <= k < numValues ==>
              out[k].ping == MeanOf(Pings(v)[numValues - bufferSize..numValues - (k - (numValues - bufferSize))])
    ensures Pings(out)[..numValues] == Filtered(Pings(v)[..numValues], bufferSize)
    ensures numValues as int == |v| ==> out == Smoothed(v, bufferSize)
  {
    ghost var p := Pings(v);
    var n, b := numValues as int, bufferSize as int;
    var buffer := PrimeBuffer(v, b, stale);
    var slid;
    slid, buffer := SlideWindow(v, n, b, buffer);
    out := DrainTail(slid, n, b, buffer);
    TailWindows(out, buffer, p, n, b);
    WindowsGiveFiltered(Pings(out)[..n], p, n, b);
    if n == |v| {
      SmoothedIsFilterOutput(out, v, b);
    }
  }

  /** The first m values of a buffer holding p[lo..lo + |buffer|] are
      p[lo..lo + m]. */
  lemma BufferPrefix(buffer: seq<byte>, p: seq<byte>, lo: nat, m: nat)
    requires lo + |buffer| <= |p| && buffer == p[lo..lo + |buffer|]
    requires m <= |buffer|
    ensures buffer[..m] == p[lo..lo + m]
  {
  }

  /** The tail values the third loop computes from the buffer the second
      loop leaves are means of shrinking prefixes of p[N - b..N]. */
  lemma TailWindows(out: seq<Sample>, buffer: seq<byte>, p: seq<byte>, n: nat, b: nat)
    requires 1 <= b <= n <= |p| && |out| >= n && buffer == p[n - b..n]
    requires forall k :: n - b <= k < n ==> out[k].ping == MeanOf(buffer[..b - (k - (n - b))])
    ensures forall k :: n - b <= k < n ==> out[k].ping == MeanOf(p[n - b..n - (k - (n - b))])
  {
    forall k | n - b <= k < n
      ensures out[k].ping == MeanOf(p[n - b..n - (k - (n - b))])
    {
      BufferPrefix(buffer, p, n - b, b - (k - (n - b)));
    }
  }

  /** A sweep with its ping channel replaced by the filtered channel;
      every angle and IR distance is kept. */
  function Smoothed(v: seq<Sample>, b: nat): (r: seq<Sample>)
    requires 1 <= b <= |v|
    ensures |r| == |v| && Pings(r) == Filtered(Pings(v), b)
    ensures forall k :: 0 <= k < |v| ==> r[k].angle == v[k].angle && r[k].ir == v[k].ir
  {
    var f := Filtered(Pings(v), b);
    seq(|v|, k requires 0 <= k < |v| => v[k].(ping := f[k]))
  }

  /** Filtering the whole sweep in place gives exactly the smoothed sweep. */
  lemma SmoothedIsFilterOutput(out: seq<Sample>, v: seq<Sample>, b: nat)
    requires 1 <= b <= |v|
    requires PingsChangedOnlyIn(out, v, 0, |v|)
    requires Pings(out)[..|v|] == Filtered(Pings(v)[..|v|], b)
    ensures out == Smoothed(v, b)
  {
    assert Pings(v)[..|v|] == Pings(v);
    assert Pings(out)[..|v|] == Pings(out);
    var r := Smoothed(v, b);
    forall k | 0 <= k < |v|
      ensures out[k] == r[k]
    {
      assert out[k].ping == Pings(out)[k];
    }
  }


  /** Pings laid out window by window, as the loops leave them, are the
      filtered channel. */
  lemma WindowsGiveFiltered(q: seq<byte>, p: seq<byte>, n: nat, b: nat)
    requires 1 <= b <= n <= |p| && |q| == n
    requires forall k :: 0 <= k < n - b ==> q[k] == MeanOf(p[k..k + b])
    requires forall k :: n - b <= k < n ==> q[k] == MeanOf(p[n - b..n - (k - (n - b))])
    ensures q == Filtered(p[..n], b)
  {
    forall k | 0 <= k < n
      ensures q[k] == Filtered(p[..n], b)[k]
    {
      if k < n - b {
        assert p[..n][k..k + b] == p[k..k + b];
      } else {
        assert p[..n][n - b..n - (k - (n - b))] == p[n - b..n - (k - (n - b))];
      }
    }
  }

  /** Every filtered value lies between the smallest and the largest input. */
  lemma FilterWithinRange(p: seq<byte>, b: nat, lo: int, hi: int)
    requires 1 <= b <= |p| && Bounded(p, lo, hi)
    ensures Bounded(Filtered(p, b), lo, hi)
  {
    forall i | 0 <= i < |p|
      ensures lo <= Filtered(p, b)[i] <= hi
    {
      var w := if i < |p| - b then p[i..i + b] else p[|p| - b..|p| - (i - (|p| - b))];
      assert Bounded(w, lo, hi);
      MeanWithin(w, lo, hi);
    }
  }

  /** Hence a constant channel passes through the filter unchanged. */
  lemma FilterKeepsConstant(p: seq<byte>, b: nat, c: byte)
    requires 1 <= b <= |p|
    requires forall k :: 0 <= k < |p| ==> p[k] == c
    ensures Filtered(p, b) == p
  {
    assert Bounded(p, c, c);
    FilterWithinRange(p, b, c, c);
  }

  /** The last filtered value is the raw value b - 1 places before it: the
      tail window starts at N - b and has shrunk to that one element. */
  lemma TailEndsAtWindowStart(p: seq<byte>, b: nat)
    requires 1 <= b <= |p|
    ensures Filtered(p, b)[|p| - 1] == p[|p| - b]
  {
    var w := p[|p| - b..|p| - (b - 1)];
    assert w == [p[|p| - b]];
    assert Sum(w) == Sum([]) + p[|p| - b];
  }
}
