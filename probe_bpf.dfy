/** The fixed-buffer helpers of libprobe/src/include/probe_bpf.h;
    probe-sys/src/include/probe_bpf.h holds the same `adjust_timestamp`,
    `__last_index_of` and `set_basename`, without `set_dirname`.

    The helpers work on `char` buffers through `char *` arguments; they are modelled on
    `array<byte>`, each loop against a value function of the buffers'
    contents. The C integer types are written out: `unsigned long` and
    `size_t` are 64 bits wide, `int` is 32 bits wide. */
module ProbeBpf {
  import opened Text

  const NANOS_PER_SECOND: nat := 1_000_000_000
  /** One more than the largest `int`. */
  const INT_LIMIT: nat := 0x8000_0000
  const SLASH: byte := 47

  /** `adjust_timestamp`: the boot-relative nanoseconds plus the loader's
      `clock_adjustment`, wrapping around as `unsigned long` does, in whole
      seconds. */
  function AdjustTimestamp(timestamp: u64, adjustment: u64): (r: u64)
    ensures r <= (U64_LIMIT - 1) / NANOS_PER_SECOND
    ensures timestamp + adjustment < U64_LIMIT ==> r == (timestamp + adjustment) / NANOS_PER_SECOND
  {
    ((timestamp + adjustment) % U64_LIMIT) / NANOS_PER_SECOND
  }

  /** The result is the number of whole seconds in the wrapped sum: without
      overflow that is the sum's, with overflow the sum's less 2^64. */
  lemma AdjustTimestampSeconds(timestamp: u64, adjustment: u64)
    ensures var r := AdjustTimestamp(timestamp, adjustment);
      var sum := if timestamp + adjustment < U64_LIMIT then timestamp + adjustment else timestamp + adjustment - U64_LIMIT;
      r * NANOS_PER_SECOND <= sum < (r + 1) * NANOS_PER_SECOND
  {
    var sum := (timestamp + adjustment) % U64_LIMIT;
    assert sum == if timestamp + adjustment < U64_LIMIT then timestamp + adjustment else timestamp + adjustment - U64_LIMIT;
    var r := sum / NANOS_PER_SECOND;
    assert sum == r * NANOS_PER_SECOND + sum % NANOS_PER_SECOND;
  }

  /** Every byte `__last_index_of` reads from index `i` on lies inside the
      buffer: it reads until index `len` or the first nul. */
  predicate Scannable(a: seq<byte>, len: nat, i: nat)
    decreases len - i
  {
    i >= len || (i < |a| && (a[i] == 0 || Scannable(a, len, i + 1)))
  }

  /** What the loop of `__last_index_of` returns once it has reached index
      `i` with `cur` as its current answer. */
  function LastIndexFrom(a: seq<byte>, y: byte, len: nat, i: nat, cur: int): int
    requires Scannable(a, len, i)
    decreases len - i
  {
    if i >= len || a[i] == 0 then cur
    else LastIndexFrom(a, y, len, i + 1, if a[i] == y then i else cur)
  }

  function LastIndex(a: seq<byte>, y: byte, len: nat): (r: int)
    requires Scannable(a, len, 0)
    ensures -1 <= r < len
    ensures r >= 0 ==> r < |a| && a[r] == y
  {
    LastIndexFromMeaning(a, y, len, 0, -1);
    LastIndexFrom(a, y, len, 0, -1)
  }

  /** `__last_index_of`; its `int` counter stays representable. */
  method LastIndexOf(x: array<byte>, y: byte, len: nat) returns (r: int)
    requires Scannable(x[..], len, 0) && len <= INT_LIMIT
    ensures r == LastIndex(x[..], y, len)
  {
    r := -1;
    var i := 0;
    while i < len
      invariant Scannable(x[..], len, i)
      invariant LastIndex(x[..], y, len) == LastIndexFrom(x[..], y, len, i, r)
    {
      if x[i] == 0 {
        return;
      }
      if x[i] == y {
        r := i;
      }
      i := i + 1;
    }
  }

  /** Index `j` is read by the loop and is not the terminating nul. */
  predicate Reached(a: seq<byte>, j: nat)
  {
    j < |a| && forall k | 0 <= k <= j :: a[k] != 0
  }

  lemma {:induction false} LastIndexFromMeaning(a: seq<byte>, y: byte, len: nat, i: nat, cur: int)
    requires Scannable(a, len, i)
    requires -1 <= cur < i && (i > 0 ==> Reached(a, i - 1))
    requires cur >= 0 ==> Reached(a, cur) && a[cur] == y
    requires forall j | cur < j < i :: a[j] != y
    ensures var r := LastIndexFrom(a, y, len, i, cur);
      -1 <= r && r < if i < len then len else i + 1
    ensures var r := LastIndexFrom(a, y, len, i, cur);
      r >= 0 ==> Reached(a, r) && a[r] == y
    ensures var r := LastIndexFrom(a, y, len, i, cur);
      forall j | r < j < len && Reached(a, j) :: a[j] != y
    decreases len - i
  {
    if i >= len {
    } else if a[i] == 0 {
      assert forall j | cur < j < len && Reached(a, j) :: a[j] != y;
    } else {
      assert Reached(a, i);
      LastIndexFromMeaning(a, y, len, i + 1, if a[i] == y then i else cur);
    }
  }

  /** `__last_index_of` is the greatest index below `len` and before the
      first nul that holds `y`, or -1 when there is none. */
  lemma LastIndexMeaning(a: seq<byte>, y: byte, len: nat)
    requires Scannable(a, len, 0)
    ensures var r := LastIndex(a, y, len);
      -1 <= r < len && (r >= 0 ==> Reached(a, r) && a[r] == y)
    ensures var r := LastIndex(a, y, len);
      forall j | r < j < len && Reached(a, j) :: a[j] != y
  {
    LastIndexFromMeaning(a, y, len, 0, -1);
  }

  lemma {:induction false} ScannableWithin(a: seq<byte>, len: nat, i: nat)
    requires len <= |a|
    ensures Scannable(a, len, i)
    decreases len - i
  {
    if i < len {
      ScannableWithin(a, len, i + 1);
    }
  }

  /** `__last_index_of(y, '/', len) % len` as `set_basename` and
      `set_dirname` compute it: the `int` is converted to `size_t` for the
      `%`, so -1 becomes 2^64 - 1. */
  function LastSlash(y: seq<byte>, len: nat): (r: int)
    requires Scannable(y, len, 0) && 0 < len < U64_LIMIT
    ensures 0 <= r < len
    ensures LastIndex(y, SLASH, len) >= 0 ==> r == LastIndex(y, SLASH, len)
  {
    var k := LastIndex(y, SLASH, len);
    if k >= 0 then
      SmallRemainder(k, U64_LIMIT);
      SmallRemainder(k, len);
      (k % U64_LIMIT) % len
    else
      (k % U64_LIMIT) % len
  }

  /** The `last_slash < 0` guard never holds: a found slash keeps its
      index, and without one the index is (2^64 - 1) mod `len`, which is
      `len - 1` for the buffers of 256 bytes the probe passes. */
  lemma LastSlashInRange(y: seq<byte>, len: nat)
    requires Scannable(y, len, 0) && 0 < len < U64_LIMIT
    ensures 0 <= LastSlash(y, len) < len
    ensures LastIndex(y, SLASH, len) >= 0 ==> LastSlash(y, len) == LastIndex(y, SLASH, len)
    ensures LastIndex(y, SLASH, len) == -1 ==> LastSlash(y, len) == (U64_LIMIT - 1) % len
    ensures LastIndex(y, SLASH, len) == -1 && len == 256 ==> LastSlash(y, len) == 255
  {
    LastIndexMeaning(y, SLASH, len);
    var r := LastIndex(y, SLASH, len);
    SizeTConversion(r);
    if r >= 0 {
      SmallRemainder(r, len);
    }
  }

  /** An `int` from -1 on, converted to `size_t`. */
  lemma SizeTConversion(r: int)
    requires -1 <= r < U64_LIMIT
    ensures r % U64_LIMIT == if r >= 0 then r else U64_LIMIT - 1
  {
  }

  lemma SmallRemainder(r: int, len: nat)
    requires 0 <= r < len
    ensures r % len == r
  {
    assert r == 0 * len + r;
  }

  /** What `set_basename` leaves in `x`: the bytes of `y` after the last
      slash, up to `len`, over the front of `x`. */
  function Basename(x: seq<byte>, y: seq<byte>, len: nat): (r: seq<byte>)
    requires len <= |x| && len <= |y| && 0 < len < U64_LIMIT
    ensures |r| == |x| && r[len..] == x[len..]
  {
    ScannableWithin(y, len, 0);
    var k := LastSlash(y, len) + 1;
    seq(|x|, i requires 0 <= i < |x| => if i < len - k then y[i + k] else x[i])
  }

  /** What `set_dirname` leaves in `x`: the bytes of `y` up to and including
      the last slash over the front of `x`. */
  function Dirname(x: seq<byte>, y: seq<byte>, len: nat): (r: seq<byte>)
    requires len <= |x| && len <= |y| && 0 < len < U64_LIMIT
    ensures |r| == |x| && r[len..] == x[len..]
  {
    ScannableWithin(y, len, 0);
    var k := LastSlash(y, len) + 1;
    seq(|x|, i requires 0 <= i < |x| => if i < k then y[i] else x[i])
  }

  /** With the last slash of `y` at `k`, `set_basename` copies `y[k+1..len]`
      to the front of `x` and leaves the rest of `x`; with no slash and
      buffers of 256 bytes it copies nothing. */
  lemma BasenameMeaning(x: seq<byte>, y: seq<byte>, len: nat)
    requires len <= |x| && len <= |y| && 0 < len < U64_LIMIT
    ensures Scannable(y, len, 0) && -1 <= LastIndex(y, SLASH, len) < len
    ensures var k := LastIndex(y, SLASH, len);
      var b := Basename(x, y, len);
      k >= 0 ==> b == y[k + 1..len] + x[len - k - 1..]
    ensures LastIndex(y, SLASH, len) == -1 && len == 256 ==> Basename(x, y, len) == x
  {
    ScannableWithin(y, len, 0);
    LastIndexMeaning(y, SLASH, len);
    LastSlashInRange(y, len);
    var k := LastIndex(y, SLASH, len);
    var b := Basename(x, y, len);
    if k >= 0 {
      var c := y[k + 1..len] + x[len - k - 1..];
      assert |b| == |c|;
      assert forall i | 0 <= i < |b| :: b[i] == c[i];
    }
    if k == -1 && len == 256 {
      assert forall i | 0 <= i < |b| :: b[i] == x[i];
    }
  }

  /** With the last slash of `y` at `k`, `set_dirname` copies `y[..k+1]`,
      the slash included, to the front of `x`; with no slash and buffers of
      256 bytes it copies all 256 bytes. */
  lemma DirnameMeaning(x: seq<byte>, y: seq<byte>, len: nat)
    requires len <= |x| && len <= |y| && 0 < len < U64_LIMIT
    ensures Scannable(y, len, 0) && -1 <= LastIndex(y, SLASH, len) < len
    ensures var k := LastIndex(y, SLASH, len);
      var d := Dirname(x, y, len);
      k >= 0 ==> d == y[..k + 1] + x[k + 1..]
    ensures LastIndex(y, SLASH, len) == -1 && len == 256 ==> Dirname(x, y, len) == y[..256] + x[256..]
  {
    ScannableWithin(y, len, 0);
    LastIndexMeaning(y, SLASH, len);
    LastSlashInRange(y, len);
    var k := LastIndex(y, SLASH, len);
    var d := Dirname(x, y, len);
    if k >= 0 {
      var c := y[..k + 1] + x[k + 1..];
      assert |d| == |c|;
      assert forall i | 0 <= i < |d| :: d[i] == c[i];
    }
    if k == -1 && len == 256 {
      var c := y[..256] + x[256..];
      assert forall i | 0 <= i < |d| :: d[i] == c[i];
    }
  }

  /** `set_basename`. The copy reads `y` only ahead of the byte it writes, so
      `x` and `y` may be the same buffer. */
  method SetBasename(x: array<byte>, y: array<byte>, len: nat)
    requires len <= x.Length && len <= y.Length && 0 < len < INT_LIMIT
    modifies x
    ensures x[..] == Basename(old(x[..]), old(y[..]), len)
  {
    ghost var x0, y0 := x[..], y[..];
    ScannableWithin(y0, len, 0);
    LastSlashInRange(y0, len);
    var found := LastIndexOf(y, SLASH, len);
    var lastSlash := (found % U64_LIMIT) % len;
    if lastSlash < 0 {
      return;
    }
    lastSlash := lastSlash + 1;
    var end := len - lastSlash;
    var i := 0;
    while i < len && i < end
      invariant 0 <= i <= end
      invariant forall j | 0 <= j < i :: x[j] == y0[j + lastSlash]
      invariant forall j | i <= j < x.Length :: x[j] == x0[j]
      invariant forall j | i <= j < y.Length :: y[j] == y0[j]
    {
      x[i] := y[i + lastSlash];
      i := i + 1;
    }
    assert forall j | 0 <= j < x.Length :: x[j] == Basename(x0, y0, len)[j];
  }

  /** `set_dirname`. */
  method SetDirname(x: array<byte>, y: array<byte>, len: nat)
    requires len <= x.Length && len <= y.Length && 0 < len < INT_LIMIT
    modifies x
    ensures x[..] == Dirname(old(x[..]), old(y[..]), len)
  {
    ghost var x0, y0 := x[..], y[..];
    ScannableWithin(y0, len, 0);
    LastSlashInRange(y0, len);
    var found := LastIndexOf(y, SLASH, len);
    var lastSlash := (found % U64_LIMIT) % len;
    if lastSlash < 0 {
      return;
    }
    lastSlash := lastSlash + 1;
    var i := 0;
    while i < len && i < lastSlash
      invariant 0 <= i <= lastSlash
      invariant forall j | 0 <= j < i :: x[j] == y0[j]
      invariant forall j | i <= j < x.Length :: x[j] == x0[j]
      invariant forall j | i <= j < y.Length :: y[j] == y0[j]
    {
      x[i] := y[i];
      i := i + 1;
    }
    assert forall j | 0 <= j < x.Length :: x[j] == Dirname(x0, y0, len)[j];
  }
}
