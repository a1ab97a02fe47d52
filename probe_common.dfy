/** The kernel-side comparison helper and rule constants of
    libprobe/src/include/probe_common.h, of which
    probe-sys/src/include/probe_common.h is a copy with the same loop and the
    same constants.

    `___strncmp` walks two C strings side by side for at most `len` bytes. It
    is modelled on `array<byte>` like the C `char *` arguments, against the value
    function `Compare` on the buffers' contents. */
module ProbeCommon {
  import opened Text
  import Helpers
  import QueryRecords
  import BpfWriter

  /** The rule constants the kernel side compiles against. */
  const MAX_RULE_SIZE: nat := 8
  const TRUE_ABSOLUTE: byte := 1
  const FALSE_ABSOLUTE: byte := 2
  const EQUAL_OPERATOR: byte := 1
  const NOT_EQUAL_OPERATOR: byte := 2
  const MAX_PATH_SIZE: nat := 256

  /** The kernel and the userspace writer agree: the same operator and
      absolute bytes, a rule table as long as a writer's limit, and path
      buffers as long as a record's string slot. */
  lemma ConstantsAgree()
    ensures TRUE_ABSOLUTE == Helpers.TRUE_ABSOLUTE && FALSE_ABSOLUTE == Helpers.FALSE_ABSOLUTE
    ensures EQUAL_OPERATOR == Helpers.EQUAL_OPERATOR && NOT_EQUAL_OPERATOR == Helpers.NOT_EQUAL_OPERATOR
    ensures MAX_RULE_SIZE == BpfWriter.WRITER_LIMIT && MAX_PATH_SIZE == QueryRecords.SLOT_SIZE
  {
  }

  /** Every byte the loop reads from index `i` on lies inside both buffers:
      it reads until index `len`, a common nul or a difference, whichever
      comes first. */
  predicate Readable(a: seq<byte>, b: seq<byte>, len: nat, i: nat)
    decreases len - i
  {
    i >= len || (i < |a| && i < |b| && ((a[i] == 0 && b[i] == 0) || a[i] != b[i] || Readable(a, b, len, i + 1)))
  }

  /** What the loop returns once it has reached index `i`. */
  function CompareFrom(a: seq<byte>, b: seq<byte>, len: nat, i: nat): (r: int)
    requires Readable(a, b, len, i)
    ensures r == 0 || r == 1
    decreases len - i
  {
    if i >= len then 0
    else if a[i] == 0 && b[i] == 0 then 0
    else if a[i] != b[i] then 1
    else CompareFrom(a, b, len, i + 1)
  }

  function Compare(a: seq<byte>, b: seq<byte>, len: nat): (r: int)
    requires Readable(a, b, len, 0)
    ensures r == 0 || r == 1
    ensures len == 0 ==> r == 0
  {
    CompareFrom(a, b, len, 0)
  }

  /** `___strncmp`. */
  method Strncmp(x: array<byte>, y: array<byte>, len: nat) returns (r: int)
    requires Readable(x[..], y[..], len, 0)
    ensures r == Compare(x[..], y[..], len)
  {
    var i := 0;
    while i < len
      invariant Readable(x[..], y[..], len, i)
      invariant Compare(x[..], y[..], len) == CompareFrom(x[..], y[..], len, i)
    {
      if x[i] == 0 && y[i] == 0 {
        return 0;
      }
      if x[i] != y[i] {
        return 1;
      }
      i := i + 1;
    }
    return 0;
  }

  /** Buffers that hold `len` bytes each can always be compared. */
  lemma {:induction false} ReadableWithin(a: seq<byte>, b: seq<byte>, len: nat, i: nat)
    requires len <= |a| && len <= |b|
    ensures Readable(a, b, len, i)
    decreases len - i
  {
    if i < len {
      ReadableWithin(a, b, len, i + 1);
    }
  }

  /** Index `k` is where the two strings first differ while neither has
      ended. */
  predicate DiffersAt(a: seq<byte>, b: seq<byte>, k: nat)
  {
    k < |a| && k < |b| && a[k] != b[k] && forall j | 0 <= j < k :: a[j] == b[j] && a[j] != 0
  }

  lemma {:induction false} CompareFromMeaning(a: seq<byte>, b: seq<byte>, len: nat, i: nat)
    requires Readable(a, b, len, i)
    requires i <= |a| && i <= |b| && forall j | 0 <= j < i :: a[j] == b[j] && a[j] != 0
    ensures CompareFrom(a, b, len, i) == 1 <==> exists k | i <= k < len :: DiffersAt(a, b, k)
    decreases len - i
  {
    if i >= len {
    } else if a[i] == 0 && b[i] == 0 {
      assert forall k | i <= k < len :: !DiffersAt(a, b, k);
    } else if a[i] != b[i] {
      assert DiffersAt(a, b, i);
    } else {
      CompareFromMeaning(a, b, len, i + 1);
    }
  }

  /** `___strncmp` returns 1 exactly when, within `len` bytes, the strings
      differ at an index before either has ended (one of them ending there
      counts as a difference), and 0 otherwise. */
  lemma CompareMeaning(a: seq<byte>, b: seq<byte>, len: nat)
    requires Readable(a, b, len, 0)
    ensures Compare(a, b, len) == 1 <==> exists k | 0 <= k < len :: DiffersAt(a, b, k)
    ensures Compare(a, b, len) == 0 <==> !exists k | 0 <= k < len :: DiffersAt(a, b, k)
  {
    CompareFromMeaning(a, b, len, 0);
  }

  /** A string equals itself. */
  lemma CompareReflexive(a: seq<byte>, len: nat)
    requires Readable(a, a, len, 0)
    ensures Compare(a, a, len) == 0
  {
    CompareMeaning(a, a, len);
  }

  lemma {:induction false} CompareFromSymmetric(a: seq<byte>, b: seq<byte>, len: nat, i: nat)
    requires Readable(a, b, len, i)
    ensures Readable(b, a, len, i) && CompareFrom(a, b, len, i) == CompareFrom(b, a, len, i)
    decreases len - i
  {
    if i < len && !(a[i] == 0 && b[i] == 0) && a[i] == b[i] {
      CompareFromSymmetric(a, b, len, i + 1);
    }
  }

  /** The order of the arguments does not matter. */
  lemma CompareSymmetric(a: seq<byte>, b: seq<byte>, len: nat)
    requires Readable(a, b, len, 0)
    ensures Readable(b, a, len, 0) && Compare(a, b, len) == Compare(b, a, len)
  {
    CompareFromSymmetric(a, b, len, 0);
  }

  /** `UntilNul` is the prefix up to the first nul. */
  lemma {:induction false} UntilNulIs(buf: seq<byte>, p: nat)
    requires p <= |buf| && (forall i | 0 <= i < p :: buf[i] != 0) && (p < |buf| ==> buf[p] == 0)
    ensures Helpers.UntilNul(buf) == buf[..p]
    decreases p
  {
    if p == 0 {
      if buf != [] {
        assert buf[0] == 0;
      }
    } else {
      assert buf[0] != 0;
      UntilNulIs(buf[1..], p - 1);
      assert buf[..p] == [buf[0]] + buf[1..][..p - 1];
    }
  }

  lemma {:induction false} SamePrefix(a: seq<byte>, b: seq<byte>, len: nat, p: nat, j: nat)
    requires p <= len <= |a| && len <= |b| && j <= p
    requires forall i | 0 <= i < p :: a[i] != 0
    requires !exists k | 0 <= k < len :: DiffersAt(a, b, k)
    ensures forall i | 0 <= i < j :: a[i] == b[i]
  {
    if j > 0 {
      SamePrefix(a, b, len, p, j - 1);
      assert !DiffersAt(a, b, j - 1);
    }
  }

  /** A difference before either string ends separates the C strings. */
  lemma DifferenceSeparates(a: seq<byte>, b: seq<byte>, k: nat)
    requires DiffersAt(a, b, k)
    ensures Helpers.UntilNul(a) != Helpers.UntilNul(b)
  {
    var A := Helpers.UntilNul(a);
    var B := Helpers.UntilNul(b);
    if |A| == k {
      assert b[k] != 0;
      assert |B| != k;
    } else if |B| > k {
      assert A[k] == a[k] && B[k] == b[k];
    }
  }

  /** Without such a difference within `len` bytes, the C strings cut at
      `len` are the same. */
  lemma NoDifferenceSame(a: seq<byte>, b: seq<byte>, len: nat)
    requires len <= |a| && len <= |b|
    requires !exists k | 0 <= k < len :: DiffersAt(a, b, k)
    ensures Helpers.UntilNul(a[..len]) == Helpers.UntilNul(b[..len])
  {
    var a', b' := a[..len], b[..len];
    var p := |Helpers.UntilNul(a')|;
    SamePrefix(a, b, len, p, p);
    if p < len {
      assert a'[p] == 0;
      assert !DiffersAt(a, b, p);
    }
    UntilNulIs(b', p);
    assert a'[..p] == b'[..p];
  }

  /** Over buffers of `len` bytes, `STRING_EQUALITY` is equality of the C
      strings they hold, each cut at its first nul or at `len`. */
  lemma CompareIsTextEquality(a: seq<byte>, b: seq<byte>, len: nat)
    requires len <= |a| && len <= |b|
    ensures Readable(a, b, len, 0)
    ensures Compare(a, b, len) == 0 <==> Helpers.UntilNul(a[..len]) == Helpers.UntilNul(b[..len])
  {
    ReadableWithin(a, b, len, 0);
    CompareMeaning(a, b, len);
    if k :| 0 <= k < len && DiffersAt(a, b, k) {
      assert DiffersAt(a[..len], b[..len], k);
      DifferenceSeparates(a[..len], b[..len], k);
    } else {
      NoDifferenceSame(a, b, len);
    }
  }

  /** `STRING_EQUALITY`, over the length of the first array. */
  predicate StringEquality(x: seq<byte>, y: seq<byte>)
    requires Readable(x, y, |x|, 0)
    ensures StringEquality(x, y) <==> !exists k | 0 <= k < |x| :: DiffersAt(x, y, k)
  {
    CompareMeaning(x, y, |x|);
    Compare(x, y, |x|) == 0
  }

  /** `STRING_INEQUALITY`: exactly when `STRING_EQUALITY` does not hold. */
  predicate StringInequality(x: seq<byte>, y: seq<byte>)
    requires Readable(x, y, |x|, 0)
    ensures StringInequality(x, y) <==> exists k | 0 <= k < |x| :: DiffersAt(x, y, k)
  {
    CompareMeaning(x, y, |x|);
    Compare(x, y, |x|) != 0
  }

  /** The two macros are complementary, and on buffers of the same length
      they are equality and inequality of the strings they hold. */
  lemma EqualityMacros(x: seq<byte>, y: seq<byte>)
    requires |x| == |y|
    ensures Readable(x, y, |x|, 0)
    ensures StringInequality(x, y) <==> !StringEquality(x, y)
    ensures StringEquality(x, y) <==> Helpers.UntilNul(x) == Helpers.UntilNul(y)
  {
    CompareIsTextEquality(x, y, |x|);
    assert x[..|x|] == x && y[..|x|] == y;
  }
}
