/** Sums of rotated vectors: the arithmetic behind rotate-and-add reductions. */
module Windows {
  import opened Meaning

  /** 0, 1, ..., n - 1. */
  function Upto(n: nat): (r: seq<int>)
    ensures |r| == n && forall j :: 0 <= j < n ==> r[j] == j
  {
    seq(n, j => j)
  }

  lemma {:induction false} UptoBag(n: nat, i: int)
    ensures multiset(Upto(n))[i] == if 0 <= i < n then 1 else 0
  {
    if n > 0 {
      UptoBag(n - 1, i);
      assert Upto(n) == Upto(n - 1) + [n - 1];
    } else {
      assert Upto(0) == [];
    }
  }

  /** Slot x of a vector, cyclically. */
  function At(s: seq<int>, x: int): int
    requires |s| > 0
  {
    s[x % |s|]
  }

  /** The sum of c slots at distance d, from slot j on. */
  function Stride(s: seq<int>, j: int, d: int, c: nat): int
    requires |s| > 0
  {
    if c == 0 then 0 else Stride(s, j, d, c - 1) + At(s, j + (c - 1) * d)
  }

  /** The sum of the n slots from j on. */
  function Window(s: seq<int>, j: int, n: nat): int
    requires |s| > 0
  {
    Stride(s, j, 1, n)
  }

  /** Slot j of the sum of the rotations by 0, ..., n - 1. */
  function RotationSum(s: seq<int>, j: int, n: nat): int
    requires |s| > 0
  {
    Stride(s, j, -1, n)
  }

  /** One halving step: two sums of stride 2d, d slots apart, interleave to one of stride d. */
  lemma {:induction false} Interleave(s: seq<int>, j: int, d: int, c: nat)
    requires |s| > 0
    ensures Stride(s, j, d, 2 * c) == Stride(s, j, 2 * d, c) + Stride(s, j + d, 2 * d, c)
  {
    if c > 0 {
      Interleave(s, j, d, c - 1);
      assert j + (2 * c - 2) * d == j + (c - 1) * (2 * d);
      assert j + (2 * c - 1) * d == j + d + (c - 1) * (2 * d);
      assert Stride(s, j, d, 2 * c - 1) == Stride(s, j, d, 2 * c - 2) + At(s, j + (2 * c - 2) * d);
    }
  }

  lemma {:induction false} StrideFront(s: seq<int>, j: int, d: int, c: nat)
    requires |s| > 0
    ensures Stride(s, j, d, c + 1) == At(s, j) + Stride(s, j + d, d, c)
  {
    if c > 0 {
      StrideFront(s, j, d, c - 1);
      assert j + c * d == j + d + (c - 1) * d;
    } else {
      assert Stride(s, j, d, 1) == Stride(s, j, d, 0) + At(s, j + 0 * d);
    }
  }

  /** Summing the rotations by 0..n-1 at slot j is summing the window that ends at j. */
  lemma {:induction false} RotationsAreWindow(s: seq<int>, j: int, n: nat)
    requires |s| > 0
    ensures RotationSum(s, j, n) == Window(s, j - n + 1, n)
  {
    if n > 0 {
      RotationsAreWindow(s, j, n - 1);
      StrideFront(s, j - n + 1, 1, n - 1);
      assert j + (n - 1) * -1 == j - n + 1;
    }
  }

  lemma {:induction false} AtPeriodic(s: seq<int>, x: int, q: int)
    requires |s| > 0
    ensures At(s, x + q * |s|) == At(s, x)
  {
    var n := |s|;
    assert x == (x / n) * n + x % n;
    assert x + q * n == (x / n + q) * n + x % n by { assert (x / n + q) * n == (x / n) * n + q * n; }
    ModIs(x + q * n, x / n + q, x % n, n);
  }

  lemma {:induction false} ModIs(a: int, q: int, r: int, n: nat)
    requires n > 0 && 0 <= r < n && a == q * n + r
    ensures a % n == r
  {
    var d := a / n - q;
    assert a == (a / n) * n + a % n;
    assert d * n == r - a % n;
    assert d >= 1 ==> d * n >= n;
    assert d <= -1 ==> d * n + n <= 0;
  }

  lemma {:induction false} WindowSlides(s: seq<int>, j: int, n: nat)
    requires |s| > 0
    ensures Window(s, j + 1, n) == Window(s, j, n) - At(s, j) + At(s, j + n)
  {
    StrideFront(s, j, 1, n);
  }

  /** Moving a window of n slots does not change its sum when n is a multiple of the vector size. */
  lemma {:induction false} FullWindow(s: seq<int>, i: int, j: int, q: nat)
    requires |s| > 0 && i <= j
    ensures Window(s, i, q * |s|) == Window(s, j, q * |s|)
    decreases j - i
  {
    if i < j {
      FullWindow(s, i, j - 1, q);
      WindowSlides(s, j - 1, q * |s|);
      AtPeriodic(s, j - 1, q);
    }
  }

  /** The rotations by 0..n-1 sum to the same vector as the windows of n slots, for every vector of N slots,
      when n leaves remainder 0 or 1 modulo N. */
  lemma {:induction false} WindowsAreRotations(s: seq<int>, j: int, n: nat)
    requires |s| > 0 && n % |s| <= 1
    ensures Window(s, j, n) == RotationSum(s, j, n)
  {
    RotationsAreWindow(s, j, n);
    var size, q := |s|, n / |s|;
    assert n == q * size + n % size;
    if n % size == 0 {
      if n > 0 { FullWindow(s, j - n + 1, j, q); }
    } else {
      FullWindow(s, j - n + 1, j, q);
      assert n == q * size + 1;
      assert Window(s, j, n) == Window(s, j, n - 1) + At(s, j + (n - 1));
      assert Window(s, j - n + 1, n) == Window(s, j - n + 1, n - 1) + At(s, j);
      AtPeriodic(s, j, q);
    }
  }

  /** The vector of N slots with a one in slot 1. */
  function UnitVector(size: nat): (s: seq<int>)
    ensures |s| == size && forall k :: 0 <= k < size ==> s[k] == if k == 1 then 1 else 0
  {
    seq(size, k => if k == 1 then 1 else 0)
  }

  lemma {:induction false} StrideZero(s: seq<int>, j: int, d: int, c: nat)
    requires |s| > 0 && forall q :: 0 <= q < c ==> At(s, j + q * d) == 0
    ensures Stride(s, j, d, c) == 0
  {
    if c > 0 { StrideZero(s, j, d, c - 1); }
  }

  lemma {:induction false} UnitWindow(size: nat, r: nat)
    requires 2 <= r < size
    ensures Window(UnitVector(size), 0, r) == 1
  {
    var s := UnitVector(size);
    if r == 2 {
      assert Stride(s, 0, 1, 0) == 0;
      assert Stride(s, 0, 1, 1) == At(s, 0);
      assert Stride(s, 0, 1, 2) == At(s, 0) + At(s, 1);
    } else {
      UnitWindow(size, r - 1);
      assert At(s, r - 1) == 0;
    }
  }

  lemma {:induction false} UnitRotations(size: nat, r: nat)
    requires 2 <= r < size
    ensures RotationSum(UnitVector(size), 0, r) == 0
  {
    var s := UnitVector(size);
    forall q | 0 <= q < r ensures At(s, 0 + q * -1) == 0 {
      if q > 0 { ModIs(-q, -1, size - q, size); }
    }
    StrideZero(s, 0, -1, r);
  }

  lemma {:induction false} WindowSplit(s: seq<int>, j: int, a: nat, b: nat)
    requires |s| > 0
    ensures Window(s, j, a + b) == Window(s, j, a) + Window(s, j + a, b)
  {
    if b > 0 { WindowSplit(s, j, a, b - 1); }
  }

  /** Otherwise the unit vector tells them apart. */
  lemma {:induction false} WindowsDiffer(size: nat, n: nat)
    requires size > 0 && n % size >= 2
    ensures Window(UnitVector(size), 0, n) != RotationSum(UnitVector(size), 0, n)
  {
    var s, r := UnitVector(size), n % size;
    WholeTurns(s, n);
    UnitWindow(size, r);
    UnitRotations(size, r);
  }

  /** Whole turns add the same to a window and to the rotations. */
  lemma {:induction false} WholeTurns(s: seq<int>, n: nat)
    requires |s| > 0 && n > 0
    ensures Window(s, 0, n) - RotationSum(s, 0, n) == Window(s, 0, n % |s|) - RotationSum(s, 0, n % |s|)
  {
    var q, r := n / |s|, n % |s|;
    var t: nat := q * |s|;
    assert n == t + r;
    RotationsAreWindow(s, 0, n);
    RotationsAreWindow(s, 0, r);
    WindowSplit(s, 0, r, t);
    WindowSplit(s, 1 - n, t, r);
    FullWindow(s, 1 - n, r, q);
  }

  /** Both together: when the sum of the window may stand for the sum of the rotations. */
  lemma {:induction false} WindowsExact(size: nat, n: nat)
    requires size > 0
    ensures (forall s: seq<int>, j: int :: |s| == size ==> Window(s, j, n) == RotationSum(s, j, n)) <==> n % size <= 1
  {
    if n % size <= 1 {
      forall s: seq<int>, j: int | |s| == size ensures Window(s, j, n) == RotationSum(s, j, n) {
        WindowsAreRotations(s, j, n);
      }
    } else {
      WindowsDiffer(size, n);
    }
  }
}
