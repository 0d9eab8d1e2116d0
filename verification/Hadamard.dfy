/** The Walsh-Hadamard rotation matrix, filled by repeated doubling inside one n*n array. */
module Hadamard {
  import opened Rows

  ghost predicate PowerOfTwo(n: nat)
  {
    n == 1 || (n >= 2 && n % 2 == 0 && PowerOfTwo(n / 2))
  }

  lemma {:induction false} DoublingReaches(s: nat, n: nat)
    requires PowerOfTwo(s) && PowerOfTwo(n) && s < n
    ensures 2 * s <= n && PowerOfTwo(2 * s)
  {
    assert (2 * s) / 2 == s;
    if s > 1 {
      DoublingReaches(s / 2, n / 2);
    }
  }

  /** The sign of an entry, bit by bit: it flips once for every bit that row and column share. */
  function Sign(i: nat, j: nat): (r: int)
    ensures r == 1 || r == -1
    decreases i
  {
    if i == 0 || j == 0 then 1
    else if i % 2 == 1 && j % 2 == 1 then -Sign(i / 2, j / 2)
    else Sign(i / 2, j / 2)
  }

  lemma {:induction false} SignSymmetric(i: nat, j: nat)
    ensures Sign(i, j) == Sign(j, i)
    decreases i
  {
    if i != 0 && j != 0 {
      SignSymmetric(i / 2, j / 2);
    }
  }

  /** The recursion of `Sign`, with the lowest bit of row and column split off. */
  lemma SignSplits(i: nat, a: nat, x: nat, j: nat, b: nat, y: nat)
    requires i == 2 * a + x && j == 2 * b + y && x < 2 && y < 2
    ensures Sign(i, j) == if x == 1 && y == 1 then -Sign(a, b) else Sign(a, b)
  {
    assert i / 2 == a && i % 2 == x;
    assert j / 2 == b && j % 2 == y;
  }

  /** A number below an even bound, its lowest bit split off. */
  lemma Halve(i: nat, h: nat) returns (a: nat, x: nat)
    requires i < 2 * h
    ensures i == 2 * a + x && x < 2 && a < h
  {
    a, x := i / 2, i % 2;
  }

  lemma HalfPower(s: nat) returns (h: nat)
    requires PowerOfTwo(s) && s != 1
    ensures s == 2 * h && PowerOfTwo(h)
  {
    h := s / 2;
  }

  /** The three blocks a doubling from s adds: two copies, and one copy with the sign flipped. */
  ghost predicate Copied(s: nat, i: nat, j: nat) {
    Sign(i + s, j) == Sign(i, j)
  }

  ghost predicate Flipped(s: nat, i: nat, j: nat) {
    Sign(i + s, j + s) == -Sign(i, j)
  }

  /** Entries whose rows and columns have the same lowest bits compare as the entries above them do. */
  lemma SameLowBits(i: nat, i': nat, a: nat, a': nat, x: nat, j: nat, j': nat, b: nat, b': nat, y: nat)
    requires i == 2 * a + x && i' == 2 * a' + x && j == 2 * b + y && j' == 2 * b' + y && x < 2 && y < 2
    ensures Sign(i', j') == Sign(i, j) <==> Sign(a', b') == Sign(a, b)
  {
    SignSplits(i, a, x, j, b, y);
    SignSplits(i', a', x, j', b', y);
  }

  lemma OneUp(s: nat, h: nat, i: nat, a: nat, x: nat, j: nat, b: nat, y: nat)
    requires s == 2 * h && i == 2 * a + x && j == 2 * b + y && x < 2 && y < 2
    requires Copied(h, a, b) && Flipped(h, a, b)
    ensures Copied(s, i, j) && Flipped(s, i, j)
  {
    var i', j' := i + s, j + s;
    SameLowBits(i, i', a, a + h, x, j, j, b, b, y);
    SameLowBits(i, i', a, a + h, x, j, j', b, b + h, y);
  }

  lemma SmallestDoubling()
    ensures Copied(1, 0, 0) && Flipped(1, 0, 0)
  {
    SignSplits(1, 0, 1, 1, 0, 1);
  }

  lemma {:induction false} SignLifts(s: nat, i: nat, j: nat)
    requires PowerOfTwo(s) && i < s && j < s
    ensures Copied(s, i, j) && Flipped(s, i, j)
  {
    if s == 1 {
      SmallestDoubling();
    } else {
      var h := HalfPower(s);
      var a, x := Halve(i, h);
      var b, y := Halve(j, h);
      SignLifts(h, a, b);
      OneUp(s, h, i, a, x, j, b, y);
    }
  }

  lemma SignDoubles(s: nat, i: nat, j: nat)
    requires PowerOfTwo(s) && i < s && j < s
    ensures Sign(i + s, j) == Sign(i, j) == Sign(i, j + s)
    ensures Sign(i + s, j + s) == -Sign(i, j)
  {
    SignLifts(s, i, j);
    SignLifts(s, j, i);
    SignSymmetric(i, j);
    SignSymmetric(i, j + s);
  }

  // ---- the sign matrix times itself ----

  /** Sign(i, k) times Sign(k, j). */
  function Term(i: nat, k: nat, j: nat): (r: int)
    ensures r == Sign(i, k) * Sign(k, j)
  {
    if Sign(i, k) == Sign(k, j) then 1 else -1
  }

  /** Row i times column j, over the first t places. */
  function Dot(i: nat, j: nat, t: nat): int {
    if t == 0 then 0 else Dot(i, j, t - 1) + Term(i, t - 1, j)
  }

  function Fold(s: nat, i: nat): (r: nat)
    requires i < 2 * s
    ensures r < s && (r == i || r + s == i)
  {
    if i < s then i else i - s
  }

  lemma LowTerm(s: nat, i: nat, j: nat, k: nat)
    requires PowerOfTwo(s) && i < 2 * s && j < 2 * s && k < s
    ensures Term(i, k, j) == Term(Fold(s, i), k, Fold(s, j))
  {
    if s <= i {
      SignDoubles(s, i - s, k);
    }
    if s <= j {
      SignDoubles(s, k, j - s);
    }
  }

  lemma SignHigh(s: nat, i: nat, k: nat)
    requires PowerOfTwo(s) && i < 2 * s && k < s
    ensures Sign(i, k + s) == Sign(k + s, i) == if i < s then Sign(i, k) else -Sign(i, k)
  {
    if i < s {
      SignDoubles(s, i, k);
    } else {
      SignDoubles(s, i - s, k);
    }
    SignSymmetric(i, k + s);
  }

  lemma HighTerm(s: nat, i: nat, j: nat, k: nat)
    requires PowerOfTwo(s) && i < 2 * s && j < 2 * s && k < s
    ensures Term(i, k + s, j) == if (i < s) == (j < s) then Term(i, k, j) else -Term(i, k, j)
  {
    SignHigh(s, i, k);
    SignHigh(s, j, k);
    SignSymmetric(j, k);
  }

  /** The lower half of the places: rows and columns fold into the half-size matrix. */
  lemma {:induction false} DotFoldsLow(s: nat, i: nat, j: nat, t: nat)
    requires PowerOfTwo(s) && i < 2 * s && j < 2 * s && t <= s
    ensures Dot(i, j, t) == Dot(Fold(s, i), Fold(s, j), t)
  {
    if t > 0 {
      DotFoldsLow(s, i, j, t - 1);
      LowTerm(s, i, j, t - 1);
    }
  }

  /** The upper half contributes the same again, negated when i and j lie in different halves. */
  lemma {:induction false} DotFoldsHigh(s: nat, i: nat, j: nat, t: nat)
    requires PowerOfTwo(s) && i < 2 * s && j < 2 * s && t <= s
    ensures Dot(i, j, t + s) == Dot(i, j, s) + if (i < s) == (j < s) then Dot(i, j, t) else -Dot(i, j, t)
  {
    if t > 0 {
      DotFoldsHigh(s, i, j, t - 1);
      HighTerm(s, i, j, t - 1);
      assert t + s - 1 == (t - 1) + s;
    }
  }

  /** S * S == n * I. */
  lemma {:induction false} SignsAreOrthogonal(n: nat, i: nat, j: nat)
    requires PowerOfTwo(n) && i < n && j < n
    ensures Dot(i, j, n) == if i == j then n else 0
  {
    if n == 1 {
      assert Dot(0, 0, 1) == Dot(0, 0, 0) + Term(0, 0, 0);
    } else {
      var s := n / 2;
      DotFoldsLow(s, i, j, s);
      DotFoldsHigh(s, i, j, s);
      SignsAreOrthogonal(s, Fold(s, i), Fold(s, j));
    }
  }

  // ---- the array ----

  /** The flat place of entry (i, j). */
  function At(n: nat, i: nat, j: nat): nat {
    Row(n, i) + j
  }

  lemma AtInRange(n: nat, i: nat, j: nat)
    requires i < n && j < n
    ensures At(n, i, j) < Row(n, n)
  {
    RowsApart(n, i, n);
  }

  lemma AtInjective(n: nat, i: nat, j: nat, p: nat, q: nat)
    requires j < n && q < n && (i != p || j != q)
    ensures At(n, i, j) != At(n, p, q)
  {
    if i < p {
      RowsApart(n, i, p);
    } else if p < i {
      RowsApart(n, p, i);
    }
  }

  function Entry(c: real, i: nat, j: nat): real {
    if Sign(i, j) == 1 then c else -c
  }

  /** Entry (p, q) has been written once the doubling from s has handled every place before (i, j). */
  predicate Done(s: nat, i: nat, j: nat, p: nat, q: nat) {
    p < 2 * s && q < 2 * s
    && var p' := Fold(s, p);
       var q' := Fold(s, q);
       (p < s && q < s) || p' < i || (p' == i && q' < j)
  }

  ghost predicate Filled(d: seq<real>, n: nat, c: real, s: nat, i: nat, j: nat)
    requires 2 * s <= n && |d| == Row(n, n)
  {
    forall p: nat, q: nat {:trigger Done(s, i, j, p, q)} :: Done(s, i, j, p, q) ==> Holds(d, n, c, p, q)
  }

  ghost predicate Holds(d: seq<real>, n: nat, c: real, p: nat, q: nat) {
    At(n, p, q) < |d| && d[At(n, p, q)] == Entry(c, p, q)
  }

  /** One pass of the innermost body. */
  function Spread(d: seq<real>, n: nat, s: nat, i: nat, j: nat): (r: seq<real>)
    requires i < s && j < s && 2 * s <= n && |d| == Row(n, n)
    ensures |r| == |d|
  {
    AtInRange(n, i + s, j); AtInRange(n, i, j + s); AtInRange(n, i + s, j + s); AtInRange(n, i, j);
    var val := d[At(n, i, j)];
    d[At(n, i + s, j) := val][At(n, i, j + s) := val][At(n, i + s, j + s) := -val]
  }

  lemma SpreadAt(d: seq<real>, n: nat, s: nat, i: nat, j: nat, p: nat, q: nat)
    requires i < s && j < s && 2 * s <= n && |d| == Row(n, n) && p < 2 * s && q < 2 * s
    ensures At(n, p, q) < Row(n, n) && At(n, i, j) < Row(n, n)
    ensures Spread(d, n, s, i, j)[At(n, p, q)]
            == if p == i + s && q == j + s then -d[At(n, i, j)]
               else if (p == i + s && q == j) || (p == i && q == j + s) then d[At(n, i, j)]
               else d[At(n, p, q)]
  {
    AtInRange(n, p, q);
    AtInRange(n, i, j);
    AtInRange(n, i + s, j);
    AtInRange(n, i, j + s);
    AtInRange(n, i + s, j + s);
    if p != i + s || q != j { AtInjective(n, p, q, i + s, j); }
    if p != i || q != j + s { AtInjective(n, p, q, i, j + s); }
    if p != i + s || q != j + s { AtInjective(n, p, q, i + s, j + s); }
  }

  lemma SpreadFills(d: seq<real>, n: nat, c: real, s: nat, i: nat, j: nat)
    requires i < s && j < s && 2 * s <= n && |d| == Row(n, n) && PowerOfTwo(s)
    requires Filled(d, n, c, s, i, j)
    ensures Filled(Spread(d, n, s, i, j), n, c, s, i, j + 1)
  {
    var e := Spread(d, n, s, i, j);
    assert Done(s, i, j, i, j);
    forall p: nat, q: nat | Done(s, i, j + 1, p, q)
      ensures Holds(e, n, c, p, q)
    {
      SpreadAt(d, n, s, i, j, p, q);
      SignDoubles(s, i, j);
      if !Done(s, i, j, p, q) {
        assert Fold(s, p) == i && Fold(s, q) == j;
      }
    }
  }

  lemma RowDone(d: seq<real>, n: nat, c: real, s: nat, i: nat)
    requires 2 * s <= n && |d| == Row(n, n) && Filled(d, n, c, s, i, s)
    ensures Filled(d, n, c, s, i + 1, 0)
  {
    forall p: nat, q: nat | Done(s, i + 1, 0, p, q)
      ensures Holds(d, n, c, p, q)
    {
      assert Done(s, i, s, p, q);
    }
  }

  /** Every entry of the leading s*s block is in place. */
  ghost predicate Block(d: seq<real>, n: nat, c: real, s: nat) {
    forall p: nat, q: nat {:trigger At(n, p, q)} :: p < s && q < s ==> Holds(d, n, c, p, q)
  }

  lemma BlockGrows(d: seq<real>, n: nat, c: real, s: nat)
    requires 2 * s <= n && |d| == Row(n, n) && Filled(d, n, c, s, s, 0)
    ensures Block(d, n, c, 2 * s)
  {
    forall p: nat, q: nat | p < 2 * s && q < 2 * s
      ensures Holds(d, n, c, p, q)
    {
      assert Done(s, s, 0, p, q);
    }
  }

  lemma BlockStarts(d: seq<real>, n: nat, c: real, s: nat)
    requires 2 * s <= n && |d| == Row(n, n) && Block(d, n, c, s)
    ensures Filled(d, n, c, s, 0, 0)
  {
    forall p: nat, q: nat | Done(s, 0, 0, p, q)
      ensures Holds(d, n, c, p, q)
    {
      assert At(n, p, q) == At(n, p, q);
    }
  }

  /** `ggml_gen_hadamard`: c stands for the rounded 1 / sqrt(n). */
  method GenHadamard(data: array<real>, n: nat, c: real)
    requires PowerOfTwo(n) && data.Length == n * n
    modifies data
    ensures Block(data[..], n, c, n)
  {
    RowIsProduct(n, n);
    AtInRange(n, 0, 0);
    data[At(n, 0, 0)] := c;
    var s := 1;
    while s < n
      invariant 1 <= s <= n && PowerOfTwo(s) && Block(data[..], n, c, s)
    {
      DoublingReaches(s, n);
      BlockStarts(data[..], n, c, s);
      for i := 0 to s
        invariant Filled(data[..], n, c, s, i, 0)
      {
        for j := 0 to s
          invariant Filled(data[..], n, c, s, i, j)
        {
          SpreadFills(data[..], n, c, s, i, j);
          SpreadOne(data, n, s, i, j);
        }
        RowDone(data[..], n, c, s, i);
      }
      BlockGrows(data[..], n, c, s);
      s := s * 2;
    }
  }

  method SpreadOne(data: array<real>, n: nat, s: nat, i: nat, j: nat)
    requires i < s && j < s && 2 * s <= n && data.Length == Row(n, n)
    modifies data
    ensures data[..] == Spread(old(data[..]), n, s, i, j)
  {
    AtInRange(n, i, j); AtInRange(n, i + s, j); AtInRange(n, i, j + s); AtInRange(n, i + s, j + s);
    var val := data[At(n, i, j)];
    data[At(n, i + s, j)] := val;
    data[At(n, i, j + s)] := val;
    data[At(n, i + s, j + s)] := -val;
  }

  // ---- what the matrix is for ----

  /** Entry (i, j) of the product of the matrix with itself, over the first t places. */
  function Product(d: seq<real>, n: nat, i: nat, j: nat, t: nat): real
    requires i < n && j < n && t <= n && |d| == Row(n, n)
  {
    if t == 0 then 0.0
    else
      AtInRange(n, i, t - 1); AtInRange(n, t - 1, j);
      Product(d, n, i, j, t - 1) + d[At(n, i, t - 1)] * d[At(n, t - 1, j)]
  }

  lemma EntryTimesEntry(c: real, i: nat, k: nat, j: nat)
    ensures Entry(c, i, k) * Entry(c, k, j) == if Term(i, k, j) == 1 then c * c else -(c * c)
  {
  }

  function ScaledDot(k: real, i: nat, j: nat, t: nat): real {
    if t == 0 then 0.0 else ScaledDot(k, i, j, t - 1) + if Term(i, t - 1, j) == 1 then k else -k
  }

  /** k taken x times. */
  function Times(k: real, x: int): real
    decreases if x < 0 then -x else x
  {
    if x == 0 then 0.0 else if x > 0 then Times(k, x - 1) + k else Times(k, x + 1) - k
  }

  lemma {:induction false} TimesIsProduct(k: real, n: nat)
    ensures Times(k, n) == k * n as real
  {
    if n > 0 {
      TimesIsProduct(k, n - 1);
      OneMoreTime(k, n - 1);
    }
  }

  lemma OneMoreTime(k: real, n: nat)
    ensures k * (n + 1) as real == k * n as real + k
  {
    assert (n + 1) as real == n as real + 1.0;
  }

  lemma {:induction false} ScaledDotIs(k: real, i: nat, j: nat, t: nat)
    ensures ScaledDot(k, i, j, t) == Times(k, Dot(i, j, t))
  {
    if t > 0 {
      ScaledDotIs(k, i, j, t - 1);
    }
  }

  /** The k-th summand of the product is plus or minus cc, as the signs say. */
  ghost predicate Summand(d: seq<real>, n: nat, cc: real, i: nat, k: nat, j: nat) {
    At(n, i, k) < |d| && At(n, k, j) < |d|
    && d[At(n, i, k)] * d[At(n, k, j)] == if Term(i, k, j) == 1 then cc else -cc
  }

  lemma BlockSummand(d: seq<real>, n: nat, c: real, i: nat, k: nat, j: nat)
    requires i < n && j < n && k < n && Block(d, n, c, n)
    ensures Summand(d, n, c * c, i, k, j)
  {
    assert Holds(d, n, c, i, k) && Holds(d, n, c, k, j) by {
      assert At(n, i, k) + At(n, k, j) >= 0;
    }
    EntryTimesEntry(c, i, k, j);
  }

  lemma {:induction false} ProductIsScaledDot(d: seq<real>, n: nat, cc: real, i: nat, j: nat, t: nat)
    requires i < n && j < n && t <= n && |d| == Row(n, n)
    requires forall k: nat :: k < t ==> Summand(d, n, cc, i, k, j)
    ensures Product(d, n, i, j, t) == ScaledDot(cc, i, j, t)
  {
    if t > 0 {
      ProductIsScaledDot(d, n, cc, i, j, t - 1);
      assert Summand(d, n, cc, i, t - 1, j);
    }
  }

  lemma ProductOfBlock(d: seq<real>, n: nat, c: real, i: nat, j: nat)
    requires PowerOfTwo(n) && i < n && j < n && |d| == Row(n, n) && Block(d, n, c, n)
    ensures Product(d, n, i, j, n) == ScaledDot(c * c, i, j, n)
  {
    var cc := c * c;
    forall k: nat | k < n
      ensures Summand(d, n, cc, i, k, j)
    {
      BlockSummand(d, n, c, i, k, j);
    }
    ProductIsScaledDot(d, n, cc, i, j, n);
  }

  /** k is exactly 1 / n. */
  ghost predicate UnitFactor(k: real, n: nat) {
    k * n as real == 1.0
  }

  lemma ScaledDotUnit(k: real, n: nat, i: nat, j: nat)
    requires PowerOfTwo(n) && i < n && j < n && UnitFactor(k, n)
    ensures ScaledDot(k, i, j, n) == if i == j then 1.0 else 0.0
  {
    TimesIsProduct(k, n);
    ScaledDotIs(k, i, j, n);
    SignsAreOrthogonal(n, i, j);
  }

  lemma BlockSymmetric(d: seq<real>, n: nat, c: real, i: nat, j: nat)
    requires i < n && j < n && Block(d, n, c, n)
    ensures At(n, i, j) < |d| && At(n, j, i) < |d| && d[At(n, i, j)] == d[At(n, j, i)]
  {
    assert Holds(d, n, c, i, j) && Holds(d, n, c, j, i) by {
      assert At(n, i, j) + At(n, j, i) >= 0;
    }
    SignSymmetric(i, j);
  }

  /** The filled matrix is symmetric, and it is its own inverse when c is exactly 1 / sqrt(n). */
  lemma RotationIsInvolution(d: seq<real>, n: nat, c: real, i: nat, j: nat)
    requires PowerOfTwo(n) && i < n && j < n && |d| == Row(n, n) && Block(d, n, c, n)
    requires UnitFactor(c * c, n)
    ensures At(n, i, j) < |d| && At(n, j, i) < |d| && d[At(n, i, j)] == d[At(n, j, i)]
    ensures Product(d, n, i, j, n) == if i == j then 1.0 else 0.0
  {
    BlockSymmetric(d, n, c, i, j);
    ProductOfBlock(d, n, c, i, j);
    ScaledDotUnit(c * c, n, i, j);
  }
}
