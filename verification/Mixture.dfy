/** The shadow mixture of one token: the experts at hand stand in for all that were chosen, their
    weights scaled so that the total stays what it was. Over the reals. */
module Mixture {
  /** The weight of the first n chosen experts, and of those among them that are present. */
  function MassAll(wt: seq<real>, n: nat): real
    requires n <= |wt|
  {
    if n == 0 then 0.0 else MassAll(wt, n - 1) + wt[n - 1]
  }

  function MassPresent(wt: seq<real>, mask: set<nat>, n: nat): real
    requires n <= |wt|
  {
    if n == 0 then 0.0
    else MassPresent(wt, mask, n - 1) + if n - 1 in mask then wt[n - 1] else 0.0
  }

  /** Nothing can stand in: no expert is resident, or those that are carry no weight. */
  predicate AllDropped(wt: seq<real>, mask: set<nat>, nPresent: int) {
    nPresent <= 0 || MassPresent(wt, mask, |wt|) <= 0.0
  }

  /** The factor on every present weight. */
  function Scale(wt: seq<real>, mask: set<nat>): real
    requires MassPresent(wt, mask, |wt|) != 0.0
  {
    MassAll(wt, |wt|) / MassPresent(wt, mask, |wt|)
  }

  /** The weight expert i gets. */
  function Weight(wt: seq<real>, mask: set<nat>, i: nat): real
    requires i < |wt| && MassPresent(wt, mask, |wt|) != 0.0
  {
    if i in mask then wt[i] * Scale(wt, mask) else 0.0
  }

  datatype Expert = Gone | Gave(row: seq<real>)

  /** What expert i adds to column c: nothing unless it is present and gave a row. */
  function Part(wt: seq<real>, mask: set<nat>, rows: seq<Expert>, c: nat, i: nat): real
    requires i < |wt| == |rows| && MassPresent(wt, mask, |wt|) != 0.0
    requires rows[i].Gave? ==> c < |rows[i].row|
  {
    if i in mask && rows[i].Gave? then Weight(wt, mask, i) * rows[i].row[c] else 0.0
  }

  /** Column c of the first n experts' weighted rows. */
  function Mixed(wt: seq<real>, mask: set<nat>, rows: seq<Expert>, c: nat, n: nat): real
    requires n <= |wt| == |rows| && MassPresent(wt, mask, |wt|) != 0.0
    requires forall i :: 0 <= i < |rows| && rows[i].Gave? ==> c < |rows[i].row|
  {
    if n == 0 then 0.0
    else Mixed(wt, mask, rows, c, n - 1) + Part(wt, mask, rows, c, n - 1)
  }

  /** Some present expert among the first n gave nothing. */
  predicate SomeGone(mask: set<nat>, rows: seq<Expert>, n: nat)
    requires n <= |rows|
  {
    exists i: nat :: i < n && i in mask && rows[i].Gone?
  }

  datatype Stat = Stat(massAll: real, massPresent: real, massRatio: real, allDropped: bool, failed: bool)

  ghost predicate Shaped(wt: seq<real>, rows: seq<Expert>, width: nat) {
    |rows| == |wt| && forall i :: 0 <= i < |rows| && rows[i].Gave? ==> |rows[i].row| == width
  }

  method Masses(wt: seq<real>, mask: set<nat>) returns (all: real, present: real)
    ensures all == MassAll(wt, |wt|) && present == MassPresent(wt, mask, |wt|)
  {
    all, present := 0.0, 0.0;
    for i := 0 to |wt|
      invariant all == MassAll(wt, i) && present == MassPresent(wt, mask, i)
    {
      all := all + wt[i];
      if i in mask {
        present := present + wt[i];
      }
    }
  }

  method AddRow(out: array<real>, wn: real, row: seq<real>)
    requires |row| == out.Length
    modifies out
    ensures forall c :: 0 <= c < out.Length ==> out[c] == old(out[c]) + wn * row[c]
  {
    for c := 0 to out.Length
      invariant forall i :: 0 <= i < c ==> out[i] == old(out[i]) + wn * row[i]
      invariant forall i :: c <= i < out.Length ==> out[i] == old(out[i])
    {
      out[c] := out[c] + wn * row[c];
    }
  }

  /** `shadow_moe_token_body`: rows are what the experts' own networks yield, Gone where a weight is
      not to be found or a product fails. */
  method TokenBody(wt: seq<real>, mask: set<nat>, nPresent: int, rows: seq<Expert>, out: array<real>)
    returns (st: Stat)
    requires Shaped(wt, rows, out.Length)
    modifies out
    ensures st.massAll == MassAll(wt, |wt|) && st.massPresent == MassPresent(wt, mask, |wt|)
    ensures st.massRatio == if st.massAll != 0.0 then st.massPresent / st.massAll else 0.0
    ensures st.allDropped == AllDropped(wt, mask, nPresent)
    ensures st.failed == (!st.allDropped && SomeGone(mask, rows, |rows|))
    ensures st.allDropped ==> out[..] == old(out[..])
    ensures !st.allDropped ==> forall c: nat :: c < out.Length ==>
              out[c] == old(out[c]) + Mixed(wt, mask, rows, c, |wt|)
  {
    var all, present := Masses(wt, mask);
    st := Stat(all, present, if all != 0.0 then present / all else 0.0, nPresent <= 0 || present <= 0.0, false);
    if st.allDropped {
      return;
    }
    for i := 0 to |wt|
      invariant st == Stat(all, present, if all != 0.0 then present / all else 0.0, false, SomeGone(mask, rows, i))
      invariant forall c: nat :: c < out.Length ==> out[c] == old(out[c]) + Mixed(wt, mask, rows, c, i)
    {
      if i in mask {
        var wn := wt[i] * (all / present);
        if rows[i].Gone? {
          st := st.(failed := true);
        } else {
          AddRow(out, wn, rows[i].row);
        }
      }
    }
  }

  // ---- what the scaling keeps ----

  /** The weights of the first n experts together. */
  function Total(wt: seq<real>, mask: set<nat>, n: nat): real
    requires n <= |wt| && MassPresent(wt, mask, |wt|) != 0.0
  {
    if n == 0 then 0.0 else Total(wt, mask, n - 1) + Weight(wt, mask, n - 1)
  }

  lemma Distribute(a: real, b: real, k: real)
    ensures (a + b) * k == a * k + b * k
  {
  }

  lemma {:induction false} TotalIsScaledMass(wt: seq<real>, mask: set<nat>, n: nat)
    requires n <= |wt| && MassPresent(wt, mask, |wt|) != 0.0
    ensures Total(wt, mask, n) == MassPresent(wt, mask, n) * Scale(wt, mask)
  {
    if n > 0 {
      TotalIsScaledMass(wt, mask, n - 1);
      if n - 1 in mask {
        Distribute(MassPresent(wt, mask, n - 1), wt[n - 1], Scale(wt, mask));
      }
    }
  }

  lemma Quotient(a: real, p: real)
    requires p != 0.0
    ensures p * (a / p) == a
  {
  }

  lemma {:induction false} MassIsPositive(wt: seq<real>, mask: set<nat>, n: nat)
    requires n <= |wt| && forall i :: 0 <= i < |wt| ==> wt[i] >= 0.0
    ensures MassPresent(wt, mask, n) >= 0.0
    ensures MassPresent(wt, mask, n) > 0.0 <==> exists i: nat :: i < n && i in mask && wt[i] > 0.0
  {
    if n > 0 {
      MassIsPositive(wt, mask, n - 1);
      if exists i: nat :: i < n - 1 && i in mask && wt[i] > 0.0 {
        var i: nat :| i < n - 1 && i in mask && wt[i] > 0.0;
        assert i < n && i in mask && wt[i] > 0.0;
      }
    }
  }

  /** With nonnegative weights a token is dropped exactly if no expert is resident, or none of those
      that are present has a positive weight. */
  lemma DroppedMeans(wt: seq<real>, mask: set<nat>, nPresent: int)
    requires forall i :: 0 <= i < |wt| ==> wt[i] >= 0.0
    ensures AllDropped(wt, mask, nPresent) <==>
      nPresent < 1 || !(exists i: nat :: i < |wt| && i in mask && wt[i] > 0.0)
  {
    MassIsPositive(wt, mask, |wt|);
  }

  /** The total weight is that of all chosen experts, present or not. */
  lemma TotalIsKept(wt: seq<real>, mask: set<nat>)
    requires MassPresent(wt, mask, |wt|) != 0.0
    ensures Total(wt, mask, |wt|) == MassAll(wt, |wt|)
  {
    TotalIsScaledMass(wt, mask, |wt|);
    Quotient(MassAll(wt, |wt|), MassPresent(wt, mask, |wt|));
  }

  /** Present experts keep their proportions. */
  lemma RatiosAreKept(wt: seq<real>, mask: set<nat>, i: nat, j: nat)
    requires i < |wt| && j < |wt| && i in mask && j in mask && MassPresent(wt, mask, |wt|) != 0.0
    ensures Weight(wt, mask, i) * wt[j] == Weight(wt, mask, j) * wt[i]
  {
    var a, b, k := wt[i], wt[j], Scale(wt, mask);
    assert (a * k) * b == (b * k) * a;
  }

  lemma {:induction false} EverythingPresent(wt: seq<real>, mask: set<nat>, n: nat)
    requires n <= |wt| && forall i: nat :: i < n ==> i in mask
    ensures MassPresent(wt, mask, n) == MassAll(wt, n)
  {
    if n > 0 {
      EverythingPresent(wt, mask, n - 1);
    }
  }

  /** The plain weighted sum. */
  function Plain(wt: seq<real>, rows: seq<Expert>, c: nat, n: nat): real
    requires n <= |wt| == |rows| && forall i :: 0 <= i < |rows| ==> rows[i].Gave? && c < |rows[i].row|
  {
    if n == 0 then 0.0 else Plain(wt, rows, c, n - 1) + wt[n - 1] * rows[n - 1].row[c]
  }

  lemma UnitScale(wt: seq<real>, mask: set<nat>)
    requires MassPresent(wt, mask, |wt|) > 0.0 && forall i: nat :: i < |wt| ==> i in mask
    ensures Scale(wt, mask) == 1.0
  {
    EverythingPresent(wt, mask, |wt|);
    SelfQuotient(MassAll(wt, |wt|));
  }

  lemma SelfQuotient(a: real)
    requires a != 0.0
    ensures a / a == 1.0
  {
  }

  /** With every expert present the result is the plain weighted sum. */
  lemma {:induction false} AllPresentIsPlain(wt: seq<real>, mask: set<nat>, rows: seq<Expert>, c: nat, n: nat)
    requires n <= |wt| == |rows| && MassPresent(wt, mask, |wt|) > 0.0
    requires forall i :: 0 <= i < |rows| ==> rows[i].Gave? && c < |rows[i].row|
    requires forall i: nat :: i < |wt| ==> i in mask
    ensures Mixed(wt, mask, rows, c, n) == Plain(wt, rows, c, n)
  {
    if n > 0 {
      AllPresentIsPlain(wt, mask, rows, c, n - 1);
      UnitScale(wt, mask);
    }
  }

  // ---- the mixture stays between the experts ----

  lemma Bounded(w: real, lo: real, y: real, hi: real)
    requires w >= 0.0 && lo <= y <= hi
    ensures w * lo <= w * y <= w * hi
  {
  }

  /** One more summand between its bounds. */
  lemma OneMore(t: real, m: real, w: real, x: real, lo: real, hi: real)
    requires t * lo <= m <= t * hi && w * lo <= x <= w * hi
    ensures (t + w) * lo <= m + x <= (t + w) * hi
  {
    Distribute(t, w, lo);
    Distribute(t, w, hi);
  }

  lemma WeightNonnegative(wt: seq<real>, mask: set<nat>, i: nat)
    requires i < |wt| && wt[i] >= 0.0 && MassPresent(wt, mask, |wt|) != 0.0 && Scale(wt, mask) >= 0.0
    ensures Weight(wt, mask, i) >= 0.0
  {
    var w, k := wt[i], Scale(wt, mask);
    assert w * k >= 0.0;
  }

  function Sum(xs: seq<real>, n: nat): real
    requires n <= |xs|
  {
    if n == 0 then 0.0 else Sum(xs, n - 1) + xs[n - 1]
  }

  predicate Within(w: real, x: real, lo: real, hi: real) {
    w * lo <= x <= w * hi
  }

  lemma {:induction false} SumsWithin(ws: seq<real>, xs: seq<real>, lo: real, hi: real, n: nat)
    requires n <= |ws| == |xs| && forall i :: 0 <= i < |ws| ==> Within(ws[i], xs[i], lo, hi)
    ensures Within(Sum(ws, n), Sum(xs, n), lo, hi)
  {
    if n > 0 {
      SumsWithin(ws, xs, lo, hi, n - 1);
      OneMore(Sum(ws, n - 1), Sum(xs, n - 1), ws[n - 1], xs[n - 1], lo, hi);
    }
  }

  lemma PartWithin(wt: seq<real>, mask: set<nat>, rows: seq<Expert>, c: nat, i: nat, lo: real, hi: real)
    requires i < |wt| == |rows| && MassPresent(wt, mask, |wt|) != 0.0 && Scale(wt, mask) >= 0.0 && wt[i] >= 0.0
    requires rows[i].Gave? ==> c < |rows[i].row|
    requires i in mask ==> rows[i].Gave? && lo <= rows[i].row[c] <= hi
    ensures Within(Weight(wt, mask, i), Part(wt, mask, rows, c, i), lo, hi)
  {
    if i in mask {
      WeightNonnegative(wt, mask, i);
      Bounded(Weight(wt, mask, i), lo, rows[i].row[c], hi);
    }
  }

  lemma {:induction false} SumOfParts(wt: seq<real>, mask: set<nat>, rows: seq<Expert>, c: nat, n: nat,
                                      ws: seq<real>, xs: seq<real>)
    requires n <= |wt| == |rows| == |ws| == |xs| && MassPresent(wt, mask, |wt|) != 0.0
    requires forall i :: 0 <= i < |rows| && rows[i].Gave? ==> c < |rows[i].row|
    requires forall i: nat :: i < |wt| ==> ws[i] == Weight(wt, mask, i) && xs[i] == Part(wt, mask, rows, c, i)
    ensures Sum(ws, n) == Total(wt, mask, n) && Sum(xs, n) == Mixed(wt, mask, rows, c, n)
  {
    if n > 0 {
      SumOfParts(wt, mask, rows, c, n - 1, ws, xs);
    }
  }

  lemma {:induction false} MassesOrdered(wt: seq<real>, mask: set<nat>, n: nat)
    requires n <= |wt| && forall i: nat :: i < |wt| ==> wt[i] >= 0.0
    ensures 0.0 <= MassPresent(wt, mask, n) <= MassAll(wt, n)
  {
    if n > 0 {
      MassesOrdered(wt, mask, n - 1);
    }
  }

  lemma NonnegativeQuotient(a: real, p: real)
    requires 0.0 < p <= a
    ensures a / p >= 1.0
  {
    Quotient(a, p);
  }

  /** With nonnegative weights and no expert lost on the way, a column lies between the least and the
      greatest of the present experts', times the total weight the router gave out. */
  lemma MixtureIsWeightedAverage(wt: seq<real>, mask: set<nat>, rows: seq<Expert>, c: nat, lo: real, hi: real)
    requires |wt| == |rows| && MassPresent(wt, mask, |wt|) > 0.0
    requires forall i :: 0 <= i < |rows| && rows[i].Gave? ==> c < |rows[i].row|
    requires forall i: nat :: i < |wt| ==> wt[i] >= 0.0
    requires forall i: nat :: i < |wt| && i in mask ==> rows[i].Gave? && lo <= rows[i].row[c] <= hi
    ensures MassAll(wt, |wt|) * lo <= Mixed(wt, mask, rows, c, |wt|) <= MassAll(wt, |wt|) * hi
  {
    MassesOrdered(wt, mask, |wt|);
    NonnegativeQuotient(MassAll(wt, |wt|), MassPresent(wt, mask, |wt|));
    var ws := seq(|wt|, i requires 0 <= i < |wt| => Weight(wt, mask, i));
    var xs := seq(|wt|, i requires 0 <= i < |wt| => Part(wt, mask, rows, c, i));
    forall i | 0 <= i < |wt|
      ensures Within(ws[i], xs[i], lo, hi)
    {
      PartWithin(wt, mask, rows, c, i, lo, hi);
    }
    SumsWithin(ws, xs, lo, hi, |wt|);
    SumOfParts(wt, mask, rows, c, |wt|, ws, xs);
    TotalIsKept(wt, mask);
  }
}
