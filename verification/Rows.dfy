/** Offsets of equally long rows laid end to end. */
module Rows {
  newtype Byte = x: int | 0 <= x < 0x100

  /** Where row i begins: i * n, as a sum. */
  function Row(n: nat, i: nat): nat {
    if i == 0 then 0 else Row(n, i - 1) + n
  }

  lemma {:induction false} RowIsProduct(n: nat, i: nat)
    ensures Row(n, i) == i * n
  {
    if i > 0 {
      RowIsProduct(n, i - 1);
      assert i * n == (i - 1) * n + n;
    }
  }

  lemma {:induction false} RowsApart(n: nat, i: nat, p: nat)
    requires i < p
    ensures Row(n, i) + n <= Row(n, p)
    decreases p
  {
    if i < p - 1 {
      RowsApart(n, i, p - 1);
    }
  }

  /** Overwrite the places from off on. */
  function Splice<T>(s: seq<T>, off: nat, rows: seq<T>): (r: seq<T>)
    requires off + |rows| <= |s|
    ensures |r| == |s|
    ensures r[off..off + |rows|] == rows
    ensures forall i :: 0 <= i < |s| && (i < off || off + |rows| <= i) ==> r[i] == s[i]
  {
    s[..off] + rows + s[off + |rows|..]
  }

  method CopyInto<T>(a: array<T>, off: nat, rows: seq<T>)
    requires off + |rows| <= a.Length
    modifies a
    ensures a[..] == Splice(old(a[..]), off, rows)
  {
    for t := 0 to |rows|
      invariant forall i :: 0 <= i < t ==> a[off + i] == rows[i]
      invariant forall i :: 0 <= i < a.Length && (i < off || off + t <= i) ==> a[i] == old(a[i])
    {
      a[off + t] := rows[t];
    }
  }

  /** A stretch that the overwritten one does not reach stays. */
  lemma SpliceKeeps<T>(s: seq<T>, off: nat, rows: seq<T>, a: nat, b: nat)
    requires off + |rows| <= |s| && a <= b <= |s| && (b <= off || off + |rows| <= a)
    ensures Splice(s, off, rows)[a..b] == s[a..b]
  {
  }

  lemma SpliceAt<T>(s: seq<T>, off: nat, rows: seq<T>, p: nat)
    requires off + |rows| <= |s| && p < |s|
    ensures Splice(s, off, rows)[p] == if off <= p < off + |rows| then rows[p - off] else s[p]
  {
    if off <= p < off + |rows| {
      assert Splice(s, off, rows)[off..off + |rows|][p - off] == Splice(s, off, rows)[p];
    }
  }
}
