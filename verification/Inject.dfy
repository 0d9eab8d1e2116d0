/** The fault lever of the layer-major driver: a text names one stage, range and ubatch, and the
    failure it asks for happens there once. */
module Inject {
  import opened Wrappers

  newtype int32 = x: int | -0x8000_0000 <= x < 0x8000_0000

  datatype Stage = NoStage | Build | Alloc | Compute

  datatype Lever = Lever(stage: Stage, r: int32, ub: int32, armed: bool)

  const UNARMED := Lever(NoStage, -1, -1, false)

  // ---- the grammar ----

  function Name(stage: Stage): string {
    match stage
    case NoStage => "none"
    case Build => "build"
    case Alloc => "alloc"
    case Compute => "compute"
  }

  predicate Digit(c: char) {
    '0' <= c <= '9'
  }

  /** One to nine decimal digits. */
  predicate IsIndex(s: string) {
    1 <= |s| <= 9 && forall i :: 0 <= i < |s| ==> Digit(s[i])
  }

  function Value(s: string): (v: nat)
    requires forall i :: 0 <= i < |s| ==> Digit(s[i])
    ensures |s| <= 9 ==> v < 1_000_000_000
  {
    ValueBound(s, |s|);
    ValueOf(s, |s|)
  }

  function ValueOf(s: string, n: nat): nat
    requires n <= |s| && forall i :: 0 <= i < |s| ==> Digit(s[i])
  {
    if n == 0 then 0 else ValueOf(s, n - 1) * 10 + (s[n - 1] - '0') as nat
  }

  function Power10(n: nat): nat {
    if n == 0 then 1 else 10 * Power10(n - 1)
  }

  lemma {:induction false} ValueBound(s: string, n: nat)
    requires n <= |s| && forall i :: 0 <= i < |s| ==> Digit(s[i])
    ensures ValueOf(s, n) < Power10(n)
    ensures n <= 9 ==> Power10(n) <= 1_000_000_000
  {
    PowersBelow(n);
    if n > 0 {
      ValueBound(s, n - 1);
    }
  }

  lemma {:induction false} PowersBelow(n: nat)
    ensures n <= 9 ==> Power10(n) * Power10(9 - n) == 1_000_000_000 && Power10(9 - n) >= 1
    decreases if n <= 9 then 9 - n else 0
  {
    if n < 9 {
      PowersBelow(n + 1);
      assert Power10(9 - n) == 10 * Power10(9 - (n + 1));
      assert Power10(n + 1) == 10 * Power10(n);
    } else if n == 9 {
      assert Power10(9) == 10 * 10 * 10 * 10 * 10 * 10 * 10 * 10 * 10;
    }
  }

  /** Stage, range and ubatch as they are to be written. */
  function Spelled(stage: Stage, a: string, b: string): string {
    Name(stage) + ":" + a + ":" + b
  }

  ghost predicate Reads(spec: string, stage: Stage, a: string, b: string) {
    stage != NoStage && IsIndex(a) && IsIndex(b) && spec == Spelled(stage, a, b)
  }

  /** The three words, each in a text of its own. */
  lemma Words()
    ensures Reads("build:0:12", Build, "0", "12")
    ensures Reads("alloc:3:0", Alloc, "3", "0")
    ensures Reads("compute:63:1", Compute, "63", "1")
    ensures Value("63") == 63
  {
    assert ValueOf("63", 2) == ValueOf("63", 1) * 10 + 3 && ValueOf("63", 1) == ValueOf("63", 0) * 10 + 6;
  }

  /** The lever a well-formed text stands for. */
  ghost predicate Means(spec: string, lever: Lever) {
    exists a, b :: Reads(spec, lever.stage, a, b)
                   && lever == Lever(lever.stage, Value(a) as int32, Value(b) as int32, true)
  }

  // ---- reading it ----

  /** `strchr` for the separator, from place from on. */
  method FindColon(s: string, from: nat) returns (r: Option<nat>)
    requires from <= |s|
    ensures r == None ==> forall i :: from <= i < |s| ==> s[i] != ':'
    ensures r.Some? ==> from <= r.value < |s| && s[r.value] == ':' && forall i :: from <= i < r.value ==> s[i] != ':'
  {
    for i := from to |s|
      invariant forall j :: from <= j < i ==> s[j] != ':'
    {
      if s[i] == ':' {
        return Some(i);
      }
    }
    return None;
  }

  /** `moe_s2_inject_parse_idx`: the accumulator never leaves 32 bits. */
  method ParseIndex(s: string) returns (r: Option<int32>)
    ensures r.Some? <==> IsIndex(s)
    ensures r.Some? ==> r.value as int == Value(s)
  {
    if |s| == 0 || |s| > 9 {
      return None;
    }
    var v: int32 := 0;
    for i := 0 to |s|
      invariant forall j :: 0 <= j < i ==> Digit(s[j])
      invariant v as int == ValueOf(s[..i], i)
    {
      if !Digit(s[i]) {
        return None;
      }
      ValuePrefix(s[..i + 1], s[..i], i);
      ValueBound(s[..i], i);
      SmallPower(i);
      v := v * 10 + (s[i] - '0') as int32;
    }
    assert s[..|s|] == s;
    return Some(v);
  }

  lemma {:induction false} ValuePrefix(s: string, t: string, n: nat)
    requires n <= |s| && n <= |t| && s[..n] == t[..n]
    requires (forall i :: 0 <= i < |s| ==> Digit(s[i])) && forall i :: 0 <= i < |t| ==> Digit(t[i])
    ensures ValueOf(s, n) == ValueOf(t, n)
  {
    if n > 0 {
      assert s[..n - 1] == s[..n][..n - 1] && t[..n - 1] == t[..n][..n - 1];
      assert s[..n][n - 1] == t[..n][n - 1];
      ValuePrefix(s, t, n - 1);
    }
  }

  lemma {:induction false} SmallPower(n: nat)
    requires n <= 8
    ensures Power10(n) <= 100_000_000
    decreases 8 - n
  {
    if n == 8 {
      assert Power10(8) == 10 * 10 * 10 * 10 * 10 * 10 * 10 * 10;
    } else {
      SmallPower(n + 1);
      assert Power10(n + 1) == 10 * Power10(n);
    }
  }

  /** A well-formed text has its two separators right after the stage and right before the ubatch. */
  lemma Separators(spec: string, stage: Stage, a: string, b: string)
    requires Reads(spec, stage, a, b)
    ensures |spec| == |Name(stage)| + |a| + |b| + 2
    ensures forall i :: 0 <= i < |spec| ==> (spec[i] == ':' <==> i == |Name(stage)| || i == |Name(stage)| + 1 + |a|)
    ensures spec[..|Name(stage)|] == Name(stage)
    ensures spec[|Name(stage)| + 1..|Name(stage)| + 1 + |a|] == a
    ensures spec[|Name(stage)| + 2 + |a|..] == b
  {
    var n := Name(stage);
    assert forall i :: 0 <= i < |n| ==> n[i] != ':';
    assert spec == n + [':'] + a + [':'] + b;
    forall i | 0 <= i < |spec|
      ensures spec[i] == ':' <==> i == |n| || i == |n| + 1 + |a|
    {
      if |n| < i < |n| + 1 + |a| {
        assert spec[i] == a[i - |n| - 1] && Digit(spec[i]);
      } else if |n| + 1 + |a| < i {
        assert spec[i] == b[i - |n| - 2 - |a|] && Digit(spec[i]);
      }
    }
  }

  datatype Fields = Fields(stage: string, range: string, ubatch: string)

  /** The text cut at its separators, if there are exactly two. */
  method Cut(s: string) returns (r: Option<Fields>)
    ensures r.Some? ==> s == r.value.stage + ":" + r.value.range + ":" + r.value.ubatch
    ensures forall st, a, b :: Reads(s, st, a, b) ==> r == Some(Fields(Name(st), a, b))
  {
    forall st, a, b | Reads(s, st, a, b)
      ensures CutAt(s, |Name(st)|, |Name(st)| + 1 + |a|) && s[..|Name(st)|] == Name(st)
              && s[|Name(st)| + 1..|Name(st)| + 1 + |a|] == a && s[|Name(st)| + 2 + |a|..] == b
    {
      Separators(s, st, a, b);
    }
    var c1 := FindColon(s, 0);
    if c1 == None {
      return None;
    }
    var c2 := FindColon(s, c1.value + 1);
    if c2 == None {
      return None;
    }
    var c3 := FindColon(s, c2.value + 1);
    if c3.Some? {
      return None;
    }
    assert s == s[..c1.value] + [s[c1.value]] + s[c1.value + 1..c2.value] + [s[c2.value]] + s[c2.value + 1..];
    return Some(Fields(s[..c1.value], s[c1.value + 1..c2.value], s[c2.value + 1..]));
  }

  /** The separators of s are at p and q and nowhere else. */
  ghost predicate CutAt(s: string, p: nat, q: nat) {
    p < q < |s| && s[p] == ':' && s[q] == ':'
    && forall i :: 0 <= i < |s| && s[i] == ':' ==> i == p || i == q
  }

  function StageOf(word: string): (r: Stage)
    ensures forall st :: st != NoStage && word == Name(st) ==> r == st
    ensures r != NoStage ==> word == Name(r)
  {
    if word == "build" then Build
    else if word == "alloc" then Alloc
    else if word == "compute" then Compute
    else NoStage
  }

  /** Every well-formed text is accepted, with the values it names, and nothing else is; a refused
      text leaves the lever unarmed. */
  method Parse(spec: Option<string>) returns (ok: bool, out: Lever)
    ensures ok ==> spec.Some? && Means(spec.value, out)
    ensures !ok ==> out == UNARMED
    ensures spec.Some? ==> forall stage, a, b :: Reads(spec.value, stage, a, b) ==>
              ok && out == Lever(stage, Value(a) as int32, Value(b) as int32, true)
  {
    if spec == None || spec.value == "" {
      return false, UNARMED;
    }
    var cut := Cut(spec.value);
    if cut == None {
      return false, UNARMED;
    }
    var f := cut.value;
    var stage := StageOf(f.stage);
    if stage == NoStage {
      return false, UNARMED;
    }
    var r := ParseIndex(f.range);
    if r == None {
      return false, UNARMED;
    }
    var u := ParseIndex(f.ubatch);
    if u == None {
      return false, UNARMED;
    }
    assert Reads(spec.value, stage, f.range, f.ubatch);
    return true, Lever(stage, r.value, u.value, true);
  }

  // ---- writing it ----

  function Decimal(x: nat): (s: string)
    ensures |s| >= 1 && forall i :: 0 <= i < |s| ==> Digit(s[i])
  {
    var last := [('0' as int + x % 10) as char];
    if x < 10 then last else Decimal(x / 10) + last
  }

  /** Reading a printed number gives it back, and it has no more than k digits below 10^k. */
  lemma {:induction false} DecimalReads(x: nat, k: nat)
    requires k > 0
    ensures Value(Decimal(x)) == x
    ensures |Decimal(x)| <= k <==> x < Power10(k)
  {
    var s := Decimal(x);
    var d := ('0' as int + x % 10) as char;
    if x < 10 {
      assert s == [d] && ValueOf(s, 0) == 0;
      PowerPositive(k - 1);
    } else {
      var t := Decimal(x / 10);
      assert s == t + [d];
      assert s[..|t|] == t == t[..|t|];
      ValuePrefix(s, t, |t|);
      if k > 1 {
        DecimalReads(x / 10, k - 1);
      } else {
        DecimalReads(x / 10, 1);
        assert Power10(1) == 10;
      }
    }
  }

  lemma {:induction false} PowerPositive(n: nat)
    ensures Power10(n) >= 1
  {
    if n > 0 {
      PowerPositive(n - 1);
    }
  }

  /** What is printed is well-formed exactly if both indices have at most nine digits, and then it
      reads as what was printed. */
  lemma PrintedReads(stage: Stage, r: nat, u: nat)
    requires stage != NoStage
    ensures Reads(Spelled(stage, Decimal(r), Decimal(u)), stage, Decimal(r), Decimal(u))
            <==> r < 1_000_000_000 && u < 1_000_000_000
    ensures Value(Decimal(r)) == r && Value(Decimal(u)) == u
  {
    assert Power10(9) == 10 * 10 * 10 * 10 * 10 * 10 * 10 * 10 * 10;
    DecimalReads(r, 9);
    DecimalReads(u, 9);
  }

  // ---- firing it ----

  /** A place in the driver where a failure may be asked for. */
  datatype Place = Place(stage: Stage, r: int32, ub: int32)

  predicate Aims(lever: Lever, at: Place) {
    lever == Lever(at.stage, at.r, at.ub, true)
  }

  function Fired(lever: Lever, at: Place): Lever {
    if Aims(lever, at) then lever.(armed := false) else lever
  }

  /** The lever is read at most once in the life of the process. */
  class Injection {
    var parsed: bool
    var lever: Lever
    /** How often the lever has fired. */
    ghost var fired: nat

    ghost predicate Valid()
      reads this
    {
      (!parsed ==> lever == UNARMED && fired == 0) && (lever.armed ==> fired == 0) && fired <= 1
    }

    constructor ()
      ensures Valid() && !parsed && fired == 0
    {
      parsed, lever, fired := false, UNARMED, 0;
    }

    /** Only the first call looks at the environment at all. */
    method Initialize(spec: Option<string>)
      requires Valid()
      modifies this
      ensures Valid() && parsed && fired == old(fired)
      ensures old(parsed) ==> lever == old(lever)
      ensures !old(parsed) ==> lever == UNARMED || (spec.Some? && Means(spec.value, lever))
      ensures !old(parsed) && spec.Some? ==> forall stage, a, b :: Reads(spec.value, stage, a, b) ==>
                lever == Lever(stage, Value(a) as int32, Value(b) as int32, true)
    {
      if parsed {
        return;
      }
      parsed := true;
      if spec == None || spec.value == "" {
        return;
      }
      var ok, out := Parse(spec);
      lever := out;
    }

    /** One place where a failure may be asked for: it fails if the lever names it, and never again. */
    method FireAt(at: Place) returns (hit: bool)
      requires Valid()
      modifies this
      ensures Valid() && parsed == old(parsed) && fired == old(fired) + if hit then 1 else 0
      ensures hit <==> Aims(old(lever), at)
      ensures lever == Fired(old(lever), at)
    {
      if !lever.armed || lever.stage != at.stage || lever.r != at.r || lever.ub != at.ub {
        return false;
      }
      lever := lever.(armed := false);
      fired := fired + 1;
      return true;
    }
  }

  // ---- any number of calls ----

  /** The lever after the first n of a run of calls, and how many of them it hit. */
  function After(lever: Lever, calls: seq<Place>, n: nat): (Lever, nat)
    requires n <= |calls|
  {
    if n == 0 then (lever, 0)
    else
      var (now, hits) := After(lever, calls, n - 1);
      (Fired(now, calls[n - 1]), hits + if Aims(now, calls[n - 1]) then 1 else 0)
  }

  /** Over any run an armed lever hits exactly once if some call names its place, else never; from the
      first such call on it is disarmed. */
  lemma {:induction false} HitsOnce(lever: Lever, calls: seq<Place>, n: nat)
    requires n <= |calls|
    ensures var named := exists i :: 0 <= i < n && Aims(lever, calls[i]);
            After(lever, calls, n) == if named then (lever.(armed := false), 1) else (lever, 0)
  {
    if n > 0 {
      HitsOnce(lever, calls, n - 1);
      assert Aims(lever, calls[n - 1]) ==> exists i :: 0 <= i < n && Aims(lever, calls[i]);
    }
  }
}
