/** Whether scoring failed too often, or too unevenly between the arms (`internal/analysis/missingness.go`).

    The asymmetry test is McNemar's, in exact arithmetic: binomial coefficients are integers and a
    p-value is a ratio of integers, where the program sums exponentials of log-gammas. */
module Missingness {

  const DEFAULT_ALPHA := 0.05
  const DEFAULT_MAX_DROP_RATE := 0.20

  // ---- Binomial coefficients and their partial sums ----

  function Choose(n: nat, k: nat): nat {
    if k == 0 then 1 else if n == 0 then 0 else Choose(n - 1, k - 1) + Choose(n - 1, k)
  }

  /** The sum of the coefficients 0..k of row n. */
  function Tail(n: nat, k: int): nat
    decreases k
  {
    if k < 0 then 0 else Tail(n, k - 1) + Choose(n, k)
  }

  function Pow2(n: nat): (r: nat)
    ensures r > 0
  {
    if n == 0 then 1 else 2 * Pow2(n - 1)
  }

  lemma {:induction false} ChooseRange(n: nat, k: nat)
    ensures k <= n ==> Choose(n, k) > 0
    ensures k > n ==> Choose(n, k) == 0
    ensures Choose(n, n) == 1
  {
    if k != 0 && n != 0 {
      ChooseRange(n - 1, k - 1);
      ChooseRange(n - 1, k);
    }
    if n != 0 {
      ChooseRange(n - 1, n);
    }
  }

  lemma {:induction false} ChooseSymmetric(n: nat, k: nat)
    requires k <= n
    ensures Choose(n, k) == Choose(n, n - k)
  {
    ChooseRange(n, n);
    if 0 < k < n {
      ChooseSymmetric(n - 1, k - 1);
      ChooseSymmetric(n - 1, k);
    }
  }

  lemma {:induction false} TailPascal(n: nat, k: int)
    ensures Tail(n + 1, k) == Tail(n, k) + Tail(n, k - 1)
    decreases k
  {
    if k >= 0 {
      TailPascal(n, k - 1);
    }
  }

  lemma {:induction false} TailFull(n: nat)
    ensures Tail(n, n) == Pow2(n)
  {
    if n > 0 {
      TailFull(n - 1);
      TailPascal(n - 1, n);
      ChooseRange(n - 1, n);
    }
  }

  /** The lower tail and the matching upper tail make up the whole row. */
  lemma {:induction false} TailComplement(n: nat, k: nat)
    requires k < n
    ensures Tail(n, k) + Tail(n, n - k - 1) == Pow2(n)
  {
    if k == 0 {
      TailFull(n);
      ChooseRange(n, n);
    } else {
      TailComplement(n, k - 1);
      ChooseSymmetric(n, k);
    }
  }

  lemma {:induction false} TailMonotone(n: nat, j: int, k: int)
    requires j <= k
    ensures Tail(n, j) <= Tail(n, k)
    decreases k - j
  {
    if j < k {
      TailMonotone(n, j + 1, k);
    }
  }

  /** Twice the smaller tail against the whole row, by how far apart the two counts are. */
  lemma TwiceTheTail(n: nat, k: nat)
    requires 2 * k <= n
    ensures 2 * Tail(n, k) >= Pow2(n) <==> n <= 2 * k + 1
  {
    if n == 2 * k {
      ChooseRange(n, k);
      if k == 0 {
        TailFull(n);
      } else {
        TailComplement(n, k);
      }
    } else if n == 2 * k + 1 {
      TailComplement(n, k);
    } else {
      TailComplement(n, k);
      TailMonotone(n, k + 1, n - k - 1);
      ChooseRange(n, k + 1);
    }
  }

  // ---- The p-value ----

  function Smaller(b: nat, c: nat): nat { if c < b then c else b }

  /** The two-sided exact p-value of the discordant counts. */
  function PValue(b: nat, c: nat): real {
    var n := b + c;
    var p := 2.0 * Share(Tail(n, Smaller(b, c)), Pow2(n));
    if p > 1.0 then 1.0 else p
  }

  function Share(x: nat, d: nat): real
    requires d > 0
  {
    x as real / d as real
  }

  method McNemarExact(b: nat, c: nat) returns (p: real)
    ensures p == PValue(b, c)
  {
    var n := b + c;
    if n == 0 {
      return 1.0;
    }
    var k := b;
    if c < b {
      k := c;
    }
    var tail := 0.0;
    var i: int := 0;
    while i <= k
      invariant 0 <= i <= k + 1
      invariant tail == Share(Tail(n, i - 1), Pow2(n))
    {
      ShareAdds(Tail(n, i - 1), Choose(n, i), Pow2(n));
      tail := tail + Share(Choose(n, i), Pow2(n));
      i := i + 1;
    }
    p := 2.0 * tail;
    if p > 1.0 {
      return 1.0;
    }
  }

  lemma ShareAdds(x: nat, y: nat, d: nat)
    requires d > 0
    ensures Share(x, d) + Share(y, d) == Share(x + y, d)
  {
    assert (x + y) as real == x as real + y as real;
  }

  lemma RatioBelow(x: nat, y: nat, d: nat, e: nat)
    requires d > 0 && e > 0
    ensures x * e < y * d ==> x as real / d as real < y as real / e as real
    ensures x * e <= y * d ==> x as real / d as real <= y as real / e as real
  {
    var p, q := x as real / d as real, y as real / e as real;
    var de := d as real * e as real;
    assert x as real == p * d as real && y as real == q * e as real;
    assert (x * e) as real == x as real * e as real == p * de;
    assert (y * d) as real == y as real * d as real == q * de;
    ScaleOrder(p, q, de);
  }

  lemma ScaleOrder(p: real, q: real, scale: real)
    requires scale > 0.0
    ensures p < q <==> p * scale < q * scale
  {
    assert (q - p) * scale == q * scale - p * scale;
  }

  /** It is a probability, does not depend on which arm is which, and is 1 exactly when the two
      counts are at most one apart. */
  lemma PValueMeaning(b: nat, c: nat)
    ensures 0.0 < PValue(b, c) <= 1.0
    ensures PValue(b, c) == PValue(c, b)
    ensures PValue(b, c) == 1.0 <==> -1 <= b - c <= 1
  {
    var n, k := b + c, Smaller(b, c);
    TwiceTheTail(n, k);
    TailMonotone(n, 0, k);
    RatioBelow(0, Tail(n, k), 1, Pow2(n));
    RatioBelow(2 * Tail(n, k), 1, Pow2(n), 1);
    RatioBelow(1, 2 * Tail(n, k), 1, Pow2(n));
    Doubling(Tail(n, k), Pow2(n));
  }

  lemma Doubling(x: nat, d: nat)
    requires d > 0
    ensures (2 * x) as real / d as real == 2.0 * (x as real / d as real)
  {
    assert (2 * x) as real == 2.0 * x as real;
  }

  /** One more failure on the arm that already fails at least as often never raises the p-value, and
      lowers it as soon as the counts are more than one apart. */
  lemma PValueFalls(b: nat, c: nat)
    requires b <= c
    ensures PValue(b, c + 1) <= PValue(b, c)
    ensures c >= b + 1 ==> PValue(b, c + 1) < PValue(b, c)
  {
    var n, k := b + c, b;
    TailPascal(n, k);
    ChooseRange(n, k);
    assert Tail(n + 1, k) < 2 * Tail(n, k);
    ScaledBelow(Tail(n + 1, k), Tail(n, k), Pow2(n));
    RatioBelow(Tail(n + 1, k), Tail(n, k), Pow2(n + 1), Pow2(n));
    PValueMeaning(b, c);
    PValueMeaning(b, c + 1);
  }

  lemma ScaledBelow(x: nat, y: nat, d: nat)
    requires x < 2 * y && d > 0
    ensures x * d < y * (2 * d)
  {
    assert x * d < (2 * y) * d;
  }

  /** The p-value never rises over any growth of the larger count. */
  lemma {:induction false} PValueFallsFar(b: nat, c: nat, d: nat)
    requires b <= c <= d
    ensures PValue(b, d) <= PValue(b, c)
    decreases d
  {
    if c < d {
      PValueFallsFar(b, c, d - 1);
      PValueFalls(b, d - 1);
    }
  }

  // ---- The check ----

  datatype Counts = Counts(attempted: nat, bothScored: nat, candidateOnlyFailed: nat, incumbentOnlyFailed: nat,
                           bothFailed: nat)
  {
    function Dropped(): nat { candidateOnlyFailed + incumbentOnlyFailed + bothFailed }

    function Rate(): real {
      if attempted == 0 then 0.0 else Dropped() as real / attempted as real
    }

    function Total(): nat { bothScored + Dropped() }
  }

  datatype Policy = Policy(maxRate: real, alpha: real)

  datatype Check = Check(pass: bool, rate: real, pValue: real)

  function MaxRate(policy: Policy): real {
    if policy.maxRate <= 0.0 then DEFAULT_MAX_DROP_RATE else policy.maxRate
  }

  function Level(policy: Policy, fallbackAlpha: real): real {
    if policy.alpha > 0.0 then policy.alpha
    else if fallbackAlpha > 0.0 then fallbackAlpha
    else DEFAULT_ALPHA
  }

  function CheckOf(m: Counts, policy: Policy, fallbackAlpha: real): Check {
    if m.attempted == 0 then Check(false, m.Rate(), 0.0)
    else
      var p := PValue(m.candidateOnlyFailed, m.incumbentOnlyFailed);
      Check(m.Rate() <= MaxRate(policy) && p >= Level(policy, fallbackAlpha), m.Rate(), p)
  }

  method CheckMissingness(m: Counts, policy: Policy, fallbackAlpha: real) returns (check: Check)
    ensures check == CheckOf(m, policy, fallbackAlpha)
  {
    var maxRate := policy.maxRate;
    if maxRate <= 0.0 {
      maxRate := DEFAULT_MAX_DROP_RATE;
    }
    var alpha := policy.alpha;
    if alpha <= 0.0 {
      alpha := fallbackAlpha;
    }
    if alpha <= 0.0 {
      alpha := DEFAULT_ALPHA;
    }
    check := Check(false, m.Rate(), 0.0);
    if m.attempted == 0 {
      return;
    }
    var p := McNemarExact(m.candidateOnlyFailed, m.incumbentOnlyFailed);
    check := check.(pValue := p);
    if check.rate > maxRate {
      return;
    }
    if check.pValue < alpha {
      return;
    }
    check := check.(pass := true);
  }

  lemma AtMost(x: real, d: real, a: real)
    requires d > 0.0
    ensures x / d <= a <==> x <= a * d
    ensures a <= x / d <==> a * d <= x
  {
    assert (x / d) * d == x;
    ScaleOrder(a, x / d, d);
    ScaleOrder(x / d, a, d);
  }

  /** The p-value reaches a level exactly when the doubled lower tail of a fair coin does. */
  lemma PValueReaches(b: nat, c: nat, level: real)
    ensures PValue(b, c) >= level <==>
            level <= 1.0 && level * Pow2(b + c) as real <= 2.0 * Tail(b + c, if b <= c then b else c) as real
  {
    hide Tail, Pow2;
    var x, d := Tail(b + c, Smaller(b, c)) as real, Pow2(b + c) as real;
    assert Pow2(b + c) > 0;
    AtMost(2.0 * x, d, level);
    assert 2.0 * Share(Tail(b + c, Smaller(b, c)), Pow2(b + c)) == (2.0 * x) / d;
  }

  /** When the check passes, exactly: something was attempted, few enough items dropped, and the doubled lower tail of a fair
      coin is at least the level. The limit is a fifth unless one is set; the level is the policy's, else the caller's,
      else 5%. */
  lemma PassesExactly(m: Counts, policy: Policy, fallbackAlpha: real)
    ensures var limit := if policy.maxRate > 0.0 then policy.maxRate else 0.2;
            var level := if policy.alpha > 0.0 then policy.alpha else if fallbackAlpha > 0.0 then fallbackAlpha else 0.05;
            var b, c := m.candidateOnlyFailed, m.incumbentOnlyFailed;
            CheckOf(m, policy, fallbackAlpha).pass <==>
              && m.attempted > 0
              && (b + c + m.bothFailed) as real <= limit * m.attempted as real
              && level <= 1.0
              && level * Pow2(b + c) as real <= 2.0 * Tail(b + c, if b <= c then b else c) as real
  {
    hide PValue, Tail, Pow2;
    if m.attempted > 0 {
      PValueReaches(m.candidateOnlyFailed, m.incumbentOnlyFailed, Level(policy, fallbackAlpha));
      AtMost(m.Dropped() as real, m.attempted as real, MaxRate(policy));
    }
  }

  /** Failures of one arm alone fail the check as soon as their number makes a run of heads too unlikely. */
  lemma OneSidedFails(m: Counts, policy: Policy, fallbackAlpha: real)
    requires m.candidateOnlyFailed == 0 || m.incumbentOnlyFailed == 0
    requires policy.alpha > 0.0
    requires policy.alpha * Pow2(m.candidateOnlyFailed + m.incumbentOnlyFailed) as real > 2.0
    ensures !CheckOf(m, policy, fallbackAlpha).pass
  {
    hide PValue, Pow2;
    OneSidedBelow(m.candidateOnlyFailed, m.incumbentOnlyFailed, policy.alpha);
  }

  lemma OneSidedBelow(b: nat, c: nat, level: real)
    requires (b == 0 || c == 0) && level * Pow2(b + c) as real > 2.0
    ensures PValue(b, c) < level
  {
    hide PValue, Pow2;
    var k := if b <= c then b else c;
    assert k == 0;
    OneHeadless(b + c);
    PValueReaches(b, c, level);
    assert Tail(b + c, k) == 1;
  }

  lemma OneHeadless(n: nat)
    ensures Tail(n, 0) == 1
  {
    assert Tail(n, -1) == 0;
  }

  /** Failing more often on the arm that already fails at least as often never rescues a failed check. */
  lemma MoreFailuresNeverRescue(m: Counts, extra: nat, policy: Policy, fallbackAlpha: real)
    requires m.incumbentOnlyFailed <= m.candidateOnlyFailed
    ensures CheckOf(m.(candidateOnlyFailed := m.candidateOnlyFailed + extra), policy, fallbackAlpha).pass
            ==> CheckOf(m, policy, fallbackAlpha).pass
  {
    var worse := m.(candidateOnlyFailed := m.candidateOnlyFailed + extra);
    var b, c, d := m.incumbentOnlyFailed, m.candidateOnlyFailed, worse.candidateOnlyFailed;
    PValueFallsFar(b, c, d);
    PValueMeaning(b, c);
    PValueMeaning(b, d);
    if m.attempted != 0 {
      NumeratorGrows(m.Dropped(), worse.Dropped(), m.attempted);
    }
  }

  lemma NumeratorGrows(x: nat, y: nat, d: nat)
    requires x <= y && d > 0
    ensures x as real / d as real <= y as real / d as real
  {
    assert x * d <= y * d;
    RatioBelow(x, y, d, d);
  }

  /** Counts at most one apart pass at every level up to 1, whatever their size, when few enough dropped. */
  lemma EvenFailuresPass(m: Counts, policy: Policy, fallbackAlpha: real)
    requires m.attempted > 0 && Level(policy, fallbackAlpha) <= 1.0
    requires -1 <= m.candidateOnlyFailed - m.incumbentOnlyFailed <= 1
    ensures CheckOf(m, policy, fallbackAlpha).pass <==> m.Rate() <= MaxRate(policy)
  {
    PValueMeaning(m.candidateOnlyFailed, m.incumbentOnlyFailed);
  }
}
