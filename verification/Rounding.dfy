/** The completeness percentages of logistics/services.py and compliance/serializers.py: round() is half-to-even. */
module Rounding {
  /** The integer nearest to `a / b`, and the even one of two that are equally near. */
  function RoundHalfEven(a: nat, b: nat): nat
    requires b > 0
  {
    var q, r := a / b, a % b;
    if 2 * r < b || (2 * r == b && q % 2 == 0) then q else q + 1
  }

  function Held(checks: seq<bool>): (n: nat)
    ensures n <= |checks| && (n == |checks| <==> forall i | 0 <= i < |checks| :: checks[i])
  {
    if checks == [] then 0
    else
      assert forall i | 0 <= i < |checks| :: i < |checks| - 1 ==> checks[i] == checks[..|checks| - 1][i];
      Held(checks[..|checks| - 1]) + if checks[|checks| - 1] then 1 else 0
  }

  function Percent(checks: seq<bool>): nat
    requires checks != []
  {
    RoundHalfEven(100 * Held(checks), |checks|)
  }

  lemma Division(a: nat, b: nat, q: nat, r: nat)
    requires 0 <= r < b && a == q * b + r
    ensures a / b == q && a % b == r
  {
    var d := a / b - q;
    assert a == (a / b) * b + a % b;
    assert d * b == r - a % b;
    assert d >= 1 ==> d * b >= b;
    assert d <= -1 ==> -d * b >= b;
  }

  /** Rounding to nearest is within half a unit, and a tie goes to the even side. */
  lemma NearestEven(a: nat, b: nat)
    requires b > 0
    ensures var n := RoundHalfEven(a, b);
      && 2 * n * b <= 2 * a + b && 2 * a <= 2 * n * b + b
      && (2 * n * b == 2 * a + b || 2 * a == 2 * n * b + b ==> n % 2 == 0)
  {
    var q, r := a / b, a % b;
    assert a == q * b + r;
    assert (q + 1) * b == q * b + b;
  }

  /** One hundred percent is shown exactly when at most one check in 200 is missing. */
  lemma FullPercent(k: nat, n: nat)
    requires k <= n && n > 0
    ensures RoundHalfEven(100 * k, n) == 100 <==> 200 * (n - k) <= n
  {
    var missing := n - k;
    if missing == 0 {
      Division(100 * k, n, 100, 0);
    } else if 100 * missing < n {
      Division(100 * k, n, 99, n - 100 * missing);
    } else {
      NearestEven(100 * k, n);
      assert 100 * n - 100 * k >= n;
    }
  }

  /** For any list of 1 to 199 checks the gate opens exactly when every check holds. */
  lemma GateIsExact(checks: seq<bool>)
    requires 1 <= |checks| <= 199
    ensures Percent(checks) == 100 <==> forall i | 0 <= i < |checks| :: checks[i]
  {
    FullPercent(Held(checks), |checks|);
  }

  /** It is the length that matters: from 200 checks on, some list with a check missing still shows 100. */
  lemma GateBreaks(n: nat)
    requires n > 0
    ensures (forall checks: seq<bool> | |checks| == n ::
      Percent(checks) == 100 ==> forall i | 0 <= i < n :: checks[i]) <==> n < 200
  {
    if n < 200 {
      forall checks: seq<bool> | |checks| == n
        ensures Percent(checks) == 100 ==> forall i | 0 <= i < n :: checks[i]
      {
        GateIsExact(checks);
      }
    } else {
      var checks := seq(n - 1, i => true) + [false];
      assert checks[..n - 1] == seq(n - 1, i => true) && !checks[n - 1];
      assert Held(checks) == n - 1;
      FullPercent(n - 1, n);
      assert |checks| == n && Percent(checks) == 100;
    }
  }
}
