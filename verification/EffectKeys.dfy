/** The printed effect key run-R-att-N-decision-D determines R, N and D. */
module EffectKeys {
  import opened Decisions

  function Digit(d: nat): char
    requires d < 10
  {
    ('0' as int + d) as char
  }

  /** fmt's %d of a non-negative number. */
  function Itoa(n: nat): (s: string)
    ensures |s| > 0
  {
    if n < 10 then [Digit(n)] else Itoa(n / 10) + [Digit(n % 10)]
  }

  function Value(s: string): int {
    if s == [] then 0 else Value(s[..|s| - 1]) * 10 + (s[|s| - 1] as int - '0' as int)
  }

  lemma {:induction false} ItoaReadsBack(n: nat)
    ensures Value(Itoa(n)) == n && '-' !in Itoa(n)
  {
    if n < 10 {
      assert Itoa(n)[..0] == [];
    } else {
      ItoaReadsBack(n / 10);
      var s := Itoa(n);
      assert s[..|s| - 1] == Itoa(n / 10);
    }
  }

  function Name(d: Decision): string {
    match d
    case START => "START"
    case VALIDATE => "VALIDATE"
    case CONTINUE => "CONTINUE"
    case COMPLETE => "COMPLETE"
    case RETRY_CLEAN => "RETRY_CLEAN"
    case REPLACE => "REPLACE"
    case FAIL => "FAIL"
  }

  lemma NameInjective(d: Decision, e: Decision)
    requires Name(d) == Name(e)
    ensures d == e
  {
    assert |Name(d)| == |Name(e)| && Name(d)[0] == Name(e)[0] && Name(d)[2] == Name(e)[2];
  }

  function DecisionPart(d: Decision): string {
    "decision-" + Name(d)
  }

  function AttemptPart(attempt: nat, d: Decision): string {
    "att-" + (Itoa(attempt) + "-" + DecisionPart(d))
  }

  function EffectKey(run: nat, attempt: nat, d: Decision): string {
    "run-" + (Itoa(run) + "-" + AttemptPart(attempt, d))
  }

  /** The format, in one piece. */
  lemma KeyText(run: nat, attempt: nat, d: Decision)
    ensures EffectKey(run, attempt, d) == "run-" + Itoa(run) + "-att-" + Itoa(attempt) + "-decision-" + Name(d)
  {
    Regroup(Itoa(attempt), "-", "decision-", Name(d));
    Regroup("att-", Itoa(attempt), "-decision-", Name(d));
    Regroup(Itoa(run), "-", "att-", Itoa(attempt) + "-decision-" + Name(d));
    Regroup("run-" + Itoa(run), "-att-", Itoa(attempt) + "-decision-", Name(d));
  }

  lemma Regroup(a: string, b: string, c: string, d: string)
    ensures a + b + (c + d) == a + (b + c) + d
  {
  }

  /** The first dash splits a text uniquely. */
  lemma {:induction false} FirstDash(a: string, x: string, b: string, y: string)
    requires '-' !in a && '-' !in b && a + "-" + x == b + "-" + y
    ensures a == b && x == y
  {
    var s, t := a + "-" + x, b + "-" + y;
    assert forall i | 0 <= i < |a| :: s[i] == a[i] && a[i] != '-';
    assert forall i | 0 <= i < |b| :: t[i] == b[i] && b[i] != '-';
    assert s[|a|] == '-' && t[|b|] == '-';
    assert |a| == |b|;
    assert s[..|a|] == a && t[..|b|] == b;
    assert s[|a| + 1..] == x && t[|b| + 1..] == y;
  }

  lemma AttemptPartInjective(n: nat, d: Decision, n': nat, d': Decision)
    requires AttemptPart(n, d) == AttemptPart(n', d')
    ensures n == n' && d == d'
  {
    SamePrefix("att-", Itoa(n) + "-" + DecisionPart(d), Itoa(n') + "-" + DecisionPart(d'));
    ItoaReadsBack(n);
    ItoaReadsBack(n');
    FirstDash(Itoa(n), DecisionPart(d), Itoa(n'), DecisionPart(d'));
    SamePrefix("decision-", Name(d), Name(d'));
    NameInjective(d, d');
  }

  /** Different decisions of one run never share an effect key. */
  lemma KeyInjective(r: nat, n: nat, d: Decision, r': nat, n': nat, d': Decision)
    requires EffectKey(r, n, d) == EffectKey(r', n', d')
    ensures r == r' && n == n' && d == d'
  {
    SamePrefix("run-", Itoa(r) + "-" + AttemptPart(n, d), Itoa(r') + "-" + AttemptPart(n', d'));
    ItoaReadsBack(r);
    ItoaReadsBack(r');
    FirstDash(Itoa(r), AttemptPart(n, d), Itoa(r'), AttemptPart(n', d'));
    AttemptPartInjective(n, d, n', d');
  }

  lemma SamePrefix(p: string, x: string, y: string)
    requires p + x == p + y
    ensures x == y
  {
    assert x == (p + x)[|p|..];
  }
}
