/** Choosing the coordinator provider by its record, over exact reals. */
module Router {

  /** Unnamed is the empty provider id. */
  datatype Provider = Codex | Claude | Agy | Reasonix | Unnamed

  datatype Stats = Stats(provider: Provider, attempts: int, successes: int, rejects: int, timeMs: int, repos: int)

  datatype Capabilities = Capabilities(modelSelection: bool, effortSelection: bool)

  const CANDIDATES: seq<Provider> := [Codex, Claude, Agy, Reasonix]
  const MIN_SAMPLES := 3
  const DEFAULT: Provider := Codex

  function ProviderCapabilities(p: Provider): Capabilities {
    match p
    case Codex => Capabilities(true, false)
    case Claude => Capabilities(true, true)
    case Agy => Capabilities(true, true)
    case Reasonix => Capabilities(true, false)
    case Unnamed => Capabilities(false, false)
  }

  function TimeScore(timeMs: int, attempts: int): real {
    if timeMs > 0 && attempts > 0 then
      var avgSec := timeMs as real / attempts as real / 1000.0;
      assert avgSec > 0.0;
      1.0 / (1.0 + avgSec / 60.0)
    else 1.0
  }

  function RepoFit(repos: int): real {
    var fit := repos as real / 3.0;
    if fit > 1.0 then 1.0 else fit
  }

  function Score(s: Stats): real {
    if s.attempts == 0 then 0.0
    else
      var successRate := s.successes as real / s.attempts as real;
      var rejectScore := 1.0 - s.rejects as real / s.attempts as real;
      successRate * 0.35 + rejectScore * 0.25 + TimeScore(s.timeMs, s.attempts) * 0.15 + RepoFit(s.repos) * 0.10
  }

  function ScoreWithModel(s: Stats, model: string, effort: string): real {
    Score(s)
    + (if model != "" && ProviderCapabilities(s.provider).modelSelection then 0.10 else 0.0)
    + (if effort != "" && ProviderCapabilities(s.provider).effortSelection then 0.05 else 0.0)
  }

  // ----- the score

  /** Counts of one kind never exceed the attempts they are counted in. */
  predicate Counted(s: Stats) {
    0 <= s.successes <= s.attempts && 0 <= s.rejects <= s.attempts && 0 <= s.repos
  }

  lemma RatioBounds(a: int, n: int)
    requires 0 <= a <= n && n > 0
    ensures 0.0 <= a as real / n as real <= 1.0
  {
    DivideMonotone(0.0, a as real, n as real);
    DivideMonotone(a as real, n as real, n as real);
  }

  lemma DivideMonotone(a: real, b: real, n: real)
    requires a <= b && n > 0.0
    ensures a / n <= b / n && (a < b ==> a / n < b / n)
  {
    assert b / n - a / n == (b - a) / n;
  }

  lemma InverseMonotone(a: real, b: real)
    requires 1.0 <= a <= b
    ensures 0.0 < 1.0 / b <= 1.0 / a <= 1.0 && (a < b ==> 1.0 / b < 1.0 / a)
  {
    assert 1.0 / a - 1.0 / b == (b - a) / (a * b);
    assert a * b >= 1.0;
    DivideMonotone(0.0, b - a, a * b);
    DivideMonotone(1.0, a, a);
  }

  /** Longer total time scores lower, strictly once it is positive. */
  lemma TimeScoreMonotone(t: int, u: int, n: int)
    requires t <= u && n > 0
    ensures 0.0 < TimeScore(u, n) <= TimeScore(t, n) <= 1.0
    ensures t < u && u > 0 ==> TimeScore(u, n) < TimeScore(t, n)
  {
    if u > 0 {
      var x := if t > 0 then t as real / n as real / 1000.0 else 0.0;
      var y := u as real / n as real / 1000.0;
      DivideMonotone(if t > 0 then t as real else 0.0, u as real, n as real);
      assert x <= y && (t < u ==> x < y);
      InverseMonotone(1.0 + x / 60.0, 1.0 + y / 60.0);
    }
  }

  /** With counts that fit, the base score lies in (0, 0.85], and in (0, 1] with both bonuses. */
  lemma ScoreRange(s: Stats, model: string, effort: string)
    requires Counted(s) && s.attempts >= 1
    ensures 0.0 < Score(s) <= 0.85
    ensures Score(s) <= ScoreWithModel(s, model, effort) <= 1.0
  {
    RatioBounds(s.successes, s.attempts);
    RatioBounds(s.rejects, s.attempts);
    TimeScoreMonotone(s.timeMs, s.timeMs, s.attempts);
  }

  /** More successes, fewer rejects, less time and more repositories never score lower, and the
      first three score strictly higher. */
  lemma ScoreMonotone(a: Stats, b: Stats)
    requires a.attempts == b.attempts > 0
    requires a.successes <= b.successes && b.rejects <= a.rejects && b.timeMs <= a.timeMs && a.repos <= b.repos
    ensures Score(a) <= Score(b)
    ensures a.successes < b.successes || b.rejects < a.rejects || (b.timeMs < a.timeMs && a.timeMs > 0) ==>
      Score(a) < Score(b)
  {
    var n := a.attempts as real;
    DivideMonotone(a.successes as real, b.successes as real, n);
    DivideMonotone(b.rejects as real, a.rejects as real, n);
    TimeScoreMonotone(b.timeMs, a.timeMs, a.attempts);
  }

  // ----- what each part is worth

  lemma Whole(n: real)
    requires n > 0.0
    ensures n / n == 1.0 && 0.0 / n == 0.0
  {
  }

  /** From no success to all of them 0.35, from all rejected to none 0.25, from no repository to three
      or more 0.10, and a third of that for each of the first three. */
  lemma ScoreGains(s: Stats, repos: int)
    requires s.attempts > 0 && repos >= 3
    ensures Score(s.(successes := s.attempts)) - Score(s.(successes := 0)) == 0.35
    ensures Score(s.(rejects := 0)) - Score(s.(rejects := s.attempts)) == 0.25
    ensures Score(s.(repos := repos)) - Score(s.(repos := 0)) == 0.10
    ensures forall k | 0 <= k < 3 :: Score(s.(repos := k + 1)) - Score(s.(repos := k)) == 0.10 / 3.0
  {
    Whole(s.attempts as real);
    assert RepoFit(0) == 0.0 && RepoFit(repos) == 1.0;
    forall k | 0 <= k < 3 ensures RepoFit(k + 1) - RepoFit(k) == 1.0 / 3.0 {}
  }

  /** An average of m minutes costs the part m / (1 + m) of 0.15: half of it for one minute. */
  lemma ScoreTime(s: Stats, m: int)
    requires s.attempts > 0 && m > 0
    ensures Score(s.(timeMs := 0)) - Score(s.(timeMs := 60000 * m * s.attempts)) ==
      0.15 * (m as real / (1.0 + m as real))
  {
    var n, x := s.attempts as real, m as real;
    var t := 60000 * m * s.attempts;
    assert t > 0 && t as real == 60000.0 * x * n;
    assert t as real / n == 60000.0 * x by { Cancel(60000.0 * x, n); }
    assert t as real / n / 1000.0 / 60.0 == x;
    assert TimeScore(t, s.attempts) == 1.0 / (1.0 + x);
    assert 1.0 - 1.0 / (1.0 + x) == x / (1.0 + x);
  }

  lemma Cancel(a: real, n: real)
    requires n > 0.0
    ensures a * n / n == a
  {
  }

  /** The most a provider can score, and that a provider without attempts scores nothing. */
  lemma ScoreAttained(p: Provider, n: int)
    requires n > 0
    ensures Score(Stats(p, n, n, 0, 0, 3)) == 0.85
    ensures Score(Stats(p, 0, n, 0, 0, 3)) == 0.0
  {
    Whole(n as real);
  }

  /** The bonuses: 0.10 when a model is named, 0.05 when an effort is and Claude or Agy is to make it. */
  lemma Bonuses(s: Stats, model: string, effort: string)
    requires s.provider != Unnamed
    ensures ScoreWithModel(s, model, effort) - Score(s) ==
      (if model == "" then 0.0 else 0.10) +
      (if effort != "" && (s.provider == Claude || s.provider == Agy) then 0.05 else 0.0)
  {
  }

  // ----- the choice

  predicate Eligible(s: Stats) {
    s.attempts >= MIN_SAMPLES
  }

  /** The i-th candidate has samples enough and scores best, and better than those before it. */
  ghost predicate FirstBest(stats: Provider -> Stats, model: string, effort: string, i: nat)
    requires i < |CANDIDATES|
  {
    && Eligible(stats(CANDIDATES[i]))
    && (forall j | 0 <= j < |CANDIDATES| && Eligible(stats(CANDIDATES[j])) ::
          Points(stats, model, effort, j) <= Points(stats, model, effort, i))
    && (forall j | 0 <= j < i && Eligible(stats(CANDIDATES[j])) ::
          Points(stats, model, effort, j) < Points(stats, model, effort, i))
  }

  function Points(stats: Provider -> Stats, model: string, effort: string, i: nat): real
    requires i < |CANDIDATES|
  {
    ScoreWithModel(stats(CANDIDATES[i]), model, effort)
  }

  /** Somebody eligible scores above zero. */
  ghost predicate Promising(stats: Provider -> Stats, model: string, effort: string) {
    exists i :: 0 <= i < |CANDIDATES| && Eligible(stats(CANDIDATES[i])) && Points(stats, model, effort, i) > 0.0
  }

  /** The answer on every input: the first best eligible candidate when one scores above zero,
      Codex otherwise. */
  ghost predicate Choice(stats: Provider -> Stats, model: string, effort: string, p: Provider) {
    if Promising(stats, model, effort)
    then exists i :: 0 <= i < |CANDIDATES| && p == CANDIDATES[i] && FirstBest(stats, model, effort, i)
    else p == Codex
  }

  /** The best among the candidates seen so far, as the loop holds it. */
  ghost predicate Leading(stats: Provider -> Stats, model: string, effort: string, k: nat, id: Provider, score: real)
    requires k <= |CANDIDATES|
  {
    && score >= 0.0
    && (forall j | 0 <= j < k && Eligible(stats(CANDIDATES[j])) :: Points(stats, model, effort, j) <= score)
    && (score > 0.0 ==> exists i :: 0 <= i < k && LedBy(stats, model, effort, i, id, score))
    && (score == 0.0 ==> id == Unnamed || id == Codex)
  }

  ghost predicate LedBy(stats: Provider -> Stats, model: string, effort: string, i: nat, id: Provider, score: real)
    requires i < |CANDIDATES|
  {
    && id == CANDIDATES[i] && Eligible(stats(id)) && Points(stats, model, effort, i) == score
    && forall j | 0 <= j < i && Eligible(stats(CANDIDATES[j])) :: Points(stats, model, effort, j) < score
  }

  /** `stats` is the store as one call sees it. */
  method SelectCoordinator(stats: Provider -> Stats, model: string, effort: string) returns (p: Provider)
    ensures Choice(stats, model, effort, p)
    ensures p != Unnamed
    // somebody with three samples scores above zero: the best of those, Codex on a tie; otherwise Codex
    ensures if exists q :: q != Unnamed && stats(q).attempts >= 3 && ScoreWithModel(stats(q), model, effort) > 0.0
            then
              && stats(p).attempts >= 3
              && (forall q | q != Unnamed && stats(q).attempts >= 3 ::
                    ScoreWithModel(stats(q), model, effort) <= ScoreWithModel(stats(p), model, effort))
              && (stats(Codex).attempts >= 3 ==>
                    ScoreWithModel(stats(Codex), model, effort) == ScoreWithModel(stats(p), model, effort) ==>
                      p == Codex)
            else p == Codex
  {
    p := Select(stats, model, effort);
    ChoiceMeans(stats, model, effort, p);
  }

  lemma Candidate(q: Provider)
    requires q != Unnamed
    ensures exists i :: 0 <= i < |CANDIDATES| && CANDIDATES[i] == q
  {
    assert CANDIDATES[0] == Codex && CANDIDATES[1] == Claude && CANDIDATES[2] == Agy && CANDIDATES[3] == Reasonix;
  }

  lemma ChoiceMeans(stats: Provider -> Stats, model: string, effort: string, p: Provider)
    requires Choice(stats, model, effort, p)
    ensures p != Unnamed
    ensures if exists q :: q != Unnamed && stats(q).attempts >= 3 && ScoreWithModel(stats(q), model, effort) > 0.0
            then
              && stats(p).attempts >= 3
              && (forall q | q != Unnamed && stats(q).attempts >= 3 ::
                    ScoreWithModel(stats(q), model, effort) <= ScoreWithModel(stats(p), model, effort))
              && (stats(Codex).attempts >= 3 ==>
                    ScoreWithModel(stats(Codex), model, effort) == ScoreWithModel(stats(p), model, effort) ==>
                      p == Codex)
            else p == Codex
  {
    if Promising(stats, model, effort) {
      var i :| 0 <= i < |CANDIDATES| && p == CANDIDATES[i] && FirstBest(stats, model, effort, i);
      forall q | q != Unnamed && stats(q).attempts >= 3
        ensures ScoreWithModel(stats(q), model, effort) <= ScoreWithModel(stats(p), model, effort)
      {
        Candidate(q);
        var j :| 0 <= j < |CANDIDATES| && CANDIDATES[j] == q;
        assert Points(stats, model, effort, j) <= Points(stats, model, effort, i);
      }
      if i > 0 && stats(Codex).attempts >= 3 {
        assert Points(stats, model, effort, 0) < Points(stats, model, effort, i);
      }
    }
    PromisingMeans(stats, model, effort);
  }

  lemma PromisingMeans(stats: Provider -> Stats, model: string, effort: string)
    ensures Promising(stats, model, effort) <==>
      exists q :: q != Unnamed && stats(q).attempts >= 3 && ScoreWithModel(stats(q), model, effort) > 0.0
  {
    if q :| q != Unnamed && stats(q).attempts >= 3 && ScoreWithModel(stats(q), model, effort) > 0.0 {
      Candidate(q);
      var j :| 0 <= j < |CANDIDATES| && CANDIDATES[j] == q;
      assert Points(stats, model, effort, j) > 0.0;
    }
    if k :| 0 <= k < |CANDIDATES| && Eligible(stats(CANDIDATES[k])) && Points(stats, model, effort, k) > 0.0 {
      assert CANDIDATES[k] != Unnamed;
    }
  }

  method Select(stats: Provider -> Stats, model: string, effort: string) returns (p: Provider)
    ensures Choice(stats, model, effort, p)
  {
    var allBelowThreshold := true;
    for i := 0 to |CANDIDATES|
      invariant allBelowThreshold
      invariant forall j | 0 <= j < i :: !Eligible(stats(CANDIDATES[j]))
    {
      if stats(CANDIDATES[i]).attempts >= MIN_SAMPLES {
        allBelowThreshold := false;
        break;
      }
    }
    var bestId, bestScore := Unnamed, 0.0;
    for i := 0 to |CANDIDATES|
      invariant !allBelowThreshold ==> Leading(stats, model, effort, i, bestId, bestScore)
    {
      var id := CANDIDATES[i];
      var s := stats(id);
      if allBelowThreshold || s.attempts >= MIN_SAMPLES {
        var score := ScoreWithModel(s, model, effort);
        ghost var led := if bestScore > 0.0 && !allBelowThreshold then
          var l :| 0 <= l < i && LedBy(stats, model, effort, l, bestId, bestScore); l else 0;
        assert score == Points(stats, model, effort, i);
        if score > bestScore || (score == bestScore && id == DEFAULT) {
          bestScore, bestId := score, id;
          assert !allBelowThreshold && bestScore > 0.0 ==> LedBy(stats, model, effort, i, bestId, bestScore);
        } else {
          assert !allBelowThreshold && bestScore > 0.0 ==> LedBy(stats, model, effort, led, bestId, bestScore);
        }
      }
    }
    if allBelowThreshold {
      if model != "" {
        for i := 0 to |CANDIDATES|
          invariant i == 0
        {
          if ProviderCapabilities(CANDIDATES[i]).modelSelection { return CANDIDATES[i]; }
        }
      }
      return DEFAULT;
    }
    if bestScore == 0.0 && bestId == Unnamed { return DEFAULT; }
    if bestScore > 0.0 {
      ghost var l :| 0 <= l < |CANDIDATES| && LedBy(stats, model, effort, l, bestId, bestScore);
      assert FirstBest(stats, model, effort, l);
    }
    return bestId;
  }

  /** Eligible, and nobody eligible scores more. */
  ghost predicate Best(stats: Provider -> Stats, model: string, effort: string, i: nat)
    requires i < |CANDIDATES|
  {
    Eligible(stats(CANDIDATES[i])) && forall j | 0 <= j < |CANDIDATES| && Eligible(stats(CANDIDATES[j])) ::
      Points(stats, model, effort, j) <= Points(stats, model, effort, i)
  }

  predicate AllCounted(stats: Provider -> Stats) {
    Counted(stats(Codex)) && Counted(stats(Claude)) && Counted(stats(Agy)) && Counted(stats(Reasonix))
  }

  /** With counts that fit: somebody eligible means the choice is eligible and nobody eligible
      scores more, and Codex wins every tie; nobody eligible means Codex. */
  lemma ChoiceIsBest(stats: Provider -> Stats, model: string, effort: string)
    requires AllCounted(stats)
    ensures forall p | Choice(stats, model, effort, p) ::
      && ((exists c :: c in CANDIDATES && Eligible(stats(c))) ==>
            exists i :: 0 <= i < |CANDIDATES| && p == CANDIDATES[i] && Best(stats, model, effort, i))
      && (Best(stats, model, effort, 0) ==> p == Codex)
      && ((forall c | c in CANDIDATES :: !Eligible(stats(c))) ==> p == Codex)
  {
    if c :| c in CANDIDATES && Eligible(stats(c)) {
      var k :| 0 <= k < |CANDIDATES| && CANDIDATES[k] == c;
      ScoreRange(stats(c), model, effort);
      assert Points(stats, model, effort, k) > 0.0;
      forall p | Choice(stats, model, effort, p)
        ensures exists i :: 0 <= i < |CANDIDATES| && p == CANDIDATES[i] && Best(stats, model, effort, i)
      {
        var i :| 0 <= i < |CANDIDATES| && p == CANDIDATES[i] && FirstBest(stats, model, effort, i);
        assert Best(stats, model, effort, i);
      }
    }
  }

  /** Without that hypothesis the choice is a best eligible candidate exactly when some eligible
      one scores above zero or Codex itself is one. */
  lemma ChoiceIsBestExactly(stats: Provider -> Stats, model: string, effort: string, p: Provider)
    requires Choice(stats, model, effort, p)
    ensures (exists i :: 0 <= i < |CANDIDATES| && p == CANDIDATES[i] && Best(stats, model, effort, i))
      <==> Promising(stats, model, effort) || Best(stats, model, effort, 0)
  {
    if Promising(stats, model, effort) {
      var i :| 0 <= i < |CANDIDATES| && p == CANDIDATES[i] && FirstBest(stats, model, effort, i);
      assert Best(stats, model, effort, i);
    } else {
      assert forall i | 0 <= i < |CANDIDATES| && CANDIDATES[i] == Codex :: i == 0;
    }
  }

  /** The store counts runs as attempts and rejects per attempt, so rejects can exceed attempts:
      here Claude, the only provider with samples, scores below zero and Codex, with none, is chosen. */
  lemma RejectsHideTheOnlyEligible(stats: Provider -> Stats, p: Provider)
    requires stats(Claude) == Stats(Claude, 3, 0, 9, 0, 0)
    requires forall c | c in CANDIDATES && c != Claude :: stats(c) == Stats(c, 0, 0, 0, 0, 0)
    requires Choice(stats, "", "", p)
    ensures Score(stats(Claude)) < 0.0 && p == Codex && !Eligible(stats(p)) && Eligible(stats(Claude))
  {
    assert Score(stats(Claude)) == 0.0 * 0.35 + (1.0 - 3.0) * 0.25 + 0.15;
    forall i | 0 <= i < |CANDIDATES| ensures !(Eligible(stats(CANDIDATES[i])) && Points(stats, "", "", i) > 0.0) {
      assert CANDIDATES[i] != Claude ==> stats(CANDIDATES[i]).attempts == 0 by { assert CANDIDATES[i] in CANDIDATES; }
    }
  }
}
