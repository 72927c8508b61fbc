/** When the critique loop stops, and why a score that never drops must plateau. */
module Plateau {
  import opened Common

  datatype StopReason = TargetReached | Plateau | MaxRounds | NoNewEvidence

  /** What the loop uses of a report: the score and whether it suggests queries. */
  datatype Report = Report(score: int, suggestsQueries: bool)

  datatype Options = Options(maxRounds: int, epsilon: int, plateauRounds: int, targetScore: int)

  /** The length of the plateau at the end of round `n`; rounds are numbered from 1. */
  function Streak(reports: nat -> Report, epsilon: int, n: nat): nat {
    if n <= 1 || reports(n).score - reports(n - 1).score >= epsilon then 0 else Streak(reports, epsilon, n - 1) + 1
  }

  /** Why the loop would stop at the end of round `n`, if it would. */
  function StopAt(reports: nat -> Report, evidence: nat -> int, o: Options, n: nat): Option<StopReason> {
    if reports(n).score >= o.targetScore then Some(TargetReached)
    else if Streak(reports, o.epsilon, n) >= o.plateauRounds then Some(Plateau)
    else if evidence(n) <= 0 && !reports(n).suggestsQueries then Some(NoNewEvidence)
    else None
  }

  /** Round `m` gained less than epsilon on the one before it. */
  ghost predicate GainsLess(reports: nat -> Report, epsilon: int, m: nat) {
    m >= 1 && reports(m).score - reports(m - 1).score < epsilon
  }

  /** The last `k` of the first `n` rounds did. */
  ghost predicate SmallGains(reports: nat -> Report, epsilon: int, n: nat, k: int) {
    forall m: nat :: n - k < m <= n ==> GainsLess(reports, epsilon, m)
  }

  lemma {:induction false} StreakMeaning(reports: nat -> Report, epsilon: int, n: nat, k: int)
    requires n >= 1
    ensures Streak(reports, epsilon, n) >= k <==> k < n && SmallGains(reports, epsilon, n, k)
    decreases n
  {
    if n > 1 && k > 0 {
      StreakMeaning(reports, epsilon, n - 1, k - 1);
      assert SmallGains(reports, epsilon, n, k) <==>
        SmallGains(reports, epsilon, n - 1, k - 1) && GainsLess(reports, epsilon, n);
    }
  }

  /**
   * Why a round ends the loop: the target score, then a plateau - as many rounds in a row as the options say that each
   * gained less than epsilon - and then the want of both new evidence and suggestions.
   */
  lemma StopMeaning(reports: nat -> Report, evidence: nat -> int, o: Options, n: nat)
    requires n >= 1
    ensures var flat := o.plateauRounds < n && SmallGains(reports, o.epsilon, n, o.plateauRounds);
      StopAt(reports, evidence, o, n) ==
        if reports(n).score >= o.targetScore then Some(TargetReached)
        else if flat then Some(Plateau)
        else if evidence(n) <= 0 && !reports(n).suggestsQueries then Some(NoNewEvidence)
        else None
  {
    StreakMeaning(reports, o.epsilon, n, o.plateauRounds);
  }

  /** No reason to stop at the end of any of the first `k` rounds. */
  ghost predicate Quiet(reports: nat -> Report, evidence: nat -> int, o: Options, k: int) {
    forall n: nat :: 0 < n <= k ==> StopAt(reports, evidence, o, n) == None
  }

  /** Number of rounds up to `n`, after the first, that gained at least epsilon. */
  function BigGains(reports: nat -> Report, epsilon: int, n: nat): nat {
    if n <= 1 then 0
    else BigGains(reports, epsilon, n - 1) + (if reports(n).score - reports(n - 1).score >= epsilon then 1 else 0)
  }

  ghost predicate NonDecreasing(reports: nat -> Report, n: int) {
    forall i: nat :: 1 < i <= n ==> reports(i - 1).score <= reports(i).score
  }

  lemma {:induction false} BigGainsCost(reports: nat -> Report, epsilon: int, n: nat)
    requires n >= 1 && NonDecreasing(reports, n) && epsilon >= 1
    ensures BigGains(reports, epsilon, n) * epsilon <= reports(n).score - reports(1).score
  {
    if n > 1 {
      assert reports(n - 1).score <= reports(n).score;
      BigGainsCost(reports, epsilon, n - 1);
      Product(0, BigGains(reports, epsilon, n - 1), epsilon);
    }
  }

  /** While no plateau is long enough, each big gain is followed by fewer than `limit` small ones. */
  lemma {:induction false} RoundsWithoutPlateau(reports: nat -> Report, epsilon: int, limit: nat, n: nat)
    requires n >= 1 && limit >= 1
    requires forall m: nat :: 0 < m <= n ==> Streak(reports, epsilon, m) < limit
    ensures n <= BigGains(reports, epsilon, n) * limit + 1 + Streak(reports, epsilon, n)
  {
    if n > 1 {
      RoundsWithoutPlateau(reports, epsilon, limit, n - 1);
      assert Streak(reports, epsilon, n - 1) < limit;
      Product(0, BigGains(reports, epsilon, n - 1), limit);
    }
  }

  /**
   * With scores between 0 and 95 that never drop, the loop plateaus: whatever the limit on rounds, it
   * makes at most (95 / epsilon + 1) * plateauRounds + 1 of them.
   */
  lemma PlateauBound(reports: nat -> Report, evidence: nat -> int, o: Options, rounds: nat)
    requires o.epsilon >= 1 && o.plateauRounds >= 1
    requires NonDecreasing(reports, rounds)
    requires forall i: nat :: 1 <= i <= rounds ==> 0 <= reports(i).score <= 95
    requires Quiet(reports, evidence, o, rounds - 1)
    ensures rounds <= (95 / o.epsilon + 1) * o.plateauRounds + 1
  {
    var n := rounds - 1;
    Product(0, 95 / o.epsilon, o.plateauRounds);
    if n >= 1 {
      forall m: nat | 0 < m <= n ensures Streak(reports, o.epsilon, m) < o.plateauRounds {
        assert StopAt(reports, evidence, o, m) == None;
      }
      RoundsWithoutPlateau(reports, o.epsilon, o.plateauRounds, n);
      BigGainsCost(reports, o.epsilon, n);
      var g := BigGains(reports, o.epsilon, n);
      Quotient(g, o.epsilon, 95);
      Product(g, 95 / o.epsilon, o.plateauRounds);
    }
  }

  lemma {:induction false} Quotient(g: nat, e: int, total: nat)
    requires e >= 1 && g * e <= total
    ensures g <= total / e
  {
    var q := total / e;
    assert total == q * e + total % e;
    assert (q + 1) * e == q * e + e;
    ProductGrows(q + 1, g, e);
  }

  lemma ProductGrows(a: nat, b: nat, e: nat)
    ensures a <= b ==> a * e <= b * e
  {
    assert b * e == a * e + (b - a) * e;
  }

  lemma Product(g: nat, h: nat, p: nat)
    requires g <= h
    ensures g * p <= h * p && (h + 1) * p == h * p + p
  {
  }
}

/** The critique loop, and the engine that runs it on a growing evidence store. */
module CritiqueLoop {
  import opened Critique
  import opened Evidence
  import opened Plateau

  /**
   * The loop over arbitrary critics: `reports` and `evidence` give the answers of the critique and the
   * enrichment in each round. It stops at the first round that gives a reason, or at the limit.
   */
  method RunCritiqueLoop(o: Options, reports: nat -> Report, evidence: nat -> int)
    returns (rounds: seq<Report>, reason: StopReason, finalScore: int)
    ensures |rounds| == 0 <==> o.maxRounds < 1
    ensures |rounds| <= (if o.maxRounds > 0 then o.maxRounds else 0)
    ensures forall i :: 0 <= i < |rounds| ==> rounds[i] == reports(i + 1)
    ensures Quiet(reports, evidence, o, |rounds| - 1)
    ensures |rounds| < o.maxRounds ==> reason != MaxRounds
    ensures reason == if rounds == [] then MaxRounds else match StopAt(reports, evidence, o, |rounds|)
      case Some(r) => r
      case None => MaxRounds
    ensures finalScore == if rounds == [] then 0 else rounds[|rounds| - 1].score
  {
    rounds, reason := [], MaxRounds;
    var previousScore, plateauStreak := 0, 0;
    var round := 1;
    while round <= o.maxRounds
      invariant |rounds| == round - 1 && (round > 1 ==> round - 1 <= o.maxRounds)
      invariant reason == MaxRounds
      invariant forall i :: 0 <= i < |rounds| ==> rounds[i] == reports(i + 1)
      invariant Quiet(reports, evidence, o, round - 1)
      invariant round > 1 ==> previousScore == reports(round - 1).score
      invariant plateauStreak == if round == 1 then 0 else Streak(reports, o.epsilon, round - 1)
    {
      var report := reports(round);
      rounds := rounds + [report];
      if report.score >= o.targetScore {
        reason := TargetReached;
        break;
      }
      if round > 1 && report.score - previousScore < o.epsilon {
        plateauStreak := plateauStreak + 1;
      } else {
        plateauStreak := 0;
      }
      previousScore := report.score;
      if plateauStreak >= o.plateauRounds {
        reason := Plateau;
        break;
      }
      if evidence(round) <= 0 && !report.suggestsQueries {
        reason := NoNewEvidence;
        break;
      }
      round := round + 1;
    }
    finalScore := if rounds == [] then 0 else rounds[|rounds| - 1].score;
  }

  // ------------------------------------------------------------------ the engine around the loop

  /** The evidence at the start of round `n + 1`, when round `k` brings in the items `added(k)`. */
  function StoreAt(initial: seq<Item>, added: nat -> seq<Item>, n: nat): seq<Item> {
    if n == 0 then initial else Merged(StoreAt(initial, added, n - 1), added(n))
  }

  /** The score of the evidence at the start of round `n + 1`. */
  function ScoreAt(initial: seq<Item>, added: nat -> seq<Item>, seeds: seq<Seed>, n: nat): int {
    Score(ToFindings(StoreAt(initial, added, n), seeds))
  }

  /** What round `n + 1` brings in is about entities its findings already list. */
  ghost predicate RoundIsKnown(initial: seq<Item>, added: nat -> seq<Item>, seeds: seq<Seed>, n: nat) {
    forall item :: item in added(n + 1) ==> AboutKnown(item, ToFindings(StoreAt(initial, added, n), seeds))
  }

  ghost predicate OnlyKnownEntities(initial: seq<Item>, added: nat -> seq<Item>, seeds: seq<Seed>) {
    forall n: nat :: RoundIsKnown(initial, added, seeds, n)
  }

  lemma ScoresAtGrow(initial: seq<Item>, added: nat -> seq<Item>, seeds: seq<Seed>, n: nat)
    requires RoundIsKnown(initial, added, seeds, n)
    ensures ScoreAt(initial, added, seeds, n) <= ScoreAt(initial, added, seeds, n + 1)
  {
    var store, merged := StoreAt(initial, added, n), StoreAt(initial, added, n + 1);
    MergedAppends(store, added(n + 1));
    var more := merged[|store|..];
    assert merged == store + more;
    forall item | item in more ensures AboutKnown(item, ToFindings(store, seeds)) {
      assert item in added(n + 1);
    }
    KnownEvidenceNeverLowersScore(store, more, seeds);
  }

  /** The deterministic critic's report in round `n`. */
  function EngineReport(initial: seq<Item>, added: nat -> seq<Item>, seeds: seq<Seed>, suggests: nat -> bool, n: nat)
    : Report
  {
    Report(if n == 0 then 0 else ScoreAt(initial, added, seeds, n - 1), suggests(n))
  }

  /** The critic of the engine, round by round. */
  ghost predicate IsEngineCritic(critic: nat -> Report, initial: seq<Item>, added: nat -> seq<Item>, seeds: seq<Seed>) {
    forall n: nat :: critic(n + 1).score == ScoreAt(initial, added, seeds, n)
  }

  lemma EngineScoresInRange(critic: nat -> Report, initial: seq<Item>, added: nat -> seq<Item>, seeds: seq<Seed>)
    requires IsEngineCritic(critic, initial, added, seeds)
    ensures forall i: nat :: 1 <= i ==> 0 <= critic(i).score <= 95
  {
    forall i: nat | 1 <= i ensures 0 <= critic(i).score <= 95 {
      ScoreRange(ToFindings(StoreAt(initial, added, i - 1), seeds));
      assert critic((i - 1) + 1).score == ScoreAt(initial, added, seeds, i - 1);
    }
  }

  lemma EngineScoresGrow(critic: nat -> Report, initial: seq<Item>, added: nat -> seq<Item>, seeds: seq<Seed>,
                         rounds: nat)
    requires IsEngineCritic(critic, initial, added, seeds) && OnlyKnownEntities(initial, added, seeds)
    ensures NonDecreasing(critic, rounds)
  {
    forall i: nat | 1 < i <= rounds ensures critic(i - 1).score <= critic(i).score {
      assert RoundIsKnown(initial, added, seeds, i - 2);
      ScoresAtGrow(initial, added, seeds, i - 2);
      assert critic((i - 2) + 1).score == ScoreAt(initial, added, seeds, i - 2);
      assert critic((i - 1) + 1).score == ScoreAt(initial, added, seeds, i - 1);
    }
  }

  /**
   * The engine's use of the loop with the deterministic critic: the evidence store grows by the items of
   * each round whose key is new. As long as they are about entities already among the findings, the loop
   * stops within the plateau bound, however many rounds are allowed.
   */
  method RunEngineCritique(o: Options, seeds: seq<Seed>, initial: seq<Item>, added: nat -> seq<Item>,
                           suggests: nat -> bool) returns (rounds: seq<Report>, reason: StopReason, finalScore: int)
    requires o.epsilon >= 1 && o.plateauRounds >= 1
    requires OnlyKnownEntities(initial, added, seeds)
    ensures |rounds| <= (95 / o.epsilon + 1) * o.plateauRounds + 1
    ensures forall i :: 0 <= i < |rounds| ==> rounds[i].score == ScoreAt(initial, added, seeds, i)
    ensures 0 <= finalScore <= 95
    ensures finalScore == if rounds == [] then 0 else rounds[|rounds| - 1].score
    ensures forall i :: 0 <= i < |rounds| ==> rounds[i].suggestsQueries == suggests(i + 1)
  {
    var critic := (n: nat) => EngineReport(initial, added, seeds, suggests, n);
    var fresher := (n: nat) => if n == 0 then 0 else |StoreAt(initial, added, n)| - |StoreAt(initial, added, n - 1)|;
    rounds, reason, finalScore := RunCritiqueLoop(o, critic, fresher);
    EngineScoresInRange(critic, initial, added, seeds);
    EngineScoresGrow(critic, initial, added, seeds, |rounds|);
    PlateauBound(critic, fresher, o, |rounds|);
  }
}
