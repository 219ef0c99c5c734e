/**
 * The bounded retry-with-rejection loop that both backends run:
 *
 *   draw candidate 0; attempts := 0
 *   while check(candidate) says "taken" and attempts < 10: draw the next candidate; attempts += 1
 *   if attempts >= 10: fail
 *
 * The check is evaluated at every loop test, including the one after the tenth retry,
 * so up to eleven candidates are drawn and checked, while only the first ten can be used.
 * The outcome of each check is a Probe; Allocate says where the loop ends for a given
 * sequence of probe outcomes.
 */
module Allocation {
  import opened ShortCode

  /** The retry bound of the source. */
  const MaxAttempts: nat := 10

  /**
   * The draws the loop can consume: CodeLength (six) for the first candidate and six per
   * retry. Offsets below are written as 6 * k rather than CodeLength * k to keep the
   * arithmetic linear for the verifier.
   */
  predicate EnoughDraws(draws: seq<Draw>)
  {
    |draws| >= 6 * (MaxAttempts + 1)
  }

  /** The k-th candidate the loop generates (k = 0 is the one drawn before the loop). */
  function Candidate(draws: seq<Draw>, k: nat): string
    requires EnoughDraws(draws) && k <= MaxAttempts
  {
    Spell(draws[6 * k..][..CodeLength])
  }

  /** One call of generateShortCode inside the loop: it consumes the k-th block of six draws. */
  method DrawCandidate(draws: seq<Draw>, k: nat) returns (code: string)
    requires EnoughDraws(draws) && k <= MaxAttempts
    ensures code == Candidate(draws, k)
  {
    code := GenerateShortCode(draws[6 * k..]);
  }

  /** Every candidate is a well-formed short code. */
  lemma CandidateIsShortCode(draws: seq<Draw>, k: nat)
    requires EnoughDraws(draws) && k <= MaxAttempts
    ensures IsShortCode(Candidate(draws, k))
  {
    AlphabetIsAlphanumeric();
  }

  /** Candidates depend only on the first eleven blocks of six draws. */
  lemma CandidatesUseElevenCodes(d1: seq<Draw>, d2: seq<Draw>, k: nat)
    requires EnoughDraws(d1) && EnoughDraws(d2) && k <= MaxAttempts
    requires d1[..6 * (MaxAttempts + 1)] == d2[..6 * (MaxAttempts + 1)]
    ensures Candidate(d1, k) == Candidate(d2, k)
  {
    var n := 6 * (MaxAttempts + 1);
    assert d1[6 * k..][..CodeLength] == d1[..n][6 * k .. 6 * k + CodeLength];
    assert d2[6 * k..][..CodeLength] == d2[..n][6 * k .. 6 * k + CodeLength];
  }

  /** What one uniqueness check reports: the code is free, it is taken, or the check threw. */
  datatype Probe = Free | InUse | Threw

  /** The value of `attempts` when the loop, started at `from`, stops. */
  function Scan(probes: seq<Probe>, from: nat): (k: nat)
    requires |probes| > MaxAttempts && from <= MaxAttempts
    decreases MaxAttempts - from
    ensures from <= k <= MaxAttempts
    ensures forall j :: from <= j < k ==> probes[j] == InUse
    ensures k < MaxAttempts ==> probes[k] != InUse
  {
    if from == MaxAttempts || probes[from] != InUse then from else Scan(probes, from + 1)
  }

  /** The loop's stopping point is determined: the first non-collision, or the bound. */
  lemma {:induction false} ScanUnique(probes: seq<Probe>, from: nat, k: nat)
    requires |probes| > MaxAttempts && from <= k <= MaxAttempts
    requires forall j :: from <= j < k ==> probes[j] == InUse
    requires k == MaxAttempts || probes[k] != InUse
    ensures Scan(probes, from) == k
    decreases k - from
  {
    if from < k {
      ScanUnique(probes, from + 1, k);
    }
  }

  /** How the loop ends: with the candidate it will use, with too many collisions, or with an exception. */
  datatype Verdict = Picked(index: nat) | Exhausted | Aborted

  function Allocate(probes: seq<Probe>): (v: Verdict)
    requires |probes| > MaxAttempts
    ensures v.Picked? ==> v.index < MaxAttempts && probes[v.index] == Free
    ensures v.Picked? ==> forall j :: 0 <= j < v.index ==> probes[j] == InUse
    ensures v.Exhausted? ==> forall j :: 0 <= j < MaxAttempts ==> probes[j] == InUse
    ensures v.Aborted? ==> Threw in probes[..MaxAttempts + 1]
  {
    var k := Scan(probes, 0);
    if probes[k] == Threw then
      assert probes[..MaxAttempts + 1][k] == Threw;
      Aborted
    else if k == MaxAttempts then Exhausted
    else Picked(k)
  }

  /**
   * The loop gives up exactly when the first ten candidates all collide and the
   * eleventh check, whose answer is otherwise ignored, does not throw.
   */
  lemma ExhaustedIff(probes: seq<Probe>)
    requires |probes| > MaxAttempts
    ensures Allocate(probes).Exhausted? <==>
      (forall j :: 0 <= j < MaxAttempts ==> probes[j] == InUse) && probes[MaxAttempts] != Threw
  {
    if (forall j :: 0 <= j < MaxAttempts ==> probes[j] == InUse) {
      ScanUnique(probes, 0, MaxAttempts);
    }
  }

  /** The loop picks a candidate exactly when one of the first ten is free and every earlier one collided. */
  lemma PickedIff(probes: seq<Probe>, k: nat)
    requires |probes| > MaxAttempts
    ensures Allocate(probes) == Picked(k) <==>
      k < MaxAttempts && probes[k] == Free && forall j :: 0 <= j < k ==> probes[j] == InUse
  {
    if k < MaxAttempts && probes[k] == Free && forall j :: 0 <= j < k ==> probes[j] == InUse {
      ScanUnique(probes, 0, k);
    }
  }

  /** A check that throws before any free candidate is seen aborts the loop. */
  lemma AbortsOnThrow(probes: seq<Probe>, k: nat)
    requires |probes| > MaxAttempts
    requires k <= MaxAttempts && probes[k] == Threw && forall j :: 0 <= j < k ==> probes[j] == InUse
    ensures Allocate(probes) == Aborted
  {
    ScanUnique(probes, 0, k);
  }

  /** When no check can throw, the loop never aborts: it picks or it gives up. */
  lemma NoThrowNoAbort(probes: seq<Probe>)
    requires |probes| > MaxAttempts
    requires forall j :: 0 <= j <= MaxAttempts ==> probes[j] != Threw
    ensures !Allocate(probes).Aborted?
  {
  }
}
