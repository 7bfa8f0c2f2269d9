/** The onboarding progress bar: one segment per step, lit up to and including the current one. */
module ProgressBar {

  /** `Array.from({ length: totalSteps })`: a negative length gives no segments. */
  function SegmentCount(totalSteps: int): (n: nat)
    ensures totalSteps >= 0 ==> n == totalSteps
    ensures totalSteps < 0 ==> n == 0
  {
    if totalSteps < 0 then 0 else totalSteps
  }

  /** Whether each segment is drawn active. */
  function Segments(currentStep: int, totalSteps: int): (r: seq<bool>)
    ensures |r| == SegmentCount(totalSteps)
    ensures forall i :: 0 <= i < |r| ==> (r[i] <==> i <= currentStep)
  {
    seq(SegmentCount(totalSteps), i => i <= currentStep)
  }

  /** The number of active segments, counted from the end. */
  function ActiveCount(s: seq<bool>): nat
  {
    if s == [] then 0 else ActiveCount(s[..|s| - 1]) + (if s[|s| - 1] then 1 else 0)
  }

  /** For a step inside the bar, exactly `currentStep + 1` segments are lit. */
  lemma {:induction false} ActiveSegments(currentStep: int, totalSteps: int)
    requires 0 <= currentStep < totalSteps
    ensures ActiveCount(Segments(currentStep, totalSteps)) == currentStep + 1
  {
    ActivePrefix(currentStep, totalSteps);
  }

  /** Lit segments among the first `n`: all `n` up to the current step, then no more. */
  lemma {:induction false} ActivePrefix(currentStep: int, n: nat)
    requires currentStep >= -1
    ensures ActiveCount(Segments(currentStep, n)) == if n <= currentStep + 1 then n else currentStep + 1
  {
    if n > 0 {
      var s := Segments(currentStep, n);
      assert s[..n - 1] == Segments(currentStep, n - 1);
      ActivePrefix(currentStep, n - 1);
    }
  }

  /** Moving forward never switches a segment off. */
  lemma AdvanceKeepsSegmentsLit(c1: int, c2: int, totalSteps: int, i: nat)
    requires c1 <= c2 && i < SegmentCount(totalSteps)
    ensures Segments(c1, totalSteps)[i] ==> Segments(c2, totalSteps)[i]
  {
  }
}
