/** The patience counter every listening loop uses so that one spoken keyword is
    reported once: after a detection the loop ignores the next `cooldown` frames. */
module Debounce {

  /** The effect of one processed frame: the patience left afterwards and whether
      the frame reported a detection. */
  datatype Step = Step(patience: nat, detected: bool)

  /** The rule shared by the three loops, for a frame entered with patience p:
      a detection happens only when p is 0 and re-arms the counter to `cooldown`;
      a positive p counts down by one without a detection; an armed frame that
      does not detect stays armed. */
  predicate StepOk(p: nat, s: Step, cooldown: nat)
  {
    (s.detected ==> p == 0 && s.patience == cooldown) &&
    (p > 0 ==> !s.detected && s.patience == p - 1) &&
    (p == 0 && !s.detected ==> s.patience == 0)
  }

  /** Patience on entry to frame k of a run that started with p0. */
  function Before(p0: nat, steps: seq<Step>, k: nat): nat
    requires k <= |steps|
  {
    if k == 0 then p0 else steps[k - 1].patience
  }

  /** Every frame of the run obeys the rule. */
  predicate Follows(p0: nat, steps: seq<Step>, cooldown: nat)
  {
    forall k {:trigger Before(p0, steps, k)} :: 0 <= k < |steps| ==> StepOk(Before(p0, steps, k), steps[k], cooldown)
  }

  /** The patience after every frame of a run, from its input decisions. */
  function Run<X>(p0: nat, inputs: seq<X>, decide: (nat, X) -> Step): (steps: seq<Step>)
    ensures |steps| == |inputs|
    decreases |inputs|
  {
    if inputs == [] then []
    else
      var s := decide(p0, inputs[0]);
      [s] + Run(s.patience, inputs[1..], decide)
  }

  /** Frame k of a run is decided from the patience the earlier frames left. */
  lemma {:induction false} RunAt<X>(p0: nat, inputs: seq<X>, decide: (nat, X) -> Step, k: nat)
    requires k < |inputs|
    ensures Run(p0, inputs, decide)[k] == decide(Before(p0, Run(p0, inputs, decide), k), inputs[k])
    decreases k
  {
    var steps := Run(p0, inputs, decide);
    var s := decide(p0, inputs[0]);
    if k > 0 {
      RunAt(s.patience, inputs[1..], decide, k - 1);
      var tail := Run(s.patience, inputs[1..], decide);
      assert steps == [s] + tail;
      assert Before(p0, steps, k) == Before(s.patience, tail, k - 1);
    }
  }

  /** A per-frame decision that obeys the rule gives a run that follows it. */
  lemma RunFollows<X>(p0: nat, inputs: seq<X>, decide: (nat, X) -> Step, cooldown: nat)
    requires forall p: nat, x: X :: StepOk(p, decide(p, x), cooldown)
    ensures Follows(p0, Run(p0, inputs, decide), cooldown)
  {
    var steps := Run(p0, inputs, decide);
    forall k | 0 <= k < |steps|
      ensures StepOk(Before(p0, steps, k), steps[k], cooldown)
    {
      RunAt(p0, inputs, decide, k);
    }
  }

  /** After a detection at frame i, the frames i+1 .. i+cooldown enter with
      patience cooldown, cooldown-1, ..., 1, and the frame after them enters armed. */
  lemma {:induction false} CountDown(p0: nat, steps: seq<Step>, cooldown: nat, i: nat, k: nat)
    requires Follows(p0, steps, cooldown)
    requires i < |steps| && steps[i].detected
    requires k <= cooldown && i + 1 + k <= |steps|
    ensures Before(p0, steps, i + 1 + k) == cooldown - k
    decreases k
  {
    if k == 0 {
      assert StepOk(Before(p0, steps, i), steps[i], cooldown);
    } else {
      CountDown(p0, steps, cooldown, i, k - 1);
      assert StepOk(Before(p0, steps, i + k), steps[i + k], cooldown);
    }
  }

  /** Two detections of a run that follows the rule are more than `cooldown`
      frames apart. */
  lemma DetectionsApart(p0: nat, steps: seq<Step>, cooldown: nat, i: nat, j: nat)
    requires Follows(p0, steps, cooldown)
    requires i < j < |steps| && steps[i].detected && steps[j].detected
    ensures j - i > cooldown
  {
    if j - i <= cooldown {
      CountDown(p0, steps, cooldown, i, j - i - 1);
    }
  }

  /** The frame that comes cooldown+1 frames after a detection is armed again. */
  lemma Rearmed(p0: nat, steps: seq<Step>, cooldown: nat, i: nat)
    requires Follows(p0, steps, cooldown)
    requires i < |steps| && steps[i].detected && i + 1 + cooldown <= |steps|
    ensures Before(p0, steps, i + 1 + cooldown) == 0
  {
    CountDown(p0, steps, cooldown, i, cooldown);
  }

  /** Patience never exceeds the larger of its start and the cooldown. */
  lemma {:induction false} PatienceBounded(p0: nat, steps: seq<Step>, cooldown: nat, k: nat)
    requires Follows(p0, steps, cooldown) && k <= |steps|
    ensures Before(p0, steps, k) <= if p0 <= cooldown then cooldown else p0
    decreases k
  {
    if k > 0 {
      PatienceBounded(p0, steps, cooldown, k - 1);
      assert StepOk(Before(p0, steps, k - 1), steps[k - 1], cooldown);
    }
  }

  /** What one iteration of a listening loop did with its frame. */
  datatype FrameOutcome =
    | Skipped                  // the read did not deliver a full frame; logged and ignored
    | Crashed                  // an inference runner returned null and `!!` threw
    | Processed(detected: bool)
}
