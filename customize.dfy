/**
 * The constructors of range-limited editors that field attributes expand
 * to: a range with no step, a range with a step, and a step over the full
 * range.
 */
module Customize {
  import opened Nums

  /** The editor's step: not given, or the given step. */
  datatype Step<S> = StepUnset | StepBy(step: S)

  /** `EguiProbeRange` without its borrowed value. */
  datatype RangeProbe<R, S> = RangeProbe(range: R, step: Step<S>)

  /** `probe_range`: the given range, step left unset. */
  function ProbeRange<R, S>(range: R): (p: RangeProbe<R, S>)
    ensures p.range == range && p.step.StepUnset?
  {
    RangeProbe(range, StepUnset)
  }

  /** `probe_range_step`: the given range and step. */
  function ProbeRangeStep<R, S>(range: R, step: S): (p: RangeProbe<R, S>)
    ensures p.range == range && p.step == StepBy(step)
  {
    RangeProbe(range, StepBy(step))
  }

  /** `probe_step`: the given step over the full range `..`. */
  function ProbeStep<S>(step: S): (p: RangeProbe<RangeShape, S>)
    ensures p.range == Full && p.step == StepBy(step)
  {
    RangeProbe(Full, StepBy(step))
  }

  /** A step over the full range clamps an integer editor to the whole type. */
  lemma ProbeStepClampsToType<S>(t: IntType, step: S)
    ensures ShapeInType(t, ProbeStep(step).range)
    ensures ClampOf(t, ProbeStep(step).range) == Clamp(Min(t), Max(t))
  {
  }
}
