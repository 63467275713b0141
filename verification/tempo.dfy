/** Fitting a synthesised clip to its time slot (AudioSpeedAdjustmentService):
    the clip's duration is compared with the slot, and unless they are within
    five percent the clip is re-encoded through a chain of `atempo` filters
    whose factors multiply to the (clamped) speed-up. */
module Tempo {
  import opened Wrappers

  const MinSpeed: real := 0.25
  const MaxSpeed: real := 4.0
  /** One `atempo` filter accepts factors in [0.5, 2.0]. */
  const MinStage: real := 0.5
  const MaxStage: real := 2.0
  /** Relative difference below which the clip is copied unchanged. */
  const Tolerance: real := 0.05

  function Clamp(speed: real): (c: real)
    ensures MinSpeed <= c <= MaxSpeed
    ensures MinSpeed <= speed <= MaxSpeed ==> c == speed
  {
    var lo := if speed > MinSpeed then speed else MinSpeed;
    if lo < MaxSpeed then lo else MaxSpeed
  }

  function Product(factors: seq<real>): real
    decreases |factors|
  {
    if |factors| == 0 then 1.0 else factors[0] * Product(factors[1..])
  }

  predicate StagesInRange(factors: seq<real>) {
    forall i :: 0 <= i < |factors| ==> MinStage <= factors[i] <= MaxStage
  }

  /** The speed-up loop: while the remaining factor exceeds 2, emit a 2.0
      stage and halve it; then emit the remainder if it exceeds 0.5. */
  function SpeedUpFrom(remaining: real): (chain: seq<real>)
    requires MinStage < remaining <= MaxSpeed
    ensures Product(chain) == remaining
    ensures StagesInRange(chain)
    ensures 1 <= |chain| <= 2
    decreases if remaining > MaxStage then 1 else 0
  {
    if remaining > MaxStage then [MaxStage] + SpeedUpFrom(remaining / 2.0)
    else if remaining > MinStage then [remaining]
    else []
  }

  /** The slow-down loop: while the remaining factor is below 0.5, emit a 0.5
      stage and double it; then emit the remainder if it is below 2. */
  function SlowDownFrom(remaining: real): (chain: seq<real>)
    requires MinSpeed <= remaining < MaxStage
    ensures Product(chain) == remaining
    ensures StagesInRange(chain)
    ensures 1 <= |chain| <= 2
    decreases if remaining < MinStage then 1 else 0
  {
    if remaining < MinStage then [MinStage] + SlowDownFrom(remaining / 0.5)
    else if remaining < MaxStage then [remaining]
    else []
  }

  /** `buildAtempoChain(speed:)`: the factors of the filter chain, which
      together apply the clamped speed and each lie in atempo's range. */
  function AtempoChain(speed: real): (chain: seq<real>)
    ensures Product(chain) == Clamp(speed)
    ensures StagesInRange(chain)
    ensures 1 <= |chain| <= 2
    ensures MinStage <= Clamp(speed) <= MaxStage <==> chain == [Clamp(speed)]
  {
    var c := Clamp(speed);
    if MinStage <= c <= MaxStage then [c]
    else if c > MaxStage then SpeedUpFrom(c)
    else SlowDownFrom(c)
  }

  /** Speeds 3.0 and 0.3 become two-stage chains. */
  lemma ChainExamples()
    ensures AtempoChain(3.0) == [2.0, 1.5]
    ensures AtempoChain(0.3) == [0.5, 0.6]
    ensures AtempoChain(10.0) == [2.0, 2.0]
    ensures AtempoChain(1.25) == [1.25]
  {
  }

  predicate WithinTolerance(factor: real) {
    -Tolerance < factor - 1.0 < Tolerance
  }

  /** The speed factor `current / target` as a Double. A slot of length zero
      (a segment whose end equals its start) gives an infinity, or NaN when
      the clip is empty too; a negative slot gives a negative factor. */
  datatype Ratio = Finite(value: real) | PosInfinity | NegInfinity | NotANumber

  function SpeedFactor(current: real, target: real): (f: Ratio)
    ensures f.Finite? <==> target != 0.0
    ensures f.Finite? ==> f.value * target == current
    ensures f.PosInfinity? <==> target == 0.0 && current > 0.0
    ensures f.NotANumber? <==> target == 0.0 && current == 0.0
  {
    if target != 0.0 then Finite(current / target)
    else if current > 0.0 then PosInfinity
    else if current < 0.0 then NegInfinity
    else NotANumber
  }

  /** `abs(speedFactor - 1.0) < tolerance`: false for infinities and NaN. */
  predicate Near(f: Ratio) {
    f.Finite? && WithinTolerance(f.value)
  }

  /** `buildAtempoChain` on a Double factor. `min(max(x, 0.25), 4.0)` sends
      the infinities to the bounds; NaN survives the clamp, fails every
      comparison in the chain builder and leaves the chain empty. */
  function RatioChain(f: Ratio): (chain: seq<real>)
    ensures chain == [] <==> f.NotANumber?
    ensures StagesInRange(chain)
    ensures f.Finite? ==> Product(chain) == Clamp(f.value)
    ensures f.PosInfinity? ==> Product(chain) == MaxSpeed
    ensures f.NegInfinity? ==> Product(chain) == MinSpeed
  {
    match f
    case Finite(v) => AtempoChain(v)
    case PosInfinity => AtempoChain(MaxSpeed)
    case NegInfinity => AtempoChain(MinSpeed)
    case NotANumber => []
  }

  /** What the file system and the external tools report during one call. */
  datatype AdjustEnv = AdjustEnv(
    inputDuration: Option<real>,   // probe of the input clip
    copySucceeds: bool,            // copying the clip to the output path
    encodeExitCode: int,           // exit status of the re-encode
    outputDuration: Option<real>)  // probe of the re-encoded clip

  /** What was done to produce the output file. */
  datatype Action = NothingDone | Copied | Reencoded(chain: seq<real>)

  datatype AdjustOutcome = AdjustOutcome(duration: Option<real>, action: Action)

  /** `adjustSpeed`: `None` when the input cannot be probed, the copy fails or
      the encoder fails; otherwise the duration the output is believed to
      have. Any slot length is accepted, as in the source. */
  function AdjustSpeed(targetDuration: real, env: AdjustEnv): (o: AdjustOutcome)
    ensures env.inputDuration.None? ==> o == AdjustOutcome(None, NothingDone)
    ensures env.inputDuration.Some? ==> o.action != NothingDone
    ensures env.inputDuration.Some? ==>
      (o.action == Copied <==> Near(SpeedFactor(env.inputDuration.value, targetDuration)))
    ensures env.inputDuration.Some? && !Near(SpeedFactor(env.inputDuration.value, targetDuration)) ==>
      o.action.Reencoded?
    ensures o.action == Copied ==> o.duration == (if env.copySucceeds then env.inputDuration else None)
    ensures o.action.Reencoded? ==>
      env.inputDuration.Some?
      && StagesInRange(o.action.chain)
      && (targetDuration != 0.0 ==> Product(o.action.chain) == Clamp(env.inputDuration.value / targetDuration))
      && (targetDuration == 0.0 ==> (o.action.chain == [] <==> env.inputDuration.value == 0.0))
      && (targetDuration == 0.0 && env.inputDuration.value > 0.0 ==> Product(o.action.chain) == MaxSpeed)
      && (targetDuration == 0.0 && env.inputDuration.value < 0.0 ==> Product(o.action.chain) == MinSpeed)
      && o.duration == (if env.encodeExitCode != 0 then None
                        else Some(env.outputDuration.GetOr(targetDuration)))
  {
    match env.inputDuration
    case None => AdjustOutcome(None, NothingDone)
    case Some(current) =>
      var factor := SpeedFactor(current, targetDuration);
      if Near(factor) then
        AdjustOutcome(if env.copySucceeds then Some(current) else None, Copied)
      else
        var chain := RatioChain(factor);
        if env.encodeExitCode == 0 then
          AdjustOutcome(Some(env.outputDuration.GetOr(targetDuration)), Reencoded(chain))
        else AdjustOutcome(None, Reencoded(chain))
  }

  /** A zero-length slot: a non-empty clip is sped up by the maximum four
      (two 2.0 stages) and, if the encoder succeeds without a readable
      output, is believed to last zero seconds; an empty clip gets an empty
      filter chain. */
  lemma ZeroSlotExamples(env: AdjustEnv)
    ensures env.inputDuration == Some(3.0) ==>
      AdjustSpeed(0.0, env).action == Reencoded([2.0, 2.0])
      && (env.encodeExitCode == 0 && env.outputDuration.None? ==> AdjustSpeed(0.0, env).duration == Some(0.0))
    ensures env.inputDuration == Some(0.0) ==> AdjustSpeed(0.0, env).action == Reencoded([])
  {
    assert AtempoChain(MaxSpeed) == [2.0, 2.0] by { ChainExamples(); }
  }

  /** When the clip is at most four times too long and at least four times too
      short, the filter chain turns its duration into exactly the slot length. */
  lemma ChainFitsSlot(current: real, targetDuration: real, env: AdjustEnv)
    requires targetDuration > 0.0 && env.inputDuration == Some(current)
    requires MinSpeed <= current / targetDuration <= MaxSpeed
    requires AdjustSpeed(targetDuration, env).action.Reencoded?
    ensures var p := Product(AdjustSpeed(targetDuration, env).action.chain);
      p > 0.0 && current / p == targetDuration
  {
    var o := AdjustSpeed(targetDuration, env);
    var f := current / targetDuration;
    assert Clamp(f) == f;
    assert Product(o.action.chain) == f;
    RatioBack(current, targetDuration);
  }

  /** Dividing by a ratio gives back its denominator. */
  lemma RatioBack(c: real, t: real)
    requires t > 0.0 && c / t > 0.0
    ensures c / (c / t) == t
  {
    var f := c / t;
    assert f * t == c;
  }

  /** Clips far outside the range are only brought to a quarter or four times
      their length: the output then still misses the slot. */
  lemma ClampedClipMissesSlot(targetDuration: real, env: AdjustEnv)
    requires targetDuration > 0.0 && env.inputDuration == Some(10.0 * targetDuration)
    ensures AdjustSpeed(targetDuration, env).action == Reencoded([2.0, 2.0])
    ensures 10.0 * targetDuration / Product([2.0, 2.0]) > targetDuration
  {
    ScaledRatio(10.0, targetDuration);
  }

  lemma ScaledRatio(k: real, x: real)
    requires x > 0.0
    ensures (k * x) / x == k
  {
  }
}
