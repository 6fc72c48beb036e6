/**
 * The pace at which a reply is typed out: a table of phases, each with a
 * delay per character and the number of typed characters at which the next
 * phase starts; the last phase never ends.
 */
module TypingSpeed {

  datatype Duration = UpTo(chars: nat) | Forever
  datatype SpeedPhase = SpeedPhase(delayMs: nat, duration: Duration)

  const SpeedPhases: seq<SpeedPhase> := [
    SpeedPhase(60, UpTo(15)),
    SpeedPhase(30, UpTo(25)),
    SpeedPhase(15, UpTo(40)),
    SpeedPhase(5, UpTo(60)),
    SpeedPhase(2, Forever)
  ]

  /** Whether `typed` characters reach the end of phase `p` (never, for the last phase). */
  predicate Ends(p: SpeedPhase, typed: nat) {
    p.duration.UpTo? && typed >= p.duration.chars
  }

  /** The phase in force once `typed` characters are shown: the reference the loop is proved against. */
  function PhaseFor(typed: nat): (p: nat)
    ensures p < |SpeedPhases|
    ensures forall k :: 0 <= k < p ==> Ends(SpeedPhases[k], typed)
    ensures !Ends(SpeedPhases[p], typed)
  {
    if typed < 15 then 0 else if typed < 25 then 1 else if typed < 40 then 2 else if typed < 60 then 3 else 4
  }

  /** The phases end in order: a phase is only over once all earlier ones are. */
  lemma PhaseForMonotone(a: nat, b: nat)
    requires a <= b
    ensures PhaseFor(a) <= PhaseFor(b)
    ensures SpeedPhases[PhaseFor(b)].delayMs <= SpeedPhases[PhaseFor(a)].delayMs
  {
  }

  /**
   * The inner loop of `typeMessage`: moves past every phase whose end the
   * character count has reached, never past the last.
   */
  method AdvancePhase(currentPhase: nat, charactersTyped: nat) returns (phase: nat)
    requires currentPhase <= PhaseFor(charactersTyped)
    ensures phase == PhaseFor(charactersTyped)
  {
    phase := currentPhase;
    while phase < |SpeedPhases| - 1 && Ends(SpeedPhases[phase], charactersTyped)
      invariant currentPhase <= phase <= PhaseFor(charactersTyped)
      decreases |SpeedPhases| - phase
    {
      phase := phase + 1;
    }
  }

  /**
   * The delays `typeMessage` waits after each of `count` shown characters,
   * keeping the phase from one character to the next as the page does.
   */
  method Delays(count: nat) returns (delays: seq<nat>)
    ensures |delays| == count
    ensures forall k :: 0 <= k < count ==> delays[k] == SpeedPhases[PhaseFor(k + 1)].delayMs
  {
    var currentPhase := 0;
    var charactersTyped := 0;
    delays := [];
    while charactersTyped < count
      invariant charactersTyped <= count && |delays| == charactersTyped
      invariant currentPhase == PhaseFor(charactersTyped)
      invariant forall k :: 0 <= k < charactersTyped ==> delays[k] == SpeedPhases[PhaseFor(k + 1)].delayMs
    {
      charactersTyped := charactersTyped + 1;
      PhaseForMonotone(charactersTyped - 1, charactersTyped);
      currentPhase := AdvancePhase(currentPhase, charactersTyped);
      delays := delays + [SpeedPhases[currentPhase].delayMs];
    }
  }

  /** Typing only speeds up: each delay is at most the one before it, from 60 ms down to 2 ms. */
  lemma DelaysSpeedUp(i: nat, j: nat)
    requires i <= j
    ensures SpeedPhases[PhaseFor(j + 1)].delayMs <= SpeedPhases[PhaseFor(i + 1)].delayMs
    ensures 2 <= SpeedPhases[PhaseFor(j + 1)].delayMs <= 60
  {
    PhaseForMonotone(i + 1, j + 1);
  }
}
