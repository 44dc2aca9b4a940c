/**
 * The session parameters and the control keys that adjust them: Right and
 * Left move the octave offset (`raw_sequence`) within 0..5, Up and Down move
 * the note duration in milliseconds within 0..8000 in steps of 50.
 *
 * The starting values come from the command line and are parsed but not
 * range-checked, so the functions below are total over the program's integer
 * types; the bounds are invariants only of runs that start inside them.
 */
module Controller {
  import opened Notes

  /** The width of the program's `u32` note duration. */
  type U32 = x: int | 0 <= x < 0x1_0000_0000

  const MaxOffset: int := 5
  const MaxDuration: int := 8000
  const DurationStep: int := 50

  /** `u32` subtraction as a release build performs it: modulo 2^32. */
  function WrapU32(x: int): (r: U32)
    ensures 0 <= x < 0x1_0000_0000 ==> r == x
    ensures -0x1_0000_0000 <= x < 0 ==> r == x + 0x1_0000_0000
  {
    x % 0x1_0000_0000
  }

  /** The octave offset after `key`: Right raises it while it is below 5, Left lowers it while it is above 0. */
  function NextSequence(q: I16, key: Key): (r: I16)
    ensures key != Right && key != Left ==> r == q
    ensures q - 1 <= r <= q + 1
  {
    match key
    case Right => if q < MaxOffset then q + 1 else q
    case Left => if q > 0 then q - 1 else q
    case _ => q
  }

  /** The note duration after `key`: Up adds 50 while it is below 8000, Down takes 50 away while it is above 0. */
  function NextDuration(d: U32, key: Key): (r: U32)
    ensures key != Up && key != Down ==> r == d
    ensures key == Up ==> d <= r <= d + DurationStep
  {
    match key
    case Up => if d < MaxDuration then d + DurationStep else d
    case Down => if d > 0 then WrapU32(d - DurationStep) else d
    case _ => d
  }

  datatype Params = Params(rawSequence: I16, noteDuration: U32)

  /** The bounds the controller is meant to keep. */
  predicate InBounds(p: Params)
  {
    && 0 <= p.rawSequence <= MaxOffset
    && 0 <= p.noteDuration <= MaxDuration
    && p.noteDuration % DurationStep == 0
  }

  /** Both parameters after one key event. */
  function Adjust(p: Params, key: Key): (r: Params)
    ensures key !in {Right, Left, Up, Down} ==> r == p
    ensures InBounds(p) ==> InBounds(r)
  {
    Params(NextSequence(p.rawSequence, key), NextDuration(p.noteDuration, key))
  }

  /** The control-key arm of the main loop's `match`: the guarded in-place updates of both parameters. */
  method HandleControlKey(rawSequence: I16, noteDuration: U32, key: Key) returns (q: I16, d: U32)
    ensures Params(q, d) == Adjust(Params(rawSequence, noteDuration), key)
  {
    q, d := rawSequence, noteDuration;
    match key {
      case Right =>
        if q < 5 {
          q := q + 1;
        }
      case Left =>
        if q > 0 {
          q := q - 1;
        }
      case Up =>
        if d < 8000 {
          d := d + 50;
        }
      case Down =>
        if d > 0 {
          d := WrapU32(d - 50);
        }
      case _ =>
    }
  }

  /** Right and Left keep an offset in 0..5 inside 0..5. */
  lemma OffsetStaysInRange(q: I16, key: Key)
    requires 0 <= q <= MaxOffset
    ensures 0 <= NextSequence(q, key) <= MaxOffset
  {
  }

  /**
   * Within 0..5 the offset moves up by one exactly on Right below 5, down by
   * one exactly on Left above 0, and stays put otherwise (Right at 5, Left at
   * 0 and every other key included).
   */
  lemma OffsetMoves(q: I16, key: Key)
    requires 0 <= q <= MaxOffset
    ensures NextSequence(q, key) == q + 1 <==> key == Right && q < MaxOffset
    ensures NextSequence(q, key) == q - 1 <==> key == Left && q > 0
    ensures NextSequence(q, key) == q <==> !(key == Right && q < MaxOffset) && !(key == Left && q > 0)
  {
  }

  /** Up and Down keep a duration that is a multiple of 50 in 0..8000 a multiple of 50 in 0..8000. */
  lemma DurationStaysInRange(d: U32, key: Key)
    requires 0 <= d <= MaxDuration && d % DurationStep == 0
    ensures var r := NextDuration(d, key); 0 <= r <= MaxDuration && r % DurationStep == 0
  {
  }

  /**
   * Within the bounds the duration rises by 50 exactly on Up below 8000,
   * falls by 50 exactly on Down above 0, and stays put otherwise.
   */
  lemma DurationMoves(d: U32, key: Key)
    requires 0 <= d <= MaxDuration && d % DurationStep == 0
    ensures NextDuration(d, key) == d + DurationStep <==> key == Up && d < MaxDuration
    ensures NextDuration(d, key) == d - DurationStep <==> key == Down && d > 0
    ensures NextDuration(d, key) == d <==> !(key == Up && d < MaxDuration) && !(key == Down && d > 0)
  {
  }

  /**
   * The guards compare with the bounds, not with the step: from a duration in
   * 0..8000 that is not a multiple of 50, Up can overshoot 8000 and Down can
   * pass below zero, where the `u32` wraps around. Exactly the durations
   * strictly between 7950 and 8000 and strictly between 0 and 50 escape.
   */
  lemma DurationEscapesOnlyNearBounds(d: U32)
    requires 0 <= d <= MaxDuration
    ensures NextDuration(d, Up) > MaxDuration <==> MaxDuration - DurationStep < d < MaxDuration
    ensures NextDuration(d, Down) > MaxDuration <==> 0 < d < DurationStep
    ensures 0 < d < DurationStep ==> NextDuration(d, Down) == d - DurationStep + 0x1_0000_0000
  {
  }
}
