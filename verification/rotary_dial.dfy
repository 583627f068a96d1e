/**
 * The dial of src/components/RotaryDial.tsx: where each catalog slot sits,
 * how far a stroke must turn to bring it to the finger stop, and the click
 * handler that lets one stroke run at a time and emits `onDial` once per
 * stroke.
 */
module Dial {
  import opened Responses

  /** Angles are in whole degrees; 0 is three o'clock, positive is clockwise. */
  const STOP_ANGLE: int := 60
  const ANGLE_STEP: int := 30
  const START_ANGLE: int := -45

  /**
   * `getSlotAngle`: slot 0 sits at the start angle, each later slot one step
   * further counter-clockwise; the nine catalog slots lie on a 240-degree
   * arc running counter-clockwise from -45 (about half past one) to -285
   * (about half past five).
   */
  function SlotAngle(index: int): (angle: int)
    ensures 0 <= index < |EMOJIS| ==> -285 <= angle <= START_ANGLE
  {
    START_ANGLE - index * ANGLE_STEP
  }

  /** Slots further along the catalog sit at strictly smaller angles, so no two slots coincide. */
  lemma SlotAnglesDecrease(i: int, j: int)
    requires i < j
    ensures SlotAngle(i) > SlotAngle(j)
    ensures SlotAngle(i) - SlotAngle(j) == ANGLE_STEP * (j - i)
  {
  }

  /** The turn that carries slot `index` from its resting angle to the finger stop. */
  function RotationNeeded(index: int): (rotation: int)
    ensures SlotAngle(index) + rotation == STOP_ANGLE
    ensures rotation == 105 + 30 * index
    ensures index >= 0 ==> rotation > 0
  {
    STOP_ANGLE - SlotAngle(index)
  }

  /** For the nine catalog slots a stroke is always less than a full turn. */
  lemma RotationUnderFullTurn(index: int)
    requires 0 <= index < |EMOJIS|
    ensures 105 <= RotationNeeded(index) <= 345 < 360
  {
  }

  /**
   * Where the asynchronous `handleSlotClick` is between its awaits: no stroke,
   * turning towards the stop with the glyph still to be emitted, or springing
   * back after `onDial` was called.
   */
  datatype Stroke = Idle | Turning(glyph: string) | Returning

  class RotaryDial {
    var isRotating: bool
    /** The target of the last `controls.start`: the stroke's rotation, or 0 at rest. */
    var rotate: int
    var stroke: Stroke

    ghost predicate Valid()
      reads this
    {
      (isRotating <==> !stroke.Idle?) && (stroke.Idle? ==> rotate == 0)
    }

    constructor ()
      ensures Valid() && !isRotating && stroke == Idle && rotate == 0
    {
      isRotating := false;
      rotate := 0;
      stroke := Idle;
    }

    /**
     * The synchronous part of `handleSlotClick`: refuse while locked or
     * rotating; otherwise mark the dial rotating and start turning slot
     * `index` towards the stop.
     */
    method HandleSlotClick(index: nat, isLocked: bool) returns (accepted: bool)
      requires Valid() && index < |EMOJIS|
      modifies this
      ensures Valid()
      ensures accepted <==> !isLocked && !old(isRotating)
      ensures !accepted ==> isRotating == old(isRotating) && rotate == old(rotate) && stroke == old(stroke)
      ensures accepted ==> isRotating && rotate == RotationNeeded(index) && stroke == Turning(EMOJIS[index].glyph)
    {
      if isLocked || isRotating {
        return false;
      }
      isRotating := true;
      var currentAngle := SlotAngle(index);
      var rotationNeeded := STOP_ANGLE - currentAngle;
      rotate := rotationNeeded;
      stroke := Turning(EMOJIS[index].glyph);
      accepted := true;
    }

    /** The turn reaches the stop: `onDial` is called with the glyph, and the dial stays rotating. */
    method ReachStop() returns (emitted: string)
      requires Valid() && stroke.Turning?
      modifies this
      ensures Valid()
      ensures emitted == old(stroke).glyph
      ensures isRotating && stroke == Returning && rotate == old(rotate)
    {
      emitted := stroke.glyph;
      stroke := Returning;
    }

    /** After the pause at the stop the dial springs back to rest and is free again. */
    method SpringBack()
      requires Valid() && stroke.Returning?
      modifies this
      ensures Valid()
      ensures !isRotating && stroke == Idle && rotate == 0
    {
      rotate := 0;
      isRotating := false;
      stroke := Idle;
    }
  }
}
