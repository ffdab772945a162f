/**
 * The hands of the menu-button clock of src/renderer/clock.ts. `update` reads
 * the local hours and minutes and turns each hand; the angles are in degrees.
 */
module Clock {
  /** The hour hand: 30 degrees per hour of the 12-hour dial and half a degree per minute. */
  function HourAngle(hours: int, minutes: int): real {
    ((hours % 12) * 30) as real + ((30 * minutes) as real) / 60.0
  }

  /** The minute hand: 6 degrees per minute. */
  function MinuteAngle(minutes: int): int {
    minutes * 6
  }

  /** For a real clock reading, the hour hand stays within one turn and the minute hand on a 6-degree mark below 360. */
  lemma AngleBounds(hours: int, minutes: int)
    requires 0 <= hours < 24 && 0 <= minutes < 60
    ensures 0.0 <= HourAngle(hours, minutes) < 360.0
    ensures 0 <= MinuteAngle(minutes) <= 354 && MinuteAngle(minutes) % 6 == 0
  {
    assert (hours % 12) * 30 <= 330;
  }

  /** The hour hand reads the same twelve hours apart. */
  lemma TwelveHoursApart(hours: int, minutes: int)
    ensures HourAngle(hours + 12, minutes) == HourAngle(hours, minutes)
  {
    assert (hours + 12) % 12 == hours % 12;
  }

  /** Each minute turns the hour hand by half a degree. */
  lemma HalfDegreePerMinute(hours: int, minutes: int)
    ensures HourAngle(hours, minutes + 1) == HourAngle(hours, minutes) + 0.5
  {
  }

  /** The two `rotate` values the hands carry. */
  class ClockHands {
    var hourRotation: real
    var minuteRotation: int

    constructor()
      ensures hourRotation == 0.0 && minuteRotation == 0
    {
      hourRotation := 0.0;
      minuteRotation := 0;
    }

    /** `update`: `getHours() % 12` and `getMinutes()` of the reading give both angles. */
    method Update(hours: int, minutes: int)
      modifies this
      ensures hourRotation == HourAngle(hours, minutes) && minuteRotation == MinuteAngle(minutes)
    {
      var h := hours % 12;
      hourRotation := (h * 30) as real + ((30 * minutes) as real) / 60.0;
      minuteRotation := minutes * 6;
    }
  }
}
