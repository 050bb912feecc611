/** The arithmetic of the fixed window. A moment is a count of microseconds since the epoch, the
    resolution of the timestamps the service compares. */
module RateLimit {

  type Moment = int

  const MICROS := 1_000_000
  const WINDOW_SECONDS := 60

  /** `int(moment.timestamp())`: whole seconds, truncated toward zero. */
  function Seconds(moment: Moment): int {
    if moment >= 0 then moment / MICROS else -((-moment) / MICROS)
  }

  /** The start of the fixed window, in seconds. */
  function WindowStart(moment: Moment): int {
    var epoch := Seconds(moment);
    epoch - epoch % WINDOW_SECONDS
  }

  /** Whole seconds, never further from the epoch than the moment, and less than one second short of it. */
  lemma SecondsTruncate(moment: Moment)
    ensures moment >= 0 ==> 0 <= moment - 1_000_000 * Seconds(moment) < 1_000_000
    ensures moment < 0 ==> 0 <= 1_000_000 * Seconds(moment) - moment < 1_000_000
  {
  }

  /** A window begins on a whole minute, at most fifty-nine seconds before the moment's whole second. */
  lemma WindowStarts(moment: Moment)
    ensures WindowStart(moment) % 60 == 0 && 0 <= Seconds(moment) - WindowStart(moment) < 60
  {
  }
}
