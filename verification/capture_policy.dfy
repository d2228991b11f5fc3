/** The plugin's two capture decisions (`_should_capture`, `_should_retain`):
    whether to start capturing an artifact when a scenario starts, and whether
    to keep what was captured when it ends. */
module CapturePolicy {
  import opened CaptureModes

  /** Start capturing? `ON_FAILURE` starts speculatively, because the outcome
      is not known yet; `ON_RESCHEDULE` starts only on a rescheduled run. */
  function ShouldCapture(mode: CaptureMode, isRescheduled: bool): (r: bool)
    ensures mode == Always ==> r
    ensures mode == OnFailure ==> r
    ensures mode == OnReschedule ==> (r <==> isRescheduled)
    ensures mode == Never ==> !r
  {
    if mode == Always || mode == OnFailure then true
    else mode == OnReschedule && isRescheduled
  }

  /** Keep what was captured? Only `ON_FAILURE` depends on the outcome. */
  function ShouldRetain(mode: CaptureMode, isFailed: bool): (r: bool)
    ensures mode == Always ==> r
    ensures mode == OnReschedule ==> r
    ensures mode == OnFailure ==> (r <==> isFailed)
    ensures mode == Never ==> !r
  {
    if mode == Always || mode == OnReschedule then true
    else mode == OnFailure && isFailed
  }

  /** An artifact ends up both captured and kept exactly when the mode is
      `ALWAYS`, or `ON_RESCHEDULE` on a rescheduled run, or `ON_FAILURE` on a
      failed one. */
  lemma CapturedAndKept(mode: CaptureMode, isRescheduled: bool, isFailed: bool)
    ensures ShouldCapture(mode, isRescheduled) && ShouldRetain(mode, isFailed)
            <==> mode == Always || (mode == OnReschedule && isRescheduled) || (mode == OnFailure && isFailed)
  {
  }

  /** Only `ON_FAILURE` can capture something and then throw it away, and it
      does so exactly on a passing scenario. */
  lemma CapturedButDiscarded(mode: CaptureMode, isRescheduled: bool, isFailed: bool)
    ensures ShouldCapture(mode, isRescheduled) && !ShouldRetain(mode, isFailed)
            <==> mode == OnFailure && !isFailed
  {
  }

  /** The decisions are total over every mode and flag, and `NEVER` is inert:
      it neither starts nor keeps anything. */
  lemma NeverIsInert(isRescheduled: bool, isFailed: bool)
    ensures !ShouldCapture(Never, isRescheduled) && !ShouldRetain(Never, isFailed)
  {
  }
}
