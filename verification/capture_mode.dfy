/** `CaptureMode`: the policy selected for each kind of artifact (screenshots,
    video, trace), a string-valued enumeration used as the argparse `type`. */
module CaptureModes {
  import opened Wrappers
  import opened Errors

  datatype CaptureMode = Always | Never | OnReschedule | OnFailure

  /** Every member, in declaration order. */
  const AllModes: seq<CaptureMode> := [Always, Never, OnReschedule, OnFailure]

  /** The member's `value`. */
  function Value(m: CaptureMode): string {
    match m
    case Always => "always"
    case Never => "never"
    case OnReschedule => "on-reschedule"
    case OnFailure => "on-failure"
  }

  /** `str(mode)`, which the enumeration overrides to give back the value, so
      that help texts and argparse choices print the value string. */
  function Str(m: CaptureMode): (s: string)
    ensures s == Value(m)
    ensures Parse(s) == Success(m)
  {
    ValueRoundTrip(m);
    Value(m)
  }

  /** `CaptureMode(s)`: the member whose value is `s`; any other string raises
      `ValueError`. */
  function Parse(s: string): (r: Result<CaptureMode, Error>)
    ensures r.Success? ==> Value(r.value) == s
    ensures r.Failure? ==> r.error.ValueError? && forall m :: Value(m) != s
  {
    if s == "always" then Success(Always)
    else if s == "never" then Success(Never)
    else if s == "on-reschedule" then Success(OnReschedule)
    else if s == "on-failure" then Success(OnFailure)
    else
      assert forall m :: Value(m) != s;
      Failure(ValueError("'" + s + "' is not a valid CaptureMode"))
  }

  /** There are exactly four members, with the four declared values. */
  lemma ExactlyFourModes()
    ensures |AllModes| == 4
    ensures forall m :: m in AllModes
    ensures forall i, j :: 0 <= i < j < |AllModes| ==> AllModes[i] != AllModes[j]
    ensures (set m | m in AllModes :: Value(m)) == {"always", "never", "on-reschedule", "on-failure"}
  {
    forall m ensures m in AllModes {
      match m
      case Always => assert AllModes[0] == m;
      case Never => assert AllModes[1] == m;
      case OnReschedule => assert AllModes[2] == m;
      case OnFailure => assert AllModes[3] == m;
    }
    var vs := set m | m in AllModes :: Value(m);
    assert Value(Always) in vs && Value(Never) in vs;
    assert Value(OnReschedule) in vs && Value(OnFailure) in vs;
  }

  /** Distinct members carry distinct values. */
  lemma ValueInjective(a: CaptureMode, b: CaptureMode)
    ensures Value(a) == Value(b) ==> a == b
  {
  }

  /** Parsing a member's value gives back that member. */
  lemma ValueRoundTrip(m: CaptureMode)
    ensures Parse(Value(m)) == Success(m)
  {
  }

  /** Parsing succeeds exactly on the four values, and the result prints back
      as the parsed string. */
  lemma ParseRoundTrip(s: string)
    ensures Parse(s).Success? ==> Value(Parse(s).value) == s && Parse(Value(Parse(s).value)) == Parse(s)
  {
  }
}
