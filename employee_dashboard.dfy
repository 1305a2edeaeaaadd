/**
 * The employee dashboard's check-in flow: choose check-in or check-out,
 * capture a face, wait for the simulated verification, see the result.
 */
module EmployeeDashboard {
  import opened Wrappers

  datatype AttendanceMode = CheckIn | CheckOut

  datatype AttendanceStatus = Idle | Processing | Success

  /** The action named in the success message. */
  function ActionText(mode: AttendanceMode): (t: string)
    ensures t == "Check-in" <==> mode == CheckIn
    ensures t != "Check-in" ==> t == "Check-out"
  {
    if mode == CheckIn then "Check-in" else "Check-out"
  }

  /** The success message for a completion in `mode` at `time`. */
  function SuccessMessage(mode: AttendanceMode, time: string): (m: string)
    ensures |m| == |ActionText(mode)| + 15 + |time|
    ensures m[..8] == "Check-in" <==> mode == CheckIn
    ensures m[..9] == "Check-out" <==> mode == CheckOut
    ensures m[|m| - |time|..] == time
  {
    var m := ActionText(mode) + " successful at " + time;
    // The two action texts part at their eighth character.
    assert m[7] == (if mode == CheckIn then 'n' else 'u');
    assert m[8] == (if mode == CheckIn then ' ' else 't');
    m
  }

  class Dashboard {
    var showFaceScanner: bool
    var attendanceMode: AttendanceMode
    var attendanceStatus: AttendanceStatus
    var attendanceTime: Option<string>

    /**
     * Verification timers scheduled and not yet fired, oldest first, each
     * holding the mode its callback captured when the face was captured.
     */
    var pending: seq<AttendanceMode>

    /** A success always carries a time. */
    ghost predicate Valid()
      reads this
    {
      attendanceStatus == Success ==> attendanceTime.Some?
    }

    constructor ()
      ensures Valid()
      ensures !showFaceScanner && attendanceMode == CheckIn && attendanceStatus == Idle
      ensures attendanceTime == None && pending == []
    {
      showFaceScanner := false;
      attendanceMode := CheckIn;
      attendanceStatus := Idle;
      attendanceTime := None;
      pending := [];
    }

    /** `handleMarkAttendance`: remember the mode and show the scanner. */
    method HandleMarkAttendance(mode: AttendanceMode)
      requires Valid()
      modifies this
      ensures Valid()
      ensures attendanceMode == mode && showFaceScanner
      ensures attendanceStatus == old(attendanceStatus) && attendanceTime == old(attendanceTime)
      ensures pending == old(pending)
    {
      attendanceMode := mode;
      showFaceScanner := true;
    }

    /** `handleFaceCapture`: processing at once, completion scheduled. */
    method HandleFaceCapture()
      requires Valid()
      modifies this
      ensures Valid()
      ensures attendanceStatus == Processing && pending == old(pending) + [attendanceMode]
      ensures attendanceMode == old(attendanceMode) && showFaceScanner == old(showFaceScanner)
      ensures attendanceTime == old(attendanceTime)
    {
      attendanceStatus := Processing;
      pending := pending + [attendanceMode];
    }

    /**
     * The oldest verification timer fires with the formatted current time:
     * success with that time, and a message naming the mode captured when
     * the timer was scheduled.
     */
    method VerificationCompleted(time: string) returns (message: string)
      requires Valid() && |pending| > 0
      modifies this
      ensures Valid()
      ensures attendanceStatus == Success && attendanceTime == Some(time)
      ensures message == SuccessMessage(old(pending[0]), time)
      ensures pending == old(pending[1..])
      ensures attendanceMode == old(attendanceMode) && showFaceScanner == old(showFaceScanner)
    {
      var mode := pending[0];
      pending := pending[1..];
      attendanceStatus := Success;
      attendanceTime := Some(time);
      message := ActionText(mode) + " successful at " + time;
    }

    /** `handleReset`: hide the scanner, back to idle without a time. Scheduled timers still fire. */
    method HandleReset()
      requires Valid()
      modifies this
      ensures Valid()
      ensures !showFaceScanner && attendanceStatus == Idle && attendanceTime == None
      ensures attendanceMode == old(attendanceMode) && pending == old(pending)
    {
      showFaceScanner := false;
      attendanceStatus := Idle;
      attendanceTime := None;
    }
  }

  /** Check-out, capture, completion: success with the time and a check-out message. */
  method CheckOutFlow(time: string) returns (status: AttendanceStatus, shown: Option<string>, message: string)
    ensures status == Success && shown == Some(time)
    ensures message == "Check-out successful at " + time
  {
    var d := new Dashboard();
    d.HandleMarkAttendance(CheckOut);
    d.HandleFaceCapture();
    message := d.VerificationCompleted(time);
    status, shown := d.attendanceStatus, d.attendanceTime;
  }
}
