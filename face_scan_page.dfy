/**
 * The admin face-scan page: a captured face is "recognised" after a delay
 * as an employee picked at random from the store with a random confidence,
 * then a password confirms it and, after another delay, the scan completes.
 */
module FaceScanPage {
  import opened Wrappers
  import opened EmployeeStore

  /** `selectedEmployee`. */
  datatype Selection = Selection(id: string, name: string, email: string, confidence: int)

  const MissingPassword := "Please enter your password"

  /** `Math.floor(random * n)` for a draw `random` of `Math.random()`. */
  function PickIndex(random: real, n: nat): (k: nat)
    requires 0.0 <= random < 1.0 && n > 0
    ensures k < n
  {
    var x := random * n as real;
    assert 0.0 <= x < n as real by {
      assert (1.0 - random) * n as real > 0.0;
    }
    x.Floor
  }

  /** `85 + Math.floor(random * 15)` for a draw `random` of `Math.random()`. */
  function Confidence(random: real): (c: int)
    requires 0.0 <= random < 1.0
    ensures 85 <= c <= 99
  {
    85 + (random * 15.0).Floor
  }

  /** The selection made for an employee with a confidence. */
  function SelectionOf(e: Employee, confidence: int): (s: Selection)
    ensures s.id == e.id && s.name == e.name && s.email == e.email && s.confidence == confidence
  {
    Selection(e.id, e.name, e.email, confidence)
  }

  /**
   * The recognition timer's result for the employee list its callback
   * captured and two draws of `Math.random()`; `None` when the list is empty,
   * where reading a property of the missing element throws.
   */
  function Recognize(employees: seq<Employee>, pick: real, roll: real): (r: Option<Selection>)
    requires 0.0 <= pick < 1.0 && 0.0 <= roll < 1.0
    ensures r.Some? <==> |employees| > 0
    ensures r.Some? ==> exists e :: e in employees && r.value == SelectionOf(e, r.value.confidence)
    ensures r.Some? ==> 85 <= r.value.confidence <= 99
  {
    if |employees| == 0 then None
    else
      var e := employees[PickIndex(pick, |employees|)];
      Some(SelectionOf(e, Confidence(roll)))
  }

  class ScanPage {
    var selectedEmployee: Option<Selection>
    var scanComplete: bool
    var password: string

    /** Recognition timers not yet fired, oldest first, each with the list its callback captured. */
    var pendingRecognitions: seq<seq<Employee>>
    /** Verification timers not yet fired. */
    var pendingVerifications: nat

    constructor ()
      ensures selectedEmployee == None && !scanComplete && password == ""
      ensures pendingRecognitions == [] && pendingVerifications == 0
    {
      selectedEmployee := None;
      scanComplete := false;
      password := "";
      pendingRecognitions := [];
      pendingVerifications := 0;
    }

    method SetPassword(value: string)
      modifies this
      ensures password == value && selectedEmployee == old(selectedEmployee) && scanComplete == old(scanComplete)
      ensures pendingRecognitions == old(pendingRecognitions) && pendingVerifications == old(pendingVerifications)
    {
      password := value;
    }

    /** `handleFaceCapture`: schedule recognition over the store's current list. */
    method HandleFaceCapture(employees: seq<Employee>)
      modifies this
      ensures pendingRecognitions == old(pendingRecognitions) + [employees]
      ensures selectedEmployee == old(selectedEmployee) && scanComplete == old(scanComplete)
      ensures password == old(password) && pendingVerifications == old(pendingVerifications)
    {
      pendingRecognitions := pendingRecognitions + [employees];
    }

    /**
     * The oldest recognition timer fires with two draws of `Math.random()`:
     * an employee of the captured list is selected with a confidence in
     * 85..99; with an empty list the callback throws and nothing is selected.
     */
    method RecognitionFired(pick: real, roll: real) returns (recognised: bool)
      requires |pendingRecognitions| > 0
      requires 0.0 <= pick < 1.0 && 0.0 <= roll < 1.0
      modifies this
      ensures pendingRecognitions == old(pendingRecognitions[1..])
      ensures recognised <==> |old(pendingRecognitions[0])| > 0
      ensures recognised ==>
        && selectedEmployee.Some?
        && exists e :: e in old(pendingRecognitions[0]) && selectedEmployee.value == SelectionOf(e, selectedEmployee.value.confidence)
      ensures recognised ==> 85 <= selectedEmployee.value.confidence <= 99
      ensures !recognised ==> selectedEmployee == old(selectedEmployee)
      ensures scanComplete == old(scanComplete) && password == old(password)
      ensures pendingVerifications == old(pendingVerifications)
    {
      var employees := pendingRecognitions[0];
      pendingRecognitions := pendingRecognitions[1..];
      if |employees| == 0 {
        return false;
      }
      var randomEmployee := employees[PickIndex(pick, |employees|)];
      var confidence := Confidence(roll);
      selectedEmployee := Some(Selection(randomEmployee.id, randomEmployee.name, randomEmployee.email, confidence));
      assert selectedEmployee.value == SelectionOf(randomEmployee, confidence);
      recognised := true;
    }

    /** `handleVerify`: with no password report it and change nothing; otherwise schedule completion. */
    method HandleVerify() returns (error: string)
      modifies this
      ensures password == "" ==> error == MissingPassword && pendingVerifications == old(pendingVerifications)
      ensures password != "" ==> error == "" && pendingVerifications == old(pendingVerifications) + 1
      ensures selectedEmployee == old(selectedEmployee) && scanComplete == old(scanComplete)
      ensures password == old(password) && pendingRecognitions == old(pendingRecognitions)
    {
      if password == "" {
        return MissingPassword;
      }
      pendingVerifications := pendingVerifications + 1;
      error := "";
    }

    /** The verification timer fires: the scan is complete. */
    method VerificationFired()
      requires pendingVerifications > 0
      modifies this
      ensures scanComplete && pendingVerifications == old(pendingVerifications) - 1
      ensures selectedEmployee == old(selectedEmployee) && password == old(password)
      ensures pendingRecognitions == old(pendingRecognitions)
    {
      scanComplete := true;
      pendingVerifications := pendingVerifications - 1;
    }

    /** `handleReset`. Scheduled timers still fire. */
    method HandleReset()
      modifies this
      ensures selectedEmployee == None && !scanComplete && password == ""
      ensures pendingRecognitions == old(pendingRecognitions) && pendingVerifications == old(pendingVerifications)
    {
      selectedEmployee := None;
      scanComplete := false;
      password := "";
    }
  }

  /** With the seeded store, a capture is recognised as one of the four seeded employees. */
  method RecogniseFromSeed(pick: real, roll: real) returns (selected: Option<Selection>)
    requires 0.0 <= pick < 1.0 && 0.0 <= roll < 1.0
    ensures selected.Some? && selected.value.id in {"2", "3", "4", "5"}
    ensures 85 <= selected.value.confidence <= 99
  {
    var page := new ScanPage();
    page.HandleFaceCapture(InitialEmployees);
    var ok := page.RecognitionFired(pick, roll);
    selected := page.selectedEmployee;
  }

  /** Verifying with an empty password never completes the scan. */
  method VerifyWithoutPassword() returns (error: string, complete: bool)
    ensures error == MissingPassword && !complete
  {
    var page := new ScanPage();
    error := page.HandleVerify();
    complete := page.scanComplete;
  }
}
