/**
 * The login page: credentials are checked for presence, then handed to the
 * authentication service; a successful login moves on to face verification,
 * whose completion routes by a role read off the email address.
 */
module Login {
  import opened Text

  /** How the awaited `login(email, password)` call settles. */
  datatype LoginResult = Resolved(success: bool) | Threw

  const MissingCredentials := "Please enter both email and password"
  const InvalidCredentials := "Invalid email or password"
  const LoginFailed := "An error occurred during login"

  /** The role derived from the email: admin iff it contains "admin". */
  predicate IsAdminEmail(email: string) {
    Contains(email, "admin")
  }

  /** `handleFaceVerification`'s navigation target. */
  function VerificationTarget(email: string): (path: string)
    ensures path == "/admin" <==> IsAdminEmail(email)
    ensures path != "/admin" ==> path == "/employee"
  {
    var userRole := if Contains(email, "admin") then "admin" else "employee";
    if userRole == "admin" then "/admin" else "/employee"
  }

  /** The demo administrator account is routed to the admin area. */
  lemma DemoAdminRoutesToAdmin()
    ensures VerificationTarget("admin@example.com") == "/admin"
  {
    assert "admin@example.com"[0..5] == "admin";
  }

  class LoginPage {
    var email: string
    var password: string
    var isLoading: bool
    var showFaceScanner: bool

    /** Calls made to `login`, in order, and how many have not settled yet. */
    var loginCalls: seq<(string, string)>
    var pendingLogins: nat

    constructor ()
      ensures email == "" && password == "" && !isLoading && !showFaceScanner
      ensures loginCalls == [] && pendingLogins == 0
    {
      email, password := "", "";
      isLoading, showFaceScanner := false, false;
      loginCalls, pendingLogins := [], 0;
    }

    method SetEmail(value: string)
      modifies this
      ensures email == value && password == old(password) && isLoading == old(isLoading)
      ensures showFaceScanner == old(showFaceScanner) && loginCalls == old(loginCalls)
      ensures pendingLogins == old(pendingLogins)
    {
      email := value;
    }

    method SetPassword(value: string)
      modifies this
      ensures password == value && email == old(email) && isLoading == old(isLoading)
      ensures showFaceScanner == old(showFaceScanner) && loginCalls == old(loginCalls)
      ensures pendingLogins == old(pendingLogins)
    {
      password := value;
    }

    /**
     * `handleSubmit` up to the `await`: with an empty email or password it
     * reports the error and does nothing else; otherwise it sets `isLoading`
     * and calls `login`.
     */
    method Submit() returns (error: string)
      modifies this
      ensures old(email == "" || password == "") ==>
        && error == MissingCredentials && loginCalls == old(loginCalls)
        && pendingLogins == old(pendingLogins) && isLoading == old(isLoading)
      ensures old(email != "" && password != "") ==>
        && error == "" && isLoading && loginCalls == old(loginCalls) + [(email, password)]
        && pendingLogins == old(pendingLogins) + 1
      ensures showFaceScanner == old(showFaceScanner) && email == old(email) && password == old(password)
    {
      if email == "" || password == "" {
        return MissingCredentials;
      }
      isLoading := true;
      loginCalls := loginCalls + [(email, password)];
      pendingLogins := pendingLogins + 1;
      error := "";
    }

    /**
     * `handleSubmit` after the `await`: a true result opens the face scanner,
     * a false one or an exception reports an error; `isLoading` is cleared
     * in every case.
     */
    method LoginSettled(result: LoginResult) returns (error: string)
      requires pendingLogins > 0
      modifies this
      ensures !isLoading && pendingLogins == old(pendingLogins) - 1
      ensures result == Resolved(true) ==> showFaceScanner && error == ""
      ensures result == Resolved(false) ==> showFaceScanner == old(showFaceScanner) && error == InvalidCredentials
      ensures result == Threw ==> showFaceScanner == old(showFaceScanner) && error == LoginFailed
      ensures email == old(email) && password == old(password) && loginCalls == old(loginCalls)
    {
      match result {
        case Resolved(success) =>
          if success {
            showFaceScanner := true;
            error := "";
          } else {
            error := InvalidCredentials;
          }
        case Threw =>
          error := LoginFailed;
      }
      isLoading := false;
      pendingLogins := pendingLogins - 1;
    }

    /** The face scanner's capture completes verification: navigate by role. */
    function FaceVerified(): (path: string)
      reads this
      ensures path == "/admin" <==> IsAdminEmail(email)
    {
      VerificationTarget(email)
    }

    /** "Back to login". */
    method BackToLogin()
      modifies this
      ensures !showFaceScanner && email == old(email) && password == old(password)
      ensures isLoading == old(isLoading) && loginCalls == old(loginCalls) && pendingLogins == old(pendingLogins)
    {
      showFaceScanner := false;
    }
  }

  /** A submission with credentials, settled either way, ends with `isLoading` false and one `login` call. */
  method SubmitAndSettle(e: string, p: string, result: LoginResult) returns (loading: bool, calls: nat, scanner: bool)
    requires e != "" && p != ""
    ensures !loading && calls == 1
    ensures scanner <==> result == Resolved(true)
  {
    var page := new LoginPage();
    page.SetEmail(e);
    page.SetPassword(p);
    var err := page.Submit();
    err := page.LoginSettled(result);
    loading, calls, scanner := page.isLoading, |page.loginCalls|, page.showFaceScanner;
  }
}
