/**
 * The decision rule of the login screen (src/screens/LoginScreen.tsx): the
 * email is trimmed and lowercased, nothing is attempted without an email
 * and a password, and the sign-in answer decides where the user goes. The
 * identity provider's sign-in is a parameter.
 */
module LoginScreen {
  import opened Text

  /** `email.trim().toLowerCase()` */
  function NormalizeEmail(email: string): string {
    ToLower(Trim(email))
  }

  /** A string that neither starts nor ends with white space is its own trim. */
  lemma TrimUntrimmed(s: string)
    requires s != [] ==> !IsSpace(s[0]) && !IsSpace(s[|s| - 1])
    ensures Trim(s) == s
  {
  }

  /**
   * A normalised email is already normalised: it has no white space at
   * either end and no capital letter, and it is empty exactly when the
   * typed email is blank.
   */
  lemma NormalizeEmailStable(email: string)
    ensures Trim(NormalizeEmail(email)) == NormalizeEmail(email)
    ensures ToLower(NormalizeEmail(email)) == NormalizeEmail(email)
    ensures NormalizeEmail(email) == "" <==> Blank(email)
  {
    var t := Trim(email);
    var n := NormalizeEmail(email);
    TrimEmptyIffBlank(email);
    ToLowerIdempotent(t);
    if n != [] {
      assert LowerChar(t[0]) == n[0];
      assert LowerChar(t[|t| - 1]) == n[|n| - 1];
    }
    TrimUntrimmed(n);
  }

  datatype LoginOutcome = EnterEmailAndPassword | GetStarted | InvalidCredentials

  /**
   * `onLogin`: a blank email or an empty password asks for both; otherwise
   * the normalised email and the password as typed go to `signIn`, whose
   * answer leads to the start screen or to the invalid-credentials alert.
   */
  function OnLogin(email: string, password: string, signIn: (string, string) -> bool): (r: LoginOutcome)
    ensures r == EnterEmailAndPassword <==> Blank(email) || password == ""
    ensures r == GetStarted <==> !Blank(email) && password != "" && signIn(NormalizeEmail(email), password)
    ensures r == InvalidCredentials <==> !Blank(email) && password != "" && !signIn(NormalizeEmail(email), password)
  {
    NormalizeEmailStable(email);
    var e := NormalizeEmail(email);
    if e == "" || password == "" then EnterEmailAndPassword
    else if signIn(e, password) then GetStarted
    else InvalidCredentials
  }

  /** The email however it is typed, in case or surrounding space, signs in the same way. */
  lemma LoginIgnoresCaseAndSpace(email: string, password: string, signIn: (string, string) -> bool)
    ensures OnLogin(NormalizeEmail(email), password, signIn) == OnLogin(email, password, signIn)
  {
    NormalizeEmailStable(email);
    NormalizeEmailStable(NormalizeEmail(email));
    assert NormalizeEmail(NormalizeEmail(email)) == NormalizeEmail(email);
  }
}
