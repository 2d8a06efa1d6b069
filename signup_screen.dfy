/**
 * The decision rules of the signup screen (src/screens/SignupScreen.tsx):
 * the choices it offers, the order of its checks, and the optional profile
 * photo. The photo upload and the signup call are inputs.
 */
module SignupScreen {
  import opened Wrappers
  import opened Text
  import Seqs
  import UsersApi
  import GroupsApi

  /** The designations the form offers. */
  const Designations := ["Student", "Teacher"]

  /** The school codes the form offers. */
  const Schools := ["SOET", "SOMC", "SMAS", "SLAS", "SOAD"]

  /**
   * The offered choices are distinct and non-empty, so any of them passes
   * the checks, and of the designations only 'Teacher' has group requests
   * approved at once.
   */
  lemma OptionLists()
    ensures Seqs.Distinct(Designations) && Seqs.Distinct(Schools)
    ensures forall i :: 0 <= i < |Designations| ==> Designations[i] != ""
    ensures forall i :: 0 <= i < |Schools| ==> Schools[i] != ""
    ensures forall i :: 0 <= i < |Designations| ==>
      (GroupsApi.InitialStatus(Designations[i]) == GroupsApi.Approved <==> Designations[i] == "Teacher")
  {
  }

  const MissingCredentials := "Please provide email and password"
  const MissingFields := "Please fill in all required fields"

  /** The alert `doSignup` shows instead of signing up: credentials first, then the profile fields. */
  function SignupCheck(email: string, password: string, name: string, phone: string, designation: string,
                       school: string): (r: Option<string>)
    ensures r == Some(MissingCredentials) <==> email == "" || password == ""
    ensures r == Some(MissingFields) <==>
      email != "" && password != "" && (name == "" || phone == "" || designation == "" || school == "")
    ensures r == None <==>
      email != "" && password != "" && name != "" && phone != "" && designation != "" && school != ""
  {
    if email == "" || password == "" then Some(MissingCredentials)
    else if name == "" || phone == "" || designation == "" || school == "" then Some(MissingFields)
    else None
  }

  /** The body the signup call posts: the form's fields and the photo URL, if any. */
  function SignupBody(email: string, password: string, name: string, phone: string, designation: string,
                      school: string, photoUrl: Option<string>): UsersApi.SignupRequest {
    UsersApi.SignupRequest(Some(email), Some(password), Some(name), Some(phone), Some(designation),
                           Some(school), photoUrl)
  }

  /**
   * The screen's checks are the server's: the form refuses exactly what
   * the signup handler would answer with 400, and in the same order.
   */
  lemma ChecksAgreeWithServer(email: string, password: string, name: string, phone: string, designation: string,
                              school: string, photoUrl: Option<string>)
    ensures var server := UsersApi.SignupRejection(SignupBody(email, password, name, phone, designation, school, photoUrl));
      && (SignupCheck(email, password, name, phone, designation, school) == None <==> server == None)
      && (SignupCheck(email, password, name, phone, designation, school) == Some(MissingCredentials) <==>
            server == Some("Missing email or password"))
      && (SignupCheck(email, password, name, phone, designation, school) == Some(MissingFields) <==>
            server == Some("Missing required fields"))
  {
  }

  /** The signup form. */
  class SignupForm {
    var email: string
    var password: string
    var name: string
    var phone: string
    var designation: string
    var school: string
    var photoUri: Option<string>
    var uploading: bool

    constructor ()
      ensures email == "" && password == "" && name == "" && phone == "" && designation == "" && school == ""
      ensures photoUri == None && !uploading
    {
      email := "";
      password := "";
      name := "";
      phone := "";
      designation := "";
      school := "";
      photoUri := None;
      uploading := false;
    }

    /**
     * `doSignup`, given what the photo upload returned (`None` when it
     * failed) and whether the signup call succeeded: nothing is sent when a
     * check fails; the photo is uploaded only when one was chosen, and a
     * failed upload sends no photo URL but still signs up. The busy flag is
     * raised for the attempt and lowered again only when signup failed.
     */
    method DoSignup(uploaded: Option<string>, signupOk: bool) returns (sent: Option<UsersApi.SignupRequest>)
      modifies this
      ensures sent.None? <==> SignupCheck(email, password, name, phone, designation, school).Some?
      ensures sent.Some? ==>
        sent.value == SignupBody(email, password, name, phone, designation, school,
                                 if Truthy(photoUri) && Truthy(uploaded) then uploaded else None)
      ensures uploading == (if sent.Some? then signupOk else old(uploading))
      ensures email == old(email) && password == old(password) && name == old(name) && phone == old(phone)
      ensures designation == old(designation) && school == old(school) && photoUri == old(photoUri)
    {
      if SignupCheck(email, password, name, phone, designation, school).Some? {
        return None;
      }
      uploading := true;
      var photoUrl: Option<string> := None;
      if Truthy(photoUri) {
        photoUrl := if Truthy(uploaded) then uploaded else None;
      }
      sent := Some(SignupBody(email, password, name, phone, designation, school, photoUrl));
      if !signupOk {
        uploading := false;
      }
    }
  }
}
