/**
 * The decision rules of the profile editor
 * (src/screens/ProfileEditScreen.tsx): the form starts from the loaded
 * profile, saving needs the four profile fields, and a new photo is
 * uploaded only when it differs from the stored one. The upload result is
 * an input.
 */
module ProfileEditScreen {
  import opened Wrappers
  import opened Text
  import opened Session
  import UsersApi
  import ApiCommon

  /** `userProfile?.photoUrl` */
  function StoredPhoto(s: Session): Option<string> {
    if s.profile.Some? then s.profile.value.photoUrl else None
  }

  /** An upload is attempted for a chosen photo that is not the stored one. */
  predicate UploadWanted(photoUri: Option<string>, stored: Option<string>) {
    Truthy(photoUri) && Some(photoUri.value) != stored
  }

  /** The editor's form. */
  class ProfileForm {
    var name: string
    var phone: string
    var designation: string
    var school: string
    var photoUri: Option<string>

    constructor ()
      ensures name == "" && phone == "" && designation == "" && school == "" && photoUri == None
    {
      name := "";
      phone := "";
      designation := "";
      school := "";
      photoUri := None;
    }

    /**
     * The initialisation effect: a loaded profile fills the form, a
     * missing field as '' and a missing or empty photo as none; without a
     * profile the form stays as it is.
     */
    method LoadFrom(profile: Option<UsersApi.Profile>)
      modifies this
      ensures profile.None? ==> unchanged(this)
      ensures profile.Some? ==>
        && name == OrEmpty(profile.value.name) && phone == OrEmpty(profile.value.phone)
        && designation == OrEmpty(profile.value.designation) && school == OrEmpty(profile.value.school)
        && photoUri == (if Truthy(profile.value.photoUrl) then profile.value.photoUrl else None)
    {
      if profile.Some? {
        var p := profile.value;
        name := OrEmpty(p.name);
        phone := OrEmpty(p.phone);
        designation := OrEmpty(p.designation);
        school := OrEmpty(p.school);
        photoUri := if Truthy(p.photoUrl) then p.photoUrl else None;
      }
    }

    /**
     * `saveProfile`, given what the photo upload returned (`None` when it
     * failed): nothing is sent while a profile field is empty; the photo
     * is uploaded only when wanted, and the stored photo URL is sent unless
     * that upload succeeded.
     */
    method SaveProfile(s: Session, uploaded: Option<string>) returns (attempted: bool, r: Option<UsersApi.ProfilePatch>)
      ensures r.None? <==> name == "" || phone == "" || designation == "" || school == ""
      ensures attempted <==> r.Some? && UploadWanted(photoUri, StoredPhoto(s))
      ensures r.Some? ==>
        r.value == UsersApi.ProfilePatch(s.email, ApiCommon.Given(name), ApiCommon.Given(phone), ApiCommon.Given(designation),
                                         ApiCommon.Given(school),
                                         UsersApi.FieldOf(if attempted && Truthy(uploaded) then uploaded else StoredPhoto(s)))
    {
      if name == "" || phone == "" || designation == "" || school == "" {
        return false, None;
      }
      var photoUrl := StoredPhoto(s);
      attempted := false;
      if Truthy(photoUri) && Some(photoUri.value) != StoredPhoto(s) {
        attempted := true;
        if Truthy(uploaded) {
          photoUrl := uploaded;
        }
      }
      r := Some(UsersApi.ProfilePatch(s.email, ApiCommon.Given(name), ApiCommon.Given(phone), ApiCommon.Given(designation),
                                      ApiCommon.Given(school), UsersApi.FieldOf(photoUrl)));
    }
  }

  /**
   * Opening the editor on a profile and saving without choosing a new
   * photo uploads nothing and sends the stored photo URL back unchanged.
   */
  method LoadThenSave(s: Session, uploaded: Option<string>) returns (attempted: bool, r: Option<UsersApi.ProfilePatch>)
    requires s.profile.Some?
    ensures !attempted
    ensures r.Some? ==> r.value.photoUrl == UsersApi.FieldOf(s.profile.value.photoUrl)
  {
    var form := new ProfileForm();
    form.LoadFrom(s.profile);
    attempted, r := form.SaveProfile(s, uploaded);
  }
}
