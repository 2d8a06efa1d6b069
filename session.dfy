/**
 * What every screen reads from the authentication context: the signed-in
 * email and the profile the server returned for it (either may be
 * missing).
 */
module Session {
  import opened Wrappers
  import UsersApi

  datatype Session = Session(email: Option<string>, profile: Option<UsersApi.Profile>)

  /** `userProfile?.designation` */
  function Designation(s: Session): Option<string> {
    if s.profile.Some? then s.profile.value.designation else None
  }

  /** `userProfile?.school` */
  function School(s: Session): Option<string> {
    if s.profile.Some? then s.profile.value.school else None
  }

  /** `userProfile?.name` */
  function Name(s: Session): Option<string> {
    if s.profile.Some? then s.profile.value.name else None
  }

  /** `userProfile?.designation === 'Teacher'` */
  predicate IsTeacher(s: Session) {
    Designation(s) == Some("Teacher")
  }
}
