/**
 * The found-item report form (src/screens/ReportFoundScreen.tsx): the
 * checks `submit` makes before it pushes a report, the report it pushes,
 * and how picking and uploading media changes the form.
 */
module ReportFoundScreen {
  import opened Wrappers
  import opened Text
  import opened Upload
  import MediaPicker
  import LF = LostFoundScreen

  /** The text fields of the form. */
  datatype Form = Form(title: string, description: string, location: string, contact: string)

  datatype SubmitOutcome =
    | PleaseWait
    | MissingInfo
    | AddMedia
    | NotSignedIn
    | Push(entry: LF.Entry)

  /**
   * `submit`: refused while media is uploading, then without a title,
   * location and contact (after trimming), then without uploaded media,
   * then without a signed-in user. The report it pushes is active, dated
   * `now`, and credits the session's email, else the provider's.
   */
  function Submit(f: Form, mediaUploading: bool, mediaUrl: string, mediaType: Option<MediaType>,
                  user: Option<LF.AuthUser>, sessionEmail: Option<string>, now: string): (r: SubmitOutcome)
    ensures r == PleaseWait <==> mediaUploading
    ensures r == MissingInfo <==>
      !mediaUploading && (Trim(f.title) == "" || Trim(f.location) == "" || Trim(f.contact) == "")
    ensures r == AddMedia <==>
      && !mediaUploading && Trim(f.title) != "" && Trim(f.location) != "" && Trim(f.contact) != ""
      && mediaUrl == ""
    ensures r == NotSignedIn <==>
      && !mediaUploading && Trim(f.title) != "" && Trim(f.location) != "" && Trim(f.contact) != ""
      && mediaUrl != "" && user.None?
    ensures r.Push? ==>
      && r.entry.title == Some(Trim(f.title)) && r.entry.description == Some(Trim(f.description))
      && r.entry.location == Some(Trim(f.location)) && r.entry.contact == Some(Trim(f.contact))
      && r.entry.mediaUrl == Some(mediaUrl)
      && r.entry.mediaType == (if mediaType.Some? then Some(MediaTypeName(mediaType.value)) else None)
      && r.entry.status == Some("Active") && r.entry.date == Some(now)
      && r.entry.reportedByEmail == Or(sessionEmail, user.value.email)
      && r.entry.reportedByUid == Some(user.value.uid)
      && r.entry.id.None? && r.entry.imageUrl.None?
  {
    if mediaUploading then PleaseWait
    else if Trim(f.title) == "" || Trim(f.location) == "" || Trim(f.contact) == "" then MissingInfo
    else if mediaUrl == "" then AddMedia
    else if user.None? then NotSignedIn
    else
      Push(LF.Entry(None, Some(Trim(f.title)), Some(Trim(f.description)), Some(Trim(f.location)),
                    Some(Trim(f.contact)), Some("Active"), Some(now), Or(sessionEmail, user.value.email),
                    Some(user.value.uid), Some(mediaUrl), None,
                    if mediaType.Some? then Some(MediaTypeName(mediaType.value)) else None))
  }

  /**
   * A pushed report shows up in the list under its key, as an active item
   * offering "Mark Claimed", with its media, and the reporter (the
   * provider's uids are never empty) may delete it.
   */
  lemma ReporterOwnsReport(f: Form, mediaUrl: string, mediaType: Option<MediaType>, user: LF.AuthUser,
                           sessionEmail: Option<string>, now: string, key: string)
    requires user.uid != ""
    requires Submit(f, false, mediaUrl, mediaType, Some(user), sessionEmail, now).Push?
    ensures var it := LF.NormalizeEntry(key, Submit(f, false, mediaUrl, mediaType, Some(user), sessionEmail, now).entry);
      && it.id == key
      && LF.Shown(it, LF.Active) && LF.OffersClaim(it)
      && it.mediaUrl == Some(mediaUrl)
      && it.mediaType == Some(if mediaType == Some(Video) then "video" else "image")
      && LF.Remove(it, Some(user), sessionEmail) == LF.Removed(key)
  {
    var e := Submit(f, false, mediaUrl, mediaType, Some(user), sessionEmail, now).entry;
    PushedEntryListed(e, mediaUrl, mediaType, user, sessionEmail, key);
  }

  /** The same, for any entry with the fields `submit` writes. */
  lemma PushedEntryListed(e: LF.Entry, mediaUrl: string, mediaType: Option<MediaType>, user: LF.AuthUser,
                          sessionEmail: Option<string>, key: string)
    requires user.uid != "" && mediaUrl != ""
    requires e.id.None? && e.imageUrl.None? && e.mediaUrl == Some(mediaUrl)
    requires e.status == Some("Active") && e.reportedByUid == Some(user.uid)
    requires e.mediaType == (if mediaType.Some? then Some(MediaTypeName(mediaType.value)) else None)
    ensures var it := LF.NormalizeEntry(key, e);
      && it.id == key
      && LF.Shown(it, LF.Active) && LF.OffersClaim(it)
      && it.mediaUrl == Some(mediaUrl)
      && it.mediaType == Some(if mediaType == Some(Video) then "video" else "image")
      && LF.Remove(it, Some(user), sessionEmail) == LF.Removed(key)
  {
    var it := LF.NormalizeEntry(key, e);
    assert LF.Owns(it, user, sessionEmail);
  }

  /** The media part of the form. */
  class MediaField {
    var mediaUrl: string
    var mediaType: Option<MediaType>
    var mediaUploading: bool

    constructor ()
      ensures mediaUrl == "" && mediaType == None && !mediaUploading
    {
      mediaUrl := "";
      mediaType := None;
      mediaUploading := false;
    }

    /**
     * `handleMediaSelection`, given what the picker returned and what the
     * upload of it returned (`None` when it failed): the media changes only
     * after a successful upload, and the uploading flag is down again
     * afterwards whatever happened.
     */
    method HandleMediaSelection(picked: Option<MediaPicker.PickedMedia>, uploadedUrl: Option<string>)
      modifies this
      ensures !mediaUploading
      ensures picked.None? || uploadedUrl.None? ==> mediaUrl == old(mediaUrl) && mediaType == old(mediaType)
      ensures picked.Some? && uploadedUrl.Some? ==>
        mediaUrl == uploadedUrl.value && mediaType == Some(picked.value.mediaType)
    {
      mediaUploading := true;
      if picked.Some? {
        if uploadedUrl.Some? {
          mediaUrl := uploadedUrl.value;
          mediaType := Some(picked.value.mediaType);
        }
      }
      mediaUploading := false;
    }
  }
}
