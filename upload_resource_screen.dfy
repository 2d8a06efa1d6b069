/**
 * The decision rules of the resource upload screen
 * (src/screens/UploadResourceScreen.tsx): only teachers may add resources,
 * the title falls back to the URL's last segment, and a resource is saved
 * only once there is a URL for it. The network answers are inputs.
 */
module UploadResourceScreen {
  import opened Wrappers
  import opened Text
  import opened Session

  /** `title || url.split('/').pop() || 'Resource'` */
  function ResourceTitle(title: string, url: string): (r: string)
    ensures r != ""
    ensures title != "" ==> r == title
    ensures title == "" && AfterLast(url, '/') != "" ==> r == AfterLast(url, '/')
    ensures title == "" && AfterLast(url, '/') == "" ==> r == "Resource"
  {
    if title != "" then title
    else if AfterLast(url, '/') != "" then AfterLast(url, '/')
    else "Resource"
  }

  /** Without a title of its own a resource is named after the file its URL ends in. */
  lemma TitleFromFileName(base: string, file: string)
    requires file != "" && '/' !in file
    ensures ResourceTitle("", base + "/" + file) == file
  {
    AfterLastAppend(base, '/', file);
  }

  /** A URL ending in '/' gives the default title. */
  lemma TitleForDirectory(base: string)
    ensures ResourceTitle("", base + "/") == "Resource"
  {
    AfterLastAppend(base, '/', "");
    assert base + "/" == base + ['/'] + "";
  }

  /** The body `saveResource` posts. */
  datatype ResourceBody = ResourceBody(title: string, subject: string, year: string, url: string,
                                       department: Option<string>, school: Option<string>)

  /**
   * `saveResource`: nothing is sent for a viewer who is not a teacher;
   * otherwise the resource is filed under the teacher's school, as its
   * department and as its school.
   */
  function SaveResource(s: Session, title: string, subject: string, year: string, url: string)
    : (r: Option<ResourceBody>)
    ensures r.None? <==> !IsTeacher(s)
    ensures r.Some? ==>
      && r.value.title == ResourceTitle(title, url) && r.value.subject == subject && r.value.year == year
      && r.value.url == url
      && r.value.department == School(s) && r.value.school == School(s)
  {
    if !IsTeacher(s) then None
    else Some(ResourceBody(ResourceTitle(title, url), subject, year, url, School(s), School(s)))
  }

  datatype Platform = Web | Native

  /** What `pickAndUpload` ends in. */
  datatype PickOutcome =
    | AccessDenied
    | MissingUrl
    | Canceled
    | UploadFailed
    | Save(body: ResourceBody)

  /**
   * `pickAndUpload`: a non-teacher is refused first. On the web the pasted
   * URL is saved, and an empty one is refused. On a device the picked file
   * is uploaded (`uploaded` is the URL the upload answered with, `None`
   * when its response was not ok) and the resource is saved only after a
   * successful upload.
   */
  function PickAndUpload(s: Session, platform: Platform, urlInput: string, picked: bool, uploaded: Option<string>,
                         title: string, subject: string, year: string): (r: PickOutcome)
    ensures r == AccessDenied <==> !IsTeacher(s)
    ensures r.Save? ==> Some(r.body) == SaveResource(s, title, subject, year, r.body.url)
    ensures platform == Web && IsTeacher(s) ==>
      if urlInput == "" then r == MissingUrl else r.Save? && r.body.url == urlInput
    ensures platform == Native && IsTeacher(s) ==>
      && (r.Save? <==> picked && uploaded.Some?)
      && (r.Save? ==> r.body.url == uploaded.value)
      && (!picked ==> r == Canceled)
      && (picked && uploaded.None? ==> r == UploadFailed)
  {
    if !IsTeacher(s) then AccessDenied
    else if platform == Web then
      if urlInput == "" then MissingUrl
      else Save(SaveResource(s, title, subject, year, urlInput).value)
    else if !picked then Canceled
    else if uploaded.None? then UploadFailed
    else Save(SaveResource(s, title, subject, year, uploaded.value).value)
  }
}
