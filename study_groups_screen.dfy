/**
 * The decision rules of the study-groups screen
 * (src/screens/StudyGroupsScreen.tsx): how a poll result replaces the open
 * group, which groups the list shows, when a group may be requested, opened
 * or posted to, and the avatar row. The HTTP calls become calls on the
 * server's group store, or parameters when they are uploads.
 */
module StudyGroupsScreen {
  import opened Wrappers
  import Seqs
  import opened Text
  import opened Session
  import G = GroupsApi

  // ---------------------------------------------------------------------
  // Polling the open group

  /**
   * The updater applied to each poll result: the first result is taken; a
   * later one replaces the shown group only when its messages differ, so a
   * change to anything else (the members, say) stays unseen until a
   * message arrives.
   */
  function PollUpdate(prev: Option<G.Group>, fetched: G.Group): (r: G.Group)
    ensures r.messages == fetched.messages
    ensures prev.Some? && prev.value.messages == fetched.messages ==> r == prev.value
    ensures r == fetched || (prev.Some? && r == prev.value)
  {
    if prev.None? then fetched
    else if prev.value.messages != fetched.messages then fetched
    else prev.value
  }

  /** Polling the same document again changes nothing. */
  lemma PollStable(prev: Option<G.Group>, fetched: G.Group)
    ensures PollUpdate(Some(PollUpdate(prev, fetched)), fetched) == PollUpdate(prev, fetched)
  {
  }

  // ---------------------------------------------------------------------
  // The group list

  /**
   * A group is in the main list when it is approved (in the viewer's
   * school, if the profile has one), or when it is a pending request the
   * viewer made and the viewer is not a teacher.
   */
  predicate Listed(g: G.Group, s: Session) {
    || (g.status == G.Approved && (!Truthy(School(s)) || g.school == School(s).value))
    || (!IsTeacher(s) && Truthy(s.email) && g.status == G.Pending && g.createdByEmail == s.email.value)
  }

  /**
   * `fetchGroups`, given whether the approved and the pending request
   * were answered ok: the viewer's own pending requests followed by the
   * approved groups, each block newest first and no group twice, a block
   * whose answer was not ok being empty; for a teacher with a school, the
   * school's pending requests go to a separate list instead, which is
   * left as it was (`None`) when that answer was not ok.
   */
  method FetchGroups(store: G.GroupStore, s: Session, approvedOk: bool, pendingOk: bool)
    returns (groups: seq<G.Group>, teacherPending: Option<seq<G.Group>>)
    requires store.Valid()
    ensures forall g :: g in groups <==>
      && g in store.groups.Values && Listed(g, s)
      && (if g.status == G.Approved then approvedOk else pendingOk)
    ensures forall i, j :: 0 <= i < j < |groups| && groups[i].status == G.Approved ==> groups[j].status == G.Approved
    ensures forall i, j :: 0 <= i < j < |groups| && groups[i].status == groups[j].status ==>
      groups[i].createdAt >= groups[j].createdAt
    ensures Seqs.Distinct(groups)
    ensures IsTeacher(s) && Truthy(School(s)) && pendingOk ==>
      && teacherPending.Some?
      && (forall g :: g in teacherPending.value <==>
            g in store.groups.Values && g.status == G.Pending && g.school == School(s).value)
      && Seqs.Distinct(teacherPending.value) && G.NewestFirstOrder(teacherPending.value)
    ensures !(IsTeacher(s) && Truthy(School(s)) && pendingOk) ==> teacherPending.None?
  {
    var schoolQuery := if Truthy(School(s)) then School(s).value else "";
    var approvedData: seq<G.Group> := [];
    if approvedOk {
      approvedData := store.List("Approved", schoolQuery, "");
    }
    assert forall g :: g in approvedData <==>
      && g in store.groups.Values && approvedOk
      && g.status == G.Approved && (!Truthy(School(s)) || g.school == School(s).value);
    var pendingData: seq<G.Group> := [];
    teacherPending := None;
    if IsTeacher(s) && Truthy(School(s)) {
      if pendingOk {
        var teacherPendingData := store.List("Pending", School(s).value, "");
        teacherPending := Some(teacherPendingData);
      }
    } else if !IsTeacher(s) && Truthy(s.email) && pendingOk {
      pendingData := store.List("Pending", "", s.email.value);
    }
    assert forall g :: g in pendingData <==>
      && g in store.groups.Values && !IsTeacher(s) && Truthy(s.email) && pendingOk
      && g.status == G.Pending && g.createdByEmail == s.email.value;
    groups := pendingData + approvedData;
    PendingFirst(pendingData, approvedData);
  }

  /**
   * Pending groups followed by approved ones, each block newest first and
   * without repeats: no pending group comes after an approved one, groups
   * of one status stay newest first, and no group occurs twice.
   */
  lemma PendingFirst(pending: seq<G.Group>, approved: seq<G.Group>)
    requires forall g :: g in pending ==> g.status == G.Pending
    requires forall g :: g in approved ==> g.status == G.Approved
    requires Seqs.Distinct(pending) && G.NewestFirstOrder(pending)
    requires Seqs.Distinct(approved) && G.NewestFirstOrder(approved)
    ensures var all := pending + approved;
      && (forall i, j :: 0 <= i < j < |all| && all[i].status == G.Approved ==> all[j].status == G.Approved)
      && (forall i, j :: 0 <= i < j < |all| && all[i].status == all[j].status ==> all[i].createdAt >= all[j].createdAt)
      && Seqs.Distinct(all)
  {
    var all := pending + approved;
    assert forall k :: 0 <= k < |pending| ==> all[k] == pending[k] && pending[k] in pending;
    assert forall k :: |pending| <= k < |all| ==> all[k] == approved[k - |pending|] && approved[k - |pending|] in approved;
  }

  // ---------------------------------------------------------------------
  // Requesting a group

  /** The body `create` posts. The session's missing fields are sent missing. */
  datatype CreateBody = CreateBody(name: string, subject: string, createdByEmail: Option<string>,
                                   createdByDesignation: Option<string>, school: Option<string>)

  /** `create`: nothing is sent without a name and a subject, or before the profile is loaded. */
  function CreateRequest(name: string, subject: string, s: Session): (r: Option<CreateBody>)
    ensures r.None? <==> name == "" || subject == "" || s.profile.None?
    ensures r.Some? ==> r.value == CreateBody(name, subject, s.email, Designation(s), School(s))
  {
    if name == "" || subject == "" then None
    else if s.profile.None? then None
    else Some(CreateBody(name, subject, s.email, Designation(s), School(s)))
  }

  /**
   * The screen's "Create Group" and "Request Study Group" labels agree
   * with the server: a request is approved at once exactly when the
   * viewer is a teacher.
   */
  lemma RoleDecidesStatus(name: string, subject: string, s: Session)
    requires CreateRequest(name, subject, s).Some?
    ensures var b := CreateRequest(name, subject, s).value;
      G.InitialStatus(OrEmpty(b.createdByDesignation)) == G.Approved <==> IsTeacher(s)
  {
  }

  // ---------------------------------------------------------------------
  // Membership and opening

  /** `group.members?.includes(email || '')` */
  predicate IsMember(g: G.Group, email: Option<string>) {
    OrEmpty(email) in g.members
  }

  /** A tap opens a group when the viewer is a member or the group is still pending. */
  predicate CanOpen(g: G.Group, email: Option<string>) {
    IsMember(g, email) || g.status == G.Pending
  }

  /**
   * After the server's join the viewer can open the group, and after its
   * leave the viewer can open it only while it is pending.
   */
  lemma JoinLeaveOpen(g: G.Group, email: string)
    requires email != ""
    ensures CanOpen(g.(members := G.AddToSet(g.members, email)), Some(email))
    ensures CanOpen(g.(members := G.Pull(g.members, email)), Some(email)) <==> g.status == G.Pending
  {
    G.AddToSetSpec(g.members, email);
    G.PullSpec(g.members, email);
  }

  // ---------------------------------------------------------------------
  // The avatar row

  /**
   * The first five members get a bubble; beyond five, a badge "+k" counts
   * the rest.
   */
  function AvatarRow(members: seq<string>): (r: (seq<string>, Option<string>))
    ensures r.0 <= members && |r.0| == (if |members| < 5 then |members| else 5)
    ensures r.1.Some? <==> |members| > 5
    ensures r.1.Some? ==>
      && |r.1.value| > 1 && r.1.value[0] == '+' && IsDigits(r.1.value[1..])
      && |r.0| + DecimalValue(r.1.value[1..]) == |members|
  {
    var shown := members[..if |members| < 5 then |members| else 5];
    if |members| > 5 then
      var badge := "+" + Decimal(|members| - 5);
      assert badge[1..] == Decimal(|members| - 5);
      DecimalRoundTrip(|members| - 5);
      (shown, Some(badge))
    else
      (shown, None)
  }

  // ---------------------------------------------------------------------
  // The message composer

  /** A picked document: its URI, name and MIME type. */
  datatype SelectedFile = SelectedFile(uri: string, name: string, mimeType: string)

  /** What the document picker returns for one file. */
  datatype DocumentAsset = DocumentAsset(uri: string, name: string, mimeType: Option<string>)

  /** The body posted to the message handler. */
  datatype OutgoingMessage = OutgoingMessage(sender: string, content: string, imageUrl: string, fileUrl: string,
                                             fileName: string, fileType: string)

  /** The open group and what is being written to it. */
  class Chat {
    var activeGroup: Option<G.Group>
    var messageText: string
    var selectedImage: Option<string>
    var selectedFile: Option<SelectedFile>

    /** At most one attachment is waiting. */
    ghost predicate AtMostOneAttachment()
      reads this
    {
      selectedImage.None? || selectedFile.None?
    }

    constructor ()
      ensures activeGroup == None && messageText == "" && selectedImage == None && selectedFile == None
      ensures AtMostOneAttachment()
    {
      activeGroup := None;
      messageText := "";
      selectedImage := None;
      selectedFile := None;
    }

    /** `pickImage`: a picked image replaces any picked document. */
    method PickImage(canceled: bool, assetUris: seq<string>)
      requires canceled || assetUris != []
      modifies this
      ensures canceled ==> unchanged(this)
      ensures !canceled ==>
        && selectedImage == Some(assetUris[0]) && selectedFile == None
        && activeGroup == old(activeGroup) && messageText == old(messageText)
      ensures old(AtMostOneAttachment()) ==> AtMostOneAttachment()
    {
      if !canceled {
        selectedImage := Some(assetUris[0]);
        selectedFile := None;
      }
    }

    /** `pickDocument`: a picked document replaces any picked image; its type defaults to PDF. */
    method PickDocument(canceled: bool, assets: seq<DocumentAsset>)
      modifies this
      ensures canceled || assets == [] ==> unchanged(this)
      ensures !canceled && assets != [] ==>
        && selectedFile == Some(SelectedFile(assets[0].uri, assets[0].name,
                                             OrElse(assets[0].mimeType, "application/pdf")))
        && selectedImage == None
        && activeGroup == old(activeGroup) && messageText == old(messageText)
      ensures old(AtMostOneAttachment()) ==> AtMostOneAttachment()
    {
      if !canceled && |assets| > 0 {
        var file := assets[0];
        selectedFile := Some(SelectedFile(file.uri, file.name, OrElse(file.mimeType, "application/pdf")));
        selectedImage := None;
      }
    }

    /**
     * The message `sendMessage` posts, given what each upload returned.
     * Nothing is sent without an open group, a signed-in email, or some
     * text, image or document. A failed upload leaves its URL empty and
     * the message is still sent; the document's name and type go with it
     * only when its upload succeeded.
     */
    method ComposeMessage(email: Option<string>, imageUpload: Option<string>, fileUpload: Option<string>)
      returns (r: Option<OutgoingMessage>)
      ensures r.None? <==>
        || activeGroup.None?
        || (Trim(messageText) == "" && !Truthy(selectedImage) && selectedFile.None?)
        || !Truthy(email)
      ensures r.Some? ==> r.value.sender == email.value && r.value.content == Trim(messageText)
      ensures r.Some? ==>
        r.value.imageUrl == (if Truthy(selectedImage) && Truthy(imageUpload) then imageUpload.value else "")
      ensures r.Some? ==>
        if selectedFile.Some? && Truthy(fileUpload) then
          r.value.fileUrl == fileUpload.value && r.value.fileName == selectedFile.value.name
          && r.value.fileType == selectedFile.value.mimeType
        else
          r.value.fileUrl == "" && r.value.fileName == "" && r.value.fileType == ""
      ensures r.Some? ==>
        (G.Acceptable(r.value.sender, r.value.content, r.value.imageUrl, r.value.fileUrl) <==>
           || Trim(messageText) != ""
           || (Truthy(selectedImage) && Truthy(imageUpload))
           || (selectedFile.Some? && Truthy(fileUpload)))
      ensures r.Some? && r.value.imageUrl != "" ==> selectedImage.Some?
      ensures r.Some? && r.value.fileUrl != "" ==> selectedFile.Some?
    {
      if activeGroup.None? || (Trim(messageText) == "" && !Truthy(selectedImage) && selectedFile.None?)
         || !Truthy(email) {
        return None;
      }
      var imageUrl := "";
      var fileUrl := "";
      var fileName := "";
      var fileType := "";
      if Truthy(selectedImage) {
        if Truthy(imageUpload) {
          imageUrl := imageUpload.value;
        }
      }
      if selectedFile.Some? {
        if Truthy(fileUpload) {
          fileUrl := fileUpload.value;
          fileName := selectedFile.value.name;
          fileType := selectedFile.value.mimeType;
        }
      }
      assert imageUrl != "" ==> selectedImage.Some?;
      assert fileUrl != "" ==> selectedFile.Some?;
      r := Some(OutgoingMessage(email.value, Trim(messageText), imageUrl, fileUrl, fileName, fileType));
    }

    /** A successful post shows the returned group and clears the composer. */
    method MessageSent(updated: G.Group)
      modifies this
      ensures activeGroup == Some(updated)
      ensures messageText == "" && selectedImage == None && selectedFile == None
      ensures AtMostOneAttachment()
    {
      activeGroup := Some(updated);
      messageText := "";
      selectedImage := None;
      selectedFile := None;
    }
  }
}
