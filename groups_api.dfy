/**
 * The study-group handlers of the REST server (server/src/index.ts): a
 * collection of group documents, each with its members and an embedded,
 * append-only message list. Every handler reads or changes one document by
 * id. Absent body and query fields are the empty string here. Where a
 * handler only tests a field for truthiness or compares it with a
 * non-empty literal, '' and absent behave alike; where it stores the field
 * (the group's fields and first member on create, the email on join, the
 * message's fields on post), the model stores '' for an absent one.
 */
module GroupsApi {
  import opened Wrappers
  import opened ApiCommon
  import Seqs

  datatype Status = Pending | Approved

  /** The string stored in the `status` field. */
  function StatusName(s: Status): string {
    match s
    case Pending => "Pending"
    case Approved => "Approved"
  }

  datatype Message = Message(
    sender: string,
    content: string,
    imageUrl: string,
    fileUrl: string,
    fileName: string,
    fileType: string,
    createdAt: int)

  datatype Group = Group(
    id: nat,
    name: string,
    subject: string,
    createdByEmail: string,
    createdByDesignation: string,
    school: string,
    status: Status,
    members: seq<string>,
    messages: seq<Message>,
    createdAt: int)

  // ---------------------------------------------------------------------
  // Status rule

  /** A group requested by a teacher starts approved; any other request waits. */
  function InitialStatus(designation: string): Status {
    if designation == "Teacher" then Approved else Pending
  }

  // ---------------------------------------------------------------------
  // Membership: Mongo's $addToSet and $pull on the `members` array

  /** `$addToSet`: append the value unless it is already there. */
  function AddToSet(members: seq<string>, email: string): seq<string> {
    if email in members then members else members + [email]
  }

  /** `$pull`: remove every occurrence of the value, keeping the others in order. */
  function Pull(members: seq<string>, email: string): (r: seq<string>)
    ensures multiset(r) == multiset(members)[email := 0]
    ensures Seqs.IsSubseq(r, members)
  {
    if members == [] then
      []
    else
      var rest := Pull(members[1..], email);
      assert members == [members[0]] + members[1..];
      if members[0] == email then
        rest
      else
        assert ([members[0]] + rest)[1..] == rest;
        [members[0]] + rest
  }

  /**
   * Joining adds exactly the new member at the end, only when absent, and
   * joining twice is joining once.
   */
  lemma AddToSetSpec(members: seq<string>, email: string)
    ensures email in AddToSet(members, email)
    ensures forall y :: y in AddToSet(members, email) <==> y in members || y == email
    ensures members <= AddToSet(members, email)
    ensures email !in members ==> |AddToSet(members, email)| == |members| + 1
    ensures email in members <==> AddToSet(members, email) == members
    ensures AddToSet(AddToSet(members, email), email) == AddToSet(members, email)
  {
  }

  /**
   * Leaving removes the member and nobody else, and leaving twice is
   * leaving once.
   */
  lemma {:induction false} PullSpec(members: seq<string>, email: string)
    ensures email !in Pull(members, email)
    ensures forall y :: y != email ==> (y in Pull(members, email) <==> y in members)
    ensures email !in members ==> Pull(members, email) == members
    ensures Pull(Pull(members, email), email) == Pull(members, email)
  {
    var r := Pull(members, email);
    assert forall y :: y in r <==> y in multiset(r);
    assert forall y :: y in members <==> y in multiset(members);
    if email !in members {
      PullAbsent(members, email);
    }
    PullAbsent(r, email);
  }

  lemma {:induction false} PullAbsent(members: seq<string>, email: string)
    requires email !in members
    ensures Pull(members, email) == members
  {
    if members != [] {
      PullAbsent(members[1..], email);
    }
  }

  /** One membership request: `true` joins, `false` leaves. */
  function ApplyRequest(members: seq<string>, email: string, join: bool): seq<string> {
    if join then AddToSet(members, email) else Pull(members, email)
  }

  /** A run of join and leave requests by one account, in order. */
  function ApplyRequests(members: seq<string>, email: string, joins: seq<bool>): seq<string>
    decreases |joins|
  {
    if joins == [] then members
    else ApplyRequest(ApplyRequests(members, email, joins[..|joins| - 1]), email, joins[|joins| - 1])
  }

  /**
   * After any run of join and leave requests by one account, the account is
   * a member exactly when its last request was a join (or, with no request,
   * when it was a member before), and every other account's membership is
   * what it was.
   */
  lemma {:induction false} NetEffect(members: seq<string>, email: string, joins: seq<bool>)
    ensures var after := ApplyRequests(members, email, joins);
      && (email in after <==> if joins == [] then email in members else joins[|joins| - 1])
      && (forall y :: y != email ==> (y in after <==> y in members))
    decreases |joins|
  {
    if joins != [] {
      var before := ApplyRequests(members, email, joins[..|joins| - 1]);
      NetEffect(members, email, joins[..|joins| - 1]);
      AddToSetSpec(before, email);
      PullSpec(before, email);
    }
  }

  // ---------------------------------------------------------------------
  // Messages

  /** The ingress check of the message handler: a sender and some content, image or file. */
  predicate Acceptable(sender: string, content: string, imageUrl: string, fileUrl: string) {
    sender != "" && (content != "" || imageUrl != "" || fileUrl != "")
  }

  // ---------------------------------------------------------------------
  // Listing

  /** The Mongo filter document the list handler builds: one key per supplied parameter. */
  datatype Query = Query(status: Option<string>, school: Option<string>, createdByEmail: Option<string>)

  predicate Matches(g: Group, q: Query) {
    && (q.status.Some? ==> StatusName(g.status) == q.status.value)
    && (q.school.Some? ==> g.school == q.school.value)
    && (q.createdByEmail.Some? ==> g.createdByEmail == q.createdByEmail.value)
  }

  /**
   * A group is listed for the query parameters when it agrees with every
   * parameter that is supplied; an empty parameter imposes nothing.
   */
  predicate Selected(g: Group, status: string, school: string, createdByEmail: string) {
    && (status == "" || StatusName(g.status) == status)
    && (school == "" || g.school == school)
    && (createdByEmail == "" || g.createdByEmail == createdByEmail)
  }

  /** `sort({ createdAt: -1 })`: newest first. */
  predicate NewestFirstOrder(s: seq<Group>) {
    forall i, j :: 0 <= i < j < |s| ==> s[i].createdAt >= s[j].createdAt
  }

  function InsertNewest(g: Group, s: seq<Group>): (r: seq<Group>)
    requires NewestFirstOrder(s)
    ensures NewestFirstOrder(r)
    ensures multiset(r) == multiset(s) + multiset{g}
  {
    if s == [] || g.createdAt >= s[0].createdAt then
      [g] + s
    else
      var rest := InsertNewest(g, s[1..]);
      assert s == [s[0]] + s[1..];
      HeadNoOlder(g, s, rest);
      [s[0]] + rest
  }

  /** Inserting a younger group behind the head leaves the head first. */
  lemma HeadNoOlder(g: Group, s: seq<Group>, rest: seq<Group>)
    requires s != [] && NewestFirstOrder(s) && NewestFirstOrder(rest)
    requires g.createdAt < s[0].createdAt
    requires multiset(rest) == multiset(s[1..]) + multiset{g}
    ensures NewestFirstOrder([s[0]] + rest)
  {
    forall k | 0 <= k < |rest| ensures s[0].createdAt >= rest[k].createdAt {
      assert rest[k] in multiset(rest);
      if rest[k] != g {
        assert rest[k] in s[1..];
      }
    }
    var r := [s[0]] + rest;
    forall i, j | 0 <= i < j < |r| ensures r[i].createdAt >= r[j].createdAt {
      if i > 0 {
        assert r[i] == rest[i - 1] && r[j] == rest[j - 1];
      }
    }
  }

  /** The groups of `s` sorted newest first (ties in an unspecified order). */
  function NewestFirst(s: seq<Group>): (r: seq<Group>)
    ensures NewestFirstOrder(r)
    ensures multiset(r) == multiset(s)
  {
    if s == [] then
      []
    else
      assert s == [s[0]] + s[1..];
      InsertNewest(s[0], NewestFirst(s[1..]))
  }

  // ---------------------------------------------------------------------
  // The collection

  class GroupStore {
    /** The documents, by id. */
    var groups: map<nat, Group>
    /** Where fresh ids come from. */
    var nextId: nat

    ghost predicate Valid()
      reads this
    {
      forall id :: id in groups ==> groups[id].id == id && id < nextId
    }

    constructor ()
      ensures Valid() && groups == map[]
    {
      groups := map[];
      nextId := 0;
    }

    /** GET /api/groups/:id */
    method Get(id: nat) returns (r: Reply<Group>)
      ensures id in groups ==> r == Json(groups[id])
      ensures id !in groups ==> r == Error(404)
    {
      if id !in groups {
        return Error(404);
      }
      r := Json(groups[id]);
    }

    /**
     * GET /api/groups?status=&school=&createdByEmail=: exactly the groups
     * that agree with every supplied parameter, each once, newest first.
     */
    method List(status: string, school: string, createdByEmail: string) returns (r: seq<Group>)
      requires Valid()
      ensures forall g :: g in r <==> g in groups.Values && Selected(g, status, school, createdByEmail)
      ensures Seqs.Distinct(r)
      ensures NewestFirstOrder(r)
    {
      var query := Query(None, None, None);
      if status != "" { query := query.(status := Some(status)); }
      if school != "" { query := query.(school := Some(school)); }
      if createdByEmail != "" { query := query.(createdByEmail := Some(createdByEmail)); }
      assert forall g :: Matches(g, query) <==> Selected(g, status, school, createdByEmail);

      var found := Matching(query);
      r := NewestFirst(found);
      Seqs.DistinctPermutation(found, r);
      assert forall g :: g in r <==> g in multiset(found);
    }

    /** The scan behind `find(query)`: every matching group, each once, in no particular order. */
    method Matching(query: Query) returns (found: seq<Group>)
      requires Valid()
      ensures forall g :: g in found <==> g in groups.Values && Matches(g, query)
      ensures Seqs.Distinct(found)
    {
      found := [];
      var unseen := groups.Keys;
      while unseen != {}
        invariant unseen <= groups.Keys
        invariant forall g :: g in found ==> g.id in groups && groups[g.id] == g && g.id !in unseen && Matches(g, query)
        invariant forall id :: id in groups && id !in unseen && Matches(groups[id], query) ==> groups[id] in found
        invariant Seqs.Distinct(found)
        decreases unseen
      {
        var id :| id in unseen;
        if Matches(groups[id], query) {
          found := found + [groups[id]];
        }
        unseen := unseen - {id};
      }
    }

    /** POST /api/groups: the status comes from the requester's role alone. */
    method Create(name: string, subject: string, createdByEmail: string, createdByDesignation: string,
                  school: string, now: int)
      returns (g: Group)
      requires Valid()
      modifies this
      ensures Valid()
      ensures g.id !in old(groups) && groups == old(groups)[g.id := g]
      ensures g.status == Approved <==> createdByDesignation == "Teacher"
      ensures g.members == [createdByEmail] && g.messages == []
      ensures g.name == name && g.subject == subject && g.school == school
      ensures g.createdByEmail == createdByEmail && g.createdByDesignation == createdByDesignation
      ensures g.createdAt == now
    {
      var status := InitialStatus(createdByDesignation);
      g := Group(nextId, name, subject, createdByEmail, createdByDesignation, school,
                 status, [createdByEmail], [], now);
      groups := groups[nextId := g];
      nextId := nextId + 1;
    }

    /**
     * PATCH /api/groups/:id/approve. 'reject' deletes and always
     * acknowledges; any other action approves. Nobody's role is checked.
     */
    method Approve(id: nat, action: string) returns (r: Reply<Group>)
      requires Valid()
      modifies this
      ensures Valid() && nextId == old(nextId)
      ensures action == "reject" ==> groups == old(groups) - {id} && r == Ack(Some("rejected"))
      ensures action != "reject" && id !in old(groups) ==> groups == old(groups) && r == Null
      ensures action != "reject" && id in old(groups) ==>
        && groups == old(groups)[id := old(groups)[id].(status := Approved)]
        && r == Json(groups[id])
    {
      if action == "reject" {
        groups := groups - {id};
        return Ack(Some("rejected"));
      }
      if id !in groups {
        return Null;
      }
      groups := groups[id := groups[id].(status := Approved)];
      r := Json(groups[id]);
    }

    /** POST /api/groups/:id/join: `$addToSet`, whatever the group's status. */
    method Join(id: nat, email: string) returns (r: Reply<Group>)
      requires Valid()
      modifies this
      ensures Valid() && nextId == old(nextId)
      ensures id !in old(groups) ==> groups == old(groups) && r == Null
      ensures id in old(groups) ==>
        && groups == old(groups)[id := old(groups)[id].(members := AddToSet(old(groups)[id].members, email))]
        && r == Json(groups[id])
    {
      if id !in groups {
        return Null;
      }
      groups := groups[id := groups[id].(members := AddToSet(groups[id].members, email))];
      r := Json(groups[id]);
    }

    /** POST /api/groups/:id/leave: `$pull`. */
    method Leave(id: nat, email: string) returns (r: Reply<Group>)
      requires Valid()
      modifies this
      ensures Valid() && nextId == old(nextId)
      ensures id !in old(groups) ==> groups == old(groups) && r == Null
      ensures id in old(groups) ==>
        && groups == old(groups)[id := old(groups)[id].(members := Pull(old(groups)[id].members, email))]
        && r == Json(groups[id])
    {
      if id !in groups {
        return Null;
      }
      groups := groups[id := groups[id].(members := Pull(groups[id].members, email))];
      r := Json(groups[id]);
    }

    /**
     * POST /api/groups/:id/messages: refused with 400 before the group is
     * looked up; otherwise one message is pushed at the end.
     */
    method AppendMessage(id: nat, sender: string, content: string, imageUrl: string, fileUrl: string,
                         fileName: string, fileType: string, now: int)
      returns (r: Reply<Group>)
      requires Valid()
      modifies this
      ensures Valid() && nextId == old(nextId)
      ensures !Acceptable(sender, content, imageUrl, fileUrl) ==> groups == old(groups) && r == Error(400)
      ensures Acceptable(sender, content, imageUrl, fileUrl) && id !in old(groups) ==>
        groups == old(groups) && r == Null
      ensures Acceptable(sender, content, imageUrl, fileUrl) && id in old(groups) ==>
        && groups == old(groups)[id := old(groups)[id].(messages := old(groups)[id].messages +
             [Message(sender, content, imageUrl, fileUrl, fileName, fileType, now)])]
        && r == Json(groups[id])
    {
      if !Acceptable(sender, content, imageUrl, fileUrl) {
        return Error(400);
      }
      if id !in groups {
        return Null;
      }
      var m := Message(sender, content, imageUrl, fileUrl, fileName, fileType, now);
      groups := groups[id := groups[id].(messages := groups[id].messages + [m])];
      r := Json(groups[id]);
    }

    /** DELETE /api/groups/:id?requester= */
    method Delete(id: nat, requester: string) returns (r: Reply<Group>)
      requires Valid()
      modifies this
      ensures Valid() && nextId == old(nextId)
      ensures id !in old(groups) ==> groups == old(groups) && r == Error(404)
      ensures id in old(groups) && !MayDelete(requester, old(groups)[id].createdByEmail) ==>
        groups == old(groups) && r == Error(403)
      ensures id in old(groups) && MayDelete(requester, old(groups)[id].createdByEmail) ==>
        groups == old(groups) - {id} && r == Ack(None)
    {
      if id !in groups {
        return Error(404);
      }
      var g := groups[id];
      if requester != "" && g.createdByEmail != "" && requester != g.createdByEmail {
        return Error(403);
      }
      groups := groups - {id};
      r := Ack(None);
    }
  }

  /**
   * The walk-through of the approval workflow: a student's request waits,
   * an approval publishes it, a second student joins and posts.
   */
  method ApprovalScenario()
  {
    var store := new GroupStore();
    var g := store.Create("DSA Study", "DSA", "a@x.com", "Student", "SOET", 1);
    assert g.status == Pending && g.members == ["a@x.com"];
    var r := store.Approve(g.id, "approve");
    assert r.Json? && r.doc.status == Approved;
    r := store.Join(g.id, "b@x.com");
    assert r.Json? && r.doc.members == ["a@x.com", "b@x.com"];
    r := store.AppendMessage(g.id, "b@x.com", "hi", "", "", "", "", 2);
    assert r.Json? && |r.doc.messages| == 1 && r.doc.messages[0].sender == "b@x.com";
    r := store.Delete(g.id, "b@x.com");
    assert r == Error(403) && g.id in store.groups;
    r := store.Approve(g.id, "reject");
    r := store.Get(g.id);
    assert r == Error(404);
  }
}
