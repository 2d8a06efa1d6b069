/**
 * The decision rules of the lost-and-found screen
 * (src/screens/LostFoundScreen.tsx): how a realtime-database snapshot
 * becomes the sorted item list, the status filter, and who may delete or
 * claim an item.
 */
module LostFoundScreen {
  import opened Wrappers
  import opened Text
  import Seqs

  /** A stored report as the realtime database returns it; every field may be missing. */
  datatype Entry = Entry(
    id: Option<string>,
    title: Option<string>,
    description: Option<string>,
    location: Option<string>,
    contact: Option<string>,
    status: Option<string>,
    date: Option<string>,
    reportedByEmail: Option<string>,
    reportedByUid: Option<string>,
    mediaUrl: Option<string>,
    imageUrl: Option<string>,
    mediaType: Option<string>)

  /** An item of the list. */
  datatype Item = Item(
    id: string,
    title: Option<string>,
    description: Option<string>,
    location: Option<string>,
    contact: Option<string>,
    status: Option<string>,
    date: Option<string>,
    reportedByEmail: Option<string>,
    reportedByUid: Option<string>,
    mediaUrl: Option<string>,
    mediaType: Option<string>)

  // ---------------------------------------------------------------------
  // Snapshot normalisation

  /**
   * `{ id: key, ...entry, mediaUrl, mediaType }`: the key is the id unless
   * the entry carries an `id` of its own (the spread comes after it); the
   * media URL falls back to the legacy `imageUrl`, and an entry with media
   * but no type is an image.
   */
  function NormalizeEntry(key: string, e: Entry): (it: Item)
    ensures e.id.None? ==> it.id == key
    ensures e.id.Some? ==> it.id == e.id.value
    ensures it.mediaUrl == Or(e.mediaUrl, e.imageUrl)
    ensures Truthy(e.mediaType) ==> it.mediaType == e.mediaType
    ensures !Truthy(e.mediaType) ==> it.mediaType == (if Truthy(it.mediaUrl) then Some("image") else None)
    ensures it.title == e.title && it.status == e.status && it.date == e.date
    ensures it.description == e.description && it.location == e.location && it.contact == e.contact
    ensures it.reportedByEmail == e.reportedByEmail && it.reportedByUid == e.reportedByUid
  {
    var mediaUrl := Or(e.mediaUrl, e.imageUrl);
    var mediaType := Or(e.mediaType, if Truthy(mediaUrl) then Some("image") else None);
    Item(if e.id.Some? then e.id.value else key, e.title, e.description, e.location, e.contact, e.status,
         e.date, e.reportedByEmail, e.reportedByUid, mediaUrl, mediaType)
  }

  /**
   * `Object.keys(data).map(...)`, over the snapshot's keys in order: one
   * item per key, identified by its key unless the entry names an id of its
   * own, with the entry's media URL or else its legacy image URL, and with
   * the entry's other fields.
   */
  function NormalizeAll(data: seq<(string, Entry)>): (r: seq<Item>)
    ensures |r| == |data|
    ensures forall i :: 0 <= i < |data| && data[i].1.id.None? ==> r[i].id == data[i].0
    ensures forall i :: 0 <= i < |data| && data[i].1.id.Some? ==> r[i].id == data[i].1.id.value
    ensures (forall i :: 0 <= i < |data| ==> data[i].1.id.None?) ==>
      seq(|r|, i requires 0 <= i < |r| => r[i].id) == seq(|data|, i requires 0 <= i < |data| => data[i].0)
    ensures forall i :: 0 <= i < |data| ==> r[i].mediaUrl == Or(data[i].1.mediaUrl, data[i].1.imageUrl)
    ensures forall i :: 0 <= i < |data| ==>
      r[i].mediaType == (if Truthy(data[i].1.mediaType) then data[i].1.mediaType
                         else if Truthy(r[i].mediaUrl) then Some("image") else None)
    ensures forall i :: 0 <= i < |data| ==>
      && r[i].title == data[i].1.title && r[i].description == data[i].1.description
      && r[i].location == data[i].1.location && r[i].contact == data[i].1.contact
      && r[i].status == data[i].1.status && r[i].date == data[i].1.date
      && r[i].reportedByEmail == data[i].1.reportedByEmail && r[i].reportedByUid == data[i].1.reportedByUid
  {
    seq(|data|, i requires 0 <= i < |data| => NormalizeEntry(data[i].0, data[i].1))
  }

  // ---------------------------------------------------------------------
  // Date order

  /** `(x.date || '')` is at or after `(y.date || '')`. */
  predicate DatedNoEarlier(x: Item, y: Item) {
    LexLe(OrEmpty(y.date), OrEmpty(x.date))
  }

  /** Newest date first; a missing date counts as '' and so comes last. */
  predicate NewestFirst(s: seq<Item>) {
    forall p, q :: 0 <= p < q < |s| ==> DatedNoEarlier(s[p], s[q])
  }

  /** An undated item is placed after every dated one. */
  lemma UndatedLast(s: seq<Item>, p: nat, q: nat)
    requires NewestFirst(s) && p < q < |s|
    requires !Truthy(s[p].date)
    ensures !Truthy(s[q].date)
  {
    LexLeEmpty(OrEmpty(s[q].date));
  }

  /**
   * `nextItems.sort((a, b) => (b.date || '').localeCompare(a.date || ''))`,
   * in place, by insertion.
   */
  method SortNewestFirst(a: array<Item>)
    modifies a
    ensures NewestFirst(a[..])
    ensures multiset(a[..]) == multiset(old(a[..]))
  {
    var i := 0;
    while i < a.Length
      invariant 0 <= i <= a.Length
      invariant NewestFirst(a[..i])
      invariant multiset(a[..]) == multiset(old(a[..]))
    {
      InsertInto(a, i);
      i := i + 1;
    }
    assert a[..] == a[..a.Length];
  }

  /** Moves `a[i]` back into the sorted prefix `a[..i]`, leaving `a[..i + 1]` sorted. */
  method InsertInto(a: array<Item>, i: nat)
    requires i < a.Length && NewestFirst(a[..i])
    modifies a
    ensures NewestFirst(a[..i + 1])
    ensures multiset(a[..]) == multiset(old(a[..]))
  {
    var j := i;
    while j > 0 && !DatedNoEarlier(a[j - 1], a[j])
      invariant 0 <= j <= i
      invariant forall p, q :: 0 <= p < q <= i && p != j && q != j ==> DatedNoEarlier(a[p], a[q])
      invariant forall q :: j < q <= i ==> DatedNoEarlier(a[j], a[q])
      invariant multiset(a[..]) == multiset(old(a[..]))
    {
      LexLeTotal(OrEmpty(a[j - 1].date), OrEmpty(a[j].date));
      ghost var before := a[..];
      a[j - 1], a[j] := a[j], a[j - 1];
      assert a[..] == before[j - 1 := before[j]][j := before[j - 1]];
      j := j - 1;
    }
    if j > 0 {
      forall p | 0 <= p < j - 1
        ensures DatedNoEarlier(a[p], a[j])
      {
        LexLeTrans(OrEmpty(a[j].date), OrEmpty(a[j - 1].date), OrEmpty(a[p].date));
      }
    }
  }

  /** The item list after a snapshot: a missing snapshot gives no items. */
  method ItemsFromSnapshot(data: Option<seq<(string, Entry)>>) returns (items: seq<Item>)
    ensures data.None? ==> items == []
    ensures data.Some? ==> multiset(items) == multiset(NormalizeAll(data.value))
    ensures NewestFirst(items)
  {
    var entries := if data.Some? then data.value else [];
    var normalized := NormalizeAll(entries);
    var a := new Item[|normalized|](i requires 0 <= i < |normalized| => normalized[i]);
    assert a[..] == normalized;
    SortNewestFirst(a);
    items := a[..];
  }

  // ---------------------------------------------------------------------
  // Filter

  datatype Filter = All | Active | Claimed

  function FilterName(f: Filter): string {
    match f
    case All => "All"
    case Active => "Active"
    case Claimed => "Claimed"
  }

  predicate Shown(it: Item, f: Filter) {
    f == All || it.status == Some(FilterName(f))
  }

  /** `items.filter(i => filter === 'All' ? true : i.status === filter)` */
  function FilterItems(items: seq<Item>, f: Filter): (r: seq<Item>)
    ensures f == All ==> r == items
    ensures forall it :: it in r <==> it in items && Shown(it, f)
    ensures forall it :: multiset(r)[it] == if Shown(it, f) then multiset(items)[it] else 0
    ensures Seqs.IsSubseq(r, items)
  {
    var keep := it => Shown(it, f);
    if f == All then
      Seqs.FilterAll(items, keep);
      Seqs.Filter(items, keep)
    else
      Seqs.Filter(items, keep)
  }

  // ---------------------------------------------------------------------
  // Delete and claim

  /** The signed-in identity of the authentication provider. */
  datatype AuthUser = AuthUser(uid: string, email: Option<string>)

  datatype RemoveOutcome = SignInRequired | PermissionDenied | Removed(id: string)

  /**
   * An item belongs to the user when it records the user's uid, or, for an
   * item without a uid, when it records the user's email (the provider's,
   * else the session's).
   */
  predicate Owns(it: Item, user: AuthUser, sessionEmail: Option<string>) {
    || (Truthy(it.reportedByUid) && it.reportedByUid.value == user.uid)
    || (!Truthy(it.reportedByUid) && Truthy(it.reportedByEmail) && Some(it.reportedByEmail.value) == Or(user.email, sessionEmail))
  }

  /** `remove`: a signed-in owner removes the entry; anyone else is refused. */
  function Remove(it: Item, user: Option<AuthUser>, sessionEmail: Option<string>): (r: RemoveOutcome)
    ensures user.None? <==> r == SignInRequired
    ensures r.Removed? <==> user.Some? && Owns(it, user.value, sessionEmail)
    ensures r.Removed? ==> r.id == it.id
  {
    if user.None? then SignInRequired
    else if !Owns(it, user.value, sessionEmail) then PermissionDenied
    else Removed(it.id)
  }

  /** A recorded uid decides alone: another user with the recorded email is still refused. */
  lemma UidDecides(it: Item, user: AuthUser, sessionEmail: Option<string>)
    requires Truthy(it.reportedByUid) && it.reportedByUid.value != user.uid
    ensures Remove(it, Some(user), sessionEmail) == PermissionDenied
  {
  }

  /** The update `claim` writes. */
  datatype ClaimUpdate = ClaimUpdate(id: string, status: string, claimedByUid: string, claimedAt: string)

  /** `claim`: only a signed-in user can mark an item claimed. */
  function Claim(id: string, user: Option<AuthUser>, now: string): (r: Option<ClaimUpdate>)
    ensures r.None? <==> user.None?
    ensures r.Some? ==> r.value == ClaimUpdate(id, "Claimed", user.value.uid, now)
  {
    if user.None? then None else Some(ClaimUpdate(id, "Claimed", user.value.uid, now))
  }

  /** "Mark Claimed" is offered for every item not yet claimed. */
  predicate OffersClaim(it: Item) {
    it.status != Some("Claimed")
  }

  /** Once the claim is written the item no longer offers it, and the 'Claimed' filter shows it. */
  lemma ClaimedStaysClaimed(it: Item, u: ClaimUpdate)
    requires u.status == "Claimed"
    ensures !OffersClaim(it.(status := Some(u.status)))
    ensures Shown(it.(status := Some(u.status)), Claimed) && !Shown(it.(status := Some(u.status)), Active)
  {
  }
}
