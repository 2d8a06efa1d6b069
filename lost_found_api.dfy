/**
 * The lost-and-found handlers of the REST server (server/src/index.ts):
 * reports are created as sent, deleted under the same ownership rule as
 * study groups, and claimed by setting their status.
 */
module LostFoundApi {
  import opened Wrappers
  import opened ApiCommon

  /** A stored report; a status or date sent as `null` is stored as no value. */
  datatype Item = Item(
    id: nat,
    title: string,
    description: string,
    location: string,
    contact: string,
    imageUrl: string,
    status: Option<string>,
    date: Option<int>,
    reportedByEmail: string)

  /**
   * A field with a schema default, as Mongoose stores it: the default only
   * for a left-out field, no value for one sent as `null`, and the value
   * sent otherwise.
   */
  function Defaulted<T>(f: BodyField<T>, default: T): Option<T> {
    match f
    case Absent => Some(default)
    case SentNull => None
    case Given(v) => Some(v)
  }

  /**
   * The schema defaults: a report without a status is 'Active', one
   * without a date is dated now; a `null` is kept as `null`.
   */
  function WithDefaults(id: nat, title: string, description: string, location: string, contact: string,
                        imageUrl: string, status: BodyField<string>, date: BodyField<int>,
                        reportedByEmail: string, now: int): (it: Item)
    ensures status.Absent? ==> it.status == Some("Active")
    ensures status.SentNull? ==> it.status == None
    ensures status.Given? ==> it.status == Some(status.value)
    ensures date.Absent? ==> it.date == Some(now)
    ensures date.SentNull? ==> it.date == None
    ensures date.Given? ==> it.date == Some(date.value)
    ensures it.id == id && it.title == title && it.description == description && it.location == location
    ensures it.contact == contact && it.imageUrl == imageUrl && it.reportedByEmail == reportedByEmail
  {
    Item(id, title, description, location, contact, imageUrl, Defaulted(status, "Active"), Defaulted(date, now),
         reportedByEmail)
  }

  /**
   * A new report is 'Active' exactly when its body leaves the status out
   * or sends 'Active', and has no status exactly when the body sends `null`.
   */
  lemma ActiveIff(id: nat, title: string, description: string, location: string, contact: string,
                  imageUrl: string, status: BodyField<string>, date: BodyField<int>,
                  reportedByEmail: string, now: int)
    ensures var it := WithDefaults(id, title, description, location, contact, imageUrl, status, date,
                                   reportedByEmail, now);
      && (it.status == Some("Active") <==> status.Absent? || status == Given("Active"))
      && (it.status.None? <==> status.SentNull?)
  {
  }

  class LostFoundStore {
    var items: map<nat, Item>
    var nextId: nat

    ghost predicate Valid()
      reads this
    {
      forall id :: id in items ==> items[id].id == id && id < nextId
    }

    constructor ()
      ensures Valid() && items == map[]
    {
      items := map[];
      nextId := 0;
    }

    /** POST /api/lostfound: the body as sent, with the schema defaults. */
    method Create(title: string, description: string, location: string, contact: string, imageUrl: string,
                  status: BodyField<string>, date: BodyField<int>, reportedByEmail: string, now: int)
      returns (it: Item)
      requires Valid()
      modifies this
      ensures Valid()
      ensures it.id !in old(items) && items == old(items)[it.id := it]
      ensures it == WithDefaults(it.id, title, description, location, contact, imageUrl, status, date,
                                 reportedByEmail, now)
    {
      it := WithDefaults(nextId, title, description, location, contact, imageUrl, status, date,
                         reportedByEmail, now);
      items := items[nextId := it];
      nextId := nextId + 1;
    }

    /** DELETE /api/lostfound/:id?reporter= */
    method Delete(id: nat, reporter: string) returns (r: Reply<Item>)
      requires Valid()
      modifies this
      ensures Valid() && nextId == old(nextId)
      ensures id !in old(items) ==> items == old(items) && r == Error(404)
      ensures id in old(items) && !MayDelete(reporter, old(items)[id].reportedByEmail) ==>
        items == old(items) && r == Error(403)
      ensures id in old(items) && MayDelete(reporter, old(items)[id].reportedByEmail) ==>
        items == old(items) - {id} && r == Ack(None)
    {
      if id !in items {
        return Error(404);
      }
      var item := items[id];
      if reporter != "" && item.reportedByEmail != "" && reporter != item.reportedByEmail {
        return Error(403);
      }
      items := items - {id};
      r := Ack(None);
    }

    /** PATCH /api/lostfound/:id/claim: nobody is checked and nothing but the status changes. */
    method Claim(id: nat) returns (r: Reply<Item>)
      requires Valid()
      modifies this
      ensures Valid() && nextId == old(nextId)
      ensures id !in old(items) ==> items == old(items) && r == Null
      ensures id in old(items) ==>
        && items == old(items)[id := old(items)[id].(status := Some("Claimed"))]
        && r == Json(items[id])
    {
      if id !in items {
        return Null;
      }
      items := items[id := items[id].(status := Some("Claimed"))];
      r := Json(items[id]);
    }
  }

  /** A report made without an owner can be deleted by anyone; an owned one only by its owner. */
  method OwnershipScenario()
  {
    var store := new LostFoundStore();
    var open := store.Create("Umbrella", "", "Gate 2", "99", "", Absent, Absent, "", 5);
    assert open.status == Some("Active") && open.date == Some(5);
    var owned := store.Create("Keys", "", "Library", "98", "", Absent, SentNull, "a@x.com", 6);
    assert owned.status == Some("Active") && owned.date == None;
    var r := store.Delete(owned.id, "b@x.com");
    assert r == Error(403);
    r := store.Claim(owned.id);
    assert r.Json? && r.doc.status == Some("Claimed") && r.doc.reportedByEmail == "a@x.com";
    r := store.Delete(owned.id, "");
    assert r == Ack(None);
    r := store.Delete(open.id, "b@x.com");
    assert r == Ack(None) && store.items == map[];
  }
}
