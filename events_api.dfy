/**
 * The event handlers of the REST server (server/src/index.ts): events are
 * stored as sent and listed, optionally for one school, in ascending order
 * of their `date` string. Every field of an event may be missing.
 */
module EventsApi {
  import opened Wrappers
  import opened Text
  import Seqs

  datatype Event = Event(
    id: nat,
    title: Option<string>,
    date: Option<string>,
    location: Option<string>,
    organizer: Option<string>,
    description: Option<string>,
    imageUrl: Option<string>,
    timings: Option<string>,
    school: Option<string>,
    createdByEmail: Option<string>)

  // ---------------------------------------------------------------------
  // sort({ date: 1 })

  /**
   * The database's ascending order on the `date` field: a missing date
   * comes before every string, and strings compare code point by code
   * point.
   */
  predicate DateLe(a: Option<string>, b: Option<string>) {
    a.None? || (b.Some? && LexLe(a.value, b.value))
  }

  lemma DateLeTotal(a: Option<string>, b: Option<string>)
    ensures DateLe(a, b) || DateLe(b, a)
  {
    if a.Some? && b.Some? {
      LexLeTotal(a.value, b.value);
    }
  }

  lemma DateLeTrans(a: Option<string>, b: Option<string>, c: Option<string>)
    requires DateLe(a, b) && DateLe(b, c)
    ensures DateLe(a, c)
  {
    if a.Some? {
      LexLeTrans(a.value, b.value, c.value);
    }
  }

  predicate ByDate(s: seq<Event>) {
    forall i, j :: 0 <= i < j < |s| ==> DateLe(s[i].date, s[j].date)
  }

  function InsertByDate(e: Event, s: seq<Event>): (r: seq<Event>)
    requires ByDate(s)
    ensures ByDate(r)
    ensures multiset(r) == multiset(s) + multiset{e}
  {
    if s == [] then
      [e]
    else if DateLe(e.date, s[0].date) then
      assert forall k :: 0 <= k < |s| ==> DateLe(e.date, s[k].date) by {
        forall k | 0 <= k < |s| ensures DateLe(e.date, s[k].date) {
          if k > 0 {
            DateLeTrans(e.date, s[0].date, s[k].date);
          }
        }
      }
      [e] + s
    else
      var rest := InsertByDate(e, s[1..]);
      assert s == [s[0]] + s[1..];
      assert forall k :: 0 <= k < |rest| ==> DateLe(s[0].date, rest[k].date) by {
        forall k | 0 <= k < |rest| ensures DateLe(s[0].date, rest[k].date) {
          assert rest[k] in multiset(rest);
          if rest[k] == e {
            DateLeTotal(e.date, s[0].date);
          } else {
            assert rest[k] in s[1..];
          }
        }
      }
      [s[0]] + rest
  }

  /** The events of `s` in ascending date order (ties in an unspecified order). */
  function SortByDate(s: seq<Event>): (r: seq<Event>)
    ensures ByDate(r)
    ensures multiset(r) == multiset(s)
  {
    if s == [] then
      []
    else
      assert s == [s[0]] + s[1..];
      InsertByDate(s[0], SortByDate(s[1..]))
  }

  /** `query.school = school` is set only for a non-empty parameter; a missing field never matches it. */
  predicate Selected(e: Event, school: string) {
    school == "" || e.school == Some(school)
  }

  class EventStore {
    var events: map<nat, Event>
    var nextId: nat

    ghost predicate Valid()
      reads this
    {
      forall id :: id in events ==> events[id].id == id && id < nextId
    }

    constructor ()
      ensures Valid() && events == map[]
    {
      events := map[];
      nextId := 0;
    }

    /** GET /api/events?school=: the school's events (all, without one), each once, by date. */
    method List(school: string) returns (r: seq<Event>)
      requires Valid()
      ensures forall e :: e in r <==> e in events.Values && Selected(e, school)
      ensures Seqs.Distinct(r)
      ensures ByDate(r)
    {
      var found: seq<Event> := [];
      var unseen := events.Keys;
      while unseen != {}
        invariant unseen <= events.Keys
        invariant forall e :: e in found ==> e.id in events && events[e.id] == e && e.id !in unseen && Selected(e, school)
        invariant forall id :: id in events && id !in unseen && Selected(events[id], school) ==> events[id] in found
        invariant Seqs.Distinct(found)
        decreases unseen
      {
        var id :| id in unseen;
        if Selected(events[id], school) {
          found := found + [events[id]];
        }
        unseen := unseen - {id};
      }
      r := SortByDate(found);
      Seqs.DistinctPermutation(found, r);
      assert forall e :: e in r <==> e in multiset(found);
    }

    /** POST /api/events: exactly the nine fields of the body are stored, as sent. */
    method Create(title: Option<string>, date: Option<string>, location: Option<string>,
                  organizer: Option<string>, description: Option<string>, imageUrl: Option<string>,
                  timings: Option<string>, school: Option<string>, createdByEmail: Option<string>)
      returns (e: Event)
      requires Valid()
      modifies this
      ensures Valid()
      ensures e.id !in old(events) && events == old(events)[e.id := e]
      ensures e.title == title && e.date == date && e.location == location && e.organizer == organizer
      ensures e.description == description && e.imageUrl == imageUrl && e.timings == timings
      ensures e.school == school && e.createdByEmail == createdByEmail
    {
      e := Event(nextId, title, date, location, organizer, description, imageUrl, timings, school,
                 createdByEmail);
      events := events[nextId := e];
      nextId := nextId + 1;
    }
  }
}
