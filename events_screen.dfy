/**
 * The decision rules of the events screen (src/screens/EventsScreen.tsx):
 * the list is fetched only for a profile with a school, an event needs a
 * title, a location and timings, its image is optional, and the form
 * resets after a create the server accepts. The image upload and the
 * server's answer are inputs.
 */
module EventsScreen {
  import opened Wrappers
  import opened Text
  import opened Session
  import Seqs
  import E = EventsApi

  /**
   * `fetchEvents`, given whether the server answered ok: nothing is
   * fetched without a school in the profile, and nothing is shown (`None`,
   * the list stays as it was) for an answer that is not ok; otherwise the
   * list holds the school's events, each once, in date order.
   */
  method FetchEvents(store: E.EventStore, s: Session, responseOk: bool) returns (events: Option<seq<E.Event>>)
    requires store.Valid()
    ensures events.None? <==> !Truthy(School(s)) || !responseOk
    ensures events.Some? ==>
      && (forall e :: e in events.value <==> e in store.events.Values && e.school == School(s))
      && E.ByDate(events.value)
      && Seqs.Distinct(events.value)
  {
    if !Truthy(School(s)) || !responseOk {
      return None;
    }
    var list := store.List(School(s).value);
    events := Some(list);
  }

  /** The body `createEvent` posts; `date` is the chosen date as an ISO string. */
  datatype EventBody = EventBody(title: string, date: string, location: string, organizer: string,
                                 description: string, imageUrl: string, timings: string,
                                 school: Option<string>, createdByEmail: Option<string>)

  /**
   * The body `createEvent` posts for the form's values, given what the
   * image upload returned (`None` when it failed): nothing is sent without
   * a title, a location and timings. The event is sent with or without an
   * image, '' standing for none; the organizer is the profile's name, else
   * 'Unknown', whatever the form's organizer field says.
   */
  function EventRequest(title: string, date: string, location: string, description: string, timings: string,
                        selectedImage: Option<string>, s: Session, email: Option<string>,
                        uploaded: Option<string>): (r: Option<EventBody>)
    ensures r.None? <==> title == "" || location == "" || timings == ""
    ensures r.Some? ==>
      && r.value.title == title && r.value.date == date && r.value.location == location
      && r.value.description == description && r.value.timings == timings
      && r.value.school == School(s) && r.value.createdByEmail == email
    ensures r.Some? ==> r.value.organizer == OrElse(Name(s), "Unknown") && r.value.organizer != ""
    ensures r.Some? ==>
      r.value.imageUrl == (if Truthy(selectedImage) && Truthy(uploaded) then uploaded.value else "")
  {
    if title == "" || location == "" || timings == "" then None
    else
      var imageUrl := if Truthy(selectedImage) && Truthy(uploaded) then uploaded.value else "";
      var organizerName := if Truthy(Name(s)) then Name(s).value else "Unknown";
      Some(EventBody(title, date, location, organizerName, description, imageUrl, timings, School(s), email))
  }

  /** The create form. */
  class EventForm {
    var modalVisible: bool
    var title: string
    var date: string
    var location: string
    var organizer: string
    var description: string
    var timings: string
    var selectedImage: Option<string>

    /** The fields as `resetForm` leaves them. */
    predicate IsReset(now: string)
      reads this
    {
      && title == "" && location == "" && organizer == "" && description == "" && timings == ""
      && date == now && selectedImage == None
    }

    /** `resetForm`: empty text fields, the date set to now, no image; the dialog stays as it is. */
    method ResetForm(now: string)
      modifies this
      ensures IsReset(now) && modalVisible == old(modalVisible)
    {
      title := "";
      date := now;
      location := "";
      organizer := "";
      description := "";
      timings := "";
      selectedImage := None;
    }

    constructor (now: string)
      ensures IsReset(now) && !modalVisible
    {
      modalVisible := false;
      title := "";
      date := now;
      location := "";
      organizer := "";
      description := "";
      timings := "";
      selectedImage := None;
    }

    /**
     * `createEvent`, given what the image upload returned and whether the
     * server accepted the post: the body sent is the request for the form
     * as it was; an accepted post closes the dialog and resets the form,
     * anything else leaves the form as it was.
     */
    method CreateEvent(s: Session, email: Option<string>, uploaded: Option<string>, responseOk: bool, now: string)
      returns (sent: Option<EventBody>)
      modifies this
      ensures sent == EventRequest(old(title), old(date), old(location), old(description), old(timings),
                                   old(selectedImage), s, email, uploaded)
      ensures sent.Some? && responseOk ==> IsReset(now) && !modalVisible
      ensures sent.None? || !responseOk ==> unchanged(this)
    {
      sent := EventRequest(title, date, location, description, timings, selectedImage, s, email, uploaded);
      if sent.Some? && responseOk {
        modalVisible := false;
        ResetForm(now);
      }
    }
  }

  /** After a reset nothing can be created until the required fields are filled in again. */
  method ResetThenCreate(form: EventForm, s: Session, email: Option<string>, uploaded: Option<string>,
                         responseOk: bool, now: string)
    returns (r: Option<EventBody>)
    modifies form
    ensures r.None?
  {
    form.ResetForm(now);
    r := form.CreateEvent(s, email, uploaded, responseOk, now);
  }
}
