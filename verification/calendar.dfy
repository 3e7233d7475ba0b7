/** The session manager: a cached snapshot of upcoming events next to the remote calendar it mirrors. */
module Calendar {
  import opened Wrappers
  import opened Text
  import opened Events
  import opened Search

  /** The remote "primary" calendar: every stored event under its identifier. */
  type Store = map<Id, Event>

  /** The service's list call, given the store and the TimeMin bound (the current time). */
  type Lister = (Store, DateTime) -> seq<Event>

  /** `events` is None until the first refresh; `remote` is the service's state. */
  datatype Session = Session(events: Option<seq<Event>>, remote: Store)

  /** The service keeps each event under its own identifier. */
  ghost predicate WellKeyed(st: Store) {
    forall k :: k in st ==> st[k].id == Some(k)
  }

  /** `e` is the current stored version of an event of `st`. */
  predicate Stored(st: Store, e: Event) {
    e.id.Some? && e.id.value in st && st[e.id.value] == e
  }

  /** An end that is a precise time lies after `now`: TimeMin bounds an event's end, so an
      event already in progress is still listed. */
  predicate EndsAfter(e: Event, now: DateTime) {
    e.end.dateTime.Some? ==> e.end.dateTime.value.ticks > now.ticks
  }

  /** `a` starts no later than `b`, where both starts are precise times. */
  predicate StartsNoLaterThan(a: Event, b: Event) {
    a.start.dateTime.Some? && b.start.dateTime.Some? ==> a.start.dateTime.value.ticks <= b.start.dateTime.value.ticks
  }

  /** What the model assumes of a list answer for TimeMin = now, ShowDeleted = false,
      SingleEvents = true, OrderBy = StartTime: stored events only, each once; among events
      whose end is a precise time, none that has ended by `now`; among events whose start is
      a precise time, ascending start order. All-day events are not constrained by the last two. */
  ghost predicate ListingContract(st: Store, now: DateTime, l: seq<Event>) {
    && (forall i :: 0 <= i < |l| ==> Stored(st, l[i]))
    && (forall i, j :: 0 <= i < j < |l| ==> l[i].id != l[j].id)
    && (forall i :: 0 <= i < |l| ==> EndsAfter(l[i], now))
    && (forall i, j :: 0 <= i < j < |l| ==> StartsNoLaterThan(l[i], l[j]))
  }

  /** The snapshot exists and holds only the current stored version of each of its events. */
  ghost predicate SnapshotCurrent(s: Session) {
    s.events.Some? && forall i :: 0 <= i < |s.events.value| ==> Stored(s.remote, s.events.value[i])
  }

  /** A new session: authenticated (outside the model), not yet refreshed. */
  function Connect(remote: Store): (s: Session)
    ensures s.events.None? && s.remote == remote
  {
    Session(None, remote)
  }

  /** getEvents: hands back the cached snapshot itself, None before the first refresh. */
  function GetEvents(s: Session): (r: Option<seq<Event>>)
    ensures r == s.events
  {
    s.events
  }

  /** updateEvents: replaces the snapshot wholesale with the service's list answer;
      the remote is untouched. Under the list contract every event of the new snapshot
      is the current stored version. */
  function UpdateEvents(s: Session, list: Lister, now: DateTime): (s': Session)
    ensures s'.remote == s.remote
    ensures s'.events == Some(list(s.remote, now))
    ensures ListingContract(s.remote, now, list(s.remote, now)) ==> SnapshotCurrent(s')
  {
    Session(Some(list(s.remote, now)), s.remote)
  }

  /** updateAndGetEvents: refreshes, then returns exactly the snapshot it installed. */
  function UpdateAndGetEvents(s: Session, list: Lister, now: DateTime): (r: (Session, seq<Event>))
    ensures GetEvents(r.0) == Some(r.1)
    ensures r.1 == list(s.remote, now)
    ensures r.0.remote == s.remote
  {
    var s' := UpdateEvents(s, list, now);
    (s', s'.events.value)
  }

  /** searchEventsByName: walks the snapshot in order, keeping the events whose summary
      contains `name`. Searching an unrefreshed session dereferences null, hence the requires. */
  method SearchEventsByName(s: Session, name: string) returns (r: seq<Event>)
    requires s.events.Some?
    ensures r == Filter(s.events.value, name)
    ensures forall e :: e in r <==> e in s.events.value && Contains(e.summary, name)
  {
    var evs := s.events.value;
    r := [];
    var i := 0;
    while i < |evs|
      invariant 0 <= i <= |evs|
      invariant r == Filter(evs[..i], name)
    {
      assert evs[..i + 1][..i] == evs[..i];
      if Contains(evs[i].summary, name) {
        r := r + [evs[i]];
      }
      i := i + 1;
    }
    assert evs[..|evs|] == evs;
    forall e ensures e in r <==> e in evs && Contains(e.summary, name) {
      FilterMembership(evs, name, e);
    }
  }

  /** searchEventByName: returns the first event of the snapshot whose summary contains
      `name`, or None when there is none. */
  method SearchEventByName(s: Session, name: string) returns (r: Option<Event>)
    requires s.events.Some?
    ensures r == FirstMatch(s.events.value, name)
    ensures r.None? <==> forall j :: 0 <= j < |s.events.value| ==> !Contains(s.events.value[j].summary, name)
  {
    var evs := s.events.value;
    var i := 0;
    while i < |evs|
      invariant 0 <= i <= |evs|
      invariant forall j :: 0 <= j < i ==> !Matches(evs[j], name)
    {
      if Contains(evs[i].summary, name) {
        FilterFirst(evs, name, i);
        return Some(evs[i]);
      }
      i := i + 1;
    }
    FilterNone(evs, name);
    return None;
  }

  /** removeEvent: deletes the event from the remote; fails with NotFound when the
      service has no such id. The snapshot is left as it was. */
  function RemoveEvent(s: Session, id: Id): (r: Result<Session, Error>)
    ensures r.Failure? <==> id !in s.remote
    ensures r.Failure? ==> r.error == NotFound
    ensures r.Success? ==> r.value.events == s.events
    ensures r.Success? ==> r.value.remote.Keys == s.remote.Keys - {id}
    ensures r.Success? ==> forall k :: k in r.value.remote ==> r.value.remote[k] == s.remote[k]
  {
    if id !in s.remote then Failure(NotFound)
    else Success(s.(remote := s.remote - {id}))
  }

  /** The event a successful create inserts: the given texts, both times with the fixed zone,
      and the identifier the service assigns. */
  function Created(newId: Id, summary: string, location: string, description: string,
                   start: DateTime, end: DateTime): Event
  {
    Event(Some(newId), summary, Some(location), Some(description), Zoned(start), Zoned(end))
  }

  /** createEvent: parses both times (InvalidArgument, and no insert, when either fails),
      inserts the new event under the identifier `newId` the service assigns, then refreshes. */
  function CreateEvent(s: Session, summary: string, location: string, description: string,
                       startText: string, endText: string, parse: Parser,
                       newId: Id, list: Lister, now: DateTime): (r: Result<Session, Error>)
    requires newId !in s.remote
    ensures r.Failure? <==> parse(startText).None? || parse(endText).None?
    ensures r.Failure? ==> r.error == InvalidArgument
    ensures r.Success? ==> r.value.remote.Keys == s.remote.Keys + {newId}
    ensures r.Success? ==> forall k :: k in s.remote ==> r.value.remote[k] == s.remote[k]
    ensures r.Success? ==>
      var c := r.value.remote[newId];
      && c.id == Some(newId) && c.summary == summary
      && c.location == Some(location) && c.description == Some(description)
      && c.start == Zoned(parse(startText).value) && c.end == Zoned(parse(endText).value)
    ensures r.Success? ==> r.value.events == Some(list(r.value.remote, now))
  {
    match parse(startText)
    case None => Failure(InvalidArgument)
    case Some(start) =>
      match parse(endText)
      case None => Failure(InvalidArgument)
      case Some(end) =>
        var inserted := s.(remote := s.remote[newId := Created(newId, summary, location, description, start, end)]);
        Success(UpdateEvents(inserted, list, now))
  }

  /** What updateEvent sends to the service's Update call: None when it returns before
      the call. Every recognised code edits a local copy and returns, so only an
      unrecognised code reaches the call, and then it sends the fetched event unchanged. */
  function PlanUpdate(e: Event, code: int, replacement: string, parse: Parser): (r: Result<Option<Event>, Error>)
    ensures r.Failure? <==> FieldOfCode(code).Some? && IsTimeField(FieldOfCode(code).value) && parse(replacement).None?
    ensures r.Failure? ==> r.error == InvalidArgument
    ensures r.Success? ==> (r.value.Some? <==> !(1 <= code <= 5))
    ensures r.Success? && r.value.Some? ==> r.value.value == e
  {
    match FieldOfCode(code)
    case None => Success(Some(e))
    case Some(f) =>
      match ApplyUpdate(e, f, replacement, parse)
      case Failure(err) => Failure(err)
      case Success(_) => Success(None)
  }

  /** Performs the Update call `w` (if any) against the remote, keyed by the event's own id. */
  function Commit(s: Session, w: Option<Event>): (s': Session)
    requires w.Some? ==> w.value.id.Some?
    ensures s'.events == s.events
    ensures w.None? ==> s'.remote == s.remote
    ensures w.Some? ==> s'.remote == s.remote[w.value.id.value := w.value]
  {
    match w
    case None => s
    case Some(e) => s.(remote := s.remote[e.id.value := e])
  }

  /** updateEvent, as the code behaves: fetch (NotFound when absent), edit, maybe write.
      Whatever the code, a successful call leaves the session exactly as it was. */
  function UpdateEvent(s: Session, id: Id, code: int, replacement: string, parse: Parser): (r: Result<Session, Error>)
    requires WellKeyed(s.remote)
    ensures r.Failure? <==>
      id !in s.remote || (FieldOfCode(code).Some? && IsTimeField(FieldOfCode(code).value) && parse(replacement).None?)
    ensures r.Failure? && id !in s.remote ==> r.error == NotFound
    ensures r.Failure? && id in s.remote ==> r.error == InvalidArgument
    ensures r.Success? ==> r.value == s
  {
    if id !in s.remote then Failure(NotFound)
    else
      var e := s.remote[id];
      match PlanUpdate(e, code, replacement, parse)
      case Failure(err) => Failure(err)
      case Success(w) => Success(Commit(s, w))
  }

  /** Inserts and deletes keep every event stored under its own id. */
  lemma MutationsPreserveWellKeyed(s: Session, id: Id, summary: string, location: string, description: string,
                                   startText: string, endText: string, parse: Parser,
                                   newId: Id, list: Lister, now: DateTime)
    requires WellKeyed(s.remote) && newId !in s.remote
    ensures RemoveEvent(s, id).Success? ==> WellKeyed(RemoveEvent(s, id).value.remote)
    ensures var r := CreateEvent(s, summary, location, description, startText, endText, parse, newId, list, now);
            r.Success? ==> WellKeyed(r.value.remote)
  {
  }

  /** Deleting an event that the current snapshot shows leaves the snapshot stale:
      it still lists an event the service no longer has. */
  lemma RemoveLeavesSnapshotStale(s: Session, i: nat, id: Id)
    requires SnapshotCurrent(s)
    requires i < |s.events.value| && s.events.value[i].id == Some(id)
    ensures RemoveEvent(s, id).Success?
    ensures !SnapshotCurrent(RemoveEvent(s, id).value)
  {
    var s' := RemoveEvent(s, id).value;
    assert s'.events.value[i] == s.events.value[i];
    assert !Stored(s'.remote, s'.events.value[i]);
  }

  /** Whether or not the id existed, after removeEvent a refresh never lists it again. */
  lemma RemovedIdNeverListed(s: Session, id: Id, list: Lister, now: DateTime)
    ensures RemoveEvent(s, id).Success?
            && ListingContract(RemoveEvent(s, id).value.remote, now, list(RemoveEvent(s, id).value.remote, now))
            ==> forall e :: e in UpdateEvents(RemoveEvent(s, id).value, list, now).events.value ==> e.id != Some(id)
    ensures RemoveEvent(s, id).Failure? && ListingContract(s.remote, now, list(s.remote, now))
            ==> forall e :: e in UpdateEvents(s, list, now).events.value ==> e.id != Some(id)
  {
  }

  /** After a successful createEvent whose refreshed snapshot shows the new event at
      position `k`, searching for its summary finds an event at or before `k` whose summary
      contains it (the new event itself unless an earlier summary also contains the text). */
  lemma CreateThenSearch(s: Session, summary: string, location: string, description: string,
                         startText: string, endText: string, parse: Parser,
                         newId: Id, list: Lister, now: DateTime, k: nat)
    requires newId !in s.remote
    requires CreateEvent(s, summary, location, description, startText, endText, parse, newId, list, now).Success?
    requires var s' := CreateEvent(s, summary, location, description, startText, endText, parse, newId, list, now).value;
             ListingContract(s'.remote, now, s'.events.value)
             && k < |s'.events.value| && s'.events.value[k].id == Some(newId)
    ensures var s' := CreateEvent(s, summary, location, description, startText, endText, parse, newId, list, now).value;
            var found := FirstMatch(s'.events.value, summary);
            && found.Some? && Contains(found.value.summary, summary)
            && exists i :: 0 <= i <= k && s'.events.value[i] == found.value
  {
    var s' := CreateEvent(s, summary, location, description, startText, endText, parse, newId, list, now).value;
    var evs := s'.events.value;
    assert Stored(s'.remote, evs[k]);
    assert evs[k].summary == summary;
    ContainsSelf(summary);
    FirstMatchNoLaterThan(evs, summary, k);
  }
}
