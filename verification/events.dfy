/** The calendar entry as the model sees it, and the one-field edit that `updateEvent` applies to it. */
module Events {
  import opened Wrappers

  /** Event identifiers are opaque strings chosen by the remote service. */
  type Id = string

  /** A point in time; only its order matters to the model. */
  datatype DateTime = DateTime(ticks: int)

  /** DateTime.Parse: a partial parse whose culture rules are out of sight. */
  type Parser = string -> Option<DateTime>

  /** A start or end: an all-day `date`, or a precise `dateTime` with a zone label. */
  datatype EventDateTime = EventDateTime(date: Option<string>, dateTime: Option<DateTime>, timeZone: Option<string>)

  /** The fixed zone label the session attaches to every time it writes. */
  const Zone: string := "Europe/Amsterdam"

  /** A precise time labelled with the session's fixed zone and no all-day date. */
  function Zoned(t: DateTime): EventDateTime {
    EventDateTime(None, Some(t), Some(Zone))
  }

  /** One calendar entry; `id` is absent until the service assigns one on insert. */
  datatype Event = Event(
    id: Option<Id>,
    summary: string,
    location: Option<string>,
    description: Option<string>,
    start: EventDateTime,
    end: EventDateTime)

  /** The failures the modelled operations surface. */
  datatype Error =
    | NotFound         // the service has no event with the requested id
    | InvalidArgument  // a date-time string did not parse

  /** The fields `updateEvent` can target. */
  datatype Field = Summary | Location | Description | StartTime | EndTime

  predicate IsTimeField(f: Field) {
    f == StartTime || f == EndTime
  }

  /** The integer code the caller passes for a field. */
  function CodeOf(f: Field): int {
    match f
    case Summary => 1
    case Location => 2
    case Description => 3
    case StartTime => 4
    case EndTime => 5
  }

  /** The field a code selects, if it is one of the recognised codes. */
  function FieldOfCode(code: int): (r: Option<Field>)
    ensures r.Some? <==> 1 <= code <= 5
    ensures r.Some? ==> CodeOf(r.value) == code
  {
    if code == 1 then Some(Summary)
    else if code == 2 then Some(Location)
    else if code == 3 then Some(Description)
    else if code == 4 then Some(StartTime)
    else if code == 5 then Some(EndTime)
    else None
  }

  /** The value of one field, text or time. */
  datatype FieldValue = Text(text: Option<string>) | When(when: EventDateTime)

  /** Reads field `f` of `e`; together with `id` the fields determine an event. */
  function Project(e: Event, f: Field): FieldValue {
    match f
    case Summary => Text(Some(e.summary))
    case Location => Text(e.location)
    case Description => Text(e.description)
    case StartTime => When(e.start)
    case EndTime => When(e.end)
  }

  /** Two events that agree on `id` and on every field are the same event, so the
      contract of `ApplyUpdate` below pins down its result completely. */
  lemma {:induction false} ProjectDetermines(a: Event, b: Event)
    requires a.id == b.id
    requires forall f :: Project(a, f) == Project(b, f)
    ensures a == b
  {
    assert Project(a, Summary) == Project(b, Summary);
    assert Project(a, Location) == Project(b, Location);
    assert Project(a, Description) == Project(b, Description);
    assert Project(a, StartTime) == Project(b, StartTime);
    assert Project(a, EndTime) == Project(b, EndTime);
  }

  /** Sets field `f` of a copy of `e` to `replacement`; a time field takes the parsed
      time with the fixed zone, and fails when the text does not parse. */
  function ApplyUpdate(e: Event, f: Field, replacement: string, parse: Parser): (r: Result<Event, Error>)
    ensures r.Failure? <==> IsTimeField(f) && parse(replacement).None?
    ensures r.Failure? ==> r.error == InvalidArgument
    ensures r.Success? ==> r.value.id == e.id
    ensures r.Success? && !IsTimeField(f) ==> Project(r.value, f) == Text(Some(replacement))
    ensures r.Success? && IsTimeField(f) ==> Project(r.value, f) == When(Zoned(parse(replacement).value))
    ensures r.Success? ==> forall g :: g != f ==> Project(r.value, g) == Project(e, g)
  {
    match f
    case Summary => Success(e.(summary := replacement))
    case Location => Success(e.(location := Some(replacement)))
    case Description => Success(e.(description := Some(replacement)))
    case StartTime =>
      (match parse(replacement)
       case None => Failure(InvalidArgument)
       case Some(t) => Success(e.(start := Zoned(t))))
    case EndTime =>
      (match parse(replacement)
       case None => Failure(InvalidArgument)
       case Some(t) => Success(e.(end := Zoned(t))))
  }
}
