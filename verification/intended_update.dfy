/** updateEvent ends every recognised case with `return`, so the edited copy never reaches
    the Update call. This module shows the lost edit and defines the evidently intended
    behaviour, where each case falls out of the switch to the write. */
module IntendedUpdate {
  import opened Wrappers
  import opened Events
  import opened Calendar

  /** The write the code was evidently meant to issue: the edited copy for a recognised
      code, the fetched event unchanged otherwise. */
  function PlanUpdateIntended(e: Event, code: int, replacement: string, parse: Parser): (r: Result<Option<Event>, Error>)
    ensures r.Failure? <==> FieldOfCode(code).Some? && IsTimeField(FieldOfCode(code).value) && parse(replacement).None?
    ensures r.Success? ==> r.value.Some?
    ensures FieldOfCode(code).None? ==> r == Success(Some(e))
    ensures FieldOfCode(code).Some? && r.Success? ==>
      ApplyUpdate(e, FieldOfCode(code).value, replacement, parse) == Success(r.value.value)
  {
    match FieldOfCode(code)
    case None => Success(Some(e))
    case Some(f) =>
      match ApplyUpdate(e, f, replacement, parse)
      case Failure(err) => Failure(err)
      case Success(edited) => Success(Some(edited))
  }

  /** updateEvent with `break` in place of `return`: a recognised code changes exactly that
      field of the stored event, and nothing else in the session. */
  function UpdateEventIntended(s: Session, id: Id, code: int, replacement: string, parse: Parser): (r: Result<Session, Error>)
    requires WellKeyed(s.remote)
    ensures r.Failure? <==>
      id !in s.remote || (FieldOfCode(code).Some? && IsTimeField(FieldOfCode(code).value) && parse(replacement).None?)
    ensures r.Failure? && id !in s.remote ==> r.error == NotFound
    ensures r.Success? ==> r.value.events == s.events && r.value.remote.Keys == s.remote.Keys
    ensures r.Success? ==> forall k :: k in s.remote && k != id ==> r.value.remote[k] == s.remote[k]
    ensures r.Success? ==> r.value.remote[id].id == Some(id)
    ensures r.Success? && FieldOfCode(code).None? ==> r.value == s
    ensures r.Success? && FieldOfCode(code).Some? ==>
      var f := FieldOfCode(code).value;
      && (forall g :: g != f ==> Project(r.value.remote[id], g) == Project(s.remote[id], g))
      && (!IsTimeField(f) ==> Project(r.value.remote[id], f) == Text(Some(replacement)))
      && (IsTimeField(f) ==> Project(r.value.remote[id], f) == When(Zoned(parse(replacement).value)))
  {
    if id !in s.remote then Failure(NotFound)
    else
      var e := s.remote[id];
      match PlanUpdateIntended(e, code, replacement, parse)
      case Failure(err) => Failure(err)
      case Success(w) => Success(Commit(s, w))
  }

  /** A calendar holding one event "Standup", refreshed. */
  function Sample(): (s: Session)
    ensures WellKeyed(s.remote)
  {
    var e := Event(Some("ev1"), "Standup", None, None, Zoned(DateTime(0)), Zoned(DateTime(1)));
    Session(Some([e]), map["ev1" := e])
  }

  /** Renaming the event with code 1 reports success yet the service still holds "Standup";
      the intended behaviour stores "Retro". */
  lemma LostSummaryUpdate(parse: Parser)
    ensures UpdateEvent(Sample(), "ev1", 1, "Retro", parse) == Success(Sample())
    ensures Sample().remote["ev1"].summary == "Standup"
    ensures UpdateEventIntended(Sample(), "ev1", 1, "Retro", parse).Success?
    ensures UpdateEventIntended(Sample(), "ev1", 1, "Retro", parse).value.remote["ev1"].summary == "Retro"
  {
    var r := UpdateEventIntended(Sample(), "ev1", 1, "Retro", parse);
    assert Project(r.value.remote["ev1"], Summary) == Text(Some("Retro"));
  }

  /** In general, as written, a successful update with a recognised code writes nothing,
      while the intended version stores the edited event whenever the edit differs. */
  lemma RecognisedEditsAreLost(s: Session, id: Id, code: int, replacement: string, parse: Parser)
    requires WellKeyed(s.remote) && id in s.remote && 1 <= code <= 5
    requires ApplyUpdate(s.remote[id], FieldOfCode(code).value, replacement, parse).Success?
    ensures UpdateEvent(s, id, code, replacement, parse) == Success(s)
    ensures UpdateEventIntended(s, id, code, replacement, parse)
            == Success(s.(remote := s.remote[id := ApplyUpdate(s.remote[id], FieldOfCode(code).value, replacement, parse).value]))
  {
  }
}
