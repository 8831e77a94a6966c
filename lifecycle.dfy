/**
 * The coordination session as a whole: a sequence of timed requests to the
 * four handlers, applied one after another to a store that starts empty,
 * and what check-status reports after any such sequence.
 */
module Lifecycle {
  import opened Wrappers
  import opened ExpiringKv
  import opened Coordinator

  /** One call to an API handler, with the inputs that influence the store. */
  datatype Request =
    | NotifyRequest(message: Option<string>, location: Option<Coordinate>)
    | LocationRequest
    | ConfirmRequest(location: Option<Coordinate>, persistFails: bool)
    | StatusRequest

  /** A request handled at clock time `at` (milliseconds). */
  datatype Event = Event(at: int, request: Request)

  /** The store after one handler call, as the handler methods of Coordinator compute it. */
  function Step(data: Data, e: Event, geo: UrlGenerator): Data
  {
    match e.request
    case NotifyRequest(_, location) => NotifyEffect(data, location, e.at, geo)
    case LocationRequest => Purged(data, RequesterLocationKey, e.at)
    case ConfirmRequest(location, persistFails) => ConfirmEffect(data, location, persistFails, e.at, geo)
    case StatusRequest => CheckStatusEffect(data, e.at)
  }

  /** The store after handling `events` in order, starting from `data`. */
  function Run(data: Data, events: seq<Event>, geo: UrlGenerator): Data
    decreases |events|
  {
    if events == [] then data
    else Step(Run(data, events[..|events| - 1], geo), events[|events| - 1], geo)
  }

  /**
   * Reference table of writes: the entry event `e` puts under `key`, or None
   * when `e` does not write `key`. Notify writes the status and, with a
   * usable location, the requester's location; owner-confirm writes the
   * status and, with a location it manages to persist, the owner's location.
   */
  function WriteOf(key: string, e: Event, geo: UrlGenerator): Option<Entry<Value>>
  {
    match e.request
    case NotifyRequest(_, location) =>
      if key == StatusKey then Some(Entry(StatusValue(Waiting), Some(e.at + 600000)))
      else if key == RequesterLocationKey && HasUsableLocation(location)
      then Some(Entry(LocationValue(RequesterRecord(location.value, geo)), Some(e.at + 3600000)))
      else None
    case ConfirmRequest(location, persistFails) =>
      if key == StatusKey then Some(Entry(StatusValue(Confirmed), Some(e.at + 600000)))
      else if key == OwnerLocationKey && location.Some? && !persistFails
      then Some(Entry(LocationValue(OwnerRecord(location.value, geo, e.at)), Some(e.at + 3600000)))
      else None
    case _ => None
  }

  /** The entry the last write to `key` in `events` put there, if any event writes it. */
  function LastWrite(key: string, events: seq<Event>, geo: UrlGenerator): Option<Entry<Value>>
    decreases |events|
  {
    if events == [] then None
    else if WriteOf(key, events[|events| - 1], geo).Some? then WriteOf(key, events[|events| - 1], geo)
    else LastWrite(key, events[..|events| - 1], geo)
  }

  /** What a read of `key` at time `t` returns according to the reference table. */
  function ExpectedRead(key: string, events: seq<Event>, geo: UrlGenerator, t: int): Option<Value>
  {
    match LastWrite(key, events, geo)
    case None => None
    case Some(entry) => if Expired(entry, t) then None else Some(entry.value)
  }

  /** No event of `events` happens after time `t`. */
  predicate AllBefore(events: seq<Event>, t: int)
  {
    forall i :: 0 <= i < |events| ==> events[i].at <= t
  }

  /** Every key keeps the kind of value its handlers write, across any session. */
  lemma {:induction false} RunKeepsTyped(data: Data, events: seq<Event>, geo: UrlGenerator)
    requires Typed(data)
    ensures Typed(Run(data, events, geo))
    decreases |events|
  {
    if events != [] {
      RunKeepsTyped(data, events[..|events| - 1], geo);
      CheckStatusOnlyPurges(Run(data, events[..|events| - 1], geo), events[|events| - 1].at);
    }
  }

  /**
   * One handler call agrees with the reference table on `key`: a write puts
   * exactly the tabled entry; otherwise the key keeps its entry, or loses it
   * only when that entry has expired at the time of the call.
   */
  lemma StepOnKey(data: Data, e: Event, key: string, geo: UrlGenerator)
    ensures WriteOf(key, e, geo).Some? ==> key in Step(data, e, geo) && Step(data, e, geo)[key] == WriteOf(key, e, geo).value
    ensures WriteOf(key, e, geo).None? && key in Step(data, e, geo) ==> key in data && Step(data, e, geo)[key] == data[key]
    ensures WriteOf(key, e, geo).None? && key in data && !Expired(data[key], e.at) ==> key in Step(data, e, geo)
  {
    if e.request.StatusRequest? {
      CheckStatusOnlyPurges(data, e.at);
    }
  }

  /** Whatever a session's store holds under `key` is the entry of the last write to `key`. */
  lemma {:induction false} EntryIsLastWrite(key: string, events: seq<Event>, geo: UrlGenerator)
    ensures key in Run(map[], events, geo) ==>
      LastWrite(key, events, geo) == Some(Run(map[], events, geo)[key])
    decreases |events|
  {
    if events != [] {
      var prefix := events[..|events| - 1];
      EntryIsLastWrite(key, prefix, geo);
      StepOnKey(Run(map[], prefix, geo), events[|events| - 1], key, geo);
    }
  }

  /** A last write to `key` that has not expired by `t` was not purged by any read up to `t`. */
  lemma {:induction false} LiveLastWriteSurvives(key: string, events: seq<Event>, geo: UrlGenerator, t: int)
    requires AllBefore(events, t)
    requires LastWrite(key, events, geo).Some? && !Expired(LastWrite(key, events, geo).value, t)
    ensures key in Run(map[], events, geo)
    decreases |events|
  {
    var prefix := events[..|events| - 1];
    var e := events[|events| - 1];
    StepOnKey(Run(map[], prefix, geo), e, key, geo);
    if WriteOf(key, e, geo).None? {
      assert AllBefore(prefix, t) by {
        forall i | 0 <= i < |prefix| ensures prefix[i].at <= t {
          assert prefix[i] == events[i];
        }
      }
      LiveLastWriteSurvives(key, prefix, geo, t);
      EntryIsLastWrite(key, prefix, geo);
      assert e.at <= t by { assert events[|events| - 1] == e; }
    }
  }

  /**
   * In a session whose requests all came no later than `t`, a read of any
   * key at `t` returns exactly what the reference table predicts: the value
   * of the last write while its TTL has not run out, and nothing otherwise.
   */
  lemma ReadIsLastLiveWrite(key: string, events: seq<Event>, geo: UrlGenerator, t: int)
    requires AllBefore(events, t)
    ensures Lookup(Run(map[], events, geo), key, t) == ExpectedRead(key, events, geo, t)
  {
    EntryIsLastWrite(key, events, geo);
    if LastWrite(key, events, geo).Some? && !Expired(LastWrite(key, events, geo).value, t) {
      LiveLastWriteSurvives(key, events, geo, t);
    }
  }

  /** The last event of `events` that writes the status (a notify or an owner-confirm), if any. */
  function LastStatusWrite(events: seq<Event>): (r: Option<Event>)
    ensures r.Some? ==> r.value in events && (r.value.request.NotifyRequest? || r.value.request.ConfirmRequest?)
    decreases |events|
  {
    if events == [] then None
    else if events[|events| - 1].request.NotifyRequest? || events[|events| - 1].request.ConfirmRequest?
    then Some(events[|events| - 1])
    else LastStatusWrite(events[..|events| - 1])
  }

  /** The last write to the status key is the one made by the last notify or owner-confirm. */
  lemma {:induction false} LastStatusWriteIsLastWrite(events: seq<Event>, geo: UrlGenerator)
    ensures LastWrite(StatusKey, events, geo) ==
      match LastStatusWrite(events)
      case None => None
      case Some(w) => Some(Entry(StatusValue(if w.request.NotifyRequest? then Waiting else Confirmed), Some(w.at + 600000)))
    decreases |events|
  {
    if events != [] {
      LastStatusWriteIsLastWrite(events[..|events| - 1], geo);
    }
  }

  /**
   * Check-status at `t` reports Confirmed exactly when the last notify or
   * owner-confirm of the session was an owner-confirm made at most 600
   * seconds (600000 ms) before `t`; in every other case it reports Waiting,
   * including after the confirmation's TTL has run out.
   */
  lemma ConfirmedIffRecentConfirm(events: seq<Event>, geo: UrlGenerator, t: int)
    requires AllBefore(events, t)
    requires forall i :: 0 <= i < |events| ==> events[i].at >= 0
    ensures Typed(Run(map[], events, geo))
    ensures StatusReading(Run(map[], events, geo), t) == Confirmed <==>
      LastStatusWrite(events).Some?
      && LastStatusWrite(events).value.request.ConfirmRequest?
      && t <= LastStatusWrite(events).value.at + 600000
  {
    RunKeepsTyped(map[], events, geo);
    ReadIsLastLiveWrite(StatusKey, events, geo, t);
    LastStatusWriteIsLastWrite(events, geo);
  }

  /**
   * Get-location at `t` returns the record stored by the last notify with a
   * usable location when that notify was at most 3600 seconds before `t`,
   * and the 404 reply otherwise.
   */
  lemma RequesterLocationIsLastLiveWrite(events: seq<Event>, geo: UrlGenerator, t: int)
    requires AllBefore(events, t)
    ensures Typed(Run(map[], events, geo))
    ensures LocationReading(Run(map[], events, geo), RequesterLocationKey, t) ==
      match ExpectedRead(RequesterLocationKey, events, geo, t)
      case Some(LocationValue(record)) => Some(record)
      case _ => None
  {
    RunKeepsTyped(map[], events, geo);
    ReadIsLastLiveWrite(RequesterLocationKey, events, geo, t);
  }

  /**
   * The owner location check-status reports at `t` is the one stored by the
   * last owner-confirm that persisted a location, while its TTL lasts.
   */
  lemma OwnerLocationIsLastLiveWrite(events: seq<Event>, geo: UrlGenerator, t: int)
    requires AllBefore(events, t)
    ensures Typed(Run(map[], events, geo))
    ensures LocationReading(Run(map[], events, geo), OwnerLocationKey, t) ==
      match ExpectedRead(OwnerLocationKey, events, geo, t)
      case Some(LocationValue(record)) => Some(record)
      case _ => None
  {
    RunKeepsTyped(map[], events, geo);
    ReadIsLastLiveWrite(OwnerLocationKey, events, geo, t);
  }

  // ---------------------------------------------------------------------
  // Single-call properties and scenarios
  // ---------------------------------------------------------------------

  /**
   * Notify writes the requester's location exactly when the location is
   * present with a non-zero latitude and longitude.
   */
  lemma NotifyWritesLocationIff(data: Data, message: Option<string>, location: Option<Coordinate>, t: int, geo: UrlGenerator)
    requires RequesterLocationKey !in data
    ensures RequesterLocationKey in Step(data, Event(t, NotifyRequest(message, location)), geo) <==> HasUsableLocation(location)
  {
  }

  /** Owner-confirm called twice in a row leaves the status Confirmed until the TTL of the second runs out. */
  lemma ConfirmTwiceStaysConfirmed(data: Data, l1: Option<Coordinate>, f1: bool, t1: int, l2: Option<Coordinate>, f2: bool, t2: int, t: int, geo: UrlGenerator)
    requires Typed(data) && t <= t2 + 600000
    ensures Typed(ConfirmEffect(ConfirmEffect(data, l1, f1, t1, geo), l2, f2, t2, geo))
    ensures StatusReading(ConfirmEffect(data, l1, f1, t1, geo), t1) == Confirmed
    ensures StatusReading(ConfirmEffect(ConfirmEffect(data, l1, f1, t1, geo), l2, f2, t2, geo), t) == Confirmed
  {
  }

  /** A confirmation made at `t0` reads as Confirmed up to `t0 + 600000` and as Waiting afterwards. */
  lemma ConfirmExpiresAfterTenMinutes(data: Data, location: Option<Coordinate>, fails: bool, t0: int, t: int, geo: UrlGenerator)
    requires Typed(data) && t0 >= 0
    ensures Typed(ConfirmEffect(data, location, fails, t0, geo))
    ensures StatusReading(ConfirmEffect(data, location, fails, t0, geo), t) == if t <= t0 + 600000 then Confirmed else Waiting
  {
  }

  /** Notify without a location, then an immediate check: Waiting, no owner location, and get-location finds nothing. */
  lemma ScenarioNotifyWithoutLocation(t: int, geo: UrlGenerator)
    ensures var s := Run(map[], [Event(t, NotifyRequest(Some("x"), None))], geo);
      Typed(s)
      && StatusReading(s, t) == Waiting
      && LocationReading(s, OwnerLocationKey, t) == None
      && LocationReading(s, RequesterLocationKey, t) == None
  {
    var s := Run(map[], [Event(t, NotifyRequest(Some("x"), None))], geo);
    assert s == NotifyEffect(map[], None, t, geo);
  }

  /** Notify with a location, then get-location at the same time: the record carries the generated links. */
  lemma ScenarioNotifyWithLocation(t: int, geo: UrlGenerator)
    ensures var s := Run(map[], [Event(t, NotifyRequest(Some("x"), Some(Coordinate(39.9, 116.4))))], geo);
      Typed(s)
      && LocationReading(s, RequesterLocationKey, t) == Some(LocationRecord(39.9, 116.4, geo(39.9, 116.4), None))
  {
    var s := Run(map[], [Event(t, NotifyRequest(Some("x"), Some(Coordinate(39.9, 116.4))))], geo);
    assert s == NotifyEffect(map[], Some(Coordinate(39.9, 116.4)), t, geo);
  }

  /** Owner-confirm without a location on a fresh session: Confirmed and no owner location. */
  lemma ScenarioConfirmWithoutLocation(t: int, geo: UrlGenerator)
    ensures var s := Run(map[], [Event(t, ConfirmRequest(None, false))], geo);
      Typed(s)
      && StatusReading(s, t) == Confirmed
      && LocationReading(s, OwnerLocationKey, t) == None
  {
    var s := Run(map[], [Event(t, ConfirmRequest(None, false))], geo);
    assert s == ConfirmEffect(map[], None, false, t, geo);
  }
}
