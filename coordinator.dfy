/**
 * The notification coordinator: the store-facing logic of the four API
 * handlers of the move-car service (`/api/notify`, `/api/get-location`,
 * `/api/owner-confirm`, `/api/check-status`) and the composition of the
 * alert text sent to the owner.
 *
 * Stored values are a datatype instead of the source's JSON-encoded strings.
 * The map links of a location come from `geo`, standing for the source's
 * `generateMapUrls` (coordinate transform plus URL formatting), which is not
 * part of this model.
 */
module Coordinator {
  import opened Wrappers
  import opened ExpiringKv

  const StatusKey := "notify_status"
  const RequesterLocationKey := "requester_location"
  const OwnerLocationKey := "owner_location"

  /** TTLs in seconds, as passed to `put`. */
  const StatusTtl := 600
  const LocationTtl := 3600

  /** The message used when the request carries none. */
  const DefaultMessage := "车旁有人等待"

  /** The pieces of the alert body. */
  const Header := "🚗 挪车请求"
  const MessagePrefix := "\n💬 留言: "
  const LocationAttached := "\n📍 已附带位置信息，点击查看"
  const NoLocation := "\n⚠️ 未提供位置信息"

  datatype Coordinate = Coordinate(lat: real, lng: real)

  datatype MapUrls = MapUrls(amapUrl: string, appleUrl: string)

  /** A stored location; only the owner's carries a capture `timestamp`. */
  datatype LocationRecord = LocationRecord(lat: real, lng: real, urls: MapUrls, timestamp: Option<int>)

  datatype Status = Waiting | Confirmed

  /** What the coordinator stores: a status under the status key, a location record under a location key. */
  datatype Value = StatusValue(status: Status) | LocationValue(record: LocationRecord)

  type Data = map<string, Entry<Value>>

  /** `generateMapUrls(lat, lng)`. */
  type UrlGenerator = (real, real) -> MapUrls

  /** Every key the coordinator uses holds the kind of value it writes there. */
  predicate Typed(data: Data)
  {
    && (StatusKey in data ==> data[StatusKey].value.StatusValue?)
    && (RequesterLocationKey in data ==> data[RequesterLocationKey].value.LocationValue?)
    && (OwnerLocationKey in data ==> data[OwnerLocationKey].value.LocationValue?)
  }

  // ---------------------------------------------------------------------
  // The alert body
  // ---------------------------------------------------------------------

  predicate EndsWith(s: string, suffix: string)
  {
    |suffix| <= |s| && s[|s| - |suffix|..] == suffix
  }

  /** The message notify uses: the request's, or the default when the field is omitted. */
  function EffectiveMessage(message: Option<string>): (r: string)
    ensures message.Some? ==> r == message.value
    ensures message.None? ==> r == DefaultMessage
  {
    message.GetOr(DefaultMessage)
  }

  /** The message line: present only for a non-empty message. */
  function MessageLine(message: string): (r: string)
    ensures r == "" <==> message == ""
  {
    if message != "" then MessagePrefix + message else ""
  }

  /** Exactly one of the two location indicators. */
  function Indicator(located: bool): string
  {
    if located then LocationAttached else NoLocation
  }

  /**
   * The alert body: the header, a message line when the message is
   * non-empty, and exactly one location indicator.
   */
  function NotifyBody(message: string, located: bool): (r: string)
    ensures |Header| <= |r| && r[..|Header|] == Header
    ensures EndsWith(r, LocationAttached) == located
    ensures EndsWith(r, NoLocation) == !located
  {
    EndsWithConcat(Header + MessageLine(message), Indicator(located));
    LastCharsDiffer(Header + MessageLine(message) + Indicator(located));
    Header + MessageLine(message) + Indicator(located)
  }

  lemma EndsWithConcat(prefix: string, suffix: string)
    ensures EndsWith(prefix + suffix, suffix)
  {
    assert (prefix + suffix)[|prefix|..] == suffix;
  }

  /** The two location indicators end in different characters, so a text ends with at most one of them. */
  lemma LastCharsDiffer(s: string)
    ensures !(EndsWith(s, LocationAttached) && EndsWith(s, NoLocation))
  {
    if EndsWith(s, LocationAttached) {
      assert s[|s| - 1] == s[|s| - |LocationAttached|..][|LocationAttached| - 1] == '看';
    }
  }

  /** Reads back the message and the location indicator from an alert body. */
  function ParseBody(s: string): Option<(string, bool)>
  {
    if |Header| <= |s| && s[..|Header|] == Header then ParseRest(s[|Header|..]) else None
  }

  /** Reads back what follows the header: a message line and an indicator. */
  function ParseRest(rest: string): Option<(string, bool)>
  {
    if EndsWith(rest, LocationAttached) then ParseMessageLine(rest[..|rest| - |LocationAttached|], true)
    else if EndsWith(rest, NoLocation) then ParseMessageLine(rest[..|rest| - |NoLocation|], false)
    else None
  }

  function ParseMessageLine(line: string, located: bool): Option<(string, bool)>
  {
    if line == "" then Some(("", located))
    else if |MessagePrefix| < |line| && line[..|MessagePrefix|] == MessagePrefix then Some((line[|MessagePrefix|..], located))
    else None
  }

  lemma ParseMessageLineRoundTrip(message: string, located: bool)
    ensures ParseMessageLine(MessageLine(message), located) == Some((message, located))
  {
    if message != "" {
      assert MessageLine(message)[..|MessagePrefix|] == MessagePrefix;
      assert MessageLine(message)[|MessagePrefix|..] == message;
    }
  }

  lemma ParseRestRoundTrip(message: string, located: bool)
    ensures ParseRest(MessageLine(message) + Indicator(located)) == Some((message, located))
  {
    var rest := MessageLine(message) + Indicator(located);
    EndsWithConcat(MessageLine(message), Indicator(located));
    LastCharsDiffer(rest);
    assert rest[..|rest| - |Indicator(located)|] == MessageLine(message);
    ParseMessageLineRoundTrip(message, located);
  }

  /** The body determines the message shown and whether a location was attached. */
  lemma ParseNotifyBody(message: string, located: bool)
    ensures ParseBody(NotifyBody(message, located)) == Some((message, located))
  {
    var line, ind := MessageLine(message), Indicator(located);
    var body := NotifyBody(message, located);
    assert body == Header + line + ind;
    assert body == Header + (line + ind);
    assert body[..|Header|] == Header && body[|Header|..] == line + ind;
    ParseRestRoundTrip(message, located);
  }

  lemma ParseMessageLineSound(line: string, located: bool)
    ensures var p := ParseMessageLine(line, located);
      p.Some? ==> p.value.1 == located && MessageLine(p.value.0) == line
  {
    if line != "" && |MessagePrefix| < |line| && line[..|MessagePrefix|] == MessagePrefix {
      assert line == MessagePrefix + line[|MessagePrefix|..];
    }
  }

  lemma ParseRestSound(rest: string)
    ensures var p := ParseRest(rest);
      p.Some? ==> MessageLine(p.value.0) + Indicator(p.value.1) == rest
  {
    if EndsWith(rest, LocationAttached) {
      var line := rest[..|rest| - |LocationAttached|];
      ParseMessageLineSound(line, true);
      assert rest == line + LocationAttached;
    } else if EndsWith(rest, NoLocation) {
      var line := rest[..|rest| - |NoLocation|];
      ParseMessageLineSound(line, false);
      assert rest == line + NoLocation;
    }
  }

  /** Every text ParseBody accepts is the body of what it returns. */
  lemma ParseBodySound(s: string)
    ensures ParseBody(s).Some? ==> NotifyBody(ParseBody(s).value.0, ParseBody(s).value.1) == s
  {
    if |Header| <= |s| && s[..|Header|] == Header {
      var rest := s[|Header|..];
      ParseRestSound(rest);
      assert s == Header + rest;
      if ParseRest(rest).Some? {
        var p := ParseRest(rest).value;
        assert Header + MessageLine(p.0) + Indicator(p.1) == Header + (MessageLine(p.0) + Indicator(p.1));
      }
    }
  }

  /** A text is the notify body of `message` and `located` exactly when ParseBody says so. */
  lemma NotifyBodyIff(s: string, message: string, located: bool)
    ensures s == NotifyBody(message, located) <==> ParseBody(s) == Some((message, located))
  {
    ParseNotifyBody(message, located);
    ParseBodySound(s);
  }

  // ---------------------------------------------------------------------
  // Handler effects on the store
  // ---------------------------------------------------------------------

  /** `location && location.lat && location.lng`: a latitude or longitude of 0 counts as missing. */
  predicate HasUsableLocation(location: Option<Coordinate>)
    ensures HasUsableLocation(location) ==> location.Some?
    ensures location.Some? && (location.value.lat == 0.0 || location.value.lng == 0.0) ==> !HasUsableLocation(location)
    ensures location.Some? && location.value.lat != 0.0 && location.value.lng != 0.0 ==> HasUsableLocation(location)
  {
    location.Some? && location.value.lat != 0.0 && location.value.lng != 0.0
  }

  function RequesterRecord(c: Coordinate, geo: UrlGenerator): LocationRecord
  {
    LocationRecord(c.lat, c.lng, geo(c.lat, c.lng), None)
  }

  function OwnerRecord(c: Coordinate, geo: UrlGenerator, now: int): LocationRecord
  {
    LocationRecord(c.lat, c.lng, geo(c.lat, c.lng), Some(now))
  }

  /** The store after notify at time `now`. */
  function NotifyEffect(data: Data, location: Option<Coordinate>, now: int, geo: UrlGenerator): (r: Data)
    ensures StatusKey in r && r[StatusKey] == Entry(StatusValue(Waiting), Some(now + 600000))
    ensures HasUsableLocation(location) ==>
      RequesterLocationKey in r
      && r[RequesterLocationKey] == Entry(LocationValue(RequesterRecord(location.value, geo)), Some(now + 3600000))
    ensures !HasUsableLocation(location) ==>
      (RequesterLocationKey in r <==> RequesterLocationKey in data)
      && (RequesterLocationKey in data ==> r[RequesterLocationKey] == data[RequesterLocationKey])
    ensures forall k :: k != StatusKey && k != RequesterLocationKey ==>
      (k in r <==> k in data) && (k in data ==> r[k] == data[k])
    ensures Typed(data) ==> Typed(r)
  {
    var d := if HasUsableLocation(location)
      then Written(data, RequesterLocationKey, LocationValue(RequesterRecord(location.value, geo)), LocationTtl, now)
      else data;
    Written(d, StatusKey, StatusValue(Waiting), StatusTtl, now)
  }

  /**
   * The store after owner-confirm at time `now`. `persistFails` stands for an
   * I/O failure while writing the owner's location, which the source catches.
   */
  function ConfirmEffect(data: Data, location: Option<Coordinate>, persistFails: bool, now: int, geo: UrlGenerator): (r: Data)
    ensures StatusKey in r && r[StatusKey] == Entry(StatusValue(Confirmed), Some(now + 600000))
    ensures location.Some? && !persistFails ==>
      OwnerLocationKey in r
      && r[OwnerLocationKey] == Entry(LocationValue(OwnerRecord(location.value, geo, now)), Some(now + 3600000))
    ensures location.None? || persistFails ==>
      (OwnerLocationKey in r <==> OwnerLocationKey in data)
      && (OwnerLocationKey in data ==> r[OwnerLocationKey] == data[OwnerLocationKey])
    ensures forall k :: k != StatusKey && k != OwnerLocationKey ==>
      (k in r <==> k in data) && (k in data ==> r[k] == data[k])
    ensures Typed(data) ==> Typed(r)
  {
    var d := if location.Some? && !persistFails
      then Written(data, OwnerLocationKey, LocationValue(OwnerRecord(location.value, geo, now)), LocationTtl, now)
      else data;
    Written(d, StatusKey, StatusValue(Confirmed), StatusTtl, now)
  }

  /** The store after check-status at time `now`: the lazy purge of its two reads. */
  function CheckStatusEffect(data: Data, now: int): (r: Data)
    ensures forall k :: k in r <==> k in data && !((k == StatusKey || k == OwnerLocationKey) && Expired(data[k], now))
    ensures forall k :: k in r ==> r[k] == data[k]
  {
    Purged(Purged(data, StatusKey, now), OwnerLocationKey, now)
  }

  /** The status check-status reports: the stored one, or Waiting when absent or expired. */
  function StatusReading(data: Data, now: int): (s: Status)
    requires Typed(data)
    ensures s == Confirmed <==>
      StatusKey in data && !Expired(data[StatusKey], now) && data[StatusKey].value == StatusValue(Confirmed)
  {
    match Lookup<Value>(data, StatusKey, now)
    case None => Waiting
    case Some(StatusValue(s)) => s
    case Some(LocationValue(_)) => assert false; Waiting
  }

  /** The location record a read of `key` yields at time `now`, or None (the source's `null` / 404). */
  function LocationReading(data: Data, key: string, now: int): (r: Option<LocationRecord>)
    requires Typed(data)
    requires key == RequesterLocationKey || key == OwnerLocationKey
    ensures r.Some? <==> key in data && !Expired(data[key], now)
    ensures r.Some? ==> data[key].value == LocationValue(r.value)
  {
    match Lookup<Value>(data, key, now)
    case None => None
    case Some(LocationValue(rec)) => Some(rec)
    case Some(StatusValue(_)) => assert false; None
  }

  /** check-status touches the store only by purging its two keys when they have expired. */
  lemma CheckStatusOnlyPurges(data: Data, now: int)
    ensures CheckStatusEffect(data, now).Keys <= data.Keys
    ensures forall k :: k in CheckStatusEffect(data, now) ==> CheckStatusEffect(data, now)[k] == data[k]
    ensures forall k :: k in data && k !in CheckStatusEffect(data, now) ==>
      (k == StatusKey || k == OwnerLocationKey) && Expired(data[k], now)
    ensures Typed(data) ==> Typed(CheckStatusEffect(data, now))
  {
  }

  // ---------------------------------------------------------------------
  // The handlers
  // ---------------------------------------------------------------------

  /**
   * `POST /api/notify`: store the requester's location when it is usable,
   * then mark the session waiting; returns the alert body pushed to the owner.
   */
  method Notify(kv: Store<Value>, message: Option<string>, location: Option<Coordinate>, now: int, geo: UrlGenerator)
    returns (body: string)
    modifies kv
    ensures kv.data == NotifyEffect(old(kv.data), location, now, geo)
    ensures body == NotifyBody(EffectiveMessage(message), HasUsableLocation(location))
  {
    var msg := message.GetOr(DefaultMessage);
    var located := false;
    if location.Some? && location.value.lat != 0.0 && location.value.lng != 0.0 {
      located := true;
      var c := location.value;
      var urls := geo(c.lat, c.lng);
      kv.Put(RequesterLocationKey, LocationValue(LocationRecord(c.lat, c.lng, urls, None)), LocationTtl, now);
    }
    kv.Put(StatusKey, StatusValue(Waiting), StatusTtl, now);
    body := NotifyBody(msg, located);
  }

  /** `GET /api/get-location`: the requester's record, or None for the 404 reply. */
  method GetLocation(kv: Store<Value>, now: int) returns (record: Option<LocationRecord>)
    requires Typed(kv.data)
    modifies kv
    ensures record == LocationReading(old(kv.data), RequesterLocationKey, now)
    ensures kv.data == Purged(old(kv.data), RequesterLocationKey, now)
    ensures Typed(kv.data)
  {
    var v := kv.Get(RequesterLocationKey, now);
    match v
    case None => record := None;
    case Some(LocationValue(rec)) => record := Some(rec);
    case Some(StatusValue(_)) => assert false;
  }

  /**
   * `POST /api/owner-confirm`: store the owner's location when one is given,
   * then mark the session confirmed. When the location write fails the catch
   * path still records the confirmation; the reply is always success.
   */
  method OwnerConfirm(kv: Store<Value>, location: Option<Coordinate>, persistFails: bool, now: int, geo: UrlGenerator)
    returns (success: bool)
    modifies kv
    ensures success
    ensures kv.data == ConfirmEffect(old(kv.data), location, persistFails, now, geo)
  {
    if location.Some? {
      var c := location.value;
      var urls := geo(c.lat, c.lng);
      if !persistFails {
        kv.Put(OwnerLocationKey, LocationValue(LocationRecord(c.lat, c.lng, urls, Some(now))), LocationTtl, now);
      }
    }
    // Reached normally and, after a failed location write, through the catch
    // path of server.js:165-167, which writes the same confirmation.
    kv.Put(StatusKey, StatusValue(Confirmed), StatusTtl, now);
    success := true;
  }

  /** `GET /api/check-status`: the status (Waiting when absent or expired) and the owner's record. */
  method CheckStatus(kv: Store<Value>, now: int) returns (status: Status, ownerLocation: Option<LocationRecord>)
    requires Typed(kv.data)
    modifies kv
    ensures status == StatusReading(old(kv.data), now)
    ensures ownerLocation == LocationReading(old(kv.data), OwnerLocationKey, now)
    ensures kv.data == CheckStatusEffect(old(kv.data), now)
    ensures Typed(kv.data)
  {
    var s := kv.Get(StatusKey, now);
    status := match s
      case Some(StatusValue(st)) => st
      case _ => Waiting;
    var raw := kv.Get(OwnerLocationKey, now);
    ownerLocation := match raw
      case Some(LocationValue(rec)) => Some(rec)
      case _ => None;
  }
}
