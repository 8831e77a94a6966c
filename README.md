# Move-car coordination engine in Dafny

This project models the server side of a two-party "please move your car"
flow. A requester sends a message and, optionally, their location. The car
owner gets an alert, confirms, and may share their own location. The
requester polls until the confirmation shows up. All shared state lives in a
small key-value store whose entries expire after a TTL.

- `wrappers.dfy` (module `Wrappers`): `Option`, which stands for JavaScript's `null`-or-value.
- `kv.dfy` (module `ExpiringKv`): the expiring store. It is a class `Store<V>` whose
  `data: map<string, Entry<V>>` field is the whole key space. Its methods `Get` and `Put`
  take the clock `now` in milliseconds. Three functions specify them: `Lookup` (what `get`
  returns), `Purged` (the map after `get`) and `Written` (the map after `put`). Lemmas
  state the TTL, overwrite and per-key-independence behaviour.
- `coordinator.dfy` (module `Coordinator`): the store logic of the four API handlers,
  written as methods over a `Store<Value>`, plus the text of the owner's alert.
  `Value` holds either a `Status` (`Waiting`/`Confirmed`) or a `LocationRecord`.
  The source stores JSON-encoded strings instead. Each handler's effect on the store is
  a function (`NotifyEffect`, `ConfirmEffect`, `CheckStatusEffect`), and so is each
  read (`StatusReading`, `LocationReading`). `Typed` is the invariant that each key
  holds the kind of value its handlers write there.
- `lifecycle.dfy` (module `Lifecycle`): a session is a sequence of timed requests run
  from the empty store (`Run`). `WriteOf`/`LastWrite` form a reference table of which
  request writes which entry under which key. The inductive lemmas show three things:
  - every store a session reaches is `Typed`;
  - what any key holds is its last write, unless a read purged it after it expired;
  - so check-status, get-location and the owner location report exactly what the
    last relevant write and its TTL predict.

Time is an explicit parameter: each handler call uses one instant `now`.
`geo: (real, real) -> MapUrls` is a parameter standing for `generateMapUrls`.

Behaviours the model keeps from the code:
- A TTL counts as given only when it is non-zero (JavaScript truthiness), so a TTL of 0 never expires.
- An entry expires only when `now > expireAt`. At exactly `expireAt` the value is still
  returned; from `expireAt + 1` on it is gone (`PutThenGetWithTtl`).
- An `expireAt` of 0 is falsy in the source's test and so never expires. `Expired` keeps that test.
- Notify accepts a location only when `lat` and `lng` are both non-zero. Owner-confirm
  accepts any location that is present.
- The alert's message line appears only for a non-empty message. An omitted message
  becomes the default `车旁有人等待`.

## Model

| member | source | states |
|---|---|---|
| ExpiringKv.Store.constructor | server.js:16-17 | a new store is empty, like the fresh `{}` file |
| ExpiringKv.Store.Get | server.js:20-32 | returns what `Lookup` gives on the old map and leaves the map as `Purged` says: absent key gives None; expired entry is deleted and gives None; otherwise the value |
| ExpiringKv.Store.Put | server.js:33-38 | the new map is `Written`: `key` overwritten with the value and `now + ttl*1000` (or no expiry for TTL 0), every other key unchanged |
| ExpiringKv.ExpiryFor | server.js:35 | a TTL counts as given iff it is non-zero (truthy); then the expiry lies exactly `ttl*1000` ms after `now`, otherwise there is none |
| ExpiringKv.Expired | server.js:25 | an entry is expired only when its expiry is set and strictly before `now`; a set, non-zero expiry before `now` always expires; an expiry of 0 is falsy and never expires |
| ExpiringKv.Lookup | server.js:23-30 | a value is returned iff the key is present and not expired, and it is the stored value |
| ExpiringKv.Purged | server.js:25-28 | the read removes the key exactly when its entry has expired; nothing else changes |
| ExpiringKv.Written | server.js:35-36 | `key` holds the new entry with the TTL-derived expiry; every other key keeps its entry |
| ExpiringKv.LookupLive | server.js:23-30 | an entry with no expiry, or read at or before its expiry, is returned and the store is unchanged |
| ExpiringKv.LookupExpired | server.js:25-28 | an entry read after its (non-zero) expiry gives None and exactly that key is removed |
| ExpiringKv.LookupAbsent | server.js:23-24 | an absent key gives None and the store is unchanged |
| ExpiringKv.PutThenGetWithTtl | server.js:25-35 | after a put with positive TTL at t0, a read at t returns the value iff t <= t0 + ttl*1000 |
| ExpiringKv.PutThenGetForever | server.js:35 | a value put with TTL 0 is returned at every time and never purged |
| ExpiringKv.PutOverwrites | server.js:36 | a second put on the same key completely replaces the first |
| ExpiringKv.PutIndependent | server.js:33-37 | a put on one key changes neither the reads nor the purges of any other key |
| Coordinator.EffectiveMessage | server.js:103 | an omitted message becomes the default `车旁有人等待`; any given message, the empty one included, is kept as is |
| Coordinator.MessageLine | server.js:110 | the message line is present iff the message is non-empty (truthy), and then it is the message prefix followed by the message |
| Coordinator.HasUsableLocation | server.js:112 | notify uses a location iff it is present and both latitude and longitude are non-zero (truthy) |
| Coordinator.CheckStatusEffect | server.js:173-174 | after check-status a key is present iff it was present and was not an expired `notify_status` or `owner_location`; every remaining entry is unchanged |
| Coordinator.NotifyBody | server.js:109-120 | the body starts with the header and ends with the location-attached indicator iff a location was used, otherwise with the no-location indicator |
| Coordinator.ParseNotifyBody | server.js:109-120 | the body determines the message and whether a location was attached (a round trip through `ParseBody`) |
| Coordinator.ParseBodySound | server.js:109-120 | every text `ParseBody` accepts is exactly the notify body of what it returns |
| Coordinator.NotifyBodyIff | server.js:109-120 | a text is the body for (message, located) iff `ParseBody` returns that pair |
| Coordinator.NotifyEffect | server.js:112-122 | notify always leaves `notify_status` = Waiting expiring at now+600000; writes `requester_location` (expiring at now+3600000) iff the location is present with non-zero lat and lng, otherwise leaves it as it was; no other key changes; keeps `Typed` |
| Coordinator.ConfirmEffect | server.js:157-167 | owner-confirm always leaves `notify_status` = Confirmed expiring at now+600000; writes the timestamped `owner_location` iff a location is given and its write does not fail; no other key changes; keeps `Typed` |
| Coordinator.StatusReading | server.js:173-176 | check-status reports Confirmed iff a live Confirmed entry is stored; Waiting when the key is absent, expired or holds Waiting |
| Coordinator.LocationReading | server.js:146-150 | a location read returns a record iff the key holds a live entry, and then the stored record |
| Coordinator.CheckStatusOnlyPurges | server.js:172-176 | check-status only removes `notify_status` or `owner_location`, and only when expired; all remaining entries are unchanged |
| Coordinator.Notify | server.js:101-143 | the store becomes `NotifyEffect` of the old one; the returned alert body is `NotifyBody` of the effective message and of whether the location branch was taken |
| Coordinator.GetLocation | server.js:145-152 | returns the requester's record or None (the 404 reply); the store only loses an expired `requester_location` |
| Coordinator.OwnerConfirm | server.js:154-170 | always reports success; the store becomes `ConfirmEffect`, including the catch path after a failed location write |
| Coordinator.CheckStatus | server.js:172-177 | returns `StatusReading` and the owner's `LocationReading` of the old store; the store becomes `CheckStatusEffect` |
| Lifecycle.RunKeepsTyped | server.js:112-176 | from a `Typed` store, every sequence of handler calls keeps each key holding the kind of value its handlers write |
| Lifecycle.StepOnKey | server.js:112-176 | each handler call writes exactly the entries in the reference table `WriteOf`, and otherwise only removes an entry that has expired at the call's time |
| Lifecycle.EntryIsLastWrite | server.js:112-176 | in any session from the empty store, a present key holds the entry of its last write |
| Lifecycle.LiveLastWriteSurvives | server.js:25-28 | if all calls happen by t and the last write to a key has not expired at t, no read has purged it |
| Lifecycle.ReadIsLastLiveWrite | server.js:20-37 | a read at t of any key returns the last write's value while its TTL lasts, and nothing otherwise |
| Lifecycle.LastStatusWriteIsLastWrite | server.js:122-167 | the last write to `notify_status` is Waiting or Confirmed according to whether the last notify/confirm was a notify or a confirm, expiring 600000 ms after it |
| Lifecycle.ConfirmedIffRecentConfirm | server.js:163-176 | check-status at t reports Confirmed iff the last notify-or-confirm was an owner-confirm no more than 600000 ms before t; otherwise Waiting, also after the TTL runs out with no reset |
| Lifecycle.RequesterLocationIsLastLiveWrite | server.js:112-150 | get-location returns the record of the last notify with a usable location while its 3600 s TTL lasts, and the 404 reply otherwise |
| Lifecycle.OwnerLocationIsLastLiveWrite | server.js:157-176 | check-status reports the location of the last owner-confirm that stored one, while its 3600 s TTL lasts |
| Lifecycle.NotifyWritesLocationIff | server.js:112-118 | starting without a requester location, notify stores one iff the location is present with non-zero lat and lng |
| Lifecycle.ConfirmTwiceStaysConfirmed | server.js:163-167 | two owner-confirms in a row both leave the status Confirmed |
| Lifecycle.ConfirmExpiresAfterTenMinutes | server.js:163-176 | a confirmation made at t0 reads Confirmed up to t0+600000 and Waiting afterwards |
| Lifecycle.ScenarioNotifyWithoutLocation | server.js:101-177 | notify without location, then check-status: Waiting, no owner location, and get-location finds nothing |
| Lifecycle.ScenarioNotifyWithLocation | server.js:112-150 | notify with a location, then get-location: the record with the generated map links |
| Lifecycle.ScenarioConfirmWithoutLocation | server.js:154-176 | owner-confirm without location on a fresh store: Confirmed and no owner location |

## Left out

- The WGS-84 to GCJ-02 coordinate transform and the map-URL formatting (server.js:45-86). They are floating-point trigonometry and string formatting of floats. `generateMapUrls` is the parameter `geo`.
- File-backed persistence: reading and writing `data/store.json`, JSON encoding, and the double encoding of stored values. The store is the in-memory map `Store.data`, starting empty like the fresh `{}` file. `get`'s recovery from a corrupt or unreadable file (returning null) is not modelled.
- Keys are plain map keys. In the source the store is a JavaScript object, so `put('__proto__', …)` sets the object's prototype and is lost on writing, and a read of an absent key that names an `Object.prototype` member returns `undefined` rather than `null`. `Written`, `Store.Put` and the put-then-get lemmas hold for every other key. The handlers use only `notify_status`, `requester_location` and `owner_location`.
- `Date.now()` is the parameter `now`. One handler call uses one instant for all its reads and writes, including the owner record's `timestamp`.
- Coordinator.Notify: the 500 reply `{success: false, error}` after a store I/O failure is not modelled, because store writes cannot fail in this model. The `{success: true}` reply is not returned either.
- Coordinator.OwnerConfirm: the only failure modelled is the `owner_location` write (`persistFails`), after which the catch path confirms. A failure of the status write itself is not modelled.
- The optional 30-second delay of notify (`delayed`) has no effect on the store and is not modelled.
- The push to the notification gateway: the URL construction with `encodeURIComponent`, the fetch, the swallowed failure and the console fallback. Notify instead returns the alert body it would push.
- Request inputs are typed. `message` is an optional string: an explicit `null` or a non-string message is not modelled. `lat`/`lng` are reals: NaN and string coordinates are not modelled. TTLs are integers.
- Coordinator.StatusReading, Coordinator.LocationReading, Coordinator.GetLocation and Coordinator.CheckStatus require `Typed`: each key holds the kind of value its handlers write. Only these handlers write to the store, and `RunKeepsTyped` proves that they keep `Typed`. The JavaScript result of reading a mistyped key (a JSON string as a status) is not modelled.
- Express routing, body parsing, the origin and callback-URL derivation, the HTML pages and the browser polling script.
- Concurrency: the whole-store read-modify-write race between overlapping requests. The model is sequential; `Run` applies requests one at a time.
