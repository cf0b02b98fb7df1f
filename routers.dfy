/**
 * The tRPC procedures of `appRouter`: each one validates its input the way its zod schema
 * does, maps optional strings with `|| null`, and forwards to the store. A store failure in a
 * mutation becomes an INTERNAL_SERVER_ERROR with a fixed message.
 */
module Routers {
  import opened Wrappers
  import opened JsValues
  import opened Schema
  import Db

  /** How a procedure fails: its input does not match the schema, or the store call threw. */
  datatype RpcError = BadInput | Internal(message: string)

  const RecordEventFailed := "Failed to record event"
  const CreateZoneFailed := "Failed to create zone"
  const UpdateStatusFailed := "Failed to update zone status"

  // ---------------------------------------------------------------------------------------
  // zod

  /** `z.string()` on the member named `key`. */
  function RequiredString(input: Object, key: string): (r: Option<string>)
    ensures r.Some? <==> Get(input, key).Str?
    ensures r.Some? ==> r.value == Get(input, key).s
  {
    match Get(input, key)
    case Str(s) => Some(s)
    case _ => None
  }

  /** `z.string().optional()`: absent is fine, anything but a string is not. */
  function OptionalString(input: Object, key: string): (r: Option<Option<string>>)
    ensures r.Some? <==> Get(input, key).Undefined? || Get(input, key).Str?
    ensures r == Some(None) <==> Get(input, key).Undefined?
    ensures r.Some? && r.value.Some? ==> r.value.value == Get(input, key).s
  {
    match Get(input, key)
    case Undefined => Some(None)
    case Str(s) => Some(Some(s))
    case _ => None
  }

  /** `z.number().optional().default(100)`. */
  function Limit(input: Object): (r: Option<int>)
    ensures Get(input, "limit").Undefined? ==> r == Some(Db.DefaultLimit)
    ensures Get(input, "limit").Num? ==> r == Some(Get(input, "limit").n)
    ensures r.None? <==> !Get(input, "limit").Undefined? && !Get(input, "limit").Num?
  {
    match Get(input, "limit")
    case Undefined => Some(Db.DefaultLimit)
    case Num(n) => Some(n)
    case _ => None
  }

  /** `x || null` on an optional string: absent and empty both become NULL. */
  function OrNull(x: Option<string>): (r: Option<string>)
    ensures r.None? <==> x.None? || x == Some("")
    ensures r.Some? ==> r == x
  {
    if x.Some? && x.value != "" then x else None
  }

  // ---------------------------------------------------------------------------------------
  // adEvents

  /** Does every optional member of `recordEvent`'s input pass `z.string().optional()`? */
  predicate OptionalFieldsValid(input: Object)
  {
    && OptionalString(input, "telegramId").Some? && OptionalString(input, "clickId").Some?
    && OptionalString(input, "subId").Some? && OptionalString(input, "revenue").Some?
    && OptionalString(input, "currency").Some? && OptionalString(input, "userAgent").Some?
    && OptionalString(input, "ipAddress").Some? && OptionalString(input, "country").Some?
    && OptionalString(input, "rawData").Some?
  }

  /** The value of a valid optional member after `|| null`. */
  function Optional(input: Object, key: string): (r: Option<string>)
    requires OptionalString(input, key).Some?
    ensures r.None? <==> Get(input, key).Undefined? || Get(input, key) == Str("")
    ensures r.Some? ==> Get(input, key) == Str(r.value)
  {
    OrNull(OptionalString(input, key).value)
  }

  /**
   * `recordEvent`'s input as the row it stores, or `None` when the input fails the schema:
   * the kind must be one of the two names, `zoneId` a string, the optional members strings.
   */
  function RecordEventRow(input: Object): (r: Option<NewAdEvent>)
    ensures r.Some? <==>
      && (Get(input, "eventType") == Str("impression") || Get(input, "eventType") == Str("click"))
      && Get(input, "zoneId").Str?
      && OptionalFieldsValid(input)
    ensures r.Some? ==>
      && Get(input, "eventType") == Str(EventTypeName(r.value.eventType))
      && Get(input, "zoneId") == Str(r.value.zoneId)
      && r.value.telegramId == Optional(input, "telegramId")
      && r.value.clickId == Optional(input, "clickId") && r.value.subId == Optional(input, "subId")
      && r.value.revenue == Optional(input, "revenue") && r.value.currency == Optional(input, "currency")
      && r.value.userAgent == Optional(input, "userAgent")
      && r.value.ipAddress == Optional(input, "ipAddress") && r.value.country == Optional(input, "country")
      && r.value.rawData == Optional(input, "rawData")
      && r.value.eventId.None? && r.value.userId.None? && r.value.subId2.None?
  {
    var kind := if Get(input, "eventType").Str? then ParseEventType(Get(input, "eventType").s) else None;
    var zoneId := RequiredString(input, "zoneId");
    if kind.None? || zoneId.None? || !OptionalFieldsValid(input) then None
    else
      Some(NewAdEvent(
        eventType := kind.value,
        eventId := None,
        userId := None,
        telegramId := Optional(input, "telegramId"),
        zoneId := zoneId.value,
        clickId := Optional(input, "clickId"),
        subId := Optional(input, "subId"),
        subId2 := None,
        revenue := Optional(input, "revenue"),
        currency := Optional(input, "currency"),
        userAgent := Optional(input, "userAgent"),
        ipAddress := Optional(input, "ipAddress"),
        country := Optional(input, "country"),
        rawData := Optional(input, "rawData")))
  }

  /** A stored optional column is never the empty string: `|| null` turned it into NULL. */
  lemma RecordedOptionalsNonEmpty(input: Object)
    requires RecordEventRow(input).Some?
    ensures var row := RecordEventRow(input).value;
      && row.telegramId != Some("") && row.clickId != Some("") && row.subId != Some("")
      && row.revenue != Some("") && row.currency != Some("") && row.userAgent != Some("")
      && row.ipAddress != Some("") && row.country != Some("") && row.rawData != Some("")
  {
  }

  /** `adEvents.recordEvent`. */
  method RecordEvent(store: Db.Store, input: Object, now: int) returns (r: Result<(), RpcError>)
    requires store.Valid()
    modifies store
    ensures store.Valid() && store.available == old(store.available)
    ensures store.zones == old(store.zones) && store.users == old(store.users)
    ensures RecordEventRow(input).None? ==> r == Failure(BadInput) && store.events == old(store.events)
    ensures RecordEventRow(input).Some? ==>
      var row := RecordEventRow(input).value;
      && (old(store.AcceptsEvent(row)) ==>
            r == Success(()) && store.events == old(store.events) + [StoredAdEvent(row, old(store.nextEventId), now)])
      && (!old(store.AcceptsEvent(row)) ==>
            r == Failure(Internal(RecordEventFailed)) && store.events == old(store.events))
  {
    var row := RecordEventRow(input);
    if row.None? {
      return Failure(BadInput);
    }
    var created := store.CreateAdEvent(row.value, now);
    r := if created.Success? then Success(()) else Failure(Internal(RecordEventFailed));
  }

  /** `adEvents.getByTelegramId`. */
  function GetByTelegramId(store: Db.Store, input: Object): (r: Result<seq<AdEvent>, RpcError>)
    reads store
    ensures r == Failure(BadInput) <==> RequiredString(input, "telegramId").None? || Limit(input).None?
    ensures r.Failure? <==>
      RequiredString(input, "telegramId").None? || Limit(input).None? || (Limit(input).value < 0 && store.available)
    ensures r.Success? && !store.available ==> r.value == []
    ensures r.Success? && store.available ==>
      Db.NewestListing(r.value, Db.OfTelegramId(store.events, Get(input, "telegramId").s), Limit(input).value)
    ensures r.Success? ==>
      forall i :: 0 <= i < |r.value| ==> r.value[i] in store.events && r.value[i].telegramId == Some(Get(input, "telegramId").s)
  {
    var telegramId := RequiredString(input, "telegramId");
    var limit := Limit(input);
    if telegramId.None? || limit.None? then Failure(BadInput)
    else if limit.value < 0 then NegativeLimit(store)
    else
      Db.NewestFirstIsListing(Db.OfTelegramId(store.events, telegramId.value), limit.value);
      Success(store.EventsByTelegramId(telegramId.value, limit.value))
  }

  /** The store rejects a negative `LIMIT`; the procedure has no message of its own for it. */
  const NegativeLimitFailed := "LIMIT must not be negative"

  /**
   * A negative `limit` passes `z.number()`: without a handle the store function answers `[]`
   * before any query runs, with one the database refuses the `LIMIT`.
   */
  function NegativeLimit(store: Db.Store): (r: Result<seq<AdEvent>, RpcError>)
    reads store
    ensures r.Failure? <==> store.available
    ensures r.Success? ==> r.value == []
    ensures r.Failure? ==> r.error.Internal?
  {
    if store.available then Failure(Internal(NegativeLimitFailed)) else Success([])
  }

  /** `adEvents.getAll`. */
  function GetAllEvents(store: Db.Store, input: Object): (r: Result<seq<AdEvent>, RpcError>)
    reads store
    ensures r == Failure(BadInput) <==> Limit(input).None?
    ensures r.Failure? <==> Limit(input).None? || (Limit(input).value < 0 && store.available)
    ensures r.Success? && !store.available ==> r.value == []
    ensures r.Success? && store.available ==> Db.NewestListing(r.value, store.events, Limit(input).value)
  {
    var limit := Limit(input);
    if limit.None? then Failure(BadInput)
    else if limit.value < 0 then NegativeLimit(store)
    else
      Db.NewestFirstIsListing(store.events, limit.value);
      Success(store.AllEvents(limit.value))
  }

  /** `adEvents.getByZone`. */
  function GetByZone(store: Db.Store, input: Object): (r: Result<seq<AdEvent>, RpcError>)
    reads store
    ensures r == Failure(BadInput) <==> RequiredString(input, "zoneId").None? || Limit(input).None?
    ensures r.Failure? <==>
      RequiredString(input, "zoneId").None? || Limit(input).None? || (Limit(input).value < 0 && store.available)
    ensures r.Success? && !store.available ==> r.value == []
    ensures r.Success? && store.available ==>
      Db.NewestListing(r.value, Db.OfZone(store.events, Get(input, "zoneId").s), Limit(input).value)
    ensures r.Success? ==>
      forall i :: 0 <= i < |r.value| ==> r.value[i] in store.events && r.value[i].zoneId == Get(input, "zoneId").s
  {
    var zoneId := RequiredString(input, "zoneId");
    var limit := Limit(input);
    if zoneId.None? || limit.None? then Failure(BadInput)
    else if limit.value < 0 then NegativeLimit(store)
    else
      Db.NewestFirstIsListing(Db.OfZone(store.events, zoneId.value), limit.value);
      Success(store.EventsByZone(zoneId.value, limit.value))
  }

  /** `adEvents.getStats`: the counts of the table, bounded by it, and zeros without a store. */
  function GetStats(store: Db.Store): (r: Db.EventStats)
    reads store
    ensures store.available ==> r == Db.StatsOf(store.events)
    ensures r.totalImpressions + r.totalClicks <= |store.events|
    ensures r.uniqueUsers <= |store.events|
    ensures !store.available ==> r == Db.EventStats(0, 0, 0)
  {
    Db.StatsBounds(store.events);
    store.Stats()
  }

  /** `adEvents.getByDateRange`, on instants already parsed from the two dates. */
  function GetByDateRange(store: Db.Store, startDate: int, endDate: int): (r: seq<AdEvent>)
    reads store
    ensures store.available ==> multiset(r) == multiset(Db.InRange(store.events, startDate, endDate))
    ensures store.available ==> forall e :: e in r <==> e in store.events && startDate <= e.createdAt <= endDate
    ensures forall i, j :: 0 <= i < j < |r| ==> r[i].createdAt >= r[j].createdAt
    ensures !store.available ==> r == []
  {
    store.EventsByDateRange(startDate, endDate)
  }

  // ---------------------------------------------------------------------------------------
  // adZones

  /** `adZones.create`'s input as the row it stores, or `None` when it fails the schema. */
  function CreateZoneRow(input: Object): (r: Option<NewAdZone>)
    ensures r.Some? <==>
      && Get(input, "zoneId").Str?
      && OptionalString(input, "zoneName").Some? && OptionalString(input, "zoneType").Some?
    ensures r.Some? ==>
      && Get(input, "zoneId") == Str(r.value.zoneId)
      && r.value.zoneName == Optional(input, "zoneName") && r.value.zoneType == Optional(input, "zoneType")
      && r.value.isActive.None?
  {
    var zoneId := RequiredString(input, "zoneId");
    if zoneId.None? || OptionalString(input, "zoneName").None? || OptionalString(input, "zoneType").None? then None
    else Some(NewAdZone(zoneId.value, Optional(input, "zoneName"), Optional(input, "zoneType"), None))
  }

  /** A zone created through the procedure starts active. */
  lemma CreatedZoneIsActive(input: Object, id: int, now: int)
    requires CreateZoneRow(input).Some?
    ensures StoredAdZone(CreateZoneRow(input).value, id, now).isActive
  {
  }

  /** `adZones.create`. */
  method CreateZone(store: Db.Store, input: Object, now: int) returns (r: Result<(), RpcError>)
    requires store.Valid()
    modifies store
    ensures store.Valid() && store.available == old(store.available)
    ensures store.events == old(store.events) && store.users == old(store.users)
    ensures CreateZoneRow(input).None? ==> r == Failure(BadInput) && store.zones == old(store.zones)
    ensures CreateZoneRow(input).Some? ==>
      var row := CreateZoneRow(input).value;
      && (old(store.AcceptsZone(row)) ==>
            r == Success(()) && store.zones == old(store.zones) + [StoredAdZone(row, old(store.nextZoneId), now)])
      && (!old(store.AcceptsZone(row)) ==>
            r == Failure(Internal(CreateZoneFailed)) && store.zones == old(store.zones))
  {
    var row := CreateZoneRow(input);
    if row.None? {
      return Failure(BadInput);
    }
    var created := store.CreateAdZone(row.value, now);
    r := if created.Success? then Success(()) else Failure(Internal(CreateZoneFailed));
  }

  /** `adZones.getById`. */
  function GetZoneById(store: Db.Store, input: Object): (r: Result<Option<AdZone>, RpcError>)
    reads store
    ensures r.Failure? <==> !Get(input, "zoneId").Str?
    ensures r.Success? && r.value.Some? ==> r.value.value in store.zones && Get(input, "zoneId") == Str(r.value.value.zoneId)
    ensures r.Success? && !store.available ==> r.value.None?
    ensures r.Success? && store.available ==>
      (r.value.None? <==> forall i :: 0 <= i < |store.zones| ==> store.zones[i].zoneId != Get(input, "zoneId").s)
  {
    var zoneId := RequiredString(input, "zoneId");
    if zoneId.None? then Failure(BadInput) else Success(store.ZoneByZoneId(zoneId.value))
  }

  /** `adZones.getAll`: every zone, newest first. */
  function GetAllZones(store: Db.Store): (r: seq<AdZone>)
    reads store
    ensures !store.available ==> r == []
    ensures store.available ==> multiset(r) == multiset(store.zones)
    ensures forall i, j :: 0 <= i < j < |r| ==> r[i].createdAt >= r[j].createdAt
  {
    store.AllZones()
  }

  /** `adZones.updateStatus`. */
  method UpdateStatus(store: Db.Store, input: Object, now: int) returns (r: Result<(), RpcError>)
    requires store.Valid()
    modifies store
    ensures store.Valid() && store.available == old(store.available)
    ensures store.events == old(store.events) && store.users == old(store.users)
    ensures !Get(input, "zoneId").Str? || !Get(input, "isActive").Bool? ==>
      r == Failure(BadInput) && store.zones == old(store.zones)
    ensures Get(input, "zoneId").Str? && Get(input, "isActive").Bool? ==>
      && (old(store.available) ==>
            r == Success(()) && store.zones == Db.WithStatus(old(store.zones), Get(input, "zoneId").s, Get(input, "isActive").b, now))
      && (!old(store.available) ==> r == Failure(Internal(UpdateStatusFailed)) && store.zones == old(store.zones))
  {
    var zoneId := RequiredString(input, "zoneId");
    if zoneId.None? || !Get(input, "isActive").Bool? {
      return Failure(BadInput);
    }
    var updated := store.UpdateAdZoneStatus(zoneId.value, Get(input, "isActive").b, now);
    r := if updated.Success? then Success(()) else Failure(Internal(UpdateStatusFailed));
  }
}
