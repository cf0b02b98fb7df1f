/**
 * The three tables of the store (`users`, `ad_zones`, `ad_events`) as row datatypes, with the
 * column constraints the store enforces on insert: enums, NOT NULL, varchar lengths, unique keys
 * and auto-incremented ids. Nullable columns are `Option`s; timestamps are milliseconds.
 */
module Schema {
  import opened Wrappers

  /** `mysqlEnum("eventType", ["impression", "click"])`. */
  datatype EventType = Impression | Click

  function EventTypeName(t: EventType): string
  {
    match t
    case Impression => "impression"
    case Click => "click"
  }

  /** Reads an event kind from its name; only the two enum names are accepted. */
  function ParseEventType(s: string): (r: Option<EventType>)
    ensures r.Some? <==> s == "impression" || s == "click"
    ensures r.Some? ==> EventTypeName(r.value) == s
  {
    if s == "impression" then Some(Impression)
    else if s == "click" then Some(Click)
    else None
  }

  lemma EventTypeNameRoundTrip(t: EventType)
    ensures ParseEventType(EventTypeName(t)) == Some(t)
  {
  }

  /** `mysqlEnum("role", ["user", "admin"]).default("user")`. */
  datatype Role = UserRole | AdminRole

  const DefaultRole: Role := UserRole

  /** AUTO_INCREMENT ids live in a signed 32-bit INT column. */
  const MaxId: int := 0x7FFF_FFFF

  // varchar lengths of the columns the handlers write
  const OpenIdLen := 64
  const EmailLen := 320
  const LoginMethodLen := 64
  const TelegramIdLen := 64
  const TelegramUsernameLen := 255
  const ZoneIdLen := 64
  const ZoneNameLen := 255
  const ZoneTypeLen := 64
  const EventIdLen := 255
  const ClickIdLen := 255
  const SubIdLen := 255
  const RevenueLen := 64
  const CurrencyLen := 10
  const IpAddressLen := 45
  const CountryLen := 2

  /** A nullable varchar column holds NULL or at most `n` characters. */
  predicate FitsVarchar(v: Option<string>, n: nat)
  {
    v.None? || |v.value| <= n
  }

  /** One row of `ad_events`. */
  datatype AdEvent = AdEvent(
    id: int,
    eventType: EventType,
    eventId: Option<string>,
    userId: Option<int>,
    telegramId: Option<string>,
    zoneId: string,
    clickId: Option<string>,
    subId: Option<string>,
    subId2: Option<string>,
    revenue: Option<string>,
    currency: Option<string>,
    userAgent: Option<string>,
    ipAddress: Option<string>,
    country: Option<string>,
    rawData: Option<string>,
    createdAt: int)

  /** The values an insert into `ad_events` supplies; `id` and `createdAt` come from the store. */
  datatype NewAdEvent = NewAdEvent(
    eventType: EventType,
    eventId: Option<string>,
    userId: Option<int>,
    telegramId: Option<string>,
    zoneId: string,
    clickId: Option<string>,
    subId: Option<string>,
    subId2: Option<string>,
    revenue: Option<string>,
    currency: Option<string>,
    userAgent: Option<string>,
    ipAddress: Option<string>,
    country: Option<string>,
    rawData: Option<string>)

  /** The varchar bounds of `ad_events`. */
  predicate AdEventFits(e: NewAdEvent)
  {
    && FitsVarchar(e.eventId, EventIdLen)
    && FitsVarchar(e.telegramId, TelegramIdLen)
    && |e.zoneId| <= ZoneIdLen
    && FitsVarchar(e.clickId, ClickIdLen)
    && FitsVarchar(e.subId, SubIdLen)
    && FitsVarchar(e.subId2, SubIdLen)
    && FitsVarchar(e.revenue, RevenueLen)
    && FitsVarchar(e.currency, CurrencyLen)
    && FitsVarchar(e.ipAddress, IpAddressLen)
    && FitsVarchar(e.country, CountryLen)
  }

  /** The row the store creates from an insert, with its assigned id and default timestamp. */
  function StoredAdEvent(e: NewAdEvent, id: int, now: int): (r: AdEvent)
    ensures r.id == id && r.createdAt == now
    ensures r.eventType == e.eventType && r.zoneId == e.zoneId
    ensures Unstored(r) == e
  {
    AdEvent(id, e.eventType, e.eventId, e.userId, e.telegramId, e.zoneId, e.clickId, e.subId,
            e.subId2, e.revenue, e.currency, e.userAgent, e.ipAddress, e.country, e.rawData, now)
  }

  /** The inserted values of a stored row. */
  function Unstored(r: AdEvent): NewAdEvent
  {
    NewAdEvent(r.eventType, r.eventId, r.userId, r.telegramId, r.zoneId, r.clickId, r.subId,
               r.subId2, r.revenue, r.currency, r.userAgent, r.ipAddress, r.country, r.rawData)
  }

  /** One row of `ad_zones`. */
  datatype AdZone = AdZone(
    id: int,
    zoneId: string,
    zoneName: Option<string>,
    zoneType: Option<string>,
    isActive: bool,
    createdAt: int,
    updatedAt: int)

  /** The values an insert into `ad_zones` supplies; an absent `isActive` takes the default. */
  datatype NewAdZone = NewAdZone(
    zoneId: string,
    zoneName: Option<string>,
    zoneType: Option<string>,
    isActive: Option<bool>)

  predicate AdZoneFits(z: NewAdZone)
  {
    |z.zoneId| <= ZoneIdLen && FitsVarchar(z.zoneName, ZoneNameLen) && FitsVarchar(z.zoneType, ZoneTypeLen)
  }

  /** The row the store creates from an insert: `isActive` defaults to true, both timestamps to now. */
  function StoredAdZone(z: NewAdZone, id: int, now: int): (r: AdZone)
    ensures r.id == id && r.zoneId == z.zoneId && r.zoneName == z.zoneName && r.zoneType == z.zoneType
    ensures z.isActive.None? ==> r.isActive
    ensures z.isActive.Some? ==> r.isActive == z.isActive.value
    ensures r.createdAt == now && r.updatedAt == now
  {
    AdZone(id, z.zoneId, z.zoneName, z.zoneType,
           if z.isActive.Some? then z.isActive.value else true, now, now)
  }

  /** One row of `users`. */
  datatype User = User(
    id: int,
    openId: string,
    name: Option<string>,
    email: Option<string>,
    loginMethod: Option<string>,
    role: Role,
    telegramId: Option<string>,
    telegramUsername: Option<string>,
    createdAt: int,
    updatedAt: int,
    lastSignedIn: int)

  predicate UserFits(u: User)
  {
    && |u.openId| <= OpenIdLen
    && FitsVarchar(u.email, EmailLen)
    && FitsVarchar(u.loginMethod, LoginMethodLen)
    && FitsVarchar(u.telegramId, TelegramIdLen)
    && FitsVarchar(u.telegramUsername, TelegramUsernameLen)
  }

  // sort keys for `ORDER BY createdAt` and `ORDER BY createdAt DESC`
  function EventCreated(e: AdEvent): int { e.createdAt }
  function EventNewestFirst(e: AdEvent): int { -e.createdAt }
  function ZoneNewestFirst(z: AdZone): int { -z.createdAt }
}
