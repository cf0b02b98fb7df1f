/**
 * The data-access layer: the lazily created store handle, the three tables as a class over
 * sequences of rows, the inserts, the update and the read queries, and the record building of
 * the user upsert. Without a store handle reads return empty results and writes fail.
 */
module Db {
  import opened Wrappers
  import opened Sorting
  import opened Schema

  /** The `limit` a listing uses when the caller gives none. */
  const DefaultLimit: nat := 100

  /** Why a write is refused. */
  datatype DbError =
    | Unavailable    // no store handle: "Database not available"
    | DataTooLong    // a value longer than its varchar column (strict SQL mode)
    | DuplicateKey   // a second row with the same unique key
    | IdsExhausted   // the auto-increment counter has passed the INT range

  function ErrorMessage(e: DbError): string
  {
    match e
    case Unavailable => "Database not available"
    case DataTooLong => "Data too long for column"
    case DuplicateKey => "Duplicate entry"
    case IdsExhausted => "Failed to read auto-increment value"
  }

  // ---------------------------------------------------------------------------------------
  // The store handle

  datatype Handle = Handle(url: string)

  /** The module-level `_db` that `getDb` fills in once. */
  class Connection {
    var cached: Option<Handle>

    constructor ()
      ensures cached == None
    {
      cached := None;
    }

    /**
     * `getDb()`: with no cached handle and a non-empty `DATABASE_URL`, tries to create one
     * (`connects` says whether that succeeds); returns whatever is cached afterwards.
     */
    method GetDb(databaseUrl: Option<string>, connects: bool) returns (h: Option<Handle>)
      modifies this
      ensures h == cached
      ensures old(cached).Some? ==> cached == old(cached)
      ensures old(cached).None? ==>
        cached == if databaseUrl.Some? && databaseUrl.value != "" && connects
                  then Some(Handle(databaseUrl.value)) else None
    {
      if cached.None? && databaseUrl.Some? && databaseUrl.value != "" {
        if connects {
          cached := Some(Handle(databaseUrl.value));
        } else {
          cached := None;
        }
      }
      h := cached;
    }
  }

  // ---------------------------------------------------------------------------------------
  // Read queries on rows

  predicate IsImpression(e: AdEvent) { e.eventType == Impression }
  predicate IsClick(e: AdEvent) { e.eventType == Click }

  /** `ORDER BY createdAt DESC LIMIT limit` over the rows that pass the `WHERE` clause. */
  function NewestFirst(matching: seq<AdEvent>, limit: nat): (r: seq<AdEvent>)
    ensures |r| == if limit < |matching| then limit else |matching|
    ensures multiset(r) <= multiset(matching)
    ensures forall i, j :: 0 <= i < j < |r| ==> r[i].createdAt >= r[j].createdAt
    ensures forall x :: x in r ==> x in matching
  {
    var sorted := SortBy(matching, EventNewestFirst);
    var r := Take(sorted, limit);
    TakeAscending(sorted, limit, EventNewestFirst);
    SubMultisetMembers(r, matching);
    assert forall i, j :: 0 <= i < j < |r| ==> EventNewestFirst(r[i]) <= EventNewestFirst(r[j]);
    r
  }

  lemma SameElements(r: seq<AdEvent>, s: seq<AdEvent>)
    requires multiset(r) == multiset(s)
    ensures forall e :: e in r <==> e in s
  {
    forall e ensures e in r <==> e in s {
      assert e in r <==> e in multiset(r);
      assert e in s <==> e in multiset(s);
    }
  }

  /** A limited listing keeps the newest rows: every row it leaves out is no newer than any it returns. */
  lemma NewestFirstKeepsNewest(matching: seq<AdEvent>, limit: nat)
    ensures var r := NewestFirst(matching, limit);
      forall x, y :: x in multiset(matching) - multiset(r) && y in r ==> x.createdAt <= y.createdAt
  {
    TakeSortedKeepsSmallest(matching, EventNewestFirst, limit);
  }

  /**
   * What `ORDER BY createdAt DESC LIMIT limit` promises whatever order the database gives rows
   * with equal `createdAt`: `min(limit, matching)` of the matching rows, newest first, and no
   * row left out newer than a row returned.
   */
  ghost predicate NewestListing(r: seq<AdEvent>, matching: seq<AdEvent>, limit: int)
  {
    && |r| == (if limit < |matching| then limit else |matching|)
    && multiset(r) <= multiset(matching)
    && (forall i, j :: 0 <= i < j < |r| ==> r[i].createdAt >= r[j].createdAt)
    && (forall x, y :: x in multiset(matching) - multiset(r) && y in r ==> x.createdAt <= y.createdAt)
  }

  /** The model's listing is one of the listings the query allows. */
  lemma NewestFirstIsListing(matching: seq<AdEvent>, limit: nat)
    ensures NewestListing(NewestFirst(matching, limit), matching, limit)
  {
    NewestFirstKeepsNewest(matching, limit);
  }

  /** With a limit at least the number of rows, a listing returns every row. */
  lemma NewestFirstComplete(matching: seq<AdEvent>, limit: nat)
    requires |matching| <= limit
    ensures multiset(NewestFirst(matching, limit)) == multiset(matching)
  {
  }

  function OfTelegramId(events: seq<AdEvent>, telegramId: string): (r: seq<AdEvent>)
    ensures forall x :: x in r ==> x in events && x.telegramId == Some(telegramId)
  {
    FilterMembers(events, (e: AdEvent) => e.telegramId == Some(telegramId));
    Filter(events, (e: AdEvent) => e.telegramId == Some(telegramId))
  }

  function OfZone(events: seq<AdEvent>, zoneId: string): (r: seq<AdEvent>)
    ensures forall x :: x in r ==> x in events && x.zoneId == zoneId
  {
    FilterMembers(events, (e: AdEvent) => e.zoneId == zoneId);
    Filter(events, (e: AdEvent) => e.zoneId == zoneId)
  }

  function InRange(events: seq<AdEvent>, start: int, end: int): seq<AdEvent>
  {
    Filter(events, (e: AdEvent) => start <= e.createdAt <= end)
  }

  /** The aggregate row of `getAdEventStats`. */
  datatype EventStats = EventStats(totalImpressions: nat, totalClicks: nat, uniqueUsers: nat)

  /** The distinct non-null `telegramId`s (what `COUNT(DISTINCT telegramId)` counts). */
  function TelegramIds(events: seq<AdEvent>): set<string>
  {
    set e | e in events && e.telegramId.Some? :: e.telegramId.value
  }

  function StatsOf(events: seq<AdEvent>): EventStats
  {
    EventStats(|Filter(events, IsImpression)|, |Filter(events, IsClick)|, |TelegramIds(events)|)
  }

  /** Every event is an impression or a click, and there are no more users than events. */
  lemma StatsBounds(events: seq<AdEvent>)
    ensures StatsOf(events).totalImpressions + StatsOf(events).totalClicks == |events|
    ensures StatsOf(events).uniqueUsers <= |events|
  {
    FilterSplit(events, IsImpression, IsClick);
    TelegramIdsBound(events);
  }

  lemma {:induction false} TelegramIdsBound(events: seq<AdEvent>)
    ensures |TelegramIds(events)| <= |events|
  {
    if events != [] {
      var init, last := events[..|events| - 1], events[|events| - 1];
      assert events == init + [last];
      TelegramIdsBound(init);
      TelegramIdsAppend(init, last);
    }
  }

  lemma TelegramIdsAppend(events: seq<AdEvent>, e: AdEvent)
    ensures TelegramIds(events + [e]) ==
      TelegramIds(events) + (if e.telegramId.Some? then {e.telegramId.value} else {})
  {
    var s := events + [e];
    forall x | x in s ensures x in events || x == e {}
  }

  /** Recording one more event moves exactly one counter of its kind and, for a new user id, the user count. */
  lemma StatsAppend(events: seq<AdEvent>, e: AdEvent)
    ensures var before, after := StatsOf(events), StatsOf(events + [e]);
      && after.totalImpressions == before.totalImpressions + (if e.eventType == Impression then 1 else 0)
      && after.totalClicks == before.totalClicks + (if e.eventType == Click then 1 else 0)
      && after.uniqueUsers ==
           before.uniqueUsers + (if e.telegramId.Some? && e.telegramId.value !in TelegramIds(events) then 1 else 0)
  {
    CountAppend(events, e, IsImpression);
    CountAppend(events, e, IsClick);
    UsersAppend(events, e);
  }

  lemma CountAppend(events: seq<AdEvent>, e: AdEvent, p: AdEvent -> bool)
    ensures |Filter(events + [e], p)| == |Filter(events, p)| + (if p(e) then 1 else 0)
  {
    FilterAppend(events, [e], p);
    assert Filter([e], p) == (if p(e) then [e] else []) by {
      assert [e][1..] == [];
    }
  }

  lemma UsersAppend(events: seq<AdEvent>, e: AdEvent)
    ensures |TelegramIds(events + [e])| ==
      |TelegramIds(events)| + (if e.telegramId.Some? && e.telegramId.value !in TelegramIds(events) then 1 else 0)
  {
    TelegramIdsAppend(events, e);
  }

  /** An empty table has all-zero stats; one impression and one click by two users give 1, 1, 2. */
  lemma StatsExample(imp: AdEvent, click: AdEvent)
    requires imp.eventType == Impression && click.eventType == Click
    requires imp.telegramId.Some? && click.telegramId.Some? && imp.telegramId != click.telegramId
    ensures StatsOf([]) == EventStats(0, 0, 0)
    ensures StatsOf([imp, click]) == EventStats(1, 1, 2)
  {
    assert TelegramIds([]) == {};
    StatsAppend([], imp);
    assert [] + [imp] == [imp];
    StatsAppend([imp], click);
    assert [imp] + [click] == [imp, click];
    assert TelegramIds([imp]) == {imp.telegramId.value} by { TelegramIdsAppend([], imp); }
  }

  /** `AdZone`s with `isActive` set on the rows of one zone; each changed row gets `updatedAt = now`. */
  function WithStatus(zones: seq<AdZone>, zoneId: string, isActive: bool, now: int): (r: seq<AdZone>)
    ensures |r| == |zones|
    ensures forall i :: 0 <= i < |r| && zones[i].zoneId != zoneId ==> r[i] == zones[i]
    ensures forall i :: 0 <= i < |r| && zones[i].zoneId == zoneId ==>
      r[i].isActive == isActive && r[i].(isActive := zones[i].isActive, updatedAt := zones[i].updatedAt) == zones[i]
    ensures forall i :: 0 <= i < |r| ==>
      (r[i] == zones[i] <==> zones[i].zoneId != zoneId || zones[i].isActive == isActive)
    ensures forall i :: 0 <= i < |r| && r[i] != zones[i] ==> r[i].updatedAt == now
  {
    seq(|zones|, i requires 0 <= i < |zones| =>
      if zones[i].zoneId == zoneId && zones[i].isActive != isActive
      then zones[i].(isActive := isActive, updatedAt := now)
      else zones[i])
  }

  /** Setting the same status twice, at whatever times, leaves what the first update left. */
  lemma WithStatusIdempotent(zones: seq<AdZone>, zoneId: string, isActive: bool, now: int, later: int)
    ensures WithStatus(WithStatus(zones, zoneId, isActive, now), zoneId, isActive, later) ==
            WithStatus(zones, zoneId, isActive, now)
  {
    var once := WithStatus(zones, zoneId, isActive, now);
    var twice := WithStatus(once, zoneId, isActive, later);
    assert forall i :: 0 <= i < |twice| ==> twice[i] == once[i];
  }

  // ---------------------------------------------------------------------------------------
  // The user upsert

  /** A field of an insert object: left out (`undefined`), explicitly `null`, or a value. */
  datatype Nullable<T> = Undefined | Null | Present(value: T)

  /** `InsertUser`: `openId` and the optional columns of `users`. */
  datatype InsertUser = InsertUser(
    openId: string,
    name: Nullable<string>,
    email: Nullable<string>,
    loginMethod: Nullable<string>,
    telegramId: Nullable<string>,
    telegramUsername: Nullable<string>,
    role: Option<Role>,
    lastSignedIn: Option<int>)

  /** A value placed in `values` or `updateSet`. */
  datatype Cell = NullCell | Text(s: string) | Time(t: int) | RoleCell(role: Role)

  const TextFields: seq<string> := ["name", "email", "loginMethod", "telegramId", "telegramUsername"]

  const TextFieldNames: set<string> := {"name", "email", "loginMethod", "telegramId", "telegramUsername"}

  /** `user[field]` for a text field. */
  function TextField(u: InsertUser, field: string): Nullable<string>
  {
    if field == "name" then u.name
    else if field == "email" then u.email
    else if field == "loginMethod" then u.loginMethod
    else if field == "telegramId" then u.telegramId
    else if field == "telegramUsername" then u.telegramUsername
    else Undefined
  }

  /** `value ?? null`. */
  function CellOf(v: Nullable<string>): Cell
  {
    if v.Present? then Text(v.value) else NullCell
  }

  /** The insert values and the `ON DUPLICATE KEY UPDATE` set of one upsert. */
  datatype UpsertPlan = UpsertPlan(values: map<string, Cell>, updateSet: map<string, Cell>)

  /** Does any text field of `u` carry a value or an explicit null? */
  predicate AnyTextField(u: InsertUser)
  {
    exists i :: 0 <= i < |TextFields| && !TextField(u, TextFields[i]).Undefined?
  }

  /**
   * The rules `upsertUser` follows when it builds `values` and `updateSet`: only fields that are
   * not `undefined` go in, with `null` kept; the owner gets the admin role when none is given;
   * `values` always carries `lastSignedIn` and `updateSet` is never empty.
   */
  ghost predicate PlanFollowsRules(plan: UpsertPlan, user: InsertUser, ownerOpenId: string, now: int)
  {
    && "openId" in plan.values && plan.values["openId"] == Text(user.openId)
    && "openId" !in plan.updateSet
    && TextCells(plan.values, plan.updateSet, user, |TextFields|)
    && (user.role.Some? ==>
      "role" in plan.values && "role" in plan.updateSet &&
      plan.values["role"] == plan.updateSet["role"] == RoleCell(user.role.value))
    && (user.role.None? && user.openId == ownerOpenId ==>
      "role" in plan.values && "role" in plan.updateSet &&
      plan.values["role"] == plan.updateSet["role"] == RoleCell(AdminRole))
    && (user.role.None? && user.openId != ownerOpenId ==>
      "role" !in plan.values && "role" !in plan.updateSet)
    && "lastSignedIn" in plan.values
    && plan.values["lastSignedIn"] == Time(if user.lastSignedIn.Some? then user.lastSignedIn.value else now)
    && (user.lastSignedIn.Some? ==>
      ("lastSignedIn" in plan.updateSet && plan.updateSet["lastSignedIn"] == Time(user.lastSignedIn.value)))
    && (user.lastSignedIn.None? ==>
      ("lastSignedIn" in plan.updateSet <==> !AnyTextField(user) && user.role.None? && user.openId != ownerOpenId))
    && ("lastSignedIn" in plan.updateSet ==> plan.updateSet["lastSignedIn"] == Time(if user.lastSignedIn.Some? then user.lastSignedIn.value else now))
    && plan.updateSet != map[]
    && plan.values.Keys <= {"openId", "role", "lastSignedIn"} + TextFieldNames
    && plan.updateSet.Keys <= {"role", "lastSignedIn"} + TextFieldNames
  }

  /**
   * The first `n` text fields are in `values` and `updateSet` exactly when the user gives them
   * (a value or an explicit null), with the same cell in both; the other text fields are in neither.
   */
  ghost predicate TextCells(values: map<string, Cell>, updateSet: map<string, Cell>, user: InsertUser, n: nat)
  {
    forall j :: 0 <= j < |TextFields| ==>
      var f := TextFields[j];
      && (f in values <==> j < n && !TextField(user, f).Undefined?)
      && (f in updateSet <==> j < n && !TextField(user, f).Undefined?)
      && (f in values ==> values[f] == CellOf(TextField(user, f)) == updateSet[f])
  }

  /** Setting a column that is not a text field leaves the text cells as they were. */
  lemma OtherColumnKeepsText(values: map<string, Cell>, updateSet: map<string, Cell>, user: InsertUser,
                             k: string, c: Cell)
    requires TextCells(values, updateSet, user, |TextFields|) && k !in TextFieldNames
    ensures TextCells(values[k := c], updateSet, user, |TextFields|)
    ensures TextCells(values, updateSet[k := c], user, |TextFields|)
    ensures TextCells(values[k := c], updateSet[k := c], user, |TextFields|)
  {
    assert forall j :: 0 <= j < |TextFields| ==> TextFields[j] in TextFieldNames;
  }

  /** With no text field given, an update set of text cells only is empty. */
  lemma NoTextCells(values: map<string, Cell>, updateSet: map<string, Cell>, user: InsertUser)
    requires TextCells(values, updateSet, user, |TextFields|) && updateSet.Keys <= TextFieldNames
    requires !AnyTextField(user)
    ensures updateSet == map[]
  {
    forall k | k in TextFieldNames
      ensures k !in updateSet
    {
      var j := if k == "name" then 0 else if k == "email" then 1 else if k == "loginMethod" then 2
               else if k == "telegramId" then 3 else 4;
      assert TextFields[j] == k;
    }
    assert updateSet.Keys == {};
  }

  /** Builds `values` and `updateSet` field by field, as `upsertUser` does. */
  method BuildUpsert(user: InsertUser, ownerOpenId: string, now: int) returns (plan: UpsertPlan)
    ensures PlanFollowsRules(plan, user, ownerOpenId, now)
  {
    var values: map<string, Cell> := map["openId" := Text(user.openId)];
    var updateSet: map<string, Cell> := map[];
    for i := 0 to |TextFields|
      invariant "openId" in values && values["openId"] == Text(user.openId)
      invariant values.Keys <= {"openId"} + TextFieldNames
      invariant updateSet.Keys == values.Keys - {"openId"}
      invariant TextCells(values, updateSet, user, i)
    {
      var f := TextFields[i];
      var value := TextField(user, f);
      if !value.Undefined? {
        values := values[f := CellOf(value)];
        updateSet := updateSet[f := CellOf(value)];
      }
    }
    assert updateSet == map[] <==> !AnyTextField(user) by {
      if AnyTextField(user) {
        var j :| 0 <= j < |TextFields| && !TextField(user, TextFields[j]).Undefined?;
        assert TextFields[j] in updateSet;
      } else {
        NoTextCells(values, updateSet, user);
      }
    }
    if user.lastSignedIn.Some? {
      OtherColumnKeepsText(values, updateSet, user, "lastSignedIn", Time(user.lastSignedIn.value));
      values := values["lastSignedIn" := Time(user.lastSignedIn.value)];
      updateSet := updateSet["lastSignedIn" := Time(user.lastSignedIn.value)];
    }
    if user.role.Some? {
      OtherColumnKeepsText(values, updateSet, user, "role", RoleCell(user.role.value));
      values := values["role" := RoleCell(user.role.value)];
      updateSet := updateSet["role" := RoleCell(user.role.value)];
    } else if user.openId == ownerOpenId {
      OtherColumnKeepsText(values, updateSet, user, "role", RoleCell(AdminRole));
      values := values["role" := RoleCell(AdminRole)];
      updateSet := updateSet["role" := RoleCell(AdminRole)];
    }
    if "lastSignedIn" !in values {
      OtherColumnKeepsText(values, updateSet, user, "lastSignedIn", Time(now));
      values := values["lastSignedIn" := Time(now)];
    }
    if updateSet == map[] {
      OtherColumnKeepsText(values, updateSet, user, "lastSignedIn", Time(now));
      updateSet := updateSet["lastSignedIn" := Time(now)];
    }
    plan := UpsertPlan(values, updateSet);
  }

  /** The text column `field` as the cells of a plan set it, or `current` when they leave it alone. */
  function TextColumn(cells: map<string, Cell>, field: string, current: Option<string>): Option<string>
  {
    if field in cells && cells[field].Text? then Some(cells[field].s)
    else if field in cells && cells[field].NullCell? then None
    else current
  }

  /** The new `users` row an upsert inserts: the plan's values, the defaults for the rest. */
  function InsertedUser(values: map<string, Cell>, openId: string, id: int, now: int): (u: User)
    ensures u.openId == openId && u.id == id && u.createdAt == now && u.updatedAt == now
  {
    User(id, openId,
         TextColumn(values, "name", None), TextColumn(values, "email", None),
         TextColumn(values, "loginMethod", None),
         if "role" in values && values["role"].RoleCell? then values["role"].role else DefaultRole,
         TextColumn(values, "telegramId", None), TextColumn(values, "telegramUsername", None),
         now, now,
         if "lastSignedIn" in values && values["lastSignedIn"].Time? then values["lastSignedIn"].t else now)
  }

  /** An existing row after `ON DUPLICATE KEY UPDATE`; `updatedAt` moves only when something changed. */
  function UpdatedUser(u: User, updateSet: map<string, Cell>, now: int): (r: User)
    ensures r.id == u.id && r.openId == u.openId && r.createdAt == u.createdAt
    ensures r.updatedAt == (if r.(updatedAt := u.updatedAt) == u then u.updatedAt else now)
  {
    var changed := u.(
      name := TextColumn(updateSet, "name", u.name),
      email := TextColumn(updateSet, "email", u.email),
      loginMethod := TextColumn(updateSet, "loginMethod", u.loginMethod),
      role := if "role" in updateSet && updateSet["role"].RoleCell? then updateSet["role"].role else u.role,
      telegramId := TextColumn(updateSet, "telegramId", u.telegramId),
      telegramUsername := TextColumn(updateSet, "telegramUsername", u.telegramUsername),
      lastSignedIn := if "lastSignedIn" in updateSet && updateSet["lastSignedIn"].Time?
                      then updateSet["lastSignedIn"].t else u.lastSignedIn);
    if changed == u then u else changed.(updatedAt := now)
  }

  /** The position of the row with this `openId`, if any. */
  function IndexOfOpenId(users: seq<User>, openId: string): (r: Option<nat>)
    ensures r.Some? ==> r.value < |users| && users[r.value].openId == openId
    ensures r.None? ==> forall i :: 0 <= i < |users| ==> users[i].openId != openId
  {
    if users == [] then None
    else if users[|users| - 1].openId == openId then Some(|users| - 1)
    else IndexOfOpenId(users[..|users| - 1], openId)
  }

  /** Why an upsert fails. */
  datatype UpsertError = MissingOpenId | StoreError(error: DbError)

  // ---------------------------------------------------------------------------------------
  // The store

  /** Ids strictly increase along a table and stay below the next id to hand out. */
  ghost predicate IdsIncreasing(ids: seq<int>, next: int)
  {
    && (forall i, j :: 0 <= i < j < |ids| ==> ids[i] < ids[j])
    && (forall i :: 0 <= i < |ids| ==> 1 <= ids[i] < next)
    && 1 <= next
  }

  function EventIds(events: seq<AdEvent>): (r: seq<int>)
    ensures |r| == |events| && forall i :: 0 <= i < |r| ==> r[i] == events[i].id
  {
    seq(|events|, i requires 0 <= i < |events| => events[i].id)
  }

  function ZoneIds(zones: seq<AdZone>): (r: seq<int>)
    ensures |r| == |zones| && forall i :: 0 <= i < |r| ==> r[i] == zones[i].id
  {
    seq(|zones|, i requires 0 <= i < |zones| => zones[i].id)
  }

  function UserIds(users: seq<User>): (r: seq<int>)
    ensures |r| == |users| && forall i :: 0 <= i < |r| ==> r[i] == users[i].id
  {
    seq(|users|, i requires 0 <= i < |users| => users[i].id)
  }

  /** Increasing ids and the column bounds of the `adEvents` table. */
  ghost predicate EventsValid(events: seq<AdEvent>, next: int)
  {
    && IdsIncreasing(EventIds(events), next)
    && (forall i :: 0 <= i < |events| ==> AdEventFits(Unstored(events[i])))
  }

  /** Increasing ids and unique `zoneId`s of the `adZones` table. */
  ghost predicate ZonesValid(zones: seq<AdZone>, next: int)
  {
    && IdsIncreasing(ZoneIds(zones), next)
    && (forall i, j :: 0 <= i < j < |zones| ==> zones[i].zoneId != zones[j].zoneId)
  }

  /** Increasing ids, unique `openId`s and the column bounds of the `users` table. */
  ghost predicate UsersValid(users: seq<User>, next: int)
  {
    && IdsIncreasing(UserIds(users), next)
    && (forall i, j :: 0 <= i < j < |users| ==> users[i].openId != users[j].openId)
    && (forall i :: 0 <= i < |users| ==> UserFits(users[i]))
  }

  lemma AppendUserValid(users: seq<User>, next: int, row: User)
    requires UsersValid(users, next) && row.id == next && UserFits(row)
    requires forall i :: 0 <= i < |users| ==> users[i].openId != row.openId
    ensures UsersValid(users + [row], next + 1)
  {
    assert UserIds(users + [row]) == UserIds(users) + [next];
  }

  lemma ReplaceUserValid(users: seq<User>, next: int, k: nat, row: User)
    requires UsersValid(users, next) && k < |users| && UserFits(row)
    requires row.id == users[k].id && row.openId == users[k].openId
    ensures UsersValid(users[k := row], next)
  {
    assert UserIds(users[k := row]) == UserIds(users);
  }

  /** The in-memory store: `available` says whether `getDb()` yields a handle. */
  class Store {
    var available: bool
    var events: seq<AdEvent>
    var zones: seq<AdZone>
    var users: seq<User>
    var nextEventId: int
    var nextZoneId: int
    var nextUserId: int

    /** Auto-increment ids, unique `zoneId` and `openId`, and the column bounds of every row. */
    ghost predicate Valid()
      reads this
    {
      EventsValid(events, nextEventId) && ZonesValid(zones, nextZoneId) && UsersValid(users, nextUserId)
    }

    constructor (available: bool)
      ensures Valid() && this.available == available
      ensures events == [] && zones == [] && users == []
    {
      this.available := available;
      events, zones, users := [], [], [];
      nextEventId, nextZoneId, nextUserId := 1, 1, 1;
    }

    /** Would `createAdEvent` store this row now? */
    predicate AcceptsEvent(e: NewAdEvent)
      reads this
    {
      available && AdEventFits(e) && nextEventId <= MaxId
    }

    /** `createAdEvent`: appends one row with a fresh, larger id and `createdAt = now`. */
    method CreateAdEvent(e: NewAdEvent, now: int) returns (r: Result<int, DbError>)
      requires Valid()
      modifies this
      ensures Valid() && available == old(available)
      ensures zones == old(zones) && users == old(users)
      ensures !old(available) ==> r == Failure(Unavailable)
      ensures old(available) && !AdEventFits(e) ==> r == Failure(DataTooLong)
      ensures old(available) && AdEventFits(e) && old(nextEventId) > MaxId ==> r == Failure(IdsExhausted)
      ensures r.Success? <==> old(AcceptsEvent(e))
      ensures r.Failure? ==> events == old(events)
      ensures r.Success? ==>
        && r.value == old(nextEventId)
        && (forall i :: 0 <= i < |old(events)| ==> old(events)[i].id < r.value)
        && events == old(events) + [StoredAdEvent(e, r.value, now)]
    {
      if !available {
        return Failure(Unavailable);
      }
      if !AdEventFits(e) {
        return Failure(DataTooLong);
      }
      if nextEventId > MaxId {
        return Failure(IdsExhausted);
      }
      var id := nextEventId;
      events := events + [StoredAdEvent(e, id, now)];
      nextEventId := nextEventId + 1;
      assert EventIds(events) == EventIds(old(events)) + [id];
      r := Success(id);
    }

    /** `getAdEventsByTelegramId`: that user's rows, newest first, at most `limit`. */
    function EventsByTelegramId(telegramId: string, limit: nat): (r: seq<AdEvent>)
      reads this
      ensures !available ==> r == []
      ensures available ==> r == NewestFirst(OfTelegramId(events, telegramId), limit)
      ensures |r| <= limit
      ensures forall i :: 0 <= i < |r| ==> r[i] in events && r[i].telegramId == Some(telegramId)
    {
      if !available then [] else NewestFirst(OfTelegramId(events, telegramId), limit)
    }

    /** `getAdEventsByZone`: that zone's rows, newest first, at most `limit`. */
    function EventsByZone(zoneId: string, limit: nat): (r: seq<AdEvent>)
      reads this
      ensures !available ==> r == []
      ensures available ==> r == NewestFirst(OfZone(events, zoneId), limit)
      ensures |r| <= limit
      ensures forall i :: 0 <= i < |r| ==> r[i] in events && r[i].zoneId == zoneId
    {
      if !available then [] else NewestFirst(OfZone(events, zoneId), limit)
    }

    /** `getAllAdEvents`: the newest `limit` rows. */
    function AllEvents(limit: nat): (r: seq<AdEvent>)
      reads this
      ensures !available ==> r == []
      ensures available ==> r == NewestFirst(events, limit)
      ensures available ==> |r| == if limit < |events| then limit else |events|
      ensures forall i :: 0 <= i < |r| ==> r[i] in events
    {
      if !available then [] else NewestFirst(events, limit)
    }

    /** `getAdEventsByDateRange`: exactly the rows with `start <= createdAt <= end`, newest first, no limit. */
    function EventsByDateRange(start: int, end: int): (r: seq<AdEvent>)
      reads this
      ensures !available ==> r == []
      ensures available ==> multiset(r) == multiset(InRange(events, start, end))
      ensures available ==> forall e :: e in r <==> e in events && start <= e.createdAt <= end
      ensures forall i, j :: 0 <= i < j < |r| ==> r[i].createdAt >= r[j].createdAt
    {
      if !available then [] else
        var matching := InRange(events, start, end);
        var r := NewestFirst(matching, |matching|);
        SameElements(r, matching);
        r
    }

    /** `getAdEventStats`: all zeros without a store. */
    function Stats(): (r: EventStats)
      reads this
      ensures !available ==> r == EventStats(0, 0, 0)
      ensures available ==> r == StatsOf(events)
      ensures r.totalImpressions + r.totalClicks <= |events|
    {
      if !available then EventStats(0, 0, 0) else (StatsBounds(events); StatsOf(events))
    }

    /** Would `createAdZone` store this row now? */
    predicate AcceptsZone(z: NewAdZone)
      reads this
    {
      available && AdZoneFits(z) && ZoneIndex(z.zoneId).None? && nextZoneId <= MaxId
    }

    /** `createAdZone`: appends one row; a `zoneId` already present is a duplicate key. */
    method CreateAdZone(z: NewAdZone, now: int) returns (r: Result<int, DbError>)
      requires Valid()
      modifies this
      ensures Valid() && available == old(available)
      ensures events == old(events) && users == old(users)
      ensures !old(available) ==> r == Failure(Unavailable)
      ensures old(available) && !AdZoneFits(z) ==> r == Failure(DataTooLong)
      ensures old(available) && AdZoneFits(z) && (exists i :: 0 <= i < |old(zones)| && old(zones)[i].zoneId == z.zoneId) ==>
        r == Failure(DuplicateKey)
      ensures r.Success? <==> old(AcceptsZone(z))
      ensures r.Failure? ==> zones == old(zones)
      ensures r.Success? ==>
        && r.value == old(nextZoneId)
        && zones == old(zones) + [StoredAdZone(z, r.value, now)]
    {
      if !available {
        return Failure(Unavailable);
      }
      if !AdZoneFits(z) {
        return Failure(DataTooLong);
      }
      if ZoneIndex(z.zoneId).Some? {
        return Failure(DuplicateKey);
      }
      if nextZoneId > MaxId {
        return Failure(IdsExhausted);
      }
      var id := nextZoneId;
      zones := zones + [StoredAdZone(z, id, now)];
      nextZoneId := nextZoneId + 1;
      assert ZoneIds(zones) == ZoneIds(old(zones)) + [id];
      r := Success(id);
    }

    /** The position of the zone row with this `zoneId`, if any. */
    function ZoneIndex(zoneId: string): (r: Option<nat>)
      reads this
      ensures r.Some? ==> r.value < |zones| && zones[r.value].zoneId == zoneId
      ensures r.None? ==> forall i :: 0 <= i < |zones| ==> zones[i].zoneId != zoneId
    {
      FirstZone(zones, zoneId)
    }

    /** `getAdZoneByZoneId`: the row with that `zoneId`, `undefined` without a store. */
    function ZoneByZoneId(zoneId: string): (r: Option<AdZone>)
      reads this
      ensures !available ==> r.None?
      ensures r.Some? ==> r.value in zones && r.value.zoneId == zoneId
      ensures available ==> (r.None? <==> forall i :: 0 <= i < |zones| ==> zones[i].zoneId != zoneId)
    {
      if !available then None
      else
        var i := ZoneIndex(zoneId);
        if i.Some? then Some(zones[i.value]) else None
    }

    /** Since `zoneId` is unique, the lookup returns the one row that has it. */
    lemma ZoneLookupUnique(zoneId: string, k: nat)
      requires Valid() && available && k < |zones| && zones[k].zoneId == zoneId
      ensures ZoneByZoneId(zoneId) == Some(zones[k])
    {
      var i := ZoneIndex(zoneId).value;
      assert i == k;
    }

    /** `getAllAdZones`: every zone row, newest first. */
    function AllZones(): (r: seq<AdZone>)
      reads this
      ensures !available ==> r == []
      ensures available ==> multiset(r) == multiset(zones)
      ensures forall i, j :: 0 <= i < j < |r| ==> r[i].createdAt >= r[j].createdAt
    {
      if !available then [] else
        var r := SortBy(zones, ZoneNewestFirst);
        assert forall i, j :: 0 <= i < j < |r| ==> ZoneNewestFirst(r[i]) <= ZoneNewestFirst(r[j]);
        r
    }

    /** `updateAdZoneStatus`: sets `isActive` on the rows of that zone and on no other row. */
    method UpdateAdZoneStatus(zoneId: string, isActive: bool, now: int) returns (r: Result<(), DbError>)
      requires Valid()
      modifies this
      ensures Valid() && available == old(available)
      ensures events == old(events) && users == old(users)
      ensures r.Failure? <==> !old(available)
      ensures r.Failure? ==> r.error == Unavailable && zones == old(zones)
      ensures r.Success? ==> zones == WithStatus(old(zones), zoneId, isActive, now)
    {
      if !available {
        return Failure(Unavailable);
      }
      var updated := WithStatus(zones, zoneId, isActive, now);
      assert ZoneIds(updated) == ZoneIds(zones);
      zones := updated;
      r := Success(());
    }

    /** `getUserByOpenId`: the row with that `openId`, `undefined` without a store. */
    function UserByOpenId(openId: string): (r: Option<User>)
      reads this
      ensures !available ==> r.None?
      ensures r.Some? ==> r.value in users && r.value.openId == openId
      ensures available ==> (r.None? <==> forall i :: 0 <= i < |users| ==> users[i].openId != openId)
    {
      if !available then None
      else
        var i := IndexOfOpenId(users, openId);
        if i.Some? then Some(users[i.value]) else None
    }

    /**
     * `upsertUser`: refuses a missing `openId`; without a store it does nothing; otherwise it
     * inserts the plan's values as a new row, or applies the update set to the row with that
     * `openId`, leaving every other row as it was.
     */
    method UpsertUser(user: InsertUser, ownerOpenId: string, now: int) returns (r: Result<(), UpsertError>)
      requires Valid()
      modifies this
      ensures Valid() && available == old(available)
      ensures events == old(events) && zones == old(zones)
      ensures user.openId == "" ==> r == Failure(MissingOpenId)
      ensures user.openId != "" && !old(available) ==> r == Success(())
      ensures r.Failure? ==> r == Failure(MissingOpenId) || r.error.StoreError?
      ensures r.Failure? || !old(available) ==> users == old(users)
      ensures r.Success? && old(available) ==>
        var at := IndexOfOpenId(old(users), user.openId);
        if at.None? then
          && |users| == |old(users)| + 1 && users[..|old(users)|] == old(users)
          && Upserted(users[|old(users)|], None, user, ownerOpenId, now)
        else
          && |users| == |old(users)|
          && (forall i :: 0 <= i < |users| && i != at.value ==> users[i] == old(users)[i])
          && Upserted(users[at.value], Some(old(users)[at.value]), user, ownerOpenId, now)
    {
      if user.openId == "" {
        return Failure(MissingOpenId);
      }
      if !available {
        return Success(());
      }
      var at := IndexOfOpenId(users, user.openId);
      if at.None? {
        var row := UpsertedRow(user, ownerOpenId, now, None, nextUserId);
        if !UserFits(row) {
          return Failure(StoreError(DataTooLong));
        }
        if nextUserId > MaxId {
          return Failure(StoreError(IdsExhausted));
        }
        AppendUserValid(users, nextUserId, row);
        users := users + [row];
        nextUserId := nextUserId + 1;
        assert users[..|old(users)|] == old(users) && users[|old(users)|] == row;
        return Success(());
      } else {
        var row := UpsertedRow(user, ownerOpenId, now, Some(users[at.value]), nextUserId);
        if !UserFits(row) {
          return Failure(StoreError(DataTooLong));
        }
        ReplaceUserValid(users, nextUserId, at.value, row);
        users := users[at.value := row];
        assert users[at.value] == row;
        return Success(());
      }
    }
  }

  /**
   * The row an upsert leaves, built as `upsertUser` builds it: the plan's `values` as a new row
   * with id `id` when no row has the `openId` yet, or its `updateSet` applied to `prior`.
   */
  method UpsertedRow(user: InsertUser, ownerOpenId: string, now: int, prior: Option<User>, id: int)
    returns (row: User)
    requires prior.Some? ==> prior.value.openId == user.openId
    ensures Upserted(row, prior, user, ownerOpenId, now)
    ensures row.openId == user.openId
    ensures row.id == if prior.Some? then prior.value.id else id
  {
    var plan := BuildUpsert(user, ownerOpenId, now);
    if prior.None? {
      row := InsertedUser(plan.values, user.openId, id, now);
      InsertedIsUpserted(plan, user, ownerOpenId, now, id);
    } else {
      row := UpdatedUser(prior.value, plan.updateSet, now);
      UpdatedIsUpserted(plan, user, ownerOpenId, now, prior.value);
    }
  }

  /** The column a given field leaves behind: unchanged when `undefined`, else the value or NULL. */
  function ExpectedText(given: Nullable<string>, current: Option<string>): Option<string>
  {
    match given
    case Undefined => current
    case Null => None
    case Present(s) => Some(s)
  }

  /**
   * The row an upsert of `user` leaves, given the row `prior` that had its `openId` before
   * (if any): defined fields overwrite, `undefined` ones keep the prior value or NULL.
   */
  ghost predicate Upserted(u: User, prior: Option<User>, user: InsertUser, ownerOpenId: string, now: int)
  {
    && u.openId == user.openId
    && u.name == ExpectedText(user.name, if prior.Some? then prior.value.name else None)
    && u.email == ExpectedText(user.email, if prior.Some? then prior.value.email else None)
    && u.loginMethod == ExpectedText(user.loginMethod, if prior.Some? then prior.value.loginMethod else None)
    && u.telegramId == ExpectedText(user.telegramId, if prior.Some? then prior.value.telegramId else None)
    && u.telegramUsername ==
         ExpectedText(user.telegramUsername, if prior.Some? then prior.value.telegramUsername else None)
    && u.role == (if user.role.Some? then user.role.value
                  else if user.openId == ownerOpenId then AdminRole
                  else if prior.Some? then prior.value.role
                  else DefaultRole)
    && (user.lastSignedIn.Some? ==> u.lastSignedIn == user.lastSignedIn.value)
    && (prior.None? ==> u.createdAt == now && (user.lastSignedIn.None? ==> u.lastSignedIn == now))
    && (prior.Some? ==> u.id == prior.value.id && u.createdAt == prior.value.createdAt)
    && (prior.Some? && user.lastSignedIn.None? ==>
          u.lastSignedIn == if !AnyTextField(user) && user.role.None? && user.openId != ownerOpenId
                            then now else prior.value.lastSignedIn)
  }

  /** A new row built from a plan is what the upsert promises. */
  lemma InsertedIsUpserted(plan: UpsertPlan, user: InsertUser, ownerOpenId: string, now: int, id: int)
    requires PlanFollowsRules(plan, user, ownerOpenId, now)
    ensures Upserted(InsertedUser(plan.values, user.openId, id, now), None, user, ownerOpenId, now)
  {
    PlanColumns(plan, user);
  }

  /** An existing row updated from a plan is what the upsert promises. */
  lemma UpdatedIsUpserted(plan: UpsertPlan, user: InsertUser, ownerOpenId: string, now: int, prior: User)
    requires PlanFollowsRules(plan, user, ownerOpenId, now) && prior.openId == user.openId
    ensures Upserted(UpdatedUser(prior, plan.updateSet, now), Some(prior), user, ownerOpenId, now)
  {
    PlanColumns(plan, user);
  }

  /** What `BuildUpsert` promises, restated per column so that `TextColumn` can use it. */
  lemma PlanColumns(plan: UpsertPlan, user: InsertUser)
    requires forall i :: 0 <= i < |TextFields| ==>
      var f := TextFields[i];
      && (f in plan.values <==> !TextField(user, f).Undefined?)
      && (f in plan.updateSet <==> !TextField(user, f).Undefined?)
      && (f in plan.values ==> plan.values[f] == CellOf(TextField(user, f)) == plan.updateSet[f])
    ensures forall current ::
      && TextColumn(plan.values, "name", current) == ExpectedText(user.name, current)
      && TextColumn(plan.updateSet, "name", current) == ExpectedText(user.name, current)
    ensures forall current ::
      && TextColumn(plan.values, "email", current) == ExpectedText(user.email, current)
      && TextColumn(plan.updateSet, "email", current) == ExpectedText(user.email, current)
    ensures forall current ::
      && TextColumn(plan.values, "loginMethod", current) == ExpectedText(user.loginMethod, current)
      && TextColumn(plan.updateSet, "loginMethod", current) == ExpectedText(user.loginMethod, current)
    ensures forall current ::
      && TextColumn(plan.values, "telegramId", current) == ExpectedText(user.telegramId, current)
      && TextColumn(plan.updateSet, "telegramId", current) == ExpectedText(user.telegramId, current)
    ensures forall current ::
      && TextColumn(plan.values, "telegramUsername", current) == ExpectedText(user.telegramUsername, current)
      && TextColumn(plan.updateSet, "telegramUsername", current) == ExpectedText(user.telegramUsername, current)
  {
    assert TextFields[0] == "name" && TextFields[1] == "email" && TextFields[2] == "loginMethod";
    assert TextFields[3] == "telegramId" && TextFields[4] == "telegramUsername";
  }

  function FirstZone(zones: seq<AdZone>, zoneId: string): (r: Option<nat>)
    ensures r.Some? ==> r.value < |zones| && zones[r.value].zoneId == zoneId
    ensures r.None? ==> forall i :: 0 <= i < |zones| ==> zones[i].zoneId != zoneId
  {
    if zones == [] then None
    else if zones[0].zoneId == zoneId then Some(0)
    else
      var r := FirstZone(zones[1..], zoneId);
      if r.Some? then Some(r.value + 1) else None
  }
}
