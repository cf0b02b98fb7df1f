/**
 * The ad-session registry behind `/monetag/session/start`, `/monetag/session/active` and
 * `/monetag/session/cleanup`: a table of short-lived sessions that tie a user to an ad zone for
 * five minutes. The clock and the random part of the session token are parameters.
 */
module Sessions {
  import opened Wrappers
  import opened JsValues
  import opened Sorting

  /** A session lives five minutes, in milliseconds. */
  const TTL := 5 * 60 * 1000
  /** `active` reads at most this many rows of a zone. */
  const PageSize := 10
  const TokenPrefix := "session_"

  const StartFieldsError := "Missing required fields: userId, userEmail, zoneId"
  const ZoneFieldError := "Missing required field: zoneId"
  const NoSessionError := "No active session found"
  const CleanedMessage := "Expired sessions cleaned up"

  /** A row of the `adSessions` table; `createdAt` is the insertion time. */
  datatype AdSession = AdSession(
    userId: string,
    userEmail: string,
    zoneId: string,
    sessionToken: string,
    expiresAt: int,
    createdAt: int)

  /** The handlers' answers. */
  datatype Reply =
    | Started(sessionToken: string)
    | Found(userId: string, userEmail: string, zoneId: string)
    | Cleaned
    | BadRequest(error: string)
    | NotFound(error: string)
    | InternalError

  function Status(r: Reply): nat
  {
    match r
    case Started(_) => 200
    case Found(_, _, _) => 200
    case Cleaned => 200
    case BadRequest(_) => 400
    case NotFound(_) => 404
    case InternalError => 500
  }

  /**
   * `session_<now>_<suffix>`: the token starts with the fixed prefix and the decimal digits
   * right after it read back as the creation time.
   */
  function Token(now: nat, suffix: string): (t: string)
    ensures |t| >= |TokenPrefix| + |NatToString(now)| + 1
    ensures t[..|TokenPrefix|] == TokenPrefix
    ensures var digits := t[|TokenPrefix|..|TokenPrefix| + |NatToString(now)|];
      (forall i :: 0 <= i < |digits| ==> IsDigit(digits[i])) && DecimalValue(digits) == now
    ensures t[|TokenPrefix| + |NatToString(now)|] == '_'
  {
    var digits := NatToString(now);
    var t := TokenPrefix + digits + "_" + suffix;
    assert t[|TokenPrefix|..|TokenPrefix| + |digits|] == digits;
    NatToStringRoundTrip(now);
    t
  }

  /** `!userId || !userEmail || !zoneId`. */
  predicate MissingStartFields(body: Object)
  {
    !Truthy(Get(body, "userId")) || !Truthy(Get(body, "userEmail")) || !Truthy(Get(body, "zoneId"))
  }

  /** The row `start` inserts: the three fields as strings, expiring `TTL` after `now`. */
  function NewSession(body: Object, now: nat, suffix: string): (s: AdSession)
    ensures s.userId == ToStr(Get(body, "userId")) && s.userEmail == ToStr(Get(body, "userEmail"))
    ensures s.zoneId == ToStr(Get(body, "zoneId"))
    ensures s.sessionToken == Token(now, suffix)
    ensures s.createdAt == now && s.expiresAt == now + TTL
  {
    AdSession(ToStr(Get(body, "userId")), ToStr(Get(body, "userEmail")), ToStr(Get(body, "zoneId")),
              Token(now, suffix), now + TTL, now)
  }

  function CreatedAt(s: AdSession): int { s.createdAt }

  /** Is `s` still live at `now`? Expiry is strict: a row expiring exactly at `now` is not. */
  predicate LiveAt(s: AdSession, now: int) { s.expiresAt > now }

  /** The rows of a zone in ascending creation order: `WHERE zoneId = ? ORDER BY createdAt`. */
  function ZoneRows(rows: seq<AdSession>, zone: string): (r: seq<AdSession>)
    ensures Ascending(r, CreatedAt)
    ensures multiset(r) <= multiset(rows)
    ensures forall i :: 0 <= i < |r| ==> r[i].zoneId == zone
    ensures forall i :: 0 <= i < |rows| && rows[i].zoneId == zone ==> rows[i] in r
  {
    var inZone := Filter(rows, (s: AdSession) => s.zoneId == zone);
    FilterSubMultiset(rows, (s: AdSession) => s.zoneId == zone);
    var r := SortBy(inZone, CreatedAt);
    forall i | 0 <= i < |rows| && rows[i].zoneId == zone
      ensures rows[i] in r
    {
      assert rows[i] in multiset(inZone);
    }
    forall i | 0 <= i < |r|
      ensures r[i].zoneId == zone
    {
      assert r[i] in multiset(inZone);
    }
    r
  }

  /** The last row of an ordered run that is live at `now`, if any. */
  function LastLive(run: seq<AdSession>, now: int): (r: Option<AdSession>)
    requires Ascending(run, CreatedAt)
    ensures r.None? <==> forall i :: 0 <= i < |run| ==> !LiveAt(run[i], now)
    ensures r.Some? ==> r.value in run && LiveAt(r.value, now)
    ensures r.Some? ==> forall i :: 0 <= i < |run| && LiveAt(run[i], now) ==> run[i].createdAt <= r.value.createdAt
  {
    var live := Filter(run, (s: AdSession) => LiveAt(s, now));
    FilterAscending(run, (s: AdSession) => LiveAt(s, now), CreatedAt);
    if live == [] then None
    else
      var last := live[|live| - 1];
      assert forall i :: 0 <= i < |live| ==> live[i].createdAt <= last.createdAt;
      Some(last)
  }

  /**
   * `active` as written: the first `PageSize` rows of the zone in ascending creation order,
   * the live ones among them, and the last of those.
   */
  function ActiveAsWritten(rows: seq<AdSession>, zone: string, now: int): (r: Option<AdSession>)
    ensures r.Some? ==> r.value in rows && r.value.zoneId == zone && LiveAt(r.value, now)
    ensures var page := Take(ZoneRows(rows, zone), PageSize);
      && (r.None? <==> forall i :: 0 <= i < |page| ==> !LiveAt(page[i], now))
      && (r.Some? ==> r.value in page)
      && (r.Some? ==> forall i :: 0 <= i < |page| && LiveAt(page[i], now) ==> page[i].createdAt <= r.value.createdAt)
  {
    var zoneRows := ZoneRows(rows, zone);
    var page := Take(zoneRows, PageSize);
    assert Ascending(page, CreatedAt);
    var r := LastLive(page, now);
    assert r.Some? ==> r.value in multiset(rows);
    r
  }

  /**
   * The session `active` is after: of the zone's rows live at `now`, one created last (on equal
   * creation times, the one inserted last).
   */
  function MostRecentActive(rows: seq<AdSession>, zone: string, now: int): (r: Option<AdSession>)
    ensures r.None? <==> forall i :: 0 <= i < |rows| ==> !(rows[i].zoneId == zone && LiveAt(rows[i], now))
    ensures r.Some? ==> r.value in rows && r.value.zoneId == zone && LiveAt(r.value, now)
    ensures r.Some? ==> forall i :: 0 <= i < |rows| && rows[i].zoneId == zone && LiveAt(rows[i], now) ==>
      rows[i].createdAt <= r.value.createdAt
  {
    LastLiveOfZone(rows, zone, now);
    LastLive(ZoneRows(rows, zone), now)
  }

  /** What `MostRecentActive` promises, shown of the last live row of the zone's ordered rows. */
  lemma LastLiveOfZone(rows: seq<AdSession>, zone: string, now: int)
    ensures var r := LastLive(ZoneRows(rows, zone), now);
      && (r.None? <==> forall i :: 0 <= i < |rows| ==> !(rows[i].zoneId == zone && LiveAt(rows[i], now)))
      && (r.Some? ==> r.value in rows && r.value.zoneId == zone && LiveAt(r.value, now))
      && (r.Some? ==> forall i :: 0 <= i < |rows| && rows[i].zoneId == zone && LiveAt(rows[i], now) ==>
            rows[i].createdAt <= r.value.createdAt)
  {
    var zoneRows := ZoneRows(rows, zone);
    var r := LastLive(zoneRows, now);
    if r.Some? {
      assert r.value in multiset(zoneRows);
      assert r.value in multiset(rows);
      forall i | 0 <= i < |rows| && rows[i].zoneId == zone && LiveAt(rows[i], now)
        ensures rows[i].createdAt <= r.value.createdAt
      {
        var j := ZoneRowIndex(rows, zone, i);
      }
    } else {
      forall i | 0 <= i < |rows|
        ensures !(rows[i].zoneId == zone && LiveAt(rows[i], now))
      {
        if rows[i].zoneId == zone {
          var j := ZoneRowIndex(rows, zone, i);
        }
      }
    }
  }

  /** Where a row of the zone sits among the zone's ordered rows. */
  lemma ZoneRowIndex(rows: seq<AdSession>, zone: string, i: nat) returns (j: nat)
    requires i < |rows| && rows[i].zoneId == zone
    ensures j < |ZoneRows(rows, zone)| && ZoneRows(rows, zone)[j] == rows[i]
  {
    j :| 0 <= j < |ZoneRows(rows, zone)| && ZoneRows(rows, zone)[j] == rows[i];
  }

  /** While a zone has at most `PageSize` rows, the page is all of them and nothing is missed. */
  lemma SmallZoneAgrees(rows: seq<AdSession>, zone: string, now: int)
    requires |ZoneRows(rows, zone)| <= PageSize
    ensures ActiveAsWritten(rows, zone, now) == MostRecentActive(rows, zone, now)
  {
    assert Take(ZoneRows(rows, zone), PageSize) == ZoneRows(rows, zone);
  }

  /** The zone's rows after appending a row created no earlier than any of them. */
  lemma ZoneRowsAppendNewest(rows: seq<AdSession>, s: AdSession)
    requires forall i :: 0 <= i < |rows| ==> rows[i].createdAt <= s.createdAt
    ensures ZoneRows(rows + [s], s.zoneId) == ZoneRows(rows, s.zoneId) + [s]
  {
    var p := (x: AdSession) => x.zoneId == s.zoneId;
    FilterAppend(rows, [s], p);
    assert Filter([s], p) == [s];
    var inZone := Filter(rows, p);
    forall i | 0 <= i < |inZone|
      ensures CreatedAt(inZone[i]) <= CreatedAt(s)
    {
      assert inZone[i] in rows;
    }
    SortByAppendMax(inZone, s, CreatedAt);
  }

  /**
   * A session just started is what the intended lookup finds in its zone for its whole
   * lifetime, as long as no later session is started there.
   */
  lemma StartedSessionIsFound(rows: seq<AdSession>, s: AdSession, t: int)
    requires forall i :: 0 <= i < |rows| ==> rows[i].createdAt <= s.createdAt
    requires s.createdAt <= t < s.expiresAt
    ensures MostRecentActive(rows + [s], s.zoneId, t) == Some(s)
  {
    ZoneRowsAppendNewest(rows, s);
    var zoneRows := ZoneRows(rows, s.zoneId) + [s];
    var p := (x: AdSession) => LiveAt(x, t);
    FilterAppend(ZoneRows(rows, s.zoneId), [s], p);
    assert Filter([s], p) == [s];
  }

  /**
   * The paging of `active` as written hides a new session: when a zone already holds
   * `PageSize` rows created no later than the new one, all expired but not yet cleaned up,
   * `active` answers "not found" although the new session is live.
   */
  lemma PageHidesNewSession(rows: seq<AdSession>, s: AdSession, now: int)
    requires forall i :: 0 <= i < |rows| ==> rows[i].createdAt <= s.createdAt
    requires forall i :: 0 <= i < |rows| ==> !LiveAt(rows[i], now)
    requires |ZoneRows(rows, s.zoneId)| >= PageSize
    requires s.createdAt <= now < s.expiresAt
    ensures ActiveAsWritten(rows + [s], s.zoneId, now).None?
    ensures MostRecentActive(rows + [s], s.zoneId, now) == Some(s)
  {
    StartedSessionIsFound(rows, s, now);
    FullPageUnchanged(rows, s);
    var page := Take(ZoneRows(rows, s.zoneId), PageSize);
    forall i | 0 <= i < |page|
      ensures !LiveAt(page[i], now)
    {
      assert page[i] in multiset(ZoneRows(rows, s.zoneId));
      assert page[i] in multiset(rows);
    }
  }

  /** Once a zone holds a full page, appending a newer row leaves the page as it was. */
  lemma FullPageUnchanged(rows: seq<AdSession>, s: AdSession)
    requires forall i :: 0 <= i < |rows| ==> rows[i].createdAt <= s.createdAt
    requires |ZoneRows(rows, s.zoneId)| >= PageSize
    ensures Take(ZoneRows(rows + [s], s.zoneId), PageSize) == Take(ZoneRows(rows, s.zoneId), PageSize)
  {
    ZoneRowsAppendNewest(rows, s);
    TakeOfFullAppend(ZoneRows(rows, s.zoneId), s, PageSize);
  }

  lemma TakeOfFullAppend(run: seq<AdSession>, s: AdSession, n: nat)
    requires |run| >= n
    ensures Take(run + [s], n) == Take(run, n)
  {
    assert (run + [s])[..n] == run[..n];
  }

  /** The concrete case: ten sessions started at 0..9 ms in zone "z", then an eleventh at 400000. */
  lemma PageHidesNewSessionExample()
    ensures var old_ := seq(PageSize, (i: int) => AdSession("u", "e", "z", "t", i + TTL, i));
      var s := AdSession("v", "f", "z", "w", 400000 + TTL, 400000);
      && ActiveAsWritten(old_ + [s], "z", 400000).None?
      && MostRecentActive(old_ + [s], "z", 400000) == Some(s)
  {
    var old_ := seq(PageSize, (i: int) => AdSession("u", "e", "z", "t", i + TTL, i));
    var s := AdSession("v", "f", "z", "w", 400000 + TTL, 400000);
    FilterAll(old_, (x: AdSession) => x.zoneId == "z");
    PageHidesNewSession(old_, s, 400000);
  }

  /** What `cleanup` keeps: `DELETE ... WHERE expiresAt < now` leaves the rest in order. */
  function Unexpired(rows: seq<AdSession>, now: int): (r: seq<AdSession>)
    ensures forall i :: 0 <= i < |r| ==> r[i].expiresAt >= now
    ensures forall i :: 0 <= i < |rows| && rows[i].expiresAt >= now ==> rows[i] in r
    ensures forall i :: 0 <= i < |r| ==> r[i] in rows
    ensures multiset(r) <= multiset(rows)
  {
    FilterSubMultiset(rows, (s: AdSession) => s.expiresAt >= now);
    Filter(rows, (s: AdSession) => s.expiresAt >= now)
  }

  /** Cleanup removes exactly the rows expired before `now`: the kept and the removed make up the table. */
  lemma CleanupRemovesOnlyExpired(rows: seq<AdSession>, now: int)
    ensures |Unexpired(rows, now)| + |Filter(rows, (s: AdSession) => s.expiresAt < now)| == |rows|
  {
    FilterSplit(rows, (s: AdSession) => s.expiresAt >= now, (s: AdSession) => s.expiresAt < now);
  }

  /** A second cleanup at the same instant changes nothing. */
  lemma CleanupIdempotent(rows: seq<AdSession>, now: int)
    ensures Unexpired(Unexpired(rows, now), now) == Unexpired(rows, now)
  {
    FilterIdempotent(rows, (s: AdSession) => s.expiresAt >= now);
  }

  /** A row expiring exactly at `now` is neither found by either lookup nor deleted. */
  lemma ExpiryBoundary(rows: seq<AdSession>, s: AdSession, now: int)
    requires s in rows && s.expiresAt == now
    ensures s in Unexpired(rows, now)
    ensures ActiveAsWritten(rows, s.zoneId, now) != Some(s)
    ensures MostRecentActive(rows, s.zoneId, now) != Some(s)
  {
  }

  /** Cleaning up at `now` does not change what the lookup finds at `now` or later. */
  lemma CleanupKeepsLookup(rows: seq<AdSession>, zone: string, now: int, t: int)
    requires now <= t
    ensures var before := MostRecentActive(rows, zone, t);
      var after := MostRecentActive(Unexpired(rows, now), zone, t);
      && (before.None? <==> after.None?)
      && (before.Some? ==> before.value.createdAt == after.value.createdAt)
  {
    var before := MostRecentActive(rows, zone, t);
    var after := MostRecentActive(Unexpired(rows, now), zone, t);
    if before.Some? {
      CleanupKeepsFound(rows, zone, now, t);
    } else if after.Some? {
      CleanupFindsNothingNew(rows, zone, now, t);
    }
  }

  /** A row the lookup finds before cleanup is matched, in creation time, by one found after it. */
  lemma CleanupKeepsFound(rows: seq<AdSession>, zone: string, now: int, t: int)
    requires now <= t && MostRecentActive(rows, zone, t).Some?
    ensures var after := MostRecentActive(Unexpired(rows, now), zone, t);
      after.Some? && after.value.createdAt == MostRecentActive(rows, zone, t).value.createdAt
  {
    var kept := Unexpired(rows, now);
    var before := MostRecentActive(rows, zone, t).value;
    var k := KeptIndex(rows, now, t, before);
    assert kept[k].zoneId == zone && LiveAt(kept[k], t);
    var after := MostRecentActive(kept, zone, t).value;
    assert before.createdAt <= after.createdAt;
    var j := RowIndex(rows, now, after);
    assert rows[j].zoneId == zone && LiveAt(rows[j], t);
    assert after.createdAt <= before.createdAt;
  }

  /** Cleanup does not make the lookup find a row where it found none. */
  lemma CleanupFindsNothingNew(rows: seq<AdSession>, zone: string, now: int, t: int)
    requires MostRecentActive(Unexpired(rows, now), zone, t).Some?
    ensures MostRecentActive(rows, zone, t).Some?
  {
    var after := MostRecentActive(Unexpired(rows, now), zone, t).value;
    var j := RowIndex(rows, now, after);
    assert rows[j].zoneId == zone && LiveAt(rows[j], t);
  }

  /** Where a row still live at `t >= now` sits after cleanup at `now`. */
  lemma KeptIndex(rows: seq<AdSession>, now: int, t: int, x: AdSession) returns (k: nat)
    requires now <= t && x in rows && LiveAt(x, t)
    ensures k < |Unexpired(rows, now)| && Unexpired(rows, now)[k] == x
  {
    var i :| 0 <= i < |rows| && rows[i] == x;
    assert x in Unexpired(rows, now);
    k :| 0 <= k < |Unexpired(rows, now)| && Unexpired(rows, now)[k] == x;
  }

  /** Where a row kept by cleanup sat before it. */
  lemma RowIndex(rows: seq<AdSession>, now: int, x: AdSession) returns (j: nat)
    requires x in Unexpired(rows, now)
    ensures j < |rows| && rows[j] == x
  {
    j :| 0 <= j < |rows| && rows[j] == x;
  }

  /** The `adSessions` table, with an optional store behind it. */
  class SessionTable {
    var available: bool
    var rows: seq<AdSession>

    /** Every row expires `TTL` after it was created. */
    ghost predicate Valid()
      reads this
    {
      forall i :: 0 <= i < |rows| ==> rows[i].expiresAt == rows[i].createdAt + TTL
    }

    constructor (available: bool)
      ensures Valid() && this.available == available && rows == []
    {
      this.available := available;
      rows := [];
    }

    /** `POST /monetag/session/start`. */
    method Start(body: Object, now: nat, suffix: string) returns (r: Reply)
      requires Valid()
      modifies this
      ensures Valid() && available == old(available)
      ensures MissingStartFields(body) ==> r == BadRequest(StartFieldsError) && rows == old(rows)
      ensures !MissingStartFields(body) && !available ==> r == InternalError && rows == old(rows)
      ensures !MissingStartFields(body) && available ==>
        && r == Started(Token(now, suffix))
        && rows == old(rows) + [NewSession(body, now, suffix)]
    {
      if MissingStartFields(body) {
        return BadRequest(StartFieldsError);
      }
      if !available {
        return InternalError;
      }
      var s := NewSession(body, now, suffix);
      rows := rows + [s];
      r := Started(s.sessionToken);
    }

    /** `GET /monetag/session/active`, with the lookup of `MostRecentActive`. */
    function Active(q: Query, now: int): (r: Reply)
      reads this
      ensures !Truthy(QueryParam(q, "zoneId")) ==> r == BadRequest(ZoneFieldError)
      ensures Truthy(QueryParam(q, "zoneId")) && !available ==> r == InternalError
      ensures Truthy(QueryParam(q, "zoneId")) && available ==>
        var found := MostRecentActive(rows, QueryParam(q, "zoneId").s, now);
        && (found.None? ==> r == NotFound(NoSessionError))
        && (found.Some? ==> r == Found(found.value.userId, found.value.userEmail, found.value.zoneId))
      ensures r.Found? ==> r.zoneId == QueryParam(q, "zoneId").s
    {
      var zoneId := QueryParam(q, "zoneId");
      if !Truthy(zoneId) then BadRequest(ZoneFieldError)
      else if !available then InternalError
      else
        var found := MostRecentActive(rows, zoneId.s, now);
        if found.None? then NotFound(NoSessionError)
        else Found(found.value.userId, found.value.userEmail, found.value.zoneId)
    }

    /** `DELETE /monetag/session/cleanup`. */
    method Cleanup(now: int) returns (r: Reply)
      requires Valid()
      modifies this
      ensures Valid() && available == old(available)
      ensures !available ==> r == InternalError && rows == old(rows)
      ensures available ==> r == Cleaned && rows == Unexpired(old(rows), now)
    {
      if !available {
        return InternalError;
      }
      rows := Unexpired(rows, now);
      r := Cleaned;
    }
  }

  /** Start followed by active, at any instant within the session's lifetime, finds that session. */
  lemma StartThenActive(rows: seq<AdSession>, body: Object, now: nat, suffix: string, t: int)
    requires !MissingStartFields(body)
    requires forall i :: 0 <= i < |rows| ==> rows[i].createdAt <= now
    requires now <= t < now + TTL
    ensures var s := NewSession(body, now, suffix);
      MostRecentActive(rows + [s], s.zoneId, t) == Some(s)
  {
    StartedSessionIsFound(rows, NewSession(body, now, suffix), t);
  }
}
