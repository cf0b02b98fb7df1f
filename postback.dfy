/**
 * The ad-network webhook `/monetag/postback` (POST and GET share the same code): payloads that
 * carry the literal, unexpanded `{sub_id}`/`{sub_id2}` macros are ignored, otherwise `event_type`
 * and `zone_id` are validated and one event row, built from the query, is appended.
 */
module Postback {
  import opened Wrappers
  import opened JsValues
  import opened Schema
  import RawData
  import Db

  const LiteralSubId := "{sub_id}"
  const LiteralSubId2 := "{sub_id2}"

  const IgnoredMessage := "Ignored - literal macros"
  const RecordedMessage := "Event recorded"
  const MissingFieldsError := "Missing required fields: event_type, zone_id"
  const InvalidTypeError := "Invalid event_type. Must be 'impression' or 'click'"
  const InternalErrorMessage := "Internal server error"

  /** What the handler answers. */
  datatype Outcome = Ignored | BadRequest(error: string) | Recorded | InternalError

  function Status(o: Outcome): nat
  {
    match o
    case Ignored => 200
    case BadRequest(_) => 400
    case Recorded => 200
    case InternalError => 500
  }

  /** The `success` flag of the JSON body. */
  predicate Succeeded(o: Outcome) { o.Ignored? || o.Recorded? }

  /** The `message` (on success) or `error` (on failure) text of the JSON body. */
  function Text(o: Outcome): string
  {
    match o
    case Ignored => IgnoredMessage
    case BadRequest(e) => e
    case Recorded => RecordedMessage
    case InternalError => InternalErrorMessage
  }

  /** Both correlation parameters arrived as their own unexpanded placeholders. */
  predicate HasLiteralMacros(q: Query)
  {
    QueryParam(q, "sub_id") == Str(LiteralSubId) && QueryParam(q, "sub_id2") == Str(LiteralSubId2)
  }

  /** `!event_type || !zone_id`. */
  predicate MissingRequired(q: Query)
  {
    !Truthy(QueryParam(q, "event_type")) || !Truthy(QueryParam(q, "zone_id"))
  }

  /** The decision the handler takes before it touches the store. */
  datatype Decision = Ignore | Reject(error: string) | Accept(row: NewAdEvent)

  /**
   * The event row built from the query: `telegramId` and `subId` both carry `sub_id`, each
   * optional column is the parameter or NULL when it is falsy, `userAgent` comes from the
   * request header and `rawData` is the whole query serialized.
   */
  function EventRow(q: Query, kind: EventType, userAgent: Option<string>): (row: NewAdEvent)
    requires QueryParam(q, "zone_id").Str?
    ensures row.eventType == kind && row.zoneId == QueryParam(q, "zone_id").s
    ensures row.telegramId == row.subId == NullIfFalsy(QueryParam(q, "sub_id"))
    ensures row.clickId == NullIfFalsy(QueryParam(q, "click_id"))
    ensures row.revenue == NullIfFalsy(QueryParam(q, "revenue"))
    ensures row.currency == NullIfFalsy(QueryParam(q, "currency"))
    ensures row.ipAddress == NullIfFalsy(QueryParam(q, "ip"))
    ensures row.country == NullIfFalsy(QueryParam(q, "country"))
    ensures row.eventId.None? && row.userId.None? && row.subId2.None?
    ensures row.userAgent.Some? <==> userAgent.Some? && userAgent.value != ""
    ensures row.userAgent.Some? ==> row.userAgent == userAgent
    ensures row.rawData == Some(RawData.Serialize(q))
  {
    var telegramId := NullIfFalsy(QueryParam(q, "sub_id"));
    var agent := if userAgent.Some? && userAgent.value != "" then userAgent else None;
    NewAdEvent(
      eventType := kind,
      eventId := None,
      userId := None,
      telegramId := telegramId,
      zoneId := QueryParam(q, "zone_id").s,
      clickId := NullIfFalsy(QueryParam(q, "click_id")),
      subId := NullIfFalsy(QueryParam(q, "sub_id")),
      subId2 := None,
      revenue := NullIfFalsy(QueryParam(q, "revenue")),
      currency := NullIfFalsy(QueryParam(q, "currency")),
      userAgent := agent,
      ipAddress := NullIfFalsy(QueryParam(q, "ip")),
      country := NullIfFalsy(QueryParam(q, "country")),
      rawData := Some(RawData.Serialize(q)))
  }

  /**
   * The early-return chain of the handler: the literal-macro check first, then the required
   * fields, then the event kind; otherwise the row to insert.
   */
  function Decide(q: Query, userAgent: Option<string>): (d: Decision)
    ensures d.Ignore? <==> HasLiteralMacros(q)
    ensures d == Reject(MissingFieldsError) <==> !HasLiteralMacros(q) && MissingRequired(q)
    ensures d == Reject(InvalidTypeError) <==>
      && !HasLiteralMacros(q) && !MissingRequired(q)
      && QueryParam(q, "event_type") != Str("impression") && QueryParam(q, "event_type") != Str("click")
    ensures d.Reject? ==> d.error == MissingFieldsError || d.error == InvalidTypeError
    ensures d.Accept? ==>
      && QueryParam(q, "event_type") == Str(EventTypeName(d.row.eventType))
      && QueryParam(q, "zone_id") == Str(d.row.zoneId) && d.row.zoneId != ""
  {
    if HasLiteralMacros(q) then Ignore
    else if MissingRequired(q) then Reject(MissingFieldsError)
    else
      var kind := ParseEventType(QueryParam(q, "event_type").s);
      if kind.None? then Reject(InvalidTypeError)
      else Accept(EventRow(q, kind.value, userAgent))
  }

  /**
   * An accepted row carries what the query said: its kind and zone are the query's, and its
   * `rawData` reads back to the whole query, so every other parameter can be recovered from it.
   */
  lemma AcceptedRowReflectsQuery(q: Query, userAgent: Option<string>)
    requires Decide(q, userAgent).Accept?
    ensures var row := Decide(q, userAgent).row;
      && row.rawData.Some?
      && RawData.Parse(row.rawData.value) == Some(q)
      && QueryParam(RawData.Parse(row.rawData.value).value, "zone_id") == Str(row.zoneId)
      && QueryParam(RawData.Parse(row.rawData.value).value, "event_type") == Str(EventTypeName(row.eventType))
  {
    RawData.SerializeRoundTrip(q);
  }

  /** The answer for a decision, given whether the store took the row. */
  function Respond(d: Decision, stored: bool): (o: Outcome)
    ensures Succeeded(o) <==> d.Ignore? || (d.Accept? && stored)
    ensures Status(o) == 400 <==> d.Reject?
    ensures Status(o) == 500 <==> d.Accept? && !stored
  {
    match d
    case Ignore => Ignored
    case Reject(e) => BadRequest(e)
    case Accept(_) => if stored then Recorded else InternalError
  }

  /**
   * The handler of `POST /monetag/postback` and of `GET /monetag/postback`: appends exactly one
   * row when the payload is accepted and the store takes it, and nothing otherwise.
   */
  method Handle(store: Db.Store, q: Query, userAgent: Option<string>, now: int) returns (out: Outcome)
    requires store.Valid()
    modifies store
    ensures store.Valid() && store.available == old(store.available)
    ensures store.zones == old(store.zones) && store.users == old(store.users)
    ensures var d := Decide(q, userAgent);
      out == Respond(d, d.Accept? && old(store.AcceptsEvent(d.row)))
    ensures var d := Decide(q, userAgent);
      store.events == if d.Accept? && old(store.AcceptsEvent(d.row))
                      then old(store.events) + [StoredAdEvent(d.row, old(store.nextEventId), now)]
                      else old(store.events)
  {
    var d := Decide(q, userAgent);
    if !d.Accept? {
      out := Respond(d, false);
      return;
    }
    ghost var accepts := store.AcceptsEvent(d.row);
    var r := store.CreateAdEvent(d.row, now);
    assert r.Success? <==> accepts;
    out := if r.Success? then Recorded else InternalError;
  }

  // ---------------------------------------------------------------------------------------
  // The handlers as written: `sub_id2` is compared but never declared

  /** The as-written chain either throws before deciding or decides as `Decide` does. */
  datatype AsWritten = Threw | Decided(decision: Decision)

  /**
   * The handlers' code evaluates `sub_id === '{sub_id}' && sub_id2 === '{sub_id2}'` with no
   * binding for `sub_id2` in scope: the right operand is only evaluated when `sub_id` is the
   * literal macro, and then it throws a `ReferenceError`, which the handler's catch turns into 500.
   */
  function DecideAsWritten(q: Query, userAgent: Option<string>): (r: AsWritten)
    ensures r.Threw? <==> QueryParam(q, "sub_id") == Str(LiteralSubId)
    ensures r.Decided? ==> !HasLiteralMacros(q) && r.decision == Decide(q, userAgent)
  {
    if QueryParam(q, "sub_id") == Str(LiteralSubId) then Threw else Decided(Decide(q, userAgent))
  }

  function RespondAsWritten(r: AsWritten, stored: bool): Outcome
  {
    if r.Threw? then InternalError else Respond(r.decision, stored)
  }

  /** The payload the macro check was written for gets 500 as written instead of 200 "Ignored". */
  lemma LiteralMacrosThrowAsWritten()
    ensures var q: Query := [("sub_id", LiteralSubId), ("sub_id2", LiteralSubId2),
                             ("event_type", "impression"), ("zone_id", "10269314")];
      && RespondAsWritten(DecideAsWritten(q, None), true) == InternalError
      && Respond(Decide(q, None), true) == Ignored
  {
    var q: Query := [("sub_id", LiteralSubId), ("sub_id2", LiteralSubId2),
                     ("event_type", "impression"), ("zone_id", "10269314")];
    assert q[1..][0] == ("sub_id2", LiteralSubId2);
    assert QueryParam(q, "sub_id") == Str(LiteralSubId);
    assert QueryParam(q, "sub_id2") == Str(LiteralSubId2);
  }

  /** Away from the literal `sub_id`, the as-written handlers and the model agree. */
  lemma AsWrittenAgreesElsewhere(q: Query, userAgent: Option<string>, stored: bool)
    requires QueryParam(q, "sub_id") != Str(LiteralSubId)
    ensures RespondAsWritten(DecideAsWritten(q, userAgent), stored) == Respond(Decide(q, userAgent), stored)
  {
  }
}
