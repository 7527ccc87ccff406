/**
 * The CancelHotel Lambda handler: it takes the trip id from the event, reads
 * the trip's record from the hotel-bookings table, overlays
 * `{tripId, status: "CANCELLED"}` onto it (or onto an empty record when there
 * is none) and writes the result back, answering 200 with the record written.
 * With no trip id it answers a structured 500 and does not touch the table.
 *
 * The DynamoDB DocumentClient is the class HotelBookings: a map from trip id
 * to record, plus the log of calls made on it. Whether a get or a put throws is
 * given by a StoreFault; such an error is not caught by the handler.
 */
module CancelHotel {
  import opened Js
  import opened Lambda

  /** A DynamoDB item: attribute name to value. */
  type Record = map<string, Value>

  datatype StoreFault = NoFault | GetFails(message: string) | PutFails(message: string)

  /** How a `db.get` settles: with the stored item, if any, or with the client's error. */
  datatype GetResult = Got(item: Option<Record>) | GetError(message: string)

  /** One call on the DocumentClient, with the key or item it received when it was made. */
  datatype StoreCall = GetCall(key: Value) | PutCall(item: Record)

  const Cancelled: Value := Str("CANCELLED")

  /** The body of the 500 answered for an event without a trip id. */
  const MissingTripIdBody: Value :=
    Obj(map["bookFlightSuccess" := Bool(false), "error" := Str("Cancel Hotel Error")])

  /** What `event.tripId || event[0].tripId || undefined` yields. */
  datatype Extraction = Found(tripId: Value) | Missing | Throws(exception: Exception)

  function ExtractTripId(event: Value): (r: Extraction)
    ensures r.Found? ==> Truthy(r.tripId)
    ensures r.Throws? ==> r.exception == TypeError("tripId")
    // a flat object event
    ensures event.Obj? && "tripId" in event.fields && Truthy(event.fields["tripId"]) ==>
              r == Found(event.fields["tripId"])
    // an event wrapped in a one-element (or longer) list
    ensures event.Arr? && |event.elems| > 0 && event.elems[0].Obj? ==>
              var first := event.elems[0].fields;
              r == if "tripId" in first && Truthy(first["tripId"]) then Found(first["tripId"]) else Missing
    // `event[0]` is undefined, so `event[0].tripId` throws
    ensures event.Obj? && !("tripId" in event.fields && Truthy(event.fields["tripId"])) &&
            "0" !in event.fields ==>
              r == Throws(TypeError("tripId"))
    ensures event == Arr([]) || event.Undefined? || event.Null? || event.Num? || event.Bool? ==>
              r == Throws(TypeError("tripId"))
    // `event[0]` is undefined or null, so `event[0].tripId` throws
    ensures event.Arr? && |event.elems| > 0 && (event.elems[0].Undefined? || event.elems[0].Null?) ==>
              r == Throws(TypeError("tripId"))
    // a non-empty string: `event[0]` is its first character, which has no tripId
    ensures event.Str? && event.s != "" ==> r == Missing
    // for every event: the key is `event.tripId` when that is truthy, else `event[0].tripId`;
    // when `event[0]` is neither undefined nor null, a falsy `event[0].tripId` gives Missing
    ensures GetProperty(event, "tripId").CannotRead? ==> r == Throws(TypeError("tripId"))
    ensures var direct := GetProperty(event, "tripId");
            direct.Read? && !Truthy(direct.value) ==>
              var first := GetProperty(event, "0").value;
              r == if first.Undefined? || first.Null? then Throws(TypeError("tripId"))
                   else
                     var nested := GetProperty(first, "tripId").value;
                     if Truthy(nested) then Found(nested) else Missing
    ensures r.Found? ==>
              var direct := GetProperty(event, "tripId").value;
              && (Truthy(direct) ==> r.tripId == direct)
              && (!Truthy(direct) ==> GetProperty(GetProperty(event, "0").value, "tripId") == Read(r.tripId))
  {
    match GetProperty(event, "tripId")
    case CannotRead => Throws(TypeError("tripId"))
    case Read(direct) =>
      if Truthy(direct) then Found(direct)
      else
        ArrayIndexZero(event);
        var first := GetIndex(event, 0).value;
        match GetProperty(first, "tripId")
        case CannotRead => Throws(TypeError("tripId"))
        case Read(nested) =>
          var tripId := Or(nested, Undefined);
          if tripId == Undefined then Missing else Found(tripId)
  }

  lemma ArrayIndexZero(event: Value)
    ensures GetIndex(event, 0) == GetProperty(event, "0")
    ensures event.Arr? ==> GetIndex(event, 0) == if |event.elems| > 0 then Read(event.elems[0]) else Read(Undefined)
  {
  }

  /**
   * `Object.assign(stored || {}, {tripId, status: "CANCELLED"})`: the record
   * the handler writes.
   */
  function CancelledRecord(stored: Option<Record>, tripId: Value): (r: Record)
    ensures "tripId" in r && r["tripId"] == tripId
    ensures "status" in r && r["status"] == Cancelled
    ensures r.Keys == (if stored.Some? then stored.value.Keys else {}) + {"tripId", "status"}
    ensures forall f :: stored.Some? && f in stored.value && f != "tripId" && f != "status" ==>
              r[f] == stored.value[f]
  {
    var base: Record := if stored.Some? then stored.value else map[];
    base["tripId" := tripId]["status" := Cancelled]
  }

  function Lookup(items: map<Value, Record>, key: Value): Option<Record> {
    if key in items then Some(items[key]) else None
  }

  /** DynamoDB keeps each item under the value of its key attribute. */
  ghost predicate KeyedByTripId(items: map<Value, Record>) {
    forall k :: k in items ==> "tripId" in items[k] && items[k]["tripId"] == k
  }

  /** One invocation: its outcome, the table after it and the calls it made on the table. */
  datatype Step = Step(outcome: Outcome, items: map<Value, Record>, calls: seq<StoreCall>)

  /** The handler as a function of the table before the invocation. */
  function Invoke(items: map<Value, Record>, event: Value, fault: StoreFault): (s: Step)
    // no trip id: no store access, nothing written
    ensures !ExtractTripId(event).Found? <==> s.calls == []
    ensures !ExtractTripId(event).Found? ==> s.items == items
    // no trip id: the structured 500, unless the closing log line throws
    ensures ExtractTripId(event).Missing? ==> s.outcome == LogResponse(event, Response(500, MissingTripIdBody))
    ensures s.outcome == Returned(Response(500, MissingTripIdBody)) <==>
              ExtractTripId(event).Missing? && LogsCleanly(event)
    ensures ExtractTripId(event).Throws? <==> s.outcome == Raised(TypeError("tripId"))
    // a failing store call propagates and leaves the table as it was
    ensures ExtractTripId(event).Found? && !fault.NoFault? ==>
              s.outcome == Raised(Error(fault.message)) && s.items == items
    // a failing get is the only call; a failing put follows the get
    ensures ExtractTripId(event).Found? && fault.GetFails? ==>
              s.calls == [GetCall(ExtractTripId(event).tripId)]
    ensures ExtractTripId(event).Found? && fault.PutFails? ==>
              var k := ExtractTripId(event).tripId;
              s.calls == [GetCall(k), PutCall(CancelledRecord(Lookup(items, k), k))]
    // the answer is 200 or 500, and 200 exactly when something was written and logged
    ensures s.outcome.Returned? ==> s.outcome.response.statusCode in {200, 500}
    ensures s.outcome.Returned? && s.outcome.response.statusCode == 200 <==>
              ExtractTripId(event).Found? && fault.NoFault? && LogsCleanly(event)
    ensures s.items != items ==> ExtractTripId(event).Found? && fault.NoFault?
    // when both calls succeed: one get, one put of the cancelled record, which is also the body;
    // the record is written even when the closing log line then throws
    ensures ExtractTripId(event).Found? && fault.NoFault? ==>
              var k := ExtractTripId(event).tripId;
              && k in s.items
              && s.items[k] == CancelledRecord(Lookup(items, k), k)
              && s.outcome == LogResponse(event, Response(200, Obj(s.items[k])))
              && s.calls == [GetCall(k), PutCall(s.items[k])]
    ensures ExtractTripId(event).Found? && fault.NoFault? && !LogsCleanly(event) ==>
              s.outcome == Raised(NotConvertible)
    // only the entry at the trip id can change
    ensures ExtractTripId(event).Found? ==>
              forall k :: k != ExtractTripId(event).tripId ==>
                (k in s.items <==> k in items) && (k in items ==> s.items[k] == items[k])
  {
    match ExtractTripId(event)
    case Throws(e) => Step(Raised(e), items, [])
    case Missing => Step(LogResponse(event, Response(500, MissingTripIdBody)), items, [])
    case Found(k) =>
      if fault.GetFails? then Step(Raised(Error(fault.message)), items, [GetCall(k)])
      else
        var item := CancelledRecord(Lookup(items, k), k);
        if fault.PutFails? then Step(Raised(Error(fault.message)), items, [GetCall(k), PutCall(item)])
        else Step(LogResponse(event, Response(200, Obj(item))), items[k := item], [GetCall(k), PutCall(item)])
  }

  /** An invocation keeps every record stored under its own trip id. */
  lemma InvokeKeepsKeying(items: map<Value, Record>, event: Value, fault: StoreFault)
    requires KeyedByTripId(items)
    ensures KeyedByTripId(Invoke(items, event, fault).items)
  {
  }

  /**
   * Running the handler a second time with the same event leaves the same
   * table, and, when the store does not fail, gives the same answer and makes
   * the same calls.
   */
  lemma Idempotent(items: map<Value, Record>, event: Value)
    ensures var once := Invoke(items, event, NoFault);
            && Invoke(once.items, event, NoFault) == once
            && forall fault :: Invoke(once.items, event, fault).items == once.items
  {
    var once := Invoke(items, event, NoFault);
    if ExtractTripId(event).Found? {
      var k := ExtractTripId(event).tripId;
      var item := once.items[k];
      assert CancelledRecord(Some(item), k) == item;
    }
  }

  /** The table after a sequence of invocations, each on the table the previous one left. */
  function InvokeAll(items: map<Value, Record>, events: seq<Value>): map<Value, Record>
    decreases |events|
  {
    if events == [] then items
    else InvokeAll(Invoke(items, events[0], NoFault).items, events[1..])
  }

  /** The trip ids the events of a sequence name. */
  function TripIds(events: seq<Value>): set<Value>
    decreases |events|
  {
    if events == [] then {}
    else (match ExtractTripId(events[0]) case Found(k) => {k} case _ => {}) + TripIds(events[1..])
  }

  /**
   * After any sequence of cancellations, every named trip is cancelled and has
   * a record, no record was deleted or added for an unnamed trip, records of
   * unnamed trips are untouched, and no stored field other than tripId and
   * status was lost or changed.
   */
  lemma {:induction false} InvokeAllCancels(items: map<Value, Record>, events: seq<Value>)
    ensures var after := InvokeAll(items, events);
            && (forall k :: k in TripIds(events) ==>
                  && k in after && "status" in after[k] && "tripId" in after[k]
                  && after[k]["status"] == Cancelled && after[k]["tripId"] == k)
            && (forall k :: k in after <==> k in items || k in TripIds(events))
            && (forall k :: k in items && k !in TripIds(events) ==> after[k] == items[k])
            && (forall k, f :: k in items && f in items[k] && f != "tripId" && f != "status" ==>
                  f in after[k] && after[k][f] == items[k][f])
    decreases |events|
  {
    if events != [] {
      var next := Invoke(items, events[0], NoFault).items;
      InvokeAllCancels(next, events[1..]);
      var after := InvokeAll(items, events);
      assert after == InvokeAll(next, events[1..]);
      match ExtractTripId(events[0])
      case Found(k) => {
        assert TripIds(events) == {k} + TripIds(events[1..]);
        forall j | j in TripIds(events)
          ensures && j in after && "status" in after[j] && "tripId" in after[j]
                  && after[j]["status"] == Cancelled && after[j]["tripId"] == j
        {
          if j !in TripIds(events[1..]) {
            assert j == k;
          }
        }
      }
      case Missing => {
        assert TripIds(events) == TripIds(events[1..]);
      }
      case Throws(_) => {
        assert TripIds(events) == TripIds(events[1..]);
      }
    }
  }

  /** The DocumentClient on the hotel-bookings table. */
  class HotelBookings {
    var items: map<Value, Record>
    var calls: seq<StoreCall>

    ghost predicate Valid()
      reads this
    {
      KeyedByTripId(items)
    }

    constructor (initial: map<Value, Record>)
      requires KeyedByTripId(initial)
      ensures Valid()
      ensures items == initial && calls == []
    {
      items := initial;
      calls := [];
    }

    /** `db.get({TableName, Key: {tripId: key}})`, resolving to `Item` (absent when none). */
    method Get(key: Value, fault: StoreFault) returns (r: GetResult)
      requires Valid()
      modifies this
      ensures items == old(items)
      ensures calls == old(calls) + [GetCall(key)]
      ensures r == if fault.GetFails? then GetError(fault.message) else Got(Lookup(items, key))
      // the item found is the one whose tripId is the key asked for
      ensures r.Got? && r.item.Some? ==> "tripId" in r.item.value && r.item.value["tripId"] == key
    {
      calls := calls + [GetCall(key)];
      if fault.GetFails? {
        r := GetError(fault.message);
      } else {
        r := Got(Lookup(items, key));
      }
    }

    /**
     * `db.put({TableName, Item: item})`: the item replaces the one stored under
     * its tripId, or the call fails with the client's error message.
     */
    method Put(item: Record, fault: StoreFault) returns (failure: Option<string>)
      requires Valid()
      requires "tripId" in item
      modifies this
      ensures Valid()
      ensures calls == old(calls) + [PutCall(item)]
      ensures failure == if fault.PutFails? then Some(fault.message) else None
      ensures items == if failure.None? then old(items)[item["tripId"] := item] else old(items)
    {
      calls := calls + [PutCall(item)];
      if fault.PutFails? {
        failure := Some(fault.message);
      } else {
        failure := None;
        items := items[item["tripId"] := item];
      }
    }

    /** `lambdaHandler(event)` */
    method LambdaHandler(event: Value, fault: StoreFault) returns (outcome: Outcome)
      requires Valid()
      modifies this
      ensures Valid()
      ensures var s := Invoke(old(items), event, fault);
              outcome == s.outcome && items == s.items && calls == old(calls) + s.calls
    {
      var response: Option<Response> := None;
      var key := ExtractTripId(event);
      if key.Throws? {
        return Raised(key.exception);
      }
      if key.Missing? {
        response := Some(Response(500, MissingTripIdBody));
      }
      if response.None? {
        var tripId := key.tripId;
        var got := Get(tripId, fault);
        if got.GetError? {
          return Raised(Error(got.message));
        }
        var item := CancelledRecord(got.item, tripId);
        var failure := Put(item, fault);
        if failure.Some? {
          return Raised(Error(failure.value));
        }
        response := Some(Response(200, Obj(item)));
      }
      // the closing log line interpolates `event.path`
      outcome := LogResponse(event, response.value);
    }
  }

  // The scenarios of the CancelCar unit tests, whose handler follows the same protocol.

  const TestTripId: Value := Str("5c12d94a-ee6a-40d9-889b-1d49142248b7")

  /** A new trip: the record written and answered is `{tripId, status: "CANCELLED"}`. */
  lemma NewItemScenario(items: map<Value, Record>)
    requires TestTripId !in items
    ensures var event := Obj(map["tripId" := TestTripId, "status" := Cancelled]);
            var s := Invoke(items, event, NoFault);
            var written := map["tripId" := TestTripId, "status" := Cancelled];
            s.outcome == Returned(Response(200, Obj(written))) && s.items == items[TestTripId := written]
  {
  }

  /** An already cancelled trip: the same record is written again and answered. */
  lemma ExistingItemScenario(items: map<Value, Record>)
    requires TestTripId in items
    requires items[TestTripId] == map["tripId" := TestTripId, "status" := Cancelled]
    ensures var event := Obj(map["tripId" := TestTripId, "status" := Cancelled]);
            var s := Invoke(items, event, NoFault);
            s.outcome == Returned(Response(200, Obj(items[TestTripId]))) && s.items == items
  {
  }

  /**
   * An event whose `path` has its own `toString` key: the record is written,
   * and then the closing log line throws.
   */
  lemma UnprintablePathScenario(items: map<Value, Record>)
    ensures var event := Obj(map["tripId" := TestTripId, "path" := Obj(map["toString" := Num(1)])]);
            var s := Invoke(items, event, NoFault);
            && s.outcome == Raised(NotConvertible)
            && s.items == items[TestTripId := CancelledRecord(Lookup(items, TestTripId), TestTripId)]
  {
  }

  /** The event `[{}]` has no trip id: structured 500, no call on the table. */
  lemma WrappedEmptyEventScenario(items: map<Value, Record>, fault: StoreFault)
    ensures var s := Invoke(items, Arr([Obj(map[])]), fault);
            s.outcome.response.statusCode == 500 && s.items == items && s.calls == []
  {
  }
}
