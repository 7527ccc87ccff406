# Saga-pattern trip handlers: CancelHotel and StatusCheck

This project models two AWS Lambda handlers from a trip-booking saga built on AWS Step Functions, and proves properties of the models.

- **CancelHotel** (`src/functions/CancelHotel/app.js`) cancels the hotel part of a trip. It takes `tripId` from the event. The event is either a flat object or a list whose first element carries the field. The handler then reads the trip's record from the hotel-bookings DynamoDB table and overlays `{tripId, status: "CANCELLED"}` onto it, starting from an empty record when none is stored. It puts the result back and answers 200 with that record as the body. An event whose `tripId` is falsy in both places gets a structured 500, and the table is not touched.
- **StatusCheck** (`src/functions/StatusCheck/app.js`) describes a Step Functions execution. It accepts only `POST`; any other method raises an error. It parses the request body, and a missing or falsy `executionArn` gets a structured 500. Otherwise it makes one `describeExecution` call. Success answers 200 with the execution description. A failed call answers 500 with `{error: message}`.

Layout:

- `js.dfy` (module `Js`): the JavaScript values that events, parsed bodies and DynamoDB items hold. It defines truthiness (the handlers' `||`), property reads (a TypeError on `undefined`/`null`; index keys on arrays and strings) and `String(v)`, the text a template literal interpolates. `Printable` says when `String(v)` succeeds: it fails for an object with its own `toString` key, and for an array holding one.
- `lambda.dfy` (module `Lambda`): a handler invocation's outcome, which is either a returned `{statusCode, body}` or a raised exception. It also holds `LogResponse`, the closing log line both handlers write before they return. That line interpolates `event.path` and so can throw.
- `cancel_hotel.dfy` (module `CancelHotel`):
  - the class `HotelBookings` stands for the table as a DocumentClient sees it: a `map` from trip id to record, plus a log of the `get`/`put` calls made on it, with the key or item each call received when it was made;
  - its method `LambdaHandler` is the handler;
  - the function `Invoke` states the handler's effect on the table, and the lemmas are about `Invoke`.
- `status_check.dfy` (module `StatusCheck`): the handler as a method. It takes `JSON.parse` and `describeExecution` as parameters and also returns the list of ARNs it passed to `describeExecution`.

External collaborators are replaced as follows:

- **DynamoDB** becomes the `items` field of `HotelBookings`. Whether a `get` or a `put` throws is the `StoreFault` parameter. Such an error propagates out of the handler unchanged, with its message.
- **Step Functions** `describeExecution` becomes the parameter `describe : Value -> Describe`.
- **`JSON.parse`** becomes the parameter `parse : string -> Option<Value>`, where `None` means a SyntaxError. It is applied to `String(event.body)`, as JavaScript does.
- **`JSON.stringify`** is not modelled. A response body is the value the handler hands to it.

## Behaviour worth noting

- `src/functions/CancelHotel/app.js:20-22` treats any falsy `tripId` (`undefined`, `null`, `""`, `0`, `false`) as absent: the `|| undefined` turns it into `undefined`, which line 22 tests. Likewise `src/functions/StatusCheck/app.js:26-28` turns any falsy `executionArn` into `null` and answers the structured 500.
- `src/functions/CancelHotel/app.js:20` reads `event[0].tripId` for every event whose own `tripId` is falsy, whatever the event's shape. For an object event without a key `"0"`, `event[0]` is `undefined`, so reading its `tripId` throws a TypeError and the handler raises. The structured 500 is reached only when `event[0]` is neither `undefined` nor `null`, as for `[{}]`.
- `String(v)` throws a TypeError when `v` is an object with its own `toString` key, or an array holding such an object. A value parsed from JSON never has a callable `toString`, and `valueOf` gives back the object itself, so no primitive is found. The handlers convert three event fields to text: `event.httpMethod` in the error message (`src/functions/StatusCheck/app.js:18`), `event.body` inside `JSON.parse` (line 26), and `event.path` in the closing log line (`src/functions/CancelHotel/app.js:58-60`, `src/functions/StatusCheck/app.js:61-63`). The log line comes after the put and after `describeExecution`. So for `{tripId: "x", path: {toString: 1}}`, CancelHotel writes the cancelled record and then raises instead of answering 200.
- The 500 body for a missing trip id is `{bookFlightSuccess: false, error: "Cancel Hotel Error"}` (`src/functions/CancelHotel/app.js:23-29`).

## Model

| member | source | states |
|---|---|---|
| `Js.Or` | src/functions/StatusCheck/app.js:26 | `a || b` is `a` when `a` is truthy and `b` otherwise, so it is truthy exactly when one operand is. This is the `|| null` of this line and the `|| undefined` of CancelHotel line 20. Truthiness is JavaScript's: `undefined`, `null`, `false`, `0` and `""` are falsy |
| `Js.GetProperty` | src/functions/StatusCheck/app.js:17-26 | A property read throws a TypeError exactly when the base is `undefined` or `null`. An object gives its own field or `undefined`, and a number or boolean gives `undefined`. This is how `event.tripId` and `event[0]` (CancelHotel line 20), `event.httpMethod`, `event.body` and `.executionArn` behave |
| `Js.Text` | src/functions/StatusCheck/app.js:18 | `String(v)`, used for the method named in the error message and for the body text handed to `JSON.parse` (line 26). It is defined only for printable values, those without an object that has its own `toString` key. A string is its own text, and a natural number prints as the decimal key that denotes it. A one-element list of a string prints as that string, and only strings and lists print as the empty text |
| `Js.IndexKeyRoundTrip` | src/functions/CancelHotel/app.js:20 | The decimal text of an index is an index key that denotes that index, so `event[0]` reads property `"0"`, which names element 0 |
| `Js.ArrayIndex` | src/functions/CancelHotel/app.js:20 | Reading index `i` of an array gives element `i` when `i` is in range, and `undefined` otherwise |
| `CancelHotel.ArrayIndexZero` | src/functions/CancelHotel/app.js:20 | `event[0]` is the read of key `"0"`; on an array event it is the first element, or `undefined` for an empty array |
| `CancelHotel.ExtractTripId` | src/functions/CancelHotel/app.js:20 | A found key is always truthy. A flat object with a truthy `tripId` yields it. A list event whose first element is an object yields that element's truthy `tripId`, or no key. An object event with neither a truthy `tripId` nor a key `"0"` throws a TypeError. So do a list whose first element is `undefined` or `null`, the empty list, `undefined`, `null`, numbers and booleans. A non-empty string gives no key. For every event, a found key is `event.tripId` when that is truthy, and `event[0].tripId` otherwise. When `event.tripId` is falsy and `event[0]` is neither `undefined` nor `null`, the result is `event[0].tripId` when that is truthy and no key otherwise. When `event[0]` is `undefined` or `null`, the result is a TypeError |
| `Lambda.LogResponse` | src/functions/CancelHotel/app.js:57-62 | The closing log line (the same as StatusCheck lines 60-65) lets the response through exactly when `event.path` can be read and converted to text. Otherwise it raises: a TypeError on an `undefined`/`null` event, or the failed conversion once the event has been read |
| `CancelHotel.CancelledRecord` | src/functions/CancelHotel/app.js:41-44 | The written record has `tripId` set to the key and `status` set to `"CANCELLED"` whatever was stored. Its fields are the stored ones plus these two, and every other stored field keeps its value |
| `CancelHotel.Invoke` | src/functions/CancelHotel/app.js:17-63 | No key means no store call and an unchanged table. A raised key error gives exactly the TypeError. A missing key gives the structured 500 after the log line, and the answer is exactly that 500 when a key is missing and the log line succeeds. A failing get or put propagates its message and leaves the table unchanged. A failing get is the only call made, and a failing put comes after the get, carrying the cancelled record. A returned status is 200 or 500, and it is 200 exactly when a key was found, the store did not fail and the log line succeeded. The table changes only when a key was found and the store did not fail. Then there is one get and one put of the cancelled record, and the outcome is the log line applied to a 200 whose body is exactly the record stored under the key. When that log line fails, the record is still written and the invocation raises. Only the entry at the key can change |
| `CancelHotel.InvokeKeepsKeying` | src/functions/CancelHotel/app.js:46-49 | When every record is stored under its own `tripId`, this still holds after an invocation |
| `CancelHotel.Idempotent` | src/functions/CancelHotel/app.js:41-44 | When the store does not fail, running the handler a second time with the same event gives the same table, the same outcome and the same calls as running it once. The second run leaves the table as the first left it whatever the store does |
| `CancelHotel.InvokeAllCancels` | src/functions/CancelHotel/app.js:33-49 | After any sequence of invocations on a store that does not fail, every trip an event named has a record with status `"CANCELLED"` and its own `tripId`. No record appears for an unnamed trip, none is removed, and records of unnamed trips are unchanged. No stored field other than `tripId`/`status` is lost or altered |
| `CancelHotel.HotelBookings.Get` | src/functions/CancelHotel/app.js:33-40 | Logs one get of the key. It yields the stored item or "absent" (`Got`), or the client's error with its message (`GetError`), and it leaves the table unchanged. An item it finds carries the key asked for as its `tripId` |
| `CancelHotel.HotelBookings.Put` | src/functions/CancelHotel/app.js:46-49 | Logs one put. It stores the item under its own `tripId`, or it fails with the client's error message and nothing changes. It keeps records keyed by their `tripId` |
| `CancelHotel.HotelBookings.LambdaHandler` | src/functions/CancelHotel/app.js:17-63 | The imperative handler (get, `Object.assign`, put, log, respond) raises the error message that the failing get or put returned. It has the outcome, new table and call log that `Invoke` gives, and it keeps records keyed by their `tripId` |
| `CancelHotel.NewItemScenario` | src/functions/CancelCar/__tests__/unit_tests/app.test.js:25-51 | For a trip with no stored record, `{tripId, status: "CANCELLED"}` is answered with 200 and written |
| `CancelHotel.ExistingItemScenario` | src/functions/CancelCar/__tests__/unit_tests/app.test.js:53-79 | For an already cancelled trip, the same record is answered with 200 and the table is unchanged |
| `CancelHotel.WrappedEmptyEventScenario` | src/functions/CancelCar/__tests__/unit_tests/app.test.js:81-101 | The event `[{}]` is answered with 500, with no store call and an unchanged table, whatever the store would do |
| `CancelHotel.UnprintablePathScenario` | src/functions/CancelHotel/app.js:46-62 | For an event with a trip id and a `path` that has its own `toString` key, the store writes the cancelled record and the invocation then raises the failed conversion |
| `StatusCheck.LambdaHandler` | src/functions/StatusCheck/app.js:17-66 | A method other than `POST` raises `Error("Only accept POST method, you tried: " + String(method))`, or the failed conversion when the method cannot be converted to text. An event without properties raises a TypeError. In these cases nothing is parsed or described. A body that cannot be converted to text raises before parsing. Malformed JSON raises a SyntaxError, and a parsed body without properties raises a TypeError. A falsy `executionArn` gives the 500 `{error: "Provide StateMachine Execution Arn"}` with no describe call. Otherwise describe is called exactly once with that ARN: success gives 200 with the document and failure gives 500 with `{error: message}`. Either answer passes through the closing log line, which may raise instead. A returned status is always 200 or 500, and a 200 body is what describe returned |

## Left out

- The shared `params` object and its mutation in place. The handler passes one `params` object to `db.get`, then deletes its `Key` and adds `Item` before `db.put` (`src/functions/CancelHotel/app.js:33-49`). A caller that kept a reference to the get's argument would later see `{TableName, Item}`. The call log records each call's key or item as it was when the call was made, so this aliasing is not captured. The model also does not capture that `Object.assign` updates the fetched `dbData.Item` object in place (line 41); it builds the merged record as a new value.

- The AWS SDK clients, the X-Ray `captureAWS` wrapper and the table name taken from `HOTEL_BOOKINGS_TABLE_NAME`. They become the abstract table and describe function described above.
- DynamoDB details beyond get and put. The model does not check the key type in the table schema: every truthy key is accepted, where a string-keyed table would reject, say, a numeric `tripId`. Store errors are modelled only as an error with a message.
- The text that `console.info`/`console.error` write. The model keeps only the closing log line's effect on the outcome (`Lambda.LogResponse`). The other log calls print values without converting them in the handler, so they cannot throw.
- `JSON.stringify` and the text it produces, including key order. Records are maps, so the model says which fields a body has, not the order in which they are printed.
- JSON syntax. `JSON.parse` is a parameter, so the model does not know which texts are malformed.
- JavaScript numbers are integers here, with no floating point, NaN or exponent notation. Property reads see only own properties, not the prototype chain. A TypeError records the property being read, not the engine's message text.
- Promises and `async`, and concurrent invocations racing on one key. Each invocation is one sequential step, and a sequence of steps is `InvokeAll`.
- The BookFlight and CancelCar handlers. The CancelCar tests are used only as scenarios for CancelHotel, whose protocol is the same.
- The `db` client created but never used in `src/functions/StatusCheck/app.js:3`, and the `context` argument, which neither handler reads.
