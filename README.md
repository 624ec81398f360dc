# orders-api: the order update pipeline, in Dafny

This project models the part of the orders API that updates an existing
order through `PATCH /orders/{id}`. It has three pieces.

- **The PATCH lambda** (`src/lambda/patch-order-lambda.ts`) runs a fixed chain
  of early returns: the path id must be a UUID, the body must be JSON, and the
  JSON must match the patch schema. It then turns the JSON Patch
  `replace /status` changes into status updates. It calls the update handler
  once and maps the result to a response.
- **The update handler** (`src/orders/update-order.ts`) compiles the updates
  into a DynamoDB `UpdateExpression` (`SET status = :a, …`) and an
  `ExpressionAttributeValues` map. It issues one `update` call keyed by
  `{id}` with `ReturnValues: 'ALL_NEW'`. A normal return becomes
  `Success(Attributes)`. Any thrown error becomes `Failure(UnknownFailure)`.
- **The order factory** (`src/orders/orders-factory.ts`) builds a new order from
  its items, an injected `uuid()` and an injected `now()`, with status `Created`.

The compiler keeps three quirks exactly as the code has them:

- its digit table sends both `'1'` and `'3'` to `'b'`;
- `join()` is called without an argument, so multi-digit keys are
  comma-joined (index 10 gets `"b,a"`);
- every assignment names `status`, whatever the update's `field` holds.

Modules, one per source file plus three small shared ones:

- `Results` (`results.dfy`): `Option` and `Result`.
- `Orders` (`orders.dfy`): the order record and its status names.
- `Builtins` (`builtins.dfy`): `Number.prototype.toString`, `Array.prototype.join` and
  `Array.prototype.reduce`, as the compiler uses them.
- `UpdateOrder` (`update_order.dfy`): the compiler and the handler.
- `Json` (`json.dfy`): parsed JSON values.
- `PatchOrderLambda` (`patch_order_lambda.dfy`): the PATCH lambda.
- `OrdersFactory` (`orders_factory.dfy`): `ordersFactoryFactory`.

Collaborators whose code is not part of this model are parameters:

- the UUID grammar behind `isUUID`;
- `parseJson`;
- the set `OrderStatuses`;
- the DynamoDB `update` call, as a function from the request to an outcome
  `Ok(attributes)` or `Throws(error)`;
- the `updateOrder` handler the lambda is given;
- the values successive `uuid()` and `now()` calls return.

The response builders of `common-responses` are abstract constructors of
`Response`, named after the builders.

Consequences of the code as written, each proved:

- index 10 is keyed `"b,a"` (`KeyOfTen`);
- index 3 reuses the key of index 1, so from four updates on the value map
  loses an entry (`AttributeValuesCollide`);
- every assignment names `status`, so the expression depends only on the
  number of updates (`UpdateExpressionIgnoresContents`);
- `changes: []` passes the schema (`ValidPayloadsAre`), and an empty update
  list compiles to `"SET "` with no values (`SerializeEmpty`);
- no `ConditionExpression` is sent and `ItemNotFound` is never returned by the
  update handler (`UpdateOrderNeverNotFound`), so the PATCH lambda wired to it
  never answers "not found" (`WiredLambdaNeverAnswersNotFound`).

## Model

| member | source | states |
|---|---|---|
| `Builtins.DecimalString` | src/orders/update-order.ts:68 | `index.toString()` is a non-empty string of decimal digits that denotes the index, has no leading zero, and has one digit exactly when the index is below 10 |
| `Builtins.JoinOfLetters` | src/orders/update-order.ts:68 | joining one-letter strings with a one-character separator puts the k-th letter at position 2k and the separator at every odd position |
| `UpdateOrder.EncodeDigit` | src/orders/update-order.ts:71-84 | every digit is encoded as one letter between 'a' and 'i' |
| `UpdateOrder.EncodeDigitCollisions` | src/orders/update-order.ts:72-83 | two digits get the same letter exactly when they are equal once '3' is read as '1' |
| `UpdateOrder.EncodeDigitNotInjective` | src/orders/update-order.ts:74-76 | '1' and '3' are both encoded as "b" |
| `UpdateOrder.KeyShape` | src/orders/update-order.ts:67-69 | a key has length 2·(number of digits) − 1, with the letter of the k-th digit at position 2k and a comma at every odd position |
| `UpdateOrder.KeySingleDigit` | src/orders/update-order.ts:67-84 | an index below 10 is keyed by the single letter of its digit |
| `UpdateOrder.KeyMultiDigit` | src/orders/update-order.ts:67-69 | an index of 10 or more has a key of at least three characters with a comma second, so it is never a single letter |
| `UpdateOrder.KeyOfTen` | src/orders/update-order.ts:67-69 | index 10 is keyed "b,a" |
| `UpdateOrder.FirstKeys` | src/orders/update-order.ts:72-83 | indices 0, 1 and 2 are keyed "a", "b" and "c", and index 3 gets the same key as index 1 |
| `UpdateOrder.FirstKeysDistinct` | src/orders/update-order.ts:72-83 | indices 0, 1 and 2 have pairwise distinct keys |
| `UpdateOrder.OnlyOneAndThreeAreB` | src/orders/update-order.ts:67-84 | no index above 3 is keyed "b" |
| `UpdateOrder.KeyCollisionIff` | src/orders/update-order.ts:67-84 | two indices share a key exactly when their decimal renderings agree digit by digit once '3' is read as '1' |
| `UpdateOrder.Intermediates` | src/orders/update-order.ts:48 | one intermediate per update, in input order, each built from the update and its position |
| `UpdateOrder.ReduceSetExpressions` | src/orders/update-order.ts:94 | folding the set-expression reducer from `[]` yields every intermediate's expression, in order |
| `UpdateOrder.KeysOf` | src/orders/update-order.ts:88-91 | the keys of a list of intermediates are exactly the keys its intermediates carry |
| `UpdateOrder.ReduceAttributeValueMap` | src/orders/update-order.ts:88-91 | folding the value-map reducer from `{}` yields exactly the intermediates' keys, each holding the value of the last intermediate carrying it |
| `UpdateOrder.KeySet` | src/orders/update-order.ts:55-58 | the key set of the first n positions contains the key of each of them |
| `UpdateOrder.KeySetMembers` | src/orders/update-order.ts:55-58 | a key is in the key set of n positions exactly when some position below n produces it |
| `UpdateOrder.KeysOfNumbered` | src/orders/update-order.ts:55-58 | intermediates keyed by their positions carry exactly the key set of their count |
| `UpdateOrder.UpdateExpressionShape` | src/orders/update-order.ts:47-63 | `UpdateExpression` is "SET " followed by the assignments `status = :KeyFromIndex(i)`, one per update in order, joined with ", " |
| `UpdateOrder.UpdateExpressionIgnoresContents` | src/orders/update-order.ts:55-62 | two update lists of the same length give the same expression, whatever their fields and values |
| `UpdateOrder.AttributeValuesLastWins` | src/orders/update-order.ts:51 | the value map's keys are the positions' keys, and a key holds the value of the last update that produced it |
| `UpdateOrder.KeySetSize` | src/orders/update-order.ts:55-58 | n positions produce at most n keys |
| `UpdateOrder.KeySetUpToThree` | src/orders/update-order.ts:72-83 | up to three positions produce as many distinct keys |
| `UpdateOrder.KeySetCollides` | src/orders/update-order.ts:72-83 | four or more positions produce fewer keys than positions |
| `UpdateOrder.AttributeValuesUpToThree` | src/orders/update-order.ts:88-91 | with at most three updates the value map has one entry per update, keyed by its position and holding its value |
| `UpdateOrder.AttributeValuesCollide` | src/orders/update-order.ts:88-91 | with four or more updates the map has fewer entries than updates, and "b" holds the value of the update at position 3, overwriting that of position 1 |
| `UpdateOrder.SerializeEmpty` | src/orders/update-order.ts:47-53 | an empty update list is not refused: it gives "SET " and an empty map |
| `UpdateOrder.SerializeOneUpdate` | src/orders/update-order.ts:47-63 | `[Shipped]` gives "SET status = :a" and `{a: Shipped}` |
| `UpdateOrder.SerializeTwoUpdates` | src/orders/update-order.ts:47-63 | `[Created, Shipped]` gives "SET status = :a, status = :b" and `{a: Created, b: Shipped}` |
| `UpdateOrder.TwoUpdatesExpression` | src/orders/update-order.ts:50 | any two updates give "SET status = :a, status = :b" |
| `UpdateOrder.TwoUpdatesValues` | src/orders/update-order.ts:51 | any two updates give `{a: first value, b: second value}` |
| `UpdateOrder.UpdateOrderResult` | src/orders/update-order.ts:14-28 | the handler succeeds exactly when the store call returns, with its attributes passed through as the order; any thrown error is `UnknownFailure` |
| `UpdateOrder.UpdateOrderNeverNotFound` | src/orders/update-order.ts:38-41 | the handler never returns `ItemNotFound` |
| `UpdateOrder.HandleUpdate` | src/orders/update-order.ts:13-28 | one store request for the configured table, key `{id}`, `ReturnValues` "ALL_NEW", and the compiled expression and values; a normal return gives `Success(Attributes)`, a thrown error `Failure(UnknownFailure)` |
| `PatchOrderLambda.StatusPatchesSharePath` | src/lambda/patch-order-lambda.ts:50-54 | every status-replace patch has path "/status" |
| `PatchOrderLambda.ValidPayloadHasAtMostOneChange` | src/lambda/patch-order-lambda.ts:56-64 | a valid payload has at most one change, since every change targets "/status" and paths are unique |
| `PatchOrderLambda.StatusReplacePatchIff` | src/lambda/patch-order-lambda.ts:50-54 | an item passes the patch schema exactly when it is the object `{op: "replace", path: "/status", value: s}` with s an order status |
| `PatchOrderLambda.ValidPayloadsAre` | src/lambda/patch-order-lambda.ts:56-64 | the valid payloads are exactly `{changes: []}` and `{changes: [{op: "replace", path: "/status", value: s}]}` for s an order status |
| `PatchOrderLambda.DeserializeOrderUpdate` | src/lambda/patch-order-lambda.ts:71-74 | a patch becomes `{field: 'status', value}` with its value unchanged |
| `PatchOrderLambda.DeserializeChanges` | src/lambda/patch-order-lambda.ts:32 | the updates have the same length and order as the changes, each `{field: 'status', value}` with the change's value, an order status |
| `PatchOrderLambda.ErrorFailureUpdatingOrder` | src/lambda/patch-order-lambda.ts:66-69 | `ItemNotFound` maps to the not-found response and `UnknownFailure` to the internal-server-error response, and only they do |
| `PatchOrderLambda.SuccessfullyUpdatedOrder` | src/lambda/patch-order-lambda.ts:76-79 | the success response has status 200 and the order as its JSON |
| `PatchOrderLambda.PlanPatch` | src/lambda/patch-order-lambda.ts:27-32 | an invalid id, then an unparsable body, then an invalid payload each give their own error; `updateOrder` is reached exactly when all three checks pass, with the path id and one update per change (at most one) |
| `PatchOrderLambda.RespondToUpdate` | src/lambda/patch-order-lambda.ts:34-35 | a success gives status 200 with the order; a failure gives the failure's error response |
| `PatchOrderLambda.PatchOrder` | src/lambda/patch-order-lambda.ts:26-36 | a rejected request gets the rejection; otherwise the answer is the response to the one `updateOrder(id, updates)` call, and the response is a 200 exactly when that call succeeded |
| `PatchOrderLambda.RejectionSkipsLaterSteps` | src/lambda/patch-order-lambda.ts:27-31 | an invalid id is answered the same whatever the JSON parser and the update handler do; no rejection depends on the update handler |
| `PatchOrderLambda.OneUpdateCallDecides` | src/lambda/patch-order-lambda.ts:33-35 | for a request that passes the checks, the answer depends only on the result of `updateOrder(id, updates)` |
| `PatchOrderLambda.WiredLambdaNeverAnswersNotFound` | src/lambda/patch-order-lambda.ts:33-35 | wired to the update handler over any store, the lambda never answers not-found; a store return gives 200 with the attributes and a thrown error gives an internal server error |
| `OrdersFactory.NewOrder` | src/orders/orders-factory.ts:11-16 | a new order has status Created, the items unchanged, the next `uuid()` value as id and the next `now()` value as creation time, using up exactly one of each |
| `OrdersFactory.NewOrders` | src/orders/orders-factory.ts:11-16 | k successive factory calls give k orders, the j-th with the j-th items, the j-th uuid, the j-th timestamp and status Created |

## Left out

- `src/lambdas.ts` is process wiring: the JWKS URL, environment variables, topic names and SDK clients.
- `src/orders/read-order.ts` and the create and read paths are not part of this model.
- `isUUID` checks joi's `string().uuid()`, whose grammar is not shown. It is an uninterpreted parameter. The model only says that a missing id is refused.
- `parseJson`, `createResponse` and the `common-responses` builders are not part of this model. They are a parameter and abstract response values.
- `OrderStatuses` and the value of `OrderStatus.Created` come from `./order`, which is not part of this model. The statuses are a parameter set, and `Created` is the name "Created".
- joi internals: error messages and convert-mode coercions are not modelled. The model keeps joi's default of refusing object members the schema does not name. Under joi's default convert mode, a string holding JSON may be accepted where the schema asks for an object or an array. Two requests then behave differently in the source than in the model. `{"changes": "[]"}` would pass `payloadIsValid`, and the `.map` at `src/lambda/patch-order-lambda.ts:32` would then throw on the raw string. A change sent as a JSON string would become `{field: 'status', value: undefined}` and reach `updateOrder`. The model answers `PayloadIsInvalid` to both.
- JSON numbers are integers. Floating point plays no part in the schema.
- DynamoDB semantics are the store's business and are not modelled: atomicity, upsert versus missing item, and expression parsing. The store is an abstract outcome. The `Attributes as Order` cast is passed through unchecked.
- `async`/`Promise` and `console.error` logging are left out; the handler's result is the same with or without them.
- `reduce` and `map` also pass the index and the array to their callbacks. Only `map` uses the index (as the position), and the model keeps only that.
- HandleUpdate: the single store call is shown by the one request the method returns. A function parameter cannot count its own calls.
- PatchOrder: "updateOrder is called exactly once" is stated as the answer depending only on the one `updateOrder(id, updates)` result (`OneUpdateCallDecides`), not as a call count.
- NewOrder: `uuid()` and `now()` are modelled as the finite list of values their coming calls return. The requirement that each list holds a next value stands for generators that never run out.
