/**
 * The PATCH /orders/{id} handler: checks the path id, parses the body,
 * validates the patch document, turns it into status updates, calls the
 * update handler once and maps its result to a response.
 *
 * The UUID grammar, the JSON parser and the set of order statuses belong to
 * collaborators and are parameters here; responses are abstract values named
 * after the builders that make them.
 */
module PatchOrderLambda {
  import opened Results
  import opened Orders
  import opened Json
  import opened UpdateOrder

  /** The parts of the gateway event the handler reads: `pathParameters?.id` and `body`. */
  datatype ApiEvent = ApiEvent(pathId: Option<string>, body: Option<string>)

  datatype Response =
    | OrdersIdInvalid(id: Option<string>)       // errorOrdersIdInvalid(id)
    | PayloadIsNotJson(body: Option<string>)    // errorPayloadIsNotJson(body)
    | PayloadIsInvalid(payload: Json)           // errorPayloadIsInvalid(value)
    | OrderNotFound                             // errorOrderNotFound()
    | InternalServerError                       // errorInternalServerError()
    | JsonResponse(status: int, json: Order)    // createResponse({json, status})

  /** What `patchOrderLambdaFactory` closes over. */
  datatype PatchOrderLambdaDependencies = PatchOrderLambdaDependencies(
    updateOrder: (UUID, seq<OrderUpdate>) -> Result<Order, UpdateOrderFailure>)

  /**
   * The collaborators the handler consults: the UUID grammar behind
   * `isUUID`, `parseJson` (`None` when the body does not parse) and
   * `OrderStatuses`.
   */
  datatype Collaborators = Collaborators(
    uuidGrammar: string -> bool,
    parseJson: Option<string> -> Option<Json>,
    orderStatuses: set<OrderStatus>)

  /** `isUUID(id)`: a missing id is refused, as the schema marks it required. */
  predicate IsUUID(id: Option<string>, uuidGrammar: string -> bool) {
    id.Some? && uuidGrammar(id.value)
  }

  // ---------------------------------------------------------------------
  // The payload schema
  // ---------------------------------------------------------------------

  /**
   * `orderStatusReplaceValidation`: an object with exactly the members `op`,
   * `path` and `value` (a schema object refuses members it does not name),
   * where `op` is "replace", `path` is "/status" and `value` is the name of
   * an order status.
   */
  predicate IsStatusReplacePatch(item: Json, orderStatuses: set<OrderStatus>) {
    && item.JObject?
    && item.fields.Keys == {"op", "path", "value"}
    && item.fields["op"] == JString("replace")
    && item.fields["path"] == JString("/status")
    && item.fields["value"].JString?
    && item.fields["value"].s in orderStatuses
  }

  /** `a.path`, absent when `a` is not an object or has no `path`. */
  function PathOf(item: Json): Option<Json> {
    if item.JObject? && "path" in item.fields then Some(item.fields["path"]) else None
  }

  /**
   * `payloadIsValid`: an object whose only member is `changes`, an array
   * (possibly empty) of status-replace patches no two of which have the
   * same `path`.
   */
  predicate PayloadIsValid(value: Json, orderStatuses: set<OrderStatus>) {
    && value.JObject?
    && value.fields.Keys == {"changes"}
    && value.fields["changes"].JArray?
    && var changes := value.fields["changes"].elems;
    && (forall i :: 0 <= i < |changes| ==> IsStatusReplacePatch(changes[i], orderStatuses))
    && (forall i, j :: 0 <= i < j < |changes| ==> PathOf(changes[i]) != PathOf(changes[j]))
  }

  /** The patch that sets the status to `status`. */
  function StatusPatch(status: OrderStatus): Json {
    JObject(map["op" := JString("replace"), "path" := JString("/status"), "value" := JString(status)])
  }

  /** The changes of a valid payload. */
  function Changes(value: Json, orderStatuses: set<OrderStatus>): (changes: seq<Json>)
    requires PayloadIsValid(value, orderStatuses)
    ensures forall i :: 0 <= i < |changes| ==> IsStatusReplacePatch(changes[i], orderStatuses)
  {
    value.fields["changes"].elems
  }

  /** Any two status-replace patches have the same path. */
  lemma StatusPatchesSharePath(a: Json, b: Json, orderStatuses: set<OrderStatus>)
    requires IsStatusReplacePatch(a, orderStatuses) && IsStatusReplacePatch(b, orderStatuses)
    ensures PathOf(a) == PathOf(b) == Some(JString("/status"))
  {
  }

  /**
   * Every valid change targets "/status" and no two share a path, so a valid
   * payload holds at most one change.
   */
  lemma ValidPayloadHasAtMostOneChange(value: Json, orderStatuses: set<OrderStatus>)
    requires PayloadIsValid(value, orderStatuses)
    ensures |Changes(value, orderStatuses)| <= 1
  {
    var changes := Changes(value, orderStatuses);
    if |changes| >= 2 {
      StatusPatchesSharePath(changes[0], changes[1], orderStatuses);
      assert false;
    }
  }

  /** A valid status-replace patch is exactly `StatusPatch` of a status in the set. */
  lemma StatusReplacePatchIff(item: Json, orderStatuses: set<OrderStatus>)
    ensures IsStatusReplacePatch(item, orderStatuses) <==>
              item.JObject? && "value" in item.fields && item.fields["value"].JString? &&
              item.fields["value"].s in orderStatuses && item == StatusPatch(item.fields["value"].s)
  {
    if IsStatusReplacePatch(item, orderStatuses) {
      var expected := StatusPatch(item.fields["value"].s);
      assert item.fields == expected.fields;
    }
  }

  /**
   * The valid payloads, listed: the empty change list, and a single patch to
   * a status in the set.
   */
  lemma ValidPayloadsAre(value: Json, orderStatuses: set<OrderStatus>)
    ensures PayloadIsValid(value, orderStatuses) <==>
              || value == JObject(map["changes" := JArray([])])
              || exists status :: status in orderStatuses && value == JObject(map["changes" := JArray([StatusPatch(status)])])
  {
    if PayloadIsValid(value, orderStatuses) {
      ValidPayloadHasAtMostOneChange(value, orderStatuses);
      var changes := Changes(value, orderStatuses);
      assert value.fields == map["changes" := JArray(changes)];
      if |changes| == 1 {
        StatusReplacePatchIff(changes[0], orderStatuses);
        var status := changes[0].fields["value"].s;
        assert changes == [StatusPatch(status)];
        assert value == JObject(map["changes" := JArray([StatusPatch(status)])]);
      } else {
        assert changes == [];
      }
    }
    if exists status :: status in orderStatuses && value == JObject(map["changes" := JArray([StatusPatch(status)])]) {
      var status :| status in orderStatuses && value == JObject(map["changes" := JArray([StatusPatch(status)])]);
      assert StatusPatch(status).fields.Keys == {"op", "path", "value"};
      assert IsStatusReplacePatch(StatusPatch(status), orderStatuses);
    }
  }

  // ---------------------------------------------------------------------
  // From patches to updates, and from results to responses
  // ---------------------------------------------------------------------

  /** `deserializeOrderUpdate`: keeps only the value, and names the field `status`. */
  function DeserializeOrderUpdate(patch: Json): (update: OrderUpdate)
    requires patch.JObject? && "value" in patch.fields && patch.fields["value"].JString?
    ensures update.field == "status" && update.value == patch.fields["value"].s
  {
    OrderUpdate("status", patch.fields["value"].s)
  }

  /** `changes.map(deserializeOrderUpdate)`. */
  function DeserializeChanges(changes: seq<Json>, orderStatuses: set<OrderStatus>): (updates: seq<OrderUpdate>)
    requires forall i :: 0 <= i < |changes| ==> IsStatusReplacePatch(changes[i], orderStatuses)
    ensures |updates| == |changes|
    ensures forall i :: 0 <= i < |changes| ==>
              IsStatusReplacePatch(changes[i], orderStatuses) &&
              updates[i] == OrderUpdate("status", changes[i].fields["value"].s) && updates[i].value in orderStatuses
  {
    seq(|changes|, i requires 0 <= i < |changes| =>
      assert IsStatusReplacePatch(changes[i], orderStatuses);
      DeserializeOrderUpdate(changes[i]))
  }

  /** `errorFailureUpdatingOrder`: a lookup table with one entry per failure. */
  function ErrorFailureUpdatingOrder(failure: UpdateOrderFailure): (response: Response)
    ensures failure == ItemNotFound <==> response == OrderNotFound
    ensures failure == UnknownFailure <==> response == InternalServerError
  {
    match failure
    case ItemNotFound => OrderNotFound
    case UnknownFailure => InternalServerError
  }

  /** `successfullyUpdatedOrder`: status 200 with the order as JSON. */
  function SuccessfullyUpdatedOrder(order: Order): (response: Response)
    ensures response.JsonResponse? && response.status == 200 && response.json == order
  {
    JsonResponse(200, order)
  }

  // ---------------------------------------------------------------------
  // The handler
  // ---------------------------------------------------------------------

  /** What the handler does before any update: answer at once, or call `updateOrder` with these arguments. */
  datatype PatchStep =
    | Reply(response: Response)
    | CallUpdate(id: UUID, updates: seq<OrderUpdate>)

  /**
   * The early-return checks, in the order the handler makes them: id, then
   * JSON, then schema; only a request that passes all three reaches
   * `updateOrder`, with the path id and one update per change (at most one).
   */
  function PlanPatch(event: ApiEvent, env: Collaborators): (step: PatchStep)
    ensures !IsUUID(event.pathId, env.uuidGrammar) ==> step == Reply(OrdersIdInvalid(event.pathId))
    ensures IsUUID(event.pathId, env.uuidGrammar) && env.parseJson(event.body).None? ==>
              step == Reply(PayloadIsNotJson(event.body))
    ensures IsUUID(event.pathId, env.uuidGrammar) && env.parseJson(event.body).Some? &&
            !PayloadIsValid(env.parseJson(event.body).value, env.orderStatuses) ==>
              step == Reply(PayloadIsInvalid(env.parseJson(event.body).value))
    ensures step.CallUpdate? <==>
              IsUUID(event.pathId, env.uuidGrammar) && env.parseJson(event.body).Some? &&
              PayloadIsValid(env.parseJson(event.body).value, env.orderStatuses)
    ensures step.CallUpdate? ==>
              var changes := Changes(env.parseJson(event.body).value, env.orderStatuses);
              && step.id == event.pathId.value
              && |step.updates| == |changes| <= 1
              && forall i :: 0 <= i < |changes| ==>
                   step.updates[i] == OrderUpdate("status", changes[i].fields["value"].s)
  {
    if !IsUUID(event.pathId, env.uuidGrammar) then
      Reply(OrdersIdInvalid(event.pathId))
    else
      match env.parseJson(event.body)
      case None => Reply(PayloadIsNotJson(event.body))
      case Some(value) =>
        if !PayloadIsValid(value, env.orderStatuses) then
          Reply(PayloadIsInvalid(value))
        else
          ValidPayloadHasAtMostOneChange(value, env.orderStatuses);
          CallUpdate(event.pathId.value, DeserializeChanges(Changes(value, env.orderStatuses), env.orderStatuses))
  }

  /** How the handler answers once `updateOrder` has returned. */
  function RespondToUpdate(updateResult: Result<Order, UpdateOrderFailure>): (response: Response)
    ensures updateResult.Success? <==> response.JsonResponse?
    ensures updateResult.Success? ==> response == JsonResponse(200, updateResult.value)
    ensures updateResult.Failure? ==> response == ErrorFailureUpdatingOrder(updateResult.error)
  {
    if updateResult.Failure? then ErrorFailureUpdatingOrder(updateResult.error)
    else SuccessfullyUpdatedOrder(updateResult.value)
  }

  /**
   * The handler `patchOrderLambdaFactory(deps)` returns: a rejection from the
   * checks, or the answer to the single `updateOrder` call.
   */
  function PatchOrder(deps: PatchOrderLambdaDependencies, env: Collaborators, event: ApiEvent): (response: Response)
    ensures PlanPatch(event, env).Reply? ==> response == PlanPatch(event, env).response
    ensures PlanPatch(event, env).CallUpdate? ==>
              response == RespondToUpdate(deps.updateOrder(PlanPatch(event, env).id, PlanPatch(event, env).updates))
    ensures response.JsonResponse? <==>
              PlanPatch(event, env).CallUpdate? &&
              deps.updateOrder(PlanPatch(event, env).id, PlanPatch(event, env).updates).Success?
  {
    match PlanPatch(event, env)
    case Reply(response) => response
    case CallUpdate(id, updates) => RespondToUpdate(deps.updateOrder(id, updates))
  }

  /**
   * A request that fails a check is answered without consulting what comes
   * after that check: an invalid id without parsing the body, and no
   * rejection ever calls `updateOrder`.
   */
  lemma RejectionSkipsLaterSteps(deps: PatchOrderLambdaDependencies, otherDeps: PatchOrderLambdaDependencies,
                                 env: Collaborators, otherParse: Option<string> -> Option<Json>, event: ApiEvent)
    ensures !IsUUID(event.pathId, env.uuidGrammar) ==>
              PatchOrder(otherDeps, env.(parseJson := otherParse), event) == PatchOrder(deps, env, event)
    ensures PlanPatch(event, env).Reply? ==> PatchOrder(otherDeps, env, event) == PatchOrder(deps, env, event)
  {
  }

  /**
   * A request that passes the checks is answered from the result of one call
   * `updateOrder(id, updates)` alone: two update handlers that agree on that
   * call give the same answer.
   */
  lemma OneUpdateCallDecides(deps: PatchOrderLambdaDependencies, otherDeps: PatchOrderLambdaDependencies,
                             env: Collaborators, event: ApiEvent)
    requires PlanPatch(event, env).CallUpdate?
    requires deps.updateOrder(PlanPatch(event, env).id, PlanPatch(event, env).updates)
          == otherDeps.updateOrder(PlanPatch(event, env).id, PlanPatch(event, env).updates)
    ensures PatchOrder(deps, env, event) == PatchOrder(otherDeps, env, event)
  {
  }

  /** The lambda wired to the update handler over a given store. */
  function WiredDependencies(store: UpdateOrderHandlerDependencies): PatchOrderLambdaDependencies {
    PatchOrderLambdaDependencies((id, updates) => UpdateOrderResult(store, id, updates))
  }

  /**
   * Wired to the real update handler, the lambda never answers "order not
   * found": a thrown store error reaches the client as an internal server
   * error, and a normal return as status 200 with the returned attributes.
   */
  lemma WiredLambdaNeverAnswersNotFound(store: UpdateOrderHandlerDependencies, env: Collaborators, event: ApiEvent)
    ensures PatchOrder(WiredDependencies(store), env, event) != OrderNotFound
    ensures PlanPatch(event, env).CallUpdate? ==>
              var request := UpdateItemRequest(store.tableName, PlanPatch(event, env).id, PlanPatch(event, env).updates);
              PatchOrder(WiredDependencies(store), env, event)
                == match store.dynamoUpdate(request)
                   case Ok(attributes) => JsonResponse(200, attributes)
                   case Throws(_) => InternalServerError
  {
    var step := PlanPatch(event, env);
    if step.CallUpdate? {
      UpdateOrderNeverNotFound(store, step.id, step.updates);
    }
  }
}
