/**
 * The order update service: the compiler that turns an ordered list of
 * status updates into a DynamoDB `UpdateExpression` and its
 * `ExpressionAttributeValues`, and the handler that issues the one store
 * call and classifies its outcome.
 *
 * The compiler's three quirks are kept as the code has them: the digit table
 * sends both '1' and '3' to 'b'; the encoded digits of a key are joined with
 * JavaScript's default separator ","; and every assignment names the literal
 * attribute `status`, whatever the update's `field` says.
 */
module UpdateOrder {
  import opened Results
  import opened Orders
  import opened Builtins

  /** `OrderStatusUpdate`: the only kind of update there is. */
  datatype OrderUpdate = OrderUpdate(field: string, value: OrderStatus)

  datatype UpdateOrderFailure = UnknownFailure | ItemNotFound

  datatype Operation = Set

  /** One update, ready to be folded into the expression and the value map. */
  datatype UpdateIntermediate = UpdateIntermediate(key: string, expression: string, operation: Operation, value: OrderStatus)

  datatype SerializedUpdate = SerializedUpdate(updateExpression: string, expressionAttributeValues: map<string, OrderStatus>)

  // ---------------------------------------------------------------------
  // Placeholder keys
  // ---------------------------------------------------------------------

  /** The digit-to-letter table, an object lookup in the source. */
  function EncodeDigit(d: char): (r: string)
    requires IsDigit(d)
    ensures |r| == 1 && 'a' <= r[0] <= 'i'
  {
    match d
    case '0' => "a"
    case '1' => "b"
    case '2' => "c"
    case '3' => "b"
    case '4' => "d"
    case '5' => "e"
    case '6' => "f"
    case '7' => "g"
    case '8' => "h"
    case _ => "i"
  }

  /** The one identification the table makes: '3' is read as '1'. */
  function Conflate(d: char): char {
    if d == '3' then '1' else d
  }

  /** Two digits get the same letter exactly when they agree up to reading '3' as '1'. */
  lemma EncodeDigitCollisions(d: char, e: char)
    requires IsDigit(d) && IsDigit(e)
    ensures EncodeDigit(d) == EncodeDigit(e) <==> Conflate(d) == Conflate(e)
  {
  }

  /** The table is not injective. */
  lemma EncodeDigitNotInjective()
    ensures EncodeDigit('1') == EncodeDigit('3') == "b"
  {
  }

  /** The letters of the digits of `index`, one one-letter string per digit. */
  function EncodedDigits(index: nat): (parts: seq<string>)
    ensures |parts| == |DecimalString(index)|
    ensures forall k :: 0 <= k < |parts| ==> parts[k] == EncodeDigit(DecimalString(index)[k])
  {
    var digits := DecimalString(index);
    seq(|digits|, k requires 0 <= k < |digits| => EncodeDigit(digits[k]))
  }

  /** `index.toString().split('').map(encodeDigit).join()`. */
  function KeyFromIndex(index: nat): string {
    Join(EncodedDigits(index), ",")
  }

  /**
   * The shape of a key: the letters of the decimal digits of `index` at the
   * even positions, and a comma at every odd position.
   */
  lemma KeyShape(index: nat)
    ensures |KeyFromIndex(index)| == 2 * |DecimalString(index)| - 1
    ensures forall j :: 0 <= j < |KeyFromIndex(index)| ==>
              KeyFromIndex(index)[j] == if j % 2 == 0 then EncodeDigit(DecimalString(index)[j / 2])[0] else ','
  {
    JoinOfLetters(EncodedDigits(index), ',');
  }

  /** The letter at position 2k of a key is the letter of the k-th digit. */
  lemma KeyLetterAt(index: nat, k: nat)
    requires k < |DecimalString(index)|
    ensures 2 * k < |KeyFromIndex(index)|
    ensures KeyFromIndex(index)[2 * k] == EncodeDigit(DecimalString(index)[k])[0]
  {
    KeyShape(index);
    var j := 2 * k;
    assert j % 2 == 0 && j / 2 == k;
    assert KeyFromIndex(index)[j] == EncodeDigit(DecimalString(index)[j / 2])[0];
  }

  /** A one-digit index is keyed by the single letter of its digit. */
  lemma KeySingleDigit(index: nat)
    requires index < 10
    ensures KeyFromIndex(index) == EncodeDigit(DigitChar(index))
    ensures |KeyFromIndex(index)| == 1
  {
    assert DecimalString(index) == [DigitChar(index)];
  }

  /** A key of an index with two or more digits holds a comma, so no such key is a single letter. */
  lemma KeyMultiDigit(index: nat)
    requires index >= 10
    ensures |KeyFromIndex(index)| >= 3 && KeyFromIndex(index)[1] == ','
  {
    KeyShape(index);
  }

  /** Index 10 gets "b,a", not "ba". */
  lemma KeyOfTen()
    ensures KeyFromIndex(10) == "b,a"
  {
    assert DecimalString(1) == "1";
    assert DecimalString(10) == "10";
    assert EncodedDigits(10) == ["b", "a"];
  }

  /** The first three indices get distinct keys; index 3 gets the key of index 1. */
  lemma FirstKeys()
    ensures KeyFromIndex(0) == "a" && KeyFromIndex(1) == "b" && KeyFromIndex(2) == "c"
    ensures KeyFromIndex(3) == KeyFromIndex(1)
  {
    KeySingleDigit(0);
    KeySingleDigit(1);
    KeySingleDigit(2);
    KeySingleDigit(3);
  }

  /** The digits of a decimal string with every '3' read as '1'. */
  function ConflateAll(s: string): (r: string)
    ensures |r| == |s|
  {
    seq(|s|, k requires 0 <= k < |s| => Conflate(s[k]))
  }

  /** Equal keys come from decimal renderings that agree once '3' is read as '1'. */
  lemma SameKeySameConflated(i: nat, j: nat)
    requires KeyFromIndex(i) == KeyFromIndex(j)
    ensures ConflateAll(DecimalString(i)) == ConflateAll(DecimalString(j))
  {
    var di, dj := DecimalString(i), DecimalString(j);
    KeyShape(i);
    KeyShape(j);
    assert |di| == |dj|;
    forall k | 0 <= k < |di| ensures ConflateAll(di)[k] == ConflateAll(dj)[k] {
      KeyLetterAt(i, k);
      KeyLetterAt(j, k);
      assert EncodeDigit(di[k]) == [EncodeDigit(di[k])[0]];
      assert EncodeDigit(dj[k]) == [EncodeDigit(dj[k])[0]];
      EncodeDigitCollisions(di[k], dj[k]);
    }
  }

  /** Renderings that agree once '3' is read as '1' give equal keys. */
  lemma SameConflatedSameKey(i: nat, j: nat)
    requires ConflateAll(DecimalString(i)) == ConflateAll(DecimalString(j))
    ensures KeyFromIndex(i) == KeyFromIndex(j)
  {
    var di, dj := DecimalString(i), DecimalString(j);
    var ei, ej := EncodedDigits(i), EncodedDigits(j);
    forall k | 0 <= k < |ei| ensures ei[k] == ej[k] {
      assert ConflateAll(di)[k] == ConflateAll(dj)[k];
      EncodeDigitCollisions(di[k], dj[k]);
    }
    assert ei == ej;
  }

  /**
   * Two indices share a key exactly when their decimal renderings have the
   * same length and agree digit by digit once '3' is read as '1'.
   */
  lemma KeyCollisionIff(i: nat, j: nat)
    ensures KeyFromIndex(i) == KeyFromIndex(j) <==> ConflateAll(DecimalString(i)) == ConflateAll(DecimalString(j))
  {
    if KeyFromIndex(i) == KeyFromIndex(j) {
      SameKeySameConflated(i, j);
    }
    if ConflateAll(DecimalString(i)) == ConflateAll(DecimalString(j)) {
      SameConflatedSameKey(i, j);
    }
  }

  // ---------------------------------------------------------------------
  // The compiler
  // ---------------------------------------------------------------------

  /** The assignment for the update at `index`: always the attribute `status`. */
  function Fragment(index: nat): string {
    "status = :" + KeyFromIndex(index)
  }

  function MapToIntermediate(update: OrderUpdate, index: nat): (r: UpdateIntermediate)
    ensures r.key == KeyFromIndex(index) && r.value == update.value
    ensures r.expression == Fragment(index) && r.operation == Set
  {
    UpdateIntermediate(KeyFromIndex(index), Fragment(index), Set, update.value)
  }

  /** `updates.map(mapToIntermediate)`: each update with its position. */
  function Intermediates(updates: seq<OrderUpdate>): (xs: seq<UpdateIntermediate>)
    ensures |xs| == |updates|
    ensures forall i :: 0 <= i < |xs| ==> xs[i] == MapToIntermediate(updates[i], i)
  {
    seq(|updates|, i requires 0 <= i < |updates| => MapToIntermediate(updates[i], i))
  }

  /** The reducer that appends one assignment to the list of assignments. */
  function AccumulateSetExpressionUpdates(prev: seq<string>, cur: UpdateIntermediate): seq<string> {
    prev + [cur.expression]
  }

  /** The reducer that spreads the previous map and sets one key; a later key overwrites. */
  function AccumulateAttributeValueMap(prev: map<string, OrderStatus>, cur: UpdateIntermediate): map<string, OrderStatus> {
    prev[cur.key := cur.value]
  }

  function SerializeUpdates(updates: seq<OrderUpdate>): SerializedUpdate {
    var intermediates := Intermediates(updates);
    SerializedUpdate(
      "SET " + Join(Reduce(intermediates, AccumulateSetExpressionUpdates, []), ", "),
      Reduce(intermediates, AccumulateAttributeValueMap, map[]))
  }

  /** The assignments of the first `n` positions, in order. */
  function Fragments(n: nat): (fs: seq<string>)
    ensures |fs| == n
    ensures forall i :: 0 <= i < n ==> fs[i] == Fragment(i)
  {
    seq(n, i requires 0 <= i < n => Fragment(i))
  }

  /** The set-expression reducer keeps every expression, in input order. */
  lemma {:induction false} ReduceSetExpressions(xs: seq<UpdateIntermediate>)
    ensures Reduce(xs, AccumulateSetExpressionUpdates, []) == seq(|xs|, i requires 0 <= i < |xs| => xs[i].expression)
  {
    if xs != [] {
      ReduceSetExpressions(xs[..|xs| - 1]);
    }
  }

  /** The keys a list of intermediates carries. */
  function KeysOf(xs: seq<UpdateIntermediate>): (keys: set<string>)
    ensures forall i :: 0 <= i < |xs| ==> xs[i].key in keys
    ensures forall k :: k in keys ==> exists i :: 0 <= i < |xs| && xs[i].key == k
    decreases |xs|
  {
    if xs == [] then {} else KeysOf(xs[..|xs| - 1]) + {xs[|xs| - 1].key}
  }

  /**
   * The value-map reducer: the keys are exactly the intermediates' keys, and
   * each key holds the value of the last intermediate that carries it.
   */
  lemma {:induction false} ReduceAttributeValueMap(xs: seq<UpdateIntermediate>)
    ensures Reduce(xs, AccumulateAttributeValueMap, map[]).Keys == KeysOf(xs)
    ensures forall i :: 0 <= i < |xs| && (forall j :: i < j < |xs| ==> xs[j].key != xs[i].key) ==>
              Reduce(xs, AccumulateAttributeValueMap, map[])[xs[i].key] == xs[i].value
  {
    if xs != [] {
      var init := xs[..|xs| - 1];
      ReduceAttributeValueMap(init);
      var last := xs[|xs| - 1];
      var m := Reduce(xs, AccumulateAttributeValueMap, map[]);
      assert m == Reduce(init, AccumulateAttributeValueMap, map[])[last.key := last.value];
      forall i | 0 <= i < |xs| - 1 && (forall j :: i < j < |xs| ==> xs[j].key != xs[i].key)
        ensures m[xs[i].key] == xs[i].value
      {
        assert init[i] == xs[i];
        forall j | i < j < |init| ensures init[j].key != init[i].key {
          assert init[j] == xs[j];
        }
        assert xs[|xs| - 1].key != xs[i].key;
      }
    }
  }

  /** The placeholder keys the first `n` positions produce. */
  function KeySet(n: nat): (keys: set<string>)
    ensures forall i :: 0 <= i < n ==> KeyFromIndex(i) in keys
  {
    if n == 0 then {} else KeySet(n - 1) + {KeyFromIndex(n - 1)}
  }

  /** A key is in `KeySet(n)` exactly when some position below `n` produces it. */
  lemma {:induction false} KeySetMembers(n: nat, k: string)
    ensures k in KeySet(n) <==> exists i :: 0 <= i < n && KeyFromIndex(i) == k
  {
    if n > 0 {
      KeySetMembers(n - 1, k);
    }
  }

  /** Intermediates numbered from 0 carry exactly the keys of their positions. */
  lemma {:induction false} KeysOfNumbered(xs: seq<UpdateIntermediate>)
    requires forall i :: 0 <= i < |xs| ==> xs[i].key == KeyFromIndex(i)
    ensures KeysOf(xs) == KeySet(|xs|)
  {
    if xs != [] {
      KeysOfNumbered(xs[..|xs| - 1]);
    }
  }

  /**
   * `UpdateExpression` is "SET " followed by one assignment per update, in
   * input order, joined with ", "; the assignment at position i is
   * "status = :" + KeyFromIndex(i) whatever the update holds.
   */
  lemma UpdateExpressionShape(updates: seq<OrderUpdate>)
    ensures SerializeUpdates(updates).updateExpression == "SET " + Join(Fragments(|updates|), ", ")
  {
    var xs := Intermediates(updates);
    ReduceSetExpressions(xs);
    assert seq(|xs|, i requires 0 <= i < |xs| => xs[i].expression) == Fragments(|updates|);
  }

  /** The expression depends only on how many updates there are, not on their fields or values. */
  lemma UpdateExpressionIgnoresContents(updates: seq<OrderUpdate>, others: seq<OrderUpdate>)
    requires |updates| == |others|
    ensures SerializeUpdates(updates).updateExpression == SerializeUpdates(others).updateExpression
  {
    UpdateExpressionShape(updates);
    UpdateExpressionShape(others);
  }

  /**
   * `ExpressionAttributeValues` has exactly the keys of the positions, and a
   * key holds the value of the last update, in input order, that produced it.
   */
  lemma AttributeValuesLastWins(updates: seq<OrderUpdate>)
    ensures SerializeUpdates(updates).expressionAttributeValues.Keys == KeySet(|updates|)
    ensures forall i :: 0 <= i < |updates| && (forall j :: i < j < |updates| ==> KeyFromIndex(j) != KeyFromIndex(i)) ==>
              SerializeUpdates(updates).expressionAttributeValues[KeyFromIndex(i)] == updates[i].value
  {
    var xs := Intermediates(updates);
    var m := SerializeUpdates(updates).expressionAttributeValues;
    assert m == Reduce(xs, AccumulateAttributeValueMap, map[]);
    ReduceAttributeValueMap(xs);
    KeysOfNumbered(xs);
    forall i | 0 <= i < |updates| && (forall j :: i < j < |updates| ==> KeyFromIndex(j) != KeyFromIndex(i))
      ensures m[KeyFromIndex(i)] == updates[i].value
    {
      assert xs[i] == MapToIntermediate(updates[i], i);
      assert forall j :: i < j < |xs| ==> xs[j].key != xs[i].key;
    }
  }

  /** At most one key per position. */
  lemma {:induction false} KeySetSize(n: nat)
    ensures |KeySet(n)| <= n
  {
    if n > 0 {
      KeySetSize(n - 1);
    }
  }

  /** The first three positions have three distinct keys. */
  lemma KeySetUpToThree(n: nat)
    requires n <= 3
    ensures |KeySet(n)| == n
  {
    FirstKeys();
    assert KeySet(1) == {"a"};
    assert KeySet(2) == {"a", "b"};
    assert KeySet(3) == {"a", "b", "c"};
  }

  /** From four positions on, there is always one key fewer than positions. */
  lemma {:induction false} KeySetCollides(n: nat)
    requires n >= 4
    ensures |KeySet(n)| <= n - 1
  {
    if n == 4 {
      FirstKeys();
      KeySetUpToThree(3);
      assert KeySet(4) == KeySet(3);
    } else {
      KeySetCollides(n - 1);
    }
  }

  /** No position after 3 is keyed "b". */
  lemma OnlyOneAndThreeAreB(j: nat)
    requires j > 3
    ensures KeyFromIndex(j) != "b"
  {
    if j < 10 {
      KeySingleDigit(j);
    } else {
      KeyMultiDigit(j);
    }
  }

  /** Positions 0, 1 and 2 have pairwise distinct keys. */
  lemma FirstKeysDistinct(i: nat, j: nat)
    requires i < j < 3
    ensures KeyFromIndex(i) != KeyFromIndex(j)
  {
    FirstKeys();
    assert KeyFromIndex(i)[0] != KeyFromIndex(j)[0];
  }

  /** With at most three updates the value map has one entry per update, each holding its own value. */
  lemma AttributeValuesUpToThree(updates: seq<OrderUpdate>)
    requires |updates| <= 3
    ensures SerializeUpdates(updates).expressionAttributeValues.Keys == KeySet(|updates|)
    ensures |SerializeUpdates(updates).expressionAttributeValues| == |updates|
    ensures forall i :: 0 <= i < |updates| ==>
              SerializeUpdates(updates).expressionAttributeValues[KeyFromIndex(i)] == updates[i].value
  {
    AttributeValuesLastWins(updates);
    KeySetUpToThree(|updates|);
    forall i, j | 0 <= i < j < |updates| ensures KeyFromIndex(j) != KeyFromIndex(i) {
      FirstKeysDistinct(i, j);
    }
  }

  /**
   * With four or more updates the map has fewer entries than there are
   * updates: the update at position 3 takes key "b" from the update at
   * position 1.
   */
  lemma AttributeValuesCollide(updates: seq<OrderUpdate>)
    requires |updates| >= 4
    ensures |SerializeUpdates(updates).expressionAttributeValues| < |updates|
    ensures "b" in SerializeUpdates(updates).expressionAttributeValues
    ensures SerializeUpdates(updates).expressionAttributeValues["b"] == updates[3].value
  {
    AttributeValuesLastWins(updates);
    KeySetCollides(|updates|);
    FirstKeys();
    forall j | 3 < j < |updates| ensures KeyFromIndex(j) != KeyFromIndex(3) {
      OnlyOneAndThreeAreB(j);
    }
  }

  /** An empty list is not refused: it gives "SET " and no values. */
  lemma SerializeEmpty()
    ensures SerializeUpdates([]) == SerializedUpdate("SET ", map[])
  {
  }

  /** One update to Shipped. */
  lemma SerializeOneUpdate()
    ensures SerializeUpdates([OrderUpdate("status", "Shipped")])
         == SerializedUpdate("SET status = :a", map["a" := "Shipped"])
  {
    var updates := [OrderUpdate("status", "Shipped")];
    FirstKeys();
    UpdateExpressionShape(updates);
    assert Fragment(0) == "status = :a";
    assert Fragments(1) == ["status = :a"];
    AttributeValuesUpToThree(updates);
    AttributeValuesLastWins(updates);
    var m := SerializeUpdates(updates).expressionAttributeValues;
    assert m.Keys == {"a"};
    assert m == map["a" := "Shipped"];
  }

  /** Created then Shipped: two assignments and two keys, in order. */
  lemma SerializeTwoUpdates()
    ensures SerializeUpdates([OrderUpdate("status", "Created"), OrderUpdate("status", "Shipped")])
         == SerializedUpdate("SET status = :a, status = :b", map["a" := "Created", "b" := "Shipped"])
  {
    var updates := [OrderUpdate("status", "Created"), OrderUpdate("status", "Shipped")];
    var r := SerializeUpdates(updates);
    TwoUpdatesExpression(updates);
    TwoUpdatesValues(updates);
    assert r == SerializedUpdate(r.updateExpression, r.expressionAttributeValues);
  }

  /** Any two updates give the expression with keys "a" and "b". */
  lemma TwoUpdatesExpression(updates: seq<OrderUpdate>)
    requires |updates| == 2
    ensures SerializeUpdates(updates).updateExpression == "SET status = :a, status = :b"
  {
    UpdateExpressionShape(updates);
    TwoFragments();
  }

  /** The two-assignment expression, spelled out. */
  lemma TwoFragments()
    ensures "SET " + Join(Fragments(2), ", ") == "SET status = :a, status = :b"
  {
    FirstKeys();
    var a, b := Fragment(0), Fragment(1);
    assert a == "status = :a";
    assert b == "status = :b";
    assert Fragments(2) == [a, b];
    assert Join([a, b], ", ") == a + ", " + b;
  }

  /** Any two updates give the map with "a" for the first value and "b" for the second. */
  lemma TwoUpdatesValues(updates: seq<OrderUpdate>)
    requires |updates| == 2
    ensures SerializeUpdates(updates).expressionAttributeValues
         == map["a" := updates[0].value, "b" := updates[1].value]
  {
    FirstKeys();
    AttributeValuesUpToThree(updates);
    var m := SerializeUpdates(updates).expressionAttributeValues;
    assert m.Keys == {"a", "b"};
  }

  // ---------------------------------------------------------------------
  // The handler
  // ---------------------------------------------------------------------

  /**
   * The parameters of the one `dynamo.update` call. There is no
   * `ConditionExpression`: the store does not make the write depend on the
   * item existing.
   */
  datatype UpdateItemInput = UpdateItemInput(
    tableName: string,
    key: map<string, UUID>,
    returnValues: string,
    updateExpression: string,
    expressionAttributeValues: map<string, OrderStatus>)

  /** How the awaited store call ended: it returned `Attributes`, or it threw. */
  datatype StoreOutcome = Ok(attributes: Order) | Throws(error: string)

  /** What `updateOrderHandlerFactory` closes over. */
  datatype UpdateOrderHandlerDependencies = UpdateOrderHandlerDependencies(
    dynamoUpdate: UpdateItemInput -> StoreOutcome,
    tableName: string)

  /** The request the handler sends for `id` and `updates`. */
  function UpdateItemRequest(tableName: string, id: UUID, updates: seq<OrderUpdate>): UpdateItemInput {
    var serialized := SerializeUpdates(updates);
    UpdateItemInput(tableName, map["id" := id], "ALL_NEW", serialized.updateExpression, serialized.expressionAttributeValues)
  }

  /**
   * What a handler call returns: the attributes the store returned, cast to
   * an order without checking, or `UnknownFailure` for any thrown error.
   */
  function UpdateOrderResult(deps: UpdateOrderHandlerDependencies, id: UUID, updates: seq<OrderUpdate>): (r: Result<Order, UpdateOrderFailure>)
    ensures r.Success? <==> deps.dynamoUpdate(UpdateItemRequest(deps.tableName, id, updates)).Ok?
    ensures r.Success? ==> r.value == deps.dynamoUpdate(UpdateItemRequest(deps.tableName, id, updates)).attributes
    ensures r.Failure? ==> r.error == UnknownFailure
  {
    match deps.dynamoUpdate(UpdateItemRequest(deps.tableName, id, updates))
    case Ok(attributes) => Success(attributes)
    case Throws(_) => Failure(UnknownFailure)
  }

  /** The handler never reports a missing item, whatever the store does. */
  lemma UpdateOrderNeverNotFound(deps: UpdateOrderHandlerDependencies, id: UUID, updates: seq<OrderUpdate>)
    ensures UpdateOrderResult(deps, id, updates) != Failure(ItemNotFound)
  {
  }

  /**
   * The handler `updateOrderHandlerFactory(deps)` returns: one store update of
   * item `{id}` in the configured table, asking for all new attributes, with
   * the compiled expression and values; a normal return is a success
   * carrying the returned attributes, and any thrown error is logged and
   * becomes `UnknownFailure`.
   */
  method HandleUpdate(deps: UpdateOrderHandlerDependencies, id: UUID, updates: seq<OrderUpdate>)
    returns (request: UpdateItemInput, result: Result<Order, UpdateOrderFailure>)
    ensures request.tableName == deps.tableName
    ensures request.key == map["id" := id]
    ensures request.returnValues == "ALL_NEW"
    ensures request.updateExpression == SerializeUpdates(updates).updateExpression
    ensures request.expressionAttributeValues == SerializeUpdates(updates).expressionAttributeValues
    ensures deps.dynamoUpdate(request).Ok? ==> result == Success(deps.dynamoUpdate(request).attributes)
    ensures deps.dynamoUpdate(request).Throws? ==> result == Failure(UnknownFailure)
    ensures result == UpdateOrderResult(deps, id, updates)
  {
    request := UpdateItemRequest(deps.tableName, id, updates);
    var outcome := deps.dynamoUpdate(request);
    match outcome {
      case Ok(attributes) =>
        result := Success(attributes);
      case Throws(_) =>
        result := Failure(UnknownFailure);
    }
  }
}
