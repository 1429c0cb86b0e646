/**
 * What the order handler does with ONE queued envelope: unwrap the queue body
 * and the double-encoded notification inside it, check the four required
 * fields, fill in the defaults and build the six-field item for the `Orders`
 * table. Everything here is a value computation; the table and the loop over
 * a batch are in module OrdersStore.
 */
module OrderIngest {
  import opened PyJson

  /** The item handed to `put_item`: exactly the six attributes of an order. */
  datatype OrderItem = OrderItem(
    orderId: string,
    userId: string,
    itemName: string,
    quantity: int,
    status: string,
    timestamp: string)

  /** An attribute value as the table stores it. */
  datatype Attribute = Text(s: string) | Number(n: int)

  /** Why an envelope was passed over without an exception (the two `continue`s and the missing `'Message'`). */
  datatype SkipReason = NoMessage | InnerUndecodable | MissingRequired

  /** The exception that ended an envelope's processing; each one is caught and logged. */
  datatype Fault =
    | RecordNotObject     // record['body'] on something that is not a dict
    | NoBody              // KeyError on record['body']
    | BodyNotText         // json.loads of a body that is not a string
    | OuterUndecodable    // json.loads of the queue body raised
    | MessageTestRaised   // 'Message' in body, or body['Message'], raised
    | MessageNotText      // json.loads of a 'Message' that is not a string
    | NotifNotObject      // message.get on something that is not a dict
    | ConversionFailed    // str() or int() raised while building the item

  /** How one envelope ends. Only `Write` reaches the table. */
  datatype Outcome = Write(item: OrderItem) | Skip(reason: SkipReason) | Fail(fault: Fault)

  /** Either the decoded notification, or the way the envelope ended before it was reached. */
  datatype Unwrapped = Notification(message: Json) | Stopped(outcome: Outcome)

  const RequiredFields: set<string> := {"orderId", "userId", "itemName", "timestamp"}

  const ItemKeys: set<string> := {"orderId", "userId", "itemName", "quantity", "status", "timestamp"}

  /** A field counts as missing only when it is absent or `None`; `0`, `""` and `false` are present. */
  predicate Present(fields: map<string, Json>, key: string)
  {
    key in fields && fields[key] != JNull
  }

  predicate AllRequiredPresent(fields: map<string, Json>)
  {
    forall key :: key in RequiredFields ==> Present(fields, key)
  }

  /** The item as the table sees it: attribute name to value. */
  function Attributes(item: OrderItem): (attrs: map<string, Attribute>)
    ensures attrs.Keys == ItemKeys
  {
    map[
      "orderId" := Text(item.orderId),
      "userId" := Text(item.userId),
      "itemName" := Text(item.itemName),
      "quantity" := Number(item.quantity),
      "status" := Text(item.status),
      "timestamp" := Text(item.timestamp)]
  }

  /** Reads an item back from a table entry: exactly the six attributes, `quantity` a number and the rest text. */
  function ItemOf(attrs: map<string, Attribute>): Option<OrderItem>
  {
    if attrs.Keys == ItemKeys
       && attrs["orderId"].Text? && attrs["userId"].Text? && attrs["itemName"].Text?
       && attrs["quantity"].Number? && attrs["status"].Text? && attrs["timestamp"].Text?
    then Some(OrderItem(attrs["orderId"].s, attrs["userId"].s, attrs["itemName"].s,
                        attrs["quantity"].n, attrs["status"].s, attrs["timestamp"].s))
    else None
  }

  /** `Attributes` and `ItemOf` are inverse: an entry holds an item exactly when it is that item's attribute map. */
  lemma AttributesRoundTrip(item: OrderItem, attrs: map<string, Attribute>)
    ensures ItemOf(Attributes(item)) == Some(item)
    ensures ItemOf(attrs) == Some(item) ==> Attributes(item) == attrs
  {
  }

  /**
   * Reading the queue record and both JSON layers: from `record['body']` to
   * the decoded `Message`. A body whose decoded value has no `'Message'` is
   * skipped silently; a `Message` that does not decode is skipped with a log.
   */
  function Unwrap(rt: Runtime, record: Json): (u: Unwrapped)
    ensures u.Notification? ==>
              && record.JObject? && "body" in record.fields && record.fields["body"].JString?
              && rt.loads(record.fields["body"].s).Some?
              && rt.loads(record.fields["body"].s).value.JObject?
    ensures u.Stopped? ==> !u.outcome.Write?
  {
    if !record.JObject? then Stopped(Fail(RecordNotObject))
    else if "body" !in record.fields then Stopped(Fail(NoBody))
    else match record.fields["body"]
      case JString(text) =>
        (match rt.loads(text)
         case None => Stopped(Fail(OuterUndecodable))
         case Some(body) => UnwrapMessage(rt, body))
      case _ => Stopped(Fail(BodyNotText))
  }

  /** `if 'Message' in body:` and the inner `json.loads` with its `JSONDecodeError` handler. */
  function UnwrapMessage(rt: Runtime, body: Json): (u: Unwrapped)
    ensures u.Notification? ==> body.JObject? && "Message" in body.fields && body.fields["Message"].JString?
    ensures u.Notification? ==> rt.loads(body.fields["Message"].s) == Some(u.message)
    ensures u.Stopped? ==> !u.outcome.Write?
    ensures (body.JObject? && "Message" !in body.fields) ==> u == Stopped(Skip(NoMessage))
    ensures (body.JObject? && "Message" in body.fields && body.fields["Message"].JString?
             && rt.loads(body.fields["Message"].s).None?) ==> u == Stopped(Skip(InnerUndecodable))
  {
    match In("Message", body)
    case None => Stopped(Fail(MessageTestRaised))
    case Some(false) => Stopped(Skip(NoMessage))
    case Some(true) =>
      if !body.JObject? then Stopped(Fail(MessageTestRaised))  // a list or str cannot be indexed by 'Message'
      else match body.fields["Message"]
        case JString(inner) =>
          (match rt.loads(inner)
           case None => Stopped(Skip(InnerUndecodable))
           case Some(message) => Notification(message))
        case _ => Stopped(Fail(MessageNotText))
  }

  /**
   * From the decoded notification to the item: the `None` check on the four
   * required fields, then `str()`/`int()` on each value with the defaults
   * `quantity = 1` and `status = 'new'` for absent keys.
   */
  function Normalise(rt: Runtime, message: Json): (o: Outcome)
    ensures o.Write? ==> message.JObject? && AllRequiredPresent(message.fields)
    ensures o == Skip(MissingRequired) <==> message.JObject? && !AllRequiredPresent(message.fields)
    ensures o.Skip? ==> o.reason == MissingRequired
    ensures !message.JObject? ==> o == Fail(NotifNotObject)
  {
    if !message.JObject? then Fail(NotifNotObject)
    else
      var fields := message.fields;
      var orderId := Get(fields, "orderId", JNull);
      var userId := Get(fields, "userId", JNull);
      var itemName := Get(fields, "itemName", JNull);
      var timestamp := Get(fields, "timestamp", JNull);
      if JNull in [orderId, userId, itemName, timestamp] then
        Skip(MissingRequired)
      else
        match (rt.toStr(orderId), rt.toStr(userId), rt.toStr(itemName),
               rt.toInt(Get(fields, "quantity", JInt(1))),
               rt.toStr(Get(fields, "status", JString("new"))),
               rt.toStr(timestamp))
        case (Some(o), Some(u), Some(n), Some(q), Some(st), Some(t)) => Write(OrderItem(o, u, n, q, st, t))
        case _ => Fail(ConversionFailed)
  }

  /** The body of the `try` for one envelope, up to the item handed to `put_item`. */
  function Process(rt: Runtime, record: Json): (o: Outcome)
    ensures o.Write? ==> Unwrap(rt, record).Notification?
  {
    match Unwrap(rt, record)
    case Stopped(outcome) => outcome
    case Notification(message) => Normalise(rt, message)
  }

  // ---------------------------------------------------------------------------
  // Reference description of an envelope that yields an item, and its link to Process.

  /** `record` is a queue record whose body decodes to an object whose `Message` text decodes to the object `fields`. */
  ghost predicate Carries(rt: Runtime, record: Json, fields: map<string, Json>)
  {
    exists bodyText: string, outer: map<string, Json>, innerText: string ::
      && record.JObject? && "body" in record.fields
      && record.fields["body"] == JString(bodyText)
      && rt.loads(bodyText) == Some(JObject(outer))
      && "Message" in outer && outer["Message"] == JString(innerText)
      && rt.loads(innerText) == Some(JObject(fields))
  }

  /** `item` is what the six conversions of the notification `fields` give, the required fields being present. */
  ghost predicate Builds(rt: Runtime, fields: map<string, Json>, item: OrderItem)
  {
    && AllRequiredPresent(fields)
    && rt.toStr(fields["orderId"]) == Some(item.orderId)
    && rt.toStr(fields["userId"]) == Some(item.userId)
    && rt.toStr(fields["itemName"]) == Some(item.itemName)
    && rt.toInt(if "quantity" in fields then fields["quantity"] else JInt(1)) == Some(item.quantity)
    && rt.toStr(if "status" in fields then fields["status"] else JString("new")) == Some(item.status)
    && rt.toStr(fields["timestamp"]) == Some(item.timestamp)
  }

  lemma NormaliseWrites(rt: Runtime, fields: map<string, Json>, item: OrderItem)
    ensures Normalise(rt, JObject(fields)) == Write(item) <==> Builds(rt, fields, item)
  {
  }

  lemma UnwrapReaches(rt: Runtime, record: Json, fields: map<string, Json>)
    ensures Unwrap(rt, record) == Notification(JObject(fields)) <==> Carries(rt, record, fields)
  {
  }

  /**
   * An envelope yields `item` exactly when its body and its `Message` both
   * decode to objects and the notification's fields build `item`; every
   * other envelope yields no item at all.
   */
  lemma ProcessWritesIff(rt: Runtime, record: Json, item: OrderItem)
    ensures Process(rt, record) == Write(item) <==>
              exists fields :: Carries(rt, record, fields) && Builds(rt, fields, item)
  {
    if Process(rt, record) == Write(item) {
      var message := Unwrap(rt, record).message;
      assert message.JObject?;
      UnwrapReaches(rt, record, message.fields);
      NormaliseWrites(rt, message.fields, item);
    }
    if exists fields :: Carries(rt, record, fields) && Builds(rt, fields, item) {
      var fields :| Carries(rt, record, fields) && Builds(rt, fields, item);
      UnwrapReaches(rt, record, fields);
      NormaliseWrites(rt, fields, item);
    }
  }

  /**
   * The entry written for an envelope has exactly the six attributes: the four
   * required ones are the `str()` of the notification's values, `quantity` the
   * `int()` of the given value or of 1, `status` the `str()` of the given value or of "new".
   */
  lemma WrittenAttributes(rt: Runtime, record: Json, fields: map<string, Json>, item: OrderItem)
    requires Process(rt, record) == Write(item) && Carries(rt, record, fields)
    ensures var attrs := Attributes(item);
      && attrs.Keys == ItemKeys
      && (forall key :: key in RequiredFields ==> key in fields && Some(attrs[key].s) == rt.toStr(fields[key]))
      && Some(attrs["quantity"].n) == rt.toInt(Get(fields, "quantity", JInt(1)))
      && Some(attrs["status"].s) == rt.toStr(Get(fields, "status", JString("new")))
  {
  }

  // ---------------------------------------------------------------------------
  // Field-level properties of the item.

  /**
   * Only `None` is missing: a notification whose four required fields hold
   * the falsy strings `""` (or any other non-null values) is not skipped.
   */
  lemma FalsyIsPresent(rt: Runtime, fields: map<string, Json>)
    requires forall key :: key in RequiredFields ==> key in fields
    requires fields["orderId"] in {JString(""), JInt(0), JBool(false)}
    requires fields["userId"] in {JString(""), JInt(0), JBool(false)}
    requires fields["itemName"] in {JString(""), JInt(0), JBool(false)}
    requires fields["timestamp"] in {JString(""), JInt(0), JBool(false)}
    ensures Normalise(rt, JObject(fields)) != Skip(MissingRequired)
  {
  }

  /** An explicit `null` and an absent key are both missing. */
  lemma NullIsMissing(rt: Runtime, fields: map<string, Json>, key: string)
    requires key in RequiredFields
    requires key !in fields || fields[key] == JNull
    ensures Normalise(rt, JObject(fields)) == Skip(MissingRequired)
  {
  }

  /**
   * With the required fields given as strings, the item carries those strings
   * unchanged, `quantity` 1 when the key is absent and `status` "new" when the
   * key is absent.
   */
  lemma StringsPassThrough(rt: Runtime, fields: map<string, Json>,
                           orderId: string, userId: string, itemName: string, timestamp: string)
    requires Conforms(rt)
    requires "orderId" in fields && fields["orderId"] == JString(orderId)
    requires "userId" in fields && fields["userId"] == JString(userId)
    requires "itemName" in fields && fields["itemName"] == JString(itemName)
    requires "timestamp" in fields && fields["timestamp"] == JString(timestamp)
    requires "quantity" !in fields || fields["quantity"].JInt?
    requires "status" !in fields || fields["status"].JString?
    ensures Normalise(rt, JObject(fields)).Write?
    ensures var item := Normalise(rt, JObject(fields)).item;
      && item.orderId == orderId && item.userId == userId
      && item.itemName == itemName && item.timestamp == timestamp
      && item.quantity == (if "quantity" in fields then fields["quantity"].i else 1)
      && item.status == (if "status" in fields then fields["status"].s else "new")
  {
  }

  /**
   * A `quantity` that `int()` rejects ends the envelope with an exception,
   * `null` being one of them: the default applies to an absent key only.
   */
  lemma UnconvertibleQuantityFails(rt: Runtime, fields: map<string, Json>)
    requires AllRequiredPresent(fields)
    requires "quantity" in fields && rt.toInt(fields["quantity"]).None?
    ensures Normalise(rt, JObject(fields)) == Fail(ConversionFailed)
  {
  }

  lemma NullQuantityFails(rt: Runtime, fields: map<string, Json>)
    requires Conforms(rt)
    requires AllRequiredPresent(fields)
    requires "quantity" in fields && fields["quantity"] == JNull
    ensures Normalise(rt, JObject(fields)) == Fail(ConversionFailed)
  {
  }

  /** An explicit `"status": null` is not defaulted: `str(None)` is written. */
  lemma NullStatusIsNoneText(rt: Runtime, fields: map<string, Json>)
    requires Conforms(rt)
    requires AllRequiredPresent(fields)
    requires "status" in fields && fields["status"] == JNull
    requires Normalise(rt, JObject(fields)).Write?
    ensures Normalise(rt, JObject(fields)).item.status == "None"
  {
  }

  // ---------------------------------------------------------------------------
  // Single envelopes, end to end.

  /** A body that does not decode raises inside the per-record `try`: the envelope fails on its own. */
  lemma MalformedBodyIsCaught(rt: Runtime, record: Json, bodyText: string)
    requires record.JObject? && "body" in record.fields && record.fields["body"] == JString(bodyText)
    requires rt.loads(bodyText).None?
    ensures Process(rt, record) == Fail(OuterUndecodable)
  {
  }

  /** A decoded body that is a dict without `'Message'` is skipped silently. */
  lemma NoMessageIsSkipped(rt: Runtime, record: Json, bodyText: string, outer: map<string, Json>)
    requires record.JObject? && "body" in record.fields && record.fields["body"] == JString(bodyText)
    requires rt.loads(bodyText) == Some(JObject(outer)) && "Message" !in outer
    ensures Process(rt, record) == Skip(NoMessage)
  {
  }

  /** A list or a str body never yields an item, whether or not it mentions `Message`. */
  lemma NonObjectBodyNeverWrites(rt: Runtime, body: Json)
    requires body.JArray? || body.JString?
    ensures !UnwrapMessage(rt, body).Notification?
    ensures UnwrapMessage(rt, body) == Stopped(Skip(NoMessage)) || UnwrapMessage(rt, body) == Stopped(Fail(MessageTestRaised))
  {
  }

  function Envelope(bodyText: string): Json
  {
    JObject(map["body" := JString(bodyText)])
  }

  function Notif(orderId: string, userId: string, itemName: string, timestamp: string): map<string, Json>
  {
    map["orderId" := JString(orderId), "userId" := JString(userId),
        "itemName" := JString(itemName), "timestamp" := JString(timestamp)]
  }

  /** The four required fields only: `quantity` 1 and `status` "new" are filled in. */
  lemma DefaultsScenario(rt: Runtime, outerText: string, innerText: string)
    requires Conforms(rt)
    requires rt.loads(outerText) == Some(JObject(map["Message" := JString(innerText)]))
    requires rt.loads(innerText) == Some(JObject(Notif("O1", "U1", "Widget", "2024-01-01T00:00:00Z")))
    ensures Process(rt, Envelope(outerText)) == Write(OrderItem("O1", "U1", "Widget", 1, "new", "2024-01-01T00:00:00Z"))
  {
  }

  /** Given `quantity` and `status` are taken as they are. */
  lemma ExplicitValuesScenario(rt: Runtime, outerText: string, innerText: string)
    requires Conforms(rt)
    requires rt.loads(outerText) == Some(JObject(map["Message" := JString(innerText)]))
    requires rt.loads(innerText) == Some(JObject(Notif("O1", "U1", "Widget", "2024-01-01T00:00:00Z")
                                                   ["quantity" := JInt(5)]["status" := JString("shipped")]))
    ensures Process(rt, Envelope(outerText)) == Write(OrderItem("O1", "U1", "Widget", 5, "shipped", "2024-01-01T00:00:00Z"))
  {
    var fields := Notif("O1", "U1", "Widget", "2024-01-01T00:00:00Z")["quantity" := JInt(5)]["status" := JString("shipped")];
    StringsPassThrough(rt, fields, "O1", "U1", "Widget", "2024-01-01T00:00:00Z");
  }

  /** A notification without `itemName` is skipped. */
  lemma MissingItemNameScenario(rt: Runtime, outerText: string, innerText: string)
    requires rt.loads(outerText) == Some(JObject(map["Message" := JString(innerText)]))
    requires rt.loads(innerText) == Some(JObject(map["orderId" := JString("O1"), "userId" := JString("U1"),
                                                      "timestamp" := JString("2024-01-01T00:00:00Z")]))
    ensures Process(rt, Envelope(outerText)) == Skip(MissingRequired)
  {
  }
}
