# Order-ingest handler, modelled in Dafny

The system is an AWS Lambda function, `lambda_handler` in
`lambda/processOrderFunction.py`. It receives a batch of SQS records. Each
record's body is an SNS notification whose `Message` field holds the order as
a second, JSON-encoded string. For each record the handler:

1. decodes the body;
2. decodes the `Message` inside it;
3. checks that `orderId`, `userId`, `itemName` and `timestamp` are not `None`;
4. fills in `quantity = 1` and `status = "new"` when those keys are absent;
5. writes a six-attribute item into the DynamoDB table `Orders`, keyed by `orderId`.

Every exception raised while handling one record is caught. The loop then goes
on with the next record. The handler returns `{'statusCode': 200}`.

The model has three modules:

- `PyJson` (`pyjson.dfy`) holds the decoded JSON values and the Python operations the
  handler uses: `dict.get` with a default, and `in` with a string on the left.
  It also holds a `Runtime` value that carries `json.loads`, `str()` and `int()`
  as partial functions, where `None` stands for a raised exception.
  `Conforms(rt)` fixes what Python certainly does on the cases the handler
  depends on:
  - `str()` is the identity on strings, and `str(None)` is `"None"`;
  - `int()` is the identity on integers;
  - `int()` raises on `None`, on lists and on dicts;
  - booleans convert as in Python.

  Every other case is left open, so the properties hold for any such runtime.
- `OrderIngest` (`order_ingest.dfy`) is the pure part of lines 14–49.
  `Unwrap` and `UnwrapMessage` cover the two decoding layers, `Normalise` covers
  the `None` check and the item construction, and `Process` is the whole `try`
  body up to `put_item`. `Process` returns `Write(item)`, `Skip(reason)` or
  `Fail(fault)`.
- `OrdersStore` (`orders_store.dfy`) is the imperative part:
  - `OrdersTable` is the table, a class whose `items` field is a map keyed by
    `orderId`;
  - `PutItem` is the upsert;
  - `LambdaHandler` loops over the records, proved against the fold
    `ApplyBatch`.

  A refused `put_item` is an input, `rejects(i)` for record `i`, because the
  store's availability lies outside the program.

Two facts about the code shape the model:

- A body that fails to decode does not abort the batch. The outer
  `json.loads` at line 17 is inside the `try` opened at line 12, so the
  `except Exception` at line 58 catches the failure and the loop goes on with
  the next record (`MalformedBodyIsCaught`, `FailureDoesNotBlockNext`).
- Having the four required fields is not enough for a write. A failed
  `int()` or `str()`, such as `int(None)` for `"quantity": null`, or a refused
  `put_item` also leaves nothing written (`ProcessWritesIff`,
  `OnlyStoredItemsMatter`).

## Model

| member | source | states |
|---|---|---|
| `PyJson.Get` | lambda/processOrderFunction.py:31-34 | `dict.get(key, default)` yields the bound value when the key is present and the default otherwise, so absent keys and explicit `null` both yield `None` |
| `PyJson.In` | lambda/processOrderFunction.py:20 | `'Message' in body` is key membership on a dict, element equality on a list and substring search on a str; it raises on `None`, booleans and numbers |
| `PyJson.OccursIff` | lambda/processOrderFunction.py:20 | the str case of `in` holds exactly when the pattern is some contiguous slice of the string |
| `OrderIngest.Attributes` | lambda/processOrderFunction.py:42-49 | the `order_data` dict of an item has exactly the six keys `orderId`, `userId`, `itemName`, `quantity`, `status`, `timestamp` |
| `OrderIngest.AttributesRoundTrip` | lambda/processOrderFunction.py:42-49 | reading the six attributes back gives the item, and an entry reads back as an item only when it is exactly that item's six-attribute map |
| `OrderIngest.WrittenAttributes` | lambda/processOrderFunction.py:42-49 | the entry written for an envelope has exactly the six keys; the four required values are `str()` of the notification's values, `quantity` is `int()` of the given value or of 1, and `status` is `str()` of the given value or of `"new"` |
| `OrderIngest.Unwrap` | lambda/processOrderFunction.py:14-17 | a notification is reached only from a dict record whose `body` is a string that decodes to a dict; every earlier stop is a skip or a fault, never a write |
| `OrderIngest.UnwrapMessage` | lambda/processOrderFunction.py:20-28 | a notification is reached only when the body is a dict whose `Message` is a string, and it is exactly what that string decodes to; a dict without `Message` gives `Skip(NoMessage)` and a `Message` string that does not decode gives `Skip(InnerUndecodable)` |
| `OrderIngest.Normalise` | lambda/processOrderFunction.py:30-49 | it skips for missing fields exactly when the notification is a dict lacking one of the four required fields or holding `None` in it; it writes only when all four are present; a non-dict notification is a fault |
| `OrderIngest.Process` | lambda/processOrderFunction.py:14-49 | an item is produced only after both decoding layers reached a notification |
| `OrderIngest.NormaliseWrites` | lambda/processOrderFunction.py:31-49 | a notification yields `item` exactly when the four required fields are present and the six `str()`/`int()` conversions, with the defaults for absent `quantity`/`status`, give the item's attributes |
| `OrderIngest.UnwrapReaches` | lambda/processOrderFunction.py:14-28 | unwrapping reaches the notification object `fields` exactly when the record's `body` decodes to a dict whose `Message` string decodes to `fields` |
| `OrderIngest.ProcessWritesIff` | lambda/processOrderFunction.py:14-49 | an envelope yields `item` if and only if its body and its `Message` decode to dicts and the notification builds `item`; every other envelope yields no item |
| `OrderIngest.FalsyIsPresent` | lambda/processOrderFunction.py:36-39 | required fields holding `""`, `0` or `false` are present: the envelope is not skipped as missing fields |
| `OrderIngest.NullIsMissing` | lambda/processOrderFunction.py:31-39 | a required field that is absent or explicitly `null` makes the envelope skip |
| `OrderIngest.StringsPassThrough` | lambda/processOrderFunction.py:42-49 | with string required fields the item carries them unchanged, `quantity` is the given integer or 1 and `status` is the given string or `"new"` |
| `OrderIngest.UnconvertibleQuantityFails` | lambda/processOrderFunction.py:46 | a present `quantity` that `int()` rejects ends the envelope with an exception and no item |
| `OrderIngest.NullQuantityFails` | lambda/processOrderFunction.py:46 | an explicit `"quantity": null` is not defaulted; `int(None)` raises and no item is produced |
| `OrderIngest.NullStatusIsNoneText` | lambda/processOrderFunction.py:47 | an explicit `"status": null` is not defaulted; the item's status is the text `"None"` |
| `OrderIngest.MalformedBodyIsCaught` | lambda/processOrderFunction.py:12-17 | a body that does not decode ends that envelope with a fault caught by the per-record `try` |
| `OrderIngest.NoMessageIsSkipped` | lambda/processOrderFunction.py:20 | a dict body without `Message` is skipped silently |
| `OrderIngest.NonObjectBodyNeverWrites` | lambda/processOrderFunction.py:20-21 | a list or str body never reaches a notification: it is skipped or it raises at `body['Message']` |
| `OrderIngest.DefaultsScenario` | lambda/processOrderFunction.py:17-49 | an envelope with only the four required fields writes `O1`/`U1`/`Widget` with quantity 1, status `"new"` and the given timestamp |
| `OrderIngest.ExplicitValuesScenario` | lambda/processOrderFunction.py:46-47 | given `"quantity": 5, "status": "shipped"` are written as they are |
| `OrderIngest.MissingItemNameScenario` | lambda/processOrderFunction.py:37-39 | a notification without `itemName` is skipped |
| `OrdersStore.OrdersTable.constructor` | lambda/processOrderFunction.py:7 | the table handle starts from the table's existing contents, which are keyed by `orderId` |
| `OrdersStore.OrdersTable.PutItem` | lambda/processOrderFunction.py:55 | an accepted `put_item` replaces the entry under the item's `orderId` and changes nothing else; a refused one changes nothing; the key schema is kept |
| `OrdersStore.Commit` | lambda/processOrderFunction.py:55-60 | an outcome that is not a write, or a refused write, leaves the table unchanged |
| `OrdersStore.ApplyBatch` | lambda/processOrderFunction.py:11-60 | processing a batch never removes an item and keeps every item stored under its own `orderId` |
| `OrdersStore.LastWriteWins` | lambda/processOrderFunction.py:11-55 | after the batch, each key holds the item of the last record, in delivery order, that was stored under it |
| `OrdersStore.UntouchedKeysKept` | lambda/processOrderFunction.py:11-55 | a key that no record of the batch stored keeps its prior state, present with the same item or absent |
| `OrdersStore.OnlyStoredItemsMatter` | lambda/processOrderFunction.py:12-60 | the table after the batch is the table after upserting only the accepted items, in order; skipped, failed and refused records contribute nothing |
| `OrdersStore.FailedRecordIsNoOp` | lambda/processOrderFunction.py:58-60 | a record that ends in a skip, a caught exception or a refused write leaves the table exactly as it found it |
| `OrdersStore.FailureDoesNotBlockNext` | lambda/processOrderFunction.py:58-60 | after an envelope that yields no item, or whose item the store refuses, the next valid envelope is still written |
| `OrdersStore.SameEnvelopeTwice` | lambda/processOrderFunction.py:55 | delivering the same valid envelope twice leaves the same table as delivering it once, the second write replacing the first with the same item, whenever the second delivery is refused only if the first was |
| `OrdersStore.StringRecordsWriteNothing` | lambda/processOrderFunction.py:11-14 | records that are strings, which is what iterating a str or a dict yields, never write |
| `OrdersStore.RecordsOf` | lambda/processOrderFunction.py:11 | an event without `Records` iterates nothing and a list iterates its elements; a non-dict event or a `Records` that is neither list, str nor dict cannot be iterated |
| `OrdersStore.ResponseTo` | lambda/processOrderFunction.py:62 | the handler answers status code 200 whenever its loop can start, whatever happened to the records; otherwise the error escapes the handler |
| `OrdersStore.HandlerEffect` | lambda/processOrderFunction.py:11-60 | the handler keeps the table keyed by `orderId` and changes nothing unless `Records` yields elements |
| `OrdersStore.LambdaHandler` | lambda/processOrderFunction.py:9-62 | the loop leaves the table equal to `ApplyBatch` of the records in delivery order, keeps the key schema and returns `ResponseTo(event)` |

## Left out

- The boto3 client and table setup (lines 6–7) and all network behaviour. `put_item` is an
  upsert on a map whose refusal is the input `rejects(i)`.
- A `put_item` that raises even though the write reached the table, such as a timeout after
  commit, is not modelled. Such a write counts as refused.
- Every `print` (lines 14, 25, 27, 38, 52, 56, 59). Logging does not change the table or the
  result. `Skip` and `Fail` record which message would be logged.
- The JSON text grammar inside `json.loads`. It is a partial function from strings to decoded
  values.
- Python's `str()` and `int()` beyond the cases fixed by `Conforms`. Examples of what is left
  open are the text of `str()` on numbers, lists and dicts, and `int()` on numeric strings and
  floats.
- The Lambda `context` argument and the runtime environment.
- The order in which a dict-valued `Records` yields its keys. `RecordsOf` reports the keys as a
  set and the handler does not iterate them, because every key is a string and
  `record['body']` on a string raises, which `StringRecordsWriteNothing` covers.
- Exceptions that are not subclasses of `Exception`, such as a Lambda timeout or
  `KeyboardInterrupt`, and concurrent invocations writing the same table.
