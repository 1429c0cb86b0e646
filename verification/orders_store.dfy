/**
 * The `Orders` table and `lambda_handler`'s loop over a batch of queue
 * records: each record is processed on its own, only a record that yields an
 * item and whose `put_item` the store accepts changes the table, and a later
 * item with the same `orderId` replaces an earlier one.
 */
module OrdersStore {
  import opened PyJson
  import opened OrderIngest

  type Store = map<string, OrderItem>

  /** The table's key schema: every item is stored under its own `orderId`. */
  predicate KeyedById(store: Store)
  {
    forall k :: k in store ==> store[k].orderId == k
  }

  /** The `Orders` table, keyed by `orderId`. */
  class OrdersTable {
    var items: Store

    ghost predicate Valid()
      reads this
    {
      KeyedById(items)
    }

    constructor (initial: Store)
      requires KeyedById(initial)
      ensures Valid() && items == initial
    {
      items := initial;
    }

    /**
     * `put_item`: an unconditional upsert by `orderId`. `accepted` is the
     * store's answer; a rejected call raises in the handler and changes nothing.
     */
    method PutItem(item: OrderItem, accepted: bool) returns (stored: bool)
      requires Valid()
      modifies this
      ensures Valid()
      ensures stored == accepted
      ensures items == if accepted then old(items)[item.orderId := item] else old(items)
    {
      if accepted {
        items := items[item.orderId := item];
      }
      stored := accepted;
    }
  }

  /** The table after one envelope's outcome, `rejected` telling whether the store refused the write. */
  function Commit(store: Store, outcome: Outcome, rejected: bool): (r: Store)
    ensures !outcome.Write? || rejected ==> r == store
  {
    if outcome.Write? && !rejected then store[outcome.item.orderId := outcome.item] else store
  }

  /**
   * The table after the records of a batch, in delivery order; `rejects(j)`
   * tells whether the store refuses the write attempted for record `j`.
   */
  function ApplyBatch(rt: Runtime, rejects: nat -> bool, store: Store, records: seq<Json>): (r: Store)
    ensures store.Keys <= r.Keys
    ensures KeyedById(store) ==> KeyedById(r)
    decreases |records|
  {
    if records == [] then store
    else
      var n := |records| - 1;
      Commit(ApplyBatch(rt, rejects, store, records[..n]), Process(rt, records[n]), rejects(n))
  }

  /** Record `j` of the batch yields an item and the store accepts it. */
  predicate Stored(rt: Runtime, rejects: nat -> bool, records: seq<Json>, j: int)
  {
    0 <= j < |records| && Process(rt, records[j]).Write? && !rejects(j)
  }

  predicate StoresKey(rt: Runtime, rejects: nat -> bool, records: seq<Json>, j: int, k: string)
  {
    Stored(rt, rejects, records, j) && Process(rt, records[j]).item.orderId == k
  }

  /** Record `j` is the last record of the batch stored under key `k`. */
  predicate LastStoreOf(rt: Runtime, rejects: nat -> bool, records: seq<Json>, j: int, k: string)
  {
    StoresKey(rt, rejects, records, j, k) &&
    forall j' :: j < j' < |records| ==> !StoresKey(rt, rejects, records, j', k)
  }

  lemma StoresKeyInPrefix(rt: Runtime, rejects: nat -> bool, records: seq<Json>, j: int, k: string)
    requires |records| > 0 && j < |records| - 1
    ensures StoresKey(rt, rejects, records, j, k) <==> StoresKey(rt, rejects, records[..|records| - 1], j, k)
  {
  }

  /** After the batch, `k` holds the item of the last record stored under `k`. */
  lemma {:induction false} LastWriteWins(rt: Runtime, rejects: nat -> bool, store: Store, records: seq<Json>,
                                         k: string, j: int)
    requires LastStoreOf(rt, rejects, records, j, k)
    ensures var r := ApplyBatch(rt, rejects, store, records);
      k in r && r[k] == Process(rt, records[j]).item
    decreases |records|
  {
    var n := |records| - 1;
    var prefix := records[..n];
    if j < n {
      assert !StoresKey(rt, rejects, records, n, k);
      StoresKeyInPrefix(rt, rejects, records, j, k);
      forall j' | j < j' < |prefix|
        ensures !StoresKey(rt, rejects, prefix, j', k)
      {
        assert !StoresKey(rt, rejects, records, j', k);
        StoresKeyInPrefix(rt, rejects, records, j', k);
      }
      LastWriteWins(rt, rejects, store, prefix, k, j);
    }
  }

  /** A key no record of the batch is stored under keeps its prior state, present or absent. */
  lemma {:induction false} UntouchedKeysKept(rt: Runtime, rejects: nat -> bool, store: Store, records: seq<Json>,
                                             k: string)
    requires forall j :: 0 <= j < |records| ==> !StoresKey(rt, rejects, records, j, k)
    ensures var r := ApplyBatch(rt, rejects, store, records);
      (k in r <==> k in store) && (k in store ==> r[k] == store[k])
    decreases |records|
  {
    if records != [] {
      var n := |records| - 1;
      assert !StoresKey(rt, rejects, records, n, k);
      forall j | 0 <= j < n
        ensures !StoresKey(rt, rejects, records[..n], j, k)
      {
        assert !StoresKey(rt, rejects, records, j, k);
        StoresKeyInPrefix(rt, rejects, records, j, k);
      }
      UntouchedKeysKept(rt, rejects, store, records[..n], k);
    }
  }

  // ---------------------------------------------------------------------------
  // Failure isolation: only the stored items matter, in their order.

  /** The items the store accepted, in delivery order. */
  function StoredItems(rt: Runtime, rejects: nat -> bool, records: seq<Json>): seq<OrderItem>
    decreases |records|
  {
    if records == [] then []
    else
      var n := |records| - 1;
      StoredItems(rt, rejects, records[..n])
        + (if Stored(rt, rejects, records, n) then [Process(rt, records[n]).item] else [])
  }

  /** A table after a sequence of successful upserts. */
  function Upserts(store: Store, items: seq<OrderItem>): Store
    decreases |items|
  {
    if items == [] then store
    else
      var n := |items| - 1;
      Upserts(store, items[..n])[items[n].orderId := items[n]]
  }

  lemma UpsertsSnoc(store: Store, items: seq<OrderItem>, item: OrderItem)
    ensures Upserts(store, items + [item]) == Upserts(store, items)[item.orderId := item]
  {
  }

  /** One more record adds its item to the stored items exactly when it is stored. */
  lemma ApplyBatchStep(rt: Runtime, rejects: nat -> bool, store: Store, records: seq<Json>)
    requires records != []
    ensures var n := |records| - 1;
      && ApplyBatch(rt, rejects, store, records)
         == (if Stored(rt, rejects, records, n)
             then ApplyBatch(rt, rejects, store, records[..n])[Process(rt, records[n]).item.orderId := Process(rt, records[n]).item]
             else ApplyBatch(rt, rejects, store, records[..n]))
      && StoredItems(rt, rejects, records)
         == StoredItems(rt, rejects, records[..n])
            + (if Stored(rt, rejects, records, n) then [Process(rt, records[n]).item] else [])
  {
  }

  /**
   * Envelopes that skip, raise or are refused by the store contribute nothing:
   * the batch leaves the table as the accepted items alone would, whatever
   * failed before or between them.
   */
  lemma {:induction false} OnlyStoredItemsMatter(rt: Runtime, rejects: nat -> bool, store: Store, records: seq<Json>)
    ensures ApplyBatch(rt, rejects, store, records) == Upserts(store, StoredItems(rt, rejects, records))
    decreases |records|
  {
    if records != [] {
      var n := |records| - 1;
      OnlyStoredItemsMatter(rt, rejects, store, records[..n]);
      ApplyBatchStep(rt, rejects, store, records);
      if Stored(rt, rejects, records, n) {
        UpsertsSnoc(store, StoredItems(rt, rejects, records[..n]), Process(rt, records[n]).item);
      } else {
        var before := StoredItems(rt, rejects, records[..n]);
        assert before + [] == before;
      }
    }
  }

  /** A record that does not end in a stored item leaves the table as it found it. */
  lemma FailedRecordIsNoOp(rt: Runtime, rejects: nat -> bool, store: Store, records: seq<Json>, j: int)
    requires 0 <= j < |records| && !Stored(rt, rejects, records, j)
    ensures ApplyBatch(rt, rejects, store, records[..j + 1]) == ApplyBatch(rt, rejects, store, records[..j])
  {
    assert records[..j + 1][..j] == records[..j];
  }

  /**
   * A failed envelope, whether it yields no item or the store refuses its
   * item, does not stop the next one: the next item is still stored.
   */
  lemma FailureDoesNotBlockNext(rt: Runtime, rejects: nat -> bool, store: Store, bad: Json, good: Json)
    requires !Stored(rt, rejects, [bad, good], 0) && Process(rt, good).Write? && !rejects(1)
    ensures var item := Process(rt, good).item;
      ApplyBatch(rt, rejects, store, [bad, good]) == store[item.orderId := item]
  {
    assert [bad, good][..1] == [bad];
    assert [bad][..0] == [];
    assert ApplyBatch(rt, rejects, store, [bad]) == Commit(store, Process(rt, bad), rejects(0)) == store;
  }

  /**
   * Delivering the same valid envelope twice leaves the table as one delivery
   * does: the second write replaces the first with the same item (when the
   * first write is refused, the second must be refused too for the two to agree).
   */
  lemma SameEnvelopeTwice(rt: Runtime, rejects: nat -> bool, store: Store, record: Json)
    requires Process(rt, record).Write? && (rejects(0) ==> rejects(1))
    ensures ApplyBatch(rt, rejects, store, [record, record]) == ApplyBatch(rt, rejects, store, [record])
  {
  }

  /** Records that are strings (what iterating a str or a dict yields) never write. */
  lemma {:induction false} StringRecordsWriteNothing(rt: Runtime, rejects: nat -> bool, store: Store,
                                                     records: seq<Json>)
    requires forall j :: 0 <= j < |records| ==> records[j].JString?
    ensures ApplyBatch(rt, rejects, store, records) == store
    decreases |records|
  {
    if records != [] {
      var n := |records| - 1;
      assert Process(rt, records[n]) == Fail(RecordNotObject);
      StringRecordsWriteNothing(rt, rejects, store, records[..n]);
    }
  }

  // ---------------------------------------------------------------------------
  // The handler.

  /** What `for record in event.get('Records', [])` iterates over. */
  datatype Iteration =
    | Elements(records: seq<Json>)   // a list, or the one-character strings of a str
    | DictKeys(keys: set<string>)    // the keys of a dict
    | NotIterable                    // the event is not a dict, or its Records cannot be iterated

  function RecordsOf(event: Json): (it: Iteration)
    ensures event.JObject? && "Records" !in event.fields ==> it == Elements([])
    ensures (event.JObject? && "Records" in event.fields && event.fields["Records"].JArray?) ==>
              it == Elements(event.fields["Records"].items)
    ensures it.NotIterable? <==>
              !event.JObject? ||
              ("Records" in event.fields && !(event.fields["Records"].JArray? || event.fields["Records"].JString?
                                              || event.fields["Records"].JObject?))
  {
    if !event.JObject? then NotIterable
    else if "Records" !in event.fields then Elements([])
    else match event.fields["Records"]
      case JArray(xs) => Elements(xs)
      case JString(s) => Elements(seq(|s|, i requires 0 <= i < |s| => JString([s[i]])))
      case JObject(m) => DictKeys(m.Keys)
      case _ => NotIterable
  }

  datatype Response = Returned(statusCode: int) | Raised

  /** The handler answers `{'statusCode': 200}` whenever the loop can start, whatever each record did. */
  function ResponseTo(event: Json): (r: Response)
    ensures r.Returned? ==> r.statusCode == 200
    ensures r == Raised <==> RecordsOf(event).NotIterable?
  {
    if RecordsOf(event).NotIterable? then Raised else Returned(200)
  }

  /** The table after the handler has run on `event`. */
  function HandlerEffect(rt: Runtime, rejects: nat -> bool, store: Store, event: Json): (r: Store)
    ensures KeyedById(store) ==> KeyedById(r)
    ensures !RecordsOf(event).Elements? ==> r == store
  {
    match RecordsOf(event)
    case Elements(records) => ApplyBatch(rt, rejects, store, records)
    case _ => store
  }

  /**
   * `lambda_handler`: each record is processed inside its own `try`; a record
   * that yields an item is written with `put_item`, whose refusal (`rejects(i)`
   * for record `i`) is caught like every other exception.
   */
  method LambdaHandler(event: Json, table: OrdersTable, rt: Runtime, rejects: nat -> bool)
    returns (response: Response)
    requires table.Valid()
    modifies table
    ensures table.Valid()
    ensures table.items == HandlerEffect(rt, rejects, old(table.items), event)
    ensures response == ResponseTo(event)
  {
    match RecordsOf(event)
    case NotIterable =>
      response := Raised;
    case DictKeys(_) =>
      // Every key is a str; record['body'] on a str raises, and the handler catches it.
      response := Returned(200);
    case Elements(records) =>
      var i := 0;
      while i < |records|
        invariant 0 <= i <= |records|
        invariant table.Valid()
        invariant table.items == ApplyBatch(rt, rejects, old(table.items), records[..i])
      {
        assert records[..i + 1][..i] == records[..i];
        var outcome := Process(rt, records[i]);
        if outcome.Write? {
          var _ := table.PutItem(outcome.item, !rejects(i));
        }
        i := i + 1;
      }
      assert records[..i] == records;
      response := Returned(200);
  }
}
