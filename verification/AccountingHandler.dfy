/** The accounting handler as a whole: it synchronizes one connection and answers with the
    reconciliation of everything the tenant has stored (backend/poi_admin/local_life/accounting.py). */
module AccountingHandler {
  import opened Wrappers
  import opened Text
  import opened Pagination
  import opened Accounting
  import opened Reconciliation

  function ItemOf(row: Row): Item {
    Item(row.content.amount, row.content.summary)
  }

  /** A stored item counts for the order it names upstream, and with the amount of its column. */
  lemma StoredItemIs(book: Book, fields: Fields, id: nat)
    ensures var item := ItemOf(Row(id, ContentOf(book, fields)));
            && item.amount == ContentOf(book, fields).amount
            && OrderOf(item) == if "order_id" in fields && !fields["order_id"].nested && fields["order_id"].truthy
                                then Strip(fields["order_id"].text) else ""
  {
    SummaryIs(book, fields);
  }

  /** Every key of the ledger, once. */
  ghost predicate Enumerates(keys: seq<string>, ledger: Ledger) {
    NoKeyTwice(keys) && forall k :: k in keys <==> k in ledger.rows
  }

  function ItemsAt(ledger: Ledger, keys: seq<string>): seq<Item>
    requires forall k | k in keys :: k in ledger.rows
  {
    seq(|keys|, i requires 0 <= i < |keys| => ItemOf(ledger.rows[keys[i]]))
  }

  /** The rows of the ledger, together with those of the tenant's other connections, in some order. */
  ghost predicate IsListing(items: seq<Item>, ledger: Ledger, others: seq<Item>) {
    exists keys :: Enumerates(keys, ledger) && multiset(items) == multiset(ItemsAt(ledger, keys) + others)
  }

  lemma TakenOutOf(ledger: Ledger, keys: seq<string>, j: nat)
    requires j < |keys| && forall k | k in keys :: k in ledger.rows
    ensures var rest := keys[..j] + keys[j + 1..];
            multiset(ItemsAt(ledger, keys)) == multiset(ItemsAt(ledger, rest)) + multiset{ItemOf(ledger.rows[keys[j]])}
  {
    var rest := keys[..j] + keys[j + 1..];
    var front, x, back := ItemsAt(ledger, keys[..j]), ItemOf(ledger.rows[keys[j]]), ItemsAt(ledger, keys[j + 1..]);
    assert ItemsAt(ledger, rest) == front + back;
    assert ItemsAt(ledger, keys) == front + [x] + back;
  }

  predicate NoKeyTwice(keys: seq<string>) {
    forall i, j | 0 <= i < j < |keys| :: keys[i] != keys[j]
  }

  lemma WithoutOneKey(keys: seq<string>, j: nat)
    requires j < |keys| && NoKeyTwice(keys)
    ensures var rest := keys[..j] + keys[j + 1..];
            NoKeyTwice(rest) && forall k :: k in rest <==> k in keys && k != keys[j]
  {
    var rest := keys[..j] + keys[j + 1..];
    forall k | k in keys && k != keys[j] ensures k in rest {
      var i :| 0 <= i < |keys| && keys[i] == k;
      assert rest[if i < j then i else i - 1] == k;
    }
  }

  /** Two enumerations of the same keys list the same rows. */
  lemma {:induction false} OrderOfKeysDoesNotMatter(ledger: Ledger, xs: seq<string>, ys: seq<string>)
    requires NoKeyTwice(xs) && NoKeyTwice(ys) && forall k :: k in xs <==> k in ys
    requires forall k | k in xs :: k in ledger.rows
    ensures multiset(ItemsAt(ledger, xs)) == multiset(ItemsAt(ledger, ys))
    decreases |xs|
  {
    assert forall i | 0 <= i < |ys| :: ys[i] in xs;
    if xs != [] {
      assert xs[0] in ys;
      var j :| 0 <= j < |ys| && ys[j] == xs[0];
      WithoutOneKey(xs, 0);
      WithoutOneKey(ys, j);
      OrderOfKeysDoesNotMatter(ledger, xs[..0] + xs[1..], ys[..j] + ys[j + 1..]);
      TakenOutOf(ledger, xs, 0);
      TakenOutOf(ledger, ys, j);
    }
  }

  /** So a ledger has one list of rows, up to order. */
  lemma ListingsArePermutations(xs: seq<Item>, ys: seq<Item>, ledger: Ledger, others: seq<Item>)
    requires IsListing(xs, ledger, others) && IsListing(ys, ledger, others)
    ensures multiset(xs) == multiset(ys)
  {
    var ks :| Enumerates(ks, ledger) && multiset(xs) == multiset(ItemsAt(ledger, ks) + others);
    var ls :| Enumerates(ls, ledger) && multiset(ys) == multiset(ItemsAt(ledger, ls) + others);
    OrderOfKeysDoesNotMatter(ledger, ks, ls);
  }

  method ListRows(ledger: Ledger, others: seq<Item>) returns (items: seq<Item>)
    ensures IsListing(items, ledger, others)
  {
    var keys, rest := [], ledger.rows.Keys;
    items := [];
    while rest != {}
      invariant rest <= ledger.rows.Keys && forall k :: k in keys <==> k in ledger.rows.Keys - rest
      invariant NoKeyTwice(keys) && items == ItemsAt(ledger, keys)
      decreases |rest|
    {
      var key :| key in rest;
      var longer := keys + [key];
      assert forall k :: k in longer <==> k in keys || k == key;
      assert ItemsAt(ledger, longer) == ItemsAt(ledger, keys) + [ItemOf(ledger.rows[key])];
      rest, keys, items := rest - {key}, longer, items + [ItemOf(ledger.rows[key])];
    }
    assert Enumerates(keys, ledger);
    items := items + others;
  }

  /** The handler stores what Sync stores, and fails as Sync fails; its answer is the summary of all
      rows stored afterwards, in whatever order they are listed. `otherFunds` and `otherBills` are
      the rows of the tenant's other connections. */
  method SyncAndSummarise(
    service: AccountingService, connection: Option<string>, product: Option<string>, billDate: Option<string>,
    gateway: Option<Gateway>, otherFunds: seq<Item>, otherBills: seq<Item>)
    returns (r: Result<Summary, SyncError>)
    modifies service
    ensures r.Ok? <==> connection.Some? && product.Some? && billDate.Some? && gateway.Some?
                       && EndsWithin(gateway.value.funds, LIMIT)
                       && EndsWithin(gateway.value.bills(product.value, billDate.value), LIMIT)
    ensures r.Err? ==> service.funds == old(service.funds) && service.bills == old(service.bills)
    ensures r.Ok? ==>
              var fetchedFunds := WholeList(gateway.value.funds);
              var fetchedBills := WholeList(gateway.value.bills(product.value, billDate.value));
              && service.funds == Upserted(Funds, old(service.funds), fetchedFunds)
              && service.bills == Upserted(Bills(service.digest), old(service.bills), fetchedBills)
    ensures r.Ok? ==>
              forall funds, bills | IsListing(funds, service.funds, otherFunds)
                                    && IsListing(bills, service.bills, otherBills) ::
                IsSummary(funds, bills, r.value)
  {
    var synced := service.Sync(connection, product, billDate, gateway);
    if synced.Err? { return Err(synced.error); }
    var funds := ListRows(service.funds, otherFunds);
    var bills := ListRows(service.bills, otherBills);
    var summary := Summarise(funds, bills);
    r := Ok(summary);
    forall xs, ys | IsListing(xs, service.funds, otherFunds) && IsListing(ys, service.bills, otherBills)
      ensures IsSummary(xs, ys, summary)
    {
      ListingsArePermutations(funds, xs, service.funds, otherFunds);
      ListingsArePermutations(bills, ys, service.bills, otherBills);
      SummaryIgnoresListing(funds, bills, xs, ys, summary);
    }
  }
}
