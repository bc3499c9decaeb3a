/** The mirror of funds flows and voucher bills (backend/poi_admin/local_life/accounting.py): both
    paginated lists are fetched completely before the first row is written, and every item is then
    written to the row of its external id. */
module Accounting {
  import opened Wrappers
  import opened Text
  import opened Pagination

  /** What the code observes of a field of an upstream item: its text, its reading as an integer
      (0 when it has none) and as a time, whether it is null, whether it is truthy, and whether it
      is a list or an object. */
  datatype Value = Value(text: string, number: int, time: Option<int>, isNull: bool, truthy: bool, nested: bool)

  type Fields = map<string, Value>

  datatype Raw = NotAnObject | Object(fields: Fields)

  datatype Content = Content(kind: Option<string>, amount: int, currency: string, occurredAt: Option<int>,
                             summary: Fields)

  datatype Row = Row(id: nat, content: Content)

  /** The rows of one connection by external id; `next` is the next unused local id. */
  datatype Ledger = Ledger(rows: map<string, Row>, next: nat)

  /** Which list a ledger mirrors. Bills without an id are named by the digest of their identity. */
  datatype Book = Funds | Bills(digest: string -> string)

  datatype Gateway = Gateway(funds: Source<Raw>, bills: (string, string) -> Source<Raw>)

  datatype SyncError = InvalidPayload | ConnectionNotFound | Paging(error: PageError)

  const SUMMARY_FIELDS := {
    "type", "entry_type", "bill_type", "amount", "currency", "occurred_at", "created_at", "updated_at",
    "order_id", "voucher_id", "status", "product_id", "consume_store_name", "out_store_id",
    "voucher_buy_amount", "voucher_pay_amount", "mch_favor_amount", "platform_favor_amount",
    "mch_settle_amount", "finder_settle_amount", "commission_fee", "consume_time", "refund_time",
    "mch_settle_time", "commission_fee_settle_time", "refund_amount", "after_sale_id"
  }

  const IDENTITY_FIELDS := ["product_id", "order_id", "code", "time_index", "consume_time"]

  function Get(fields: Fields, name: string, fallback: Option<Value>): Option<Value> {
    if name in fields then Some(fields[name]) else fallback
  }

  function TextOf(v: Option<Value>, fallback: string): string {
    if v.Some? then v.value.text else fallback
  }

  function NumberOf(v: Option<Value>): int {
    if v.Some? then v.value.number else 0
  }

  function TimeOf(v: Option<Value>): Option<int> {
    if v.Some? then v.value.time else None
  }

  function Join(parts: seq<string>): string {
    if parts == [] then "" else if |parts| == 1 then parts[0] else parts[0] + "|" + Join(parts[1..])
  }

  function IdentityParts(fields: Fields): seq<string> {
    seq(|IDENTITY_FIELDS|, i requires 0 <= i < |IDENTITY_FIELDS| => TextOf(Get(fields, IDENTITY_FIELDS[i], None), ""))
  }

  predicate OnlyBars(s: string) {
    forall i | 0 <= i < |s| :: s[i] == '|'
  }

  function BillId(digest: string -> string, fields: Fields): string {
    var id := Strip(TextOf(Get(fields, "id", Get(fields, "external_id", None)), ""));
    var identity := Join(IdentityParts(fields));
    if id != "" then id
    else if OnlyBars(identity) then "" else "bill:" + digest(identity)
  }

  function FundId(fields: Fields): string {
    Strip(TextOf(Get(fields, "id", Get(fields, "external_id", Get(fields, "flow_id", None))), ""))
  }

  /** The external id an item is stored under, if it is stored at all. */
  function KeyOf(book: Book, raw: Raw): Option<string> {
    if raw.NotAnObject? then None
    else
      var id := if book.Funds? then FundId(raw.fields) else BillId(book.digest, raw.fields);
      if id == "" then None else Some(id)
  }

  function SafeEntry(fields: Fields): Fields {
    map k | k in fields && k in SUMMARY_FIELDS && !fields[k].nested :: fields[k]
  }

  function ContentOf(book: Book, fields: Fields): Content {
    if book.Funds? then
      var kind := Get(fields, "entry_type", Get(fields, "type", None));
      Content(if kind.Some? && !kind.value.isNull then Some(kind.value.text) else None,
              NumberOf(Get(fields, "amount", None)),
              TextOf(Get(fields, "currency", None), "CNY"),
              TimeOf(Get(fields, "occurred_at", Get(fields, "created_at", None))),
              SafeEntry(fields))
    else
      Content(Some(if NumberOf(Get(fields, "refund_amount", None)) != 0 then "refund" else "settlement"),
              NumberOf(Get(fields, "mch_settle_amount", Get(fields, "amount", None))),
              TextOf(Get(fields, "currency", None), "CNY"),
              TimeOf(Get(fields, "mch_settle_time", Get(fields, "consume_time", Get(fields, "occurred_at", None)))),
              SafeEntry(fields))
  }

  /** The value of the first of the names that is present, null or not. */
  function FirstOf(fields: Fields, names: seq<string>): Option<Value> {
    if names == [] then None
    else if names[0] in fields then Some(fields[names[0]])
    else FirstOf(fields, names[1..])
  }

  lemma FirstOfNext(fields: Fields, name: string, names: seq<string>)
    ensures FirstOf(fields, [name] + names) == Get(fields, name, FirstOf(fields, names))
  {
    assert ([name] + names)[1..] == names;
  }

  lemma FirstOfThree(fields: Fields, a: string, b: string, c: string)
    ensures FirstOf(fields, [a, b]) == Get(fields, a, Get(fields, b, None))
    ensures FirstOf(fields, [a, b, c]) == Get(fields, a, Get(fields, b, Get(fields, c, None)))
  {
    FirstOfNext(fields, b, []);
    FirstOfNext(fields, c, []);
    FirstOfNext(fields, a, [b]);
    FirstOfNext(fields, b, [c]);
    FirstOfNext(fields, a, [b, c]);
    assert [a] + [b] == [a, b] && [b] + [c] == [b, c] && [a] + [b, c] == [a, b, c];
    assert [b] + [] == [b] && [c] + [] == [c];
  }

  /** Where the columns of a fund come from: the first of the listed fields that is present, and a
      default when none is. */
  lemma FundColumns(fields: Fields)
    ensures var content := ContentOf(Funds, fields);
            var kind, time := FirstOf(fields, ["entry_type", "type"]), FirstOf(fields, ["occurred_at", "created_at"]);
            && content.kind == (if kind.Some? && !kind.value.isNull then Some(kind.value.text) else None)
            && content.amount == (if "amount" in fields then fields["amount"].number else 0)
            && content.currency == (if "currency" in fields then fields["currency"].text else "CNY")
            && content.occurredAt == (if time.Some? then time.value.time else None)
  {
    FirstOfThree(fields, "entry_type", "type", "");
    FirstOfThree(fields, "occurred_at", "created_at", "");
  }

  /** The same for a bill; it is a refund exactly if it names an amount refunded. */
  lemma BillColumns(digest: string -> string, fields: Fields)
    ensures var content := ContentOf(Bills(digest), fields);
            var amount := FirstOf(fields, ["mch_settle_amount", "amount"]);
            var time := FirstOf(fields, ["mch_settle_time", "consume_time", "occurred_at"]);
            var refunded := "refund_amount" in fields && fields["refund_amount"].number != 0;
            && content.kind == Some(if refunded then "refund" else "settlement")
            && content.amount == (if amount.Some? then amount.value.number else 0)
            && content.currency == (if "currency" in fields then fields["currency"].text else "CNY")
            && content.occurredAt == (if time.Some? then time.value.time else None)
  {
    FirstOfThree(fields, "mch_settle_amount", "amount", "");
    FirstOfThree(fields, "mch_settle_time", "consume_time", "occurred_at");
  }

  /** The fields of an item that may be stored: its kind, amounts, times, and what it belongs to. */
  predicate IsPublic(field: string) {
    || field in {"type", "entry_type", "bill_type", "status"}
    || field in {"amount", "currency", "voucher_buy_amount", "voucher_pay_amount", "refund_amount", "commission_fee"}
    || field in {"mch_favor_amount", "platform_favor_amount", "mch_settle_amount", "finder_settle_amount"}
    || field in {"occurred_at", "created_at", "updated_at", "consume_time", "refund_time"}
    || field in {"mch_settle_time", "commission_fee_settle_time"}
    || field in {"order_id", "voucher_id", "product_id", "after_sale_id", "consume_store_name", "out_store_id"}
  }

  /** What is kept of an item besides: the flat public fields as they are, and nothing else. */
  lemma SummaryIs(book: Book, fields: Fields)
    ensures var summary := ContentOf(book, fields).summary;
            && (forall k :: k in summary <==> k in fields && !fields[k].nested && IsPublic(k))
            && (forall k | k in summary :: summary[k] == fields[k])
  {
  }

  /** The id an item names, without the spaces around it. */
  function NamedId(fields: Fields, names: seq<string>): string {
    var id := FirstOf(fields, names);
    if id.Some? then Strip(id.value.text) else ""
  }

  /** A fund is stored under the id it names, and not at all without one. */
  lemma FundKeysAre(fields: Fields)
    ensures KeyOf(Funds, NotAnObject).None?
    ensures var id := NamedId(fields, ["id", "external_id", "flow_id"]);
            KeyOf(Funds, Object(fields)) == if id != "" then Some(id) else None
  {
    FirstOfThree(fields, "id", "external_id", "flow_id");
    assert Strip("") == "";
  }

  lemma OnlyBarsAre(s: string)
    ensures OnlyBars(s) <==> forall c | c in s :: c == '|'
  {
    forall i | (forall c | c in s :: c == '|') && 0 <= i < |s| ensures s[i] == '|' { assert s[i] in s; }
  }

  /** A bill without an id is named by five of its fields, unless they hold nothing but separators. */
  lemma BillKeysAre(digest: string -> string, fields: Fields)
    ensures KeyOf(Bills(digest), NotAnObject).None?
    ensures var id, identity := NamedId(fields, ["id", "external_id"]), Join(IdentityParts(fields));
            KeyOf(Bills(digest), Object(fields))
            == if id != "" then Some(id)
               else if forall c | c in identity :: c == '|' then None
               else Some("bill:" + digest(identity))
  {
    var identity := Join(IdentityParts(fields));
    FirstOfThree(fields, "id", "external_id", "");
    assert Strip("") == "";
    OnlyBarsAre(identity);
    assert "bill:" + digest(identity) != "";
  }

  lemma IdentityPartsAre(fields: Fields)
    ensures var names := ["product_id", "order_id", "code", "time_index", "consume_time"];
            && |IdentityParts(fields)| == |names|
            && forall i | 0 <= i < |names| ::
                 IdentityParts(fields)[i] == if names[i] in fields then fields[names[i]].text else ""
  {
  }

  function Put(ledger: Ledger, key: string, content: Content): Ledger {
    if key in ledger.rows then ledger.(rows := ledger.rows[key := ledger.rows[key].(content := content)])
    else Ledger(ledger.rows[key := Row(ledger.next, content)], ledger.next + 1)
  }

  function Upserted(book: Book, ledger: Ledger, raws: seq<Raw>): Ledger {
    if raws == [] then ledger
    else
      var n := |raws| - 1;
      var before := Upserted(book, ledger, raws[..n]);
      var key := KeyOf(book, raws[n]);
      if key.None? then before else Put(before, key.value, ContentOf(book, raws[n].fields))
  }

  /** Local ids are never shared, and the next one is unused. */
  ghost predicate Valid(ledger: Ledger) {
    && (forall k | k in ledger.rows :: ledger.rows[k].id < ledger.next)
    && (forall j, k | j in ledger.rows && k in ledger.rows && j != k :: ledger.rows[j].id != ledger.rows[k].id)
  }

  class AccountingService {
    var funds: Ledger
    var bills: Ledger
    const digest: string -> string

    constructor (digest: string -> string)
      ensures funds == Ledger(map[], 0) && bills == Ledger(map[], 0) && this.digest == digest
    {
      funds, bills := Ledger(map[], 0), Ledger(map[], 0);
      this.digest := digest;
    }

    /** It succeeds exactly when the payload is valid, the connection exists and both chains end
        within the page limit; it then holds the upsert of the two complete chains. Any failure,
        one of the gateway included, leaves all rows alone. The result counts the items that were
        fetched. */
    method Sync(connection: Option<string>, product: Option<string>, billDate: Option<string>, gateway: Option<Gateway>)
      returns (r: Result<(nat, nat), SyncError>)
      modifies this
      ensures r.Ok? <==> connection.Some? && product.Some? && billDate.Some? && gateway.Some?
                         && EndsWithin(gateway.value.funds, LIMIT)
                         && EndsWithin(gateway.value.bills(product.value, billDate.value), LIMIT)
      ensures r.Err? ==> funds == old(funds) && bills == old(bills)
      ensures r.Ok? ==>
                var fundPages, billPages := gateway.value.funds, gateway.value.bills(product.value, billDate.value);
                var fetchedFunds, fetchedBills := WholeList(fundPages), WholeList(billPages);
                && funds == Upserted(Funds, old(funds), fetchedFunds)
                && bills == Upserted(Bills(digest), old(bills), fetchedBills)
                && r.value == (|fetchedFunds|, |fetchedBills|)
    {
      if connection.None? { return Err(InvalidPayload); }
      if gateway.None? { return Err(ConnectionNotFound); }
      if product.None? || billDate.None? { return Err(InvalidPayload); }
      var fundPages, billPages := gateway.value.funds, gateway.value.bills(product.value, billDate.value);
      var fetchedFunds, _ := FetchAll(fundPages);
      if fetchedFunds.Err? { return Err(Paging(fetchedFunds.error)); }
      var fetchedBills, _ := FetchAll(billPages);
      if fetchedBills.Err? { return Err(Paging(fetchedBills.error)); }
      UpsertFunds(fetchedFunds.value);
      UpsertBills(fetchedBills.value);
      r := Ok((|fetchedFunds.value|, |fetchedBills.value|));
    }

    method UpsertFunds(raws: seq<Raw>)
      modifies this`funds
      ensures funds == Upserted(Funds, old(funds), raws)
    {
      for i := 0 to |raws|
        invariant funds == Upserted(Funds, old(funds), raws[..i])
      {
        assert raws[..i + 1][..i] == raws[..i];
        if raws[i].NotAnObject? { continue; }
        var id := FundId(raws[i].fields);
        if id == "" { continue; }
        if id !in funds.rows {
          funds := Ledger(funds.rows[id := Row(funds.next, ContentOf(Funds, raws[i].fields))], funds.next + 1);
        } else {
          funds := funds.(rows := funds.rows[id := funds.rows[id].(content := ContentOf(Funds, raws[i].fields))]);
        }
      }
      assert raws[..|raws|] == raws;
    }

    method UpsertBills(raws: seq<Raw>)
      modifies this`bills
      ensures bills == Upserted(Bills(digest), old(bills), raws)
    {
      var book := Bills(digest);
      for i := 0 to |raws|
        invariant bills == Upserted(book, old(bills), raws[..i])
      {
        assert raws[..i + 1][..i] == raws[..i];
        if raws[i].NotAnObject? { continue; }
        var id := BillId(digest, raws[i].fields);
        if id == "" { continue; }
        if id !in bills.rows {
          bills := Ledger(bills.rows[id := Row(bills.next, ContentOf(book, raws[i].fields))], bills.next + 1);
        } else {
          bills := bills.(rows := bills.rows[id := bills.rows[id].(content := ContentOf(book, raws[i].fields))]);
        }
      }
      assert raws[..|raws|] == raws;
    }
  }

  /** Item i is the last one stored under the key. */
  predicate LastAt(book: Book, raws: seq<Raw>, key: string, i: nat) {
    && i < |raws| && KeyOf(book, raws[i]) == Some(key)
    && forall j | i < j < |raws| :: KeyOf(book, raws[j]) != Some(key)
  }

  predicate Absent(book: Book, raws: seq<Raw>, key: string) {
    forall j | 0 <= j < |raws| :: KeyOf(book, raws[j]) != Some(key)
  }

  /** Afterwards the row of a key holds exactly the last item with that key, under the local id it
      already had if it had one. */
  lemma {:induction false} LastOccurrenceWins(book: Book, ledger: Ledger, raws: seq<Raw>, key: string, i: nat)
    requires LastAt(book, raws, key, i)
    ensures var after := Upserted(book, ledger, raws);
            && key in after.rows
            && after.rows[key].content == ContentOf(book, raws[i].fields)
            && (key in ledger.rows ==> after.rows[key].id == ledger.rows[key].id)
  {
    var n := |raws| - 1;
    var init := raws[..n];
    UpsertOfOneMore(book, ledger, raws);
    if i == n {
      IdsAreKept(book, ledger, init, key);
    } else {
      assert LastAt(book, init, key, i) && init[i] == raws[i];
      LastOccurrenceWins(book, ledger, init, key, i);
    }
  }

  /** What the last item of a list does. */
  lemma UpsertOfOneMore(book: Book, ledger: Ledger, raws: seq<Raw>)
    requires raws != []
    ensures var n := |raws| - 1;
            var before, key := Upserted(book, ledger, raws[..n]), KeyOf(book, raws[n]);
            && (key.None? ==> Upserted(book, ledger, raws) == before)
            && (key.Some? ==>
                  raws[n].Object?
                  && Upserted(book, ledger, raws) == Put(before, key.value, ContentOf(book, raws[n].fields)))
  {
  }

  lemma {:induction false} IdsAreKept(book: Book, ledger: Ledger, raws: seq<Raw>, key: string)
    ensures var after := Upserted(book, ledger, raws);
            key in ledger.rows ==> key in after.rows && after.rows[key].id == ledger.rows[key].id
  {
    if raws != [] { IdsAreKept(book, ledger, raws[..|raws| - 1], key); }
  }

  /** Rows that no item names stay as they are, and no row appears without an item naming it. */
  lemma {:induction false} OtherRowsAreUntouched(book: Book, ledger: Ledger, raws: seq<Raw>, key: string)
    requires Absent(book, raws, key)
    ensures var after := Upserted(book, ledger, raws);
            && (key in after.rows <==> key in ledger.rows)
            && (key in ledger.rows ==> after.rows[key] == ledger.rows[key])
  {
    if raws != [] { OtherRowsAreUntouched(book, ledger, raws[..|raws| - 1], key); }
  }

  lemma {:induction false} SomeOccurrenceIsLast(book: Book, raws: seq<Raw>, key: string, k: nat, n: nat)
    returns (i: nat)
    requires k < n <= |raws| && KeyOf(book, raws[k]) == Some(key)
    requires forall j | n <= j < |raws| :: KeyOf(book, raws[j]) != Some(key)
    ensures LastAt(book, raws, key, i)
    decreases n
  {
    if KeyOf(book, raws[n - 1]) == Some(key) {
      i := n - 1;
    } else {
      i := SomeOccurrenceIsLast(book, raws, key, k, n - 1);
    }
  }

  /** No local id is ever handed out twice. */
  lemma {:induction false} LocalIdsStayUnique(book: Book, ledger: Ledger, raws: seq<Raw>)
    requires Valid(ledger)
    ensures Valid(Upserted(book, ledger, raws))
  {
    if raws != [] { LocalIdsStayUnique(book, ledger, raws[..|raws| - 1]); }
  }

  lemma {:induction false} KnownKeysNeedNoIds(book: Book, ledger: Ledger, raws: seq<Raw>)
    requires forall i | 0 <= i < |raws| && KeyOf(book, raws[i]).Some? :: KeyOf(book, raws[i]).value in ledger.rows
    ensures Upserted(book, ledger, raws).next == ledger.next
    ensures Upserted(book, ledger, raws).rows.Keys == ledger.rows.Keys
  {
    if raws != [] {
      var n := |raws| - 1;
      var init := raws[..n];
      assert forall i | 0 <= i < n :: init[i] == raws[i];
      KnownKeysNeedNoIds(book, ledger, init);
      assert KeyOf(book, raws[n]).Some? ==> KeyOf(book, raws[n]).value in ledger.rows.Keys;
    }
  }

  /** Storing the same list a second time changes nothing, neither contents nor local ids. */
  lemma RerunChangesNothing(book: Book, ledger: Ledger, raws: seq<Raw>)
    ensures Upserted(book, Upserted(book, ledger, raws), raws) == Upserted(book, ledger, raws)
  {
    var once := Upserted(book, ledger, raws);
    forall i | 0 <= i < |raws| && KeyOf(book, raws[i]).Some? ensures KeyOf(book, raws[i]).value in once.rows {
      var last := SomeOccurrenceIsLast(book, raws, KeyOf(book, raws[i]).value, i, |raws|);
      LastOccurrenceWins(book, ledger, raws, KeyOf(book, raws[i]).value, last);
    }
    KnownKeysNeedNoIds(book, once, raws);
    var twice := Upserted(book, once, raws);
    forall key | key in once.rows ensures twice.rows[key] == once.rows[key] {
      RerunKeepsRow(book, ledger, raws, key);
    }
    assert twice.rows == once.rows;
  }

  lemma RerunKeepsRow(book: Book, ledger: Ledger, raws: seq<Raw>, key: string)
    requires key in Upserted(book, ledger, raws).rows
    ensures var once := Upserted(book, ledger, raws);
            var twice := Upserted(book, once, raws);
            key in twice.rows && twice.rows[key] == once.rows[key]
  {
    var once := Upserted(book, ledger, raws);
    if Absent(book, raws, key) {
      OtherRowsAreUntouched(book, once, raws, key);
    } else {
      var k :| 0 <= k < |raws| && KeyOf(book, raws[k]) == Some(key);
      var last := SomeOccurrenceIsLast(book, raws, key, k, |raws|);
      LastOccurrenceWins(book, ledger, raws, key, last);
      LastOccurrenceWins(book, once, raws, key, last);
    }
  }

  predicate BarFree(s: string) {
    '|' !in s
  }

  function Bars(s: string): nat {
    if s == "" then 0 else (if s[0] == '|' then 1 else 0) + Bars(s[1..])
  }

  lemma {:induction false} BarsAdd(s: string, t: string)
    ensures Bars(s + t) == Bars(s) + Bars(t)
  {
    if s == "" {
      assert s + t == t;
    } else {
      BarsAdd(s[1..], t);
      assert (s + t)[1..] == s[1..] + t;
    }
  }

  lemma {:induction false} BarFreeMeansNoBars(s: string)
    ensures BarFree(s) <==> Bars(s) == 0
  {
    if s != "" {
      BarFreeMeansNoBars(s[1..]);
      assert s == [s[0]] + s[1..];
    }
  }

  predicate AllBarFree(parts: seq<string>) {
    forall i | 0 <= i < |parts| :: BarFree(parts[i])
  }

  /** The separators are the only bars of a joined text exactly if no part holds one. */
  lemma {:induction false} BarsOfJoin(parts: seq<string>)
    requires parts != []
    ensures Bars(Join(parts)) >= |parts| - 1
    ensures Bars(Join(parts)) == |parts| - 1 <==> AllBarFree(parts)
  {
    BarFreeMeansNoBars(parts[0]);
    if |parts| > 1 {
      var rest := parts[1..];
      BarsOfJoin(rest);
      BarsAdd(parts[0] + "|", Join(rest));
      BarsAdd(parts[0], "|");
      assert Bars("|") == 1 by { assert "|"[1..] == ""; }
      assert parts == [parts[0]] + rest;
    }
  }

  lemma {:induction false} BarFreePartsAreDetermined(xs: seq<string>, ys: seq<string>)
    requires |xs| == |ys| && AllBarFree(xs) && AllBarFree(ys) && Join(xs) == Join(ys)
    ensures xs == ys
  {
    if |xs| > 1 {
      var s := Join(xs);
      var m, n := |xs[0]|, |ys[0]|;
      assert s[..m] == xs[0] && s[..n] == ys[0] && s[m] == '|' && s[n] == '|';
      assert forall k | 0 <= k < m :: s[k] == xs[0][k] != '|';
      assert forall k | 0 <= k < n :: s[k] == ys[0][k] != '|';
      assert m == n;
      assert s[m + 1..] == Join(xs[1..]) && s[n + 1..] == Join(ys[1..]);
      BarFreePartsAreDetermined(xs[1..], ys[1..]);
      assert xs == [xs[0]] + xs[1..] && ys == [ys[0]] + ys[1..];
    } else if |xs| == 1 {
      assert xs == [xs[0]] && ys == [ys[0]];
    }
  }

  /** A bar inside a part may as well be the separator, and the separator beside it part of a part. */
  lemma {:induction false} BarsMayMove(front: seq<string>, a: string, b: string, c: string, rest: seq<string>)
    ensures Join(front + [a + "|" + b, c] + rest) == Join(front + [a, b + "|" + c] + rest)
  {
    var xs, ys := front + [a + "|" + b, c] + rest, front + [a, b + "|" + c] + rest;
    if front == [] {
      assert xs[1..] == [c] + rest && ys[1..] == [b + "|" + c] + rest;
      if rest != [] {
        assert xs[1..][1..] == rest && ys[1..][1..] == rest;
        assert Join(xs) == a + "|" + b + "|" + (c + "|" + Join(rest));
        assert Join(ys) == a + "|" + (b + "|" + c + "|" + Join(rest));
      } else {
        assert Join(xs) == a + "|" + b + "|" + c == Join(ys);
      }
    } else {
      BarsMayMove(front[1..], a, b, c, rest);
      assert xs[1..] == front[1..] + [a + "|" + b, c] + rest && ys[1..] == front[1..] + [a, b + "|" + c] + rest;
    }
  }

  /** A part with a bar, in a list of at least two, has another list with the same joined text. */
  lemma BarsHideParts(xs: seq<string>, i: nat) returns (ys: seq<string>)
    requires 2 <= |xs| && i < |xs| && !BarFree(xs[i])
    ensures |ys| == |xs| && ys != xs && Join(ys) == Join(xs)
  {
    var p :| 0 <= p < |xs[i]| && xs[i][p] == '|';
    var a, b := xs[i][..p], xs[i][p + 1..];
    assert xs[i] == a + "|" + b;
    if i + 1 < |xs| {
      var front, c, rest := xs[..i], xs[i + 1], xs[i + 2..];
      assert xs == front + [a + "|" + b, c] + rest;
      ys := front + [a, b + "|" + c] + rest;
      assert ys[i] == a;
      BarsMayMove(front, a, b, c, rest);
    } else {
      var front, z := xs[..i - 1], xs[i - 1];
      assert xs == front + [z, a + "|" + b] + [];
      ys := front + [z + "|" + a, b] + [];
      assert ys[i] == b;
      BarsMayMove(front, z, a, b, []);
    }
  }

  /** The joined text determines the parts, of which there are two or more, exactly when none of them
      holds a separator. Bills without an id are told apart by five such parts. */
  lemma IdentityDeterminesFields(xs: seq<string>)
    requires |xs| >= 2
    ensures (forall ys | |ys| == |xs| && Join(ys) == Join(xs) :: ys == xs) <==> AllBarFree(xs)
  {
    if AllBarFree(xs) {
      forall ys | |ys| == |xs| && Join(ys) == Join(xs) ensures ys == xs {
        BarsOfJoin(xs);
        BarsOfJoin(ys);
        BarFreePartsAreDetermined(xs, ys);
      }
    } else {
      var i :| 0 <= i < |xs| && !BarFree(xs[i]);
      var ys := BarsHideParts(xs, i);
    }
  }

  function TextValue(text: string): Value {
    Value(text, 0, None, false, text != "", false)
  }

  /** A bill without an id that names its product and its order. */
  function Bill(product: string, order: string): Raw {
    Object(map["product_id" := TextValue(product), "order_id" := TextValue(order)])
  }

  lemma KeyOfBill(digest: string -> string, product: string, order: string)
    requires product != "" && product[0] != '|'
    ensures KeyOf(Bills(digest), Bill(product, order)) == Some("bill:" + digest(Join([product, order, "", "", ""])))
  {
    var fields := Bill(product, order).fields;
    assert IdentityParts(fields) == [product, order, "", "", ""];
    assert Strip(TextOf(Get(fields, "id", Get(fields, "external_id", None)), "")) == "";
    var identity := Join(IdentityParts(fields));
    assert identity == product + "|" + Join(IdentityParts(fields)[1..]);
    assert identity[0] != '|';
  }

  lemma LaterItemOverwrites(book: Book, x: Raw, y: Raw)
    requires KeyOf(book, x).Some? && KeyOf(book, x) == KeyOf(book, y)
    ensures Upserted(book, Ledger(map[], 0), [x, y]).rows
            == map[KeyOf(book, x).value := Row(0, ContentOf(book, y.fields))]
  {
    assert [x, y][..1] == [x] && [x][..0] == [];
    UpsertOfOneMore(book, Ledger(map[], 0), [x]);
    UpsertOfOneMore(book, Ledger(map[], 0), [x, y]);
  }

  /** Two bills of different products and orders that share an identity: the second one overwrites
      the row of the first. */
  lemma SeparatorsConfuseBills(digest: string -> string, a: string, b: string, c: string)
    requires a != "" && a[0] != '|'
    ensures var x, y := Bill(a + "|" + b, c), Bill(a, b + "|" + c);
            var book := Bills(digest);
            && x != y && KeyOf(book, x).Some? && KeyOf(book, x) == KeyOf(book, y)
            && Upserted(book, Ledger(map[], 0), [x, y]).rows
               == map[KeyOf(book, x).value := Row(0, ContentOf(book, y.fields))]
  {
    var x, y := Bill(a + "|" + b, c), Bill(a, b + "|" + c);
    KeyOfBill(digest, a + "|" + b, c);
    KeyOfBill(digest, a, b + "|" + c);
    assert Join([a + "|" + b, c, "", "", ""]) == Join([a, b + "|" + c, "", "", ""]) by {
      BarsMayMove([], a, b, c, ["", "", ""]);
      assert [] + [a + "|" + b, c] + ["", "", ""] == [a + "|" + b, c, "", "", ""];
      assert [] + [a, b + "|" + c] + ["", "", ""] == [a, b + "|" + c, "", "", ""];
    }
    LaterItemOverwrites(Bills(digest), x, y);
    assert |x.fields["product_id"].text| > |y.fields["product_id"].text|;
  }
}
