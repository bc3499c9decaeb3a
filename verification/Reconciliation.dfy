/** The reconciliation of funds against voucher bills
    (`reconciliation_summary` in backend/poi_admin/local_life/accounting.py). */
module Reconciliation {
  import opened Text
  import Accounting

  /** What the summary reads of a stored row. */
  datatype Item = Item(amount: int, summary: Accounting.Fields)

  datatype Difference = Difference(order: string, fundAmount: int, billAmount: int, difference: int)

  datatype Summary = Summary(
    fundCount: nat, billCount: nat, fundTotal: int, billTotal: int,
    net: int, differences: seq<Difference>,
    linked: nat, unmatchedFunds: nat, unmatchedBills: nat)

  /** The order a row belongs to, or "" when it names none. */
  function OrderOf(item: Item): string {
    if "order_id" in item.summary && item.summary["order_id"].truthy
    then Strip(item.summary["order_id"].text) else ""
  }

  /** The text of the order id without the spaces around it; a missing, null or empty one is none. */
  lemma OrderIs(item: Item)
    ensures "order_id" !in item.summary ==> OrderOf(item) == ""
    ensures "order_id" in item.summary ==>
              var id := item.summary["order_id"];
              OrderOf(item) == if id.truthy then Strip(id.text) else ""
  {
  }

  function Sum(items: seq<Item>, weight: Item -> int): int {
    if items == [] then 0
    else Sum(items[..|items| - 1], weight) + weight(items[|items| - 1])
  }

  /** Weights: the amount, the amount of the rows of some orders, and the number of orderless rows. */
  function Amount(): Item -> int { (i: Item) => i.amount }

  function AmountIn(orders: set<string>): Item -> int {
    (i: Item) => if OrderOf(i) in orders then i.amount else 0
  }

  function Orderless(): Item -> int { (i: Item) => if OrderOf(i) == "" then 1 else 0 }

  function OrderSum(items: seq<Item>, order: string): int {
    Sum(items, AmountIn({order}))
  }

  function Orders(items: seq<Item>): set<string> {
    set i | 0 <= i < |items| && OrderOf(items[i]) != "" :: OrderOf(items[i])
  }

  /** The order Python sorts strings in: by the first character that differs, a prefix first. */
  predicate Before(s: string, t: string) {
    t != "" && (s == "" || s[0] < t[0] || (s[0] == t[0] && Before(s[1..], t[1..])))
  }

  lemma {:induction false} BeforeIsTotal(s: string, t: string)
    ensures Before(s, t) || s == t || Before(t, s)
    ensures !(Before(s, t) && Before(t, s))
    ensures !Before(s, s)
  {
    if s != "" && t != "" {
      BeforeIsTotal(s[1..], t[1..]);
      assert s == [s[0]] + s[1..] && t == [t[0]] + t[1..];
    }
    if s != "" { BeforeIsTotal(s[1..], s[1..]); }
  }

  lemma {:induction false} BeforeIsTransitive(s: string, t: string, u: string)
    requires Before(s, t) && Before(t, u)
    ensures Before(s, u)
  {
    if s != "" && s[0] == t[0] == u[0] { BeforeIsTransitive(s[1..], t[1..], u[1..]); }
  }

  predicate Increasing(ids: seq<string>) {
    forall i, j | 0 <= i < j < |ids| :: Before(ids[i], ids[j])
  }

  function DifferenceOf(funds: seq<Item>, bills: seq<Item>, order: string): Difference {
    var f, b := OrderSum(funds, order), OrderSum(bills, order);
    Difference(order, f, b, f - b)
  }

  predicate Differs(funds: seq<Item>, bills: seq<Item>, order: string) {
    order in Orders(funds) * Orders(bills) && OrderSum(funds, order) != OrderSum(bills, order)
  }

  predicate InOrder(differences: seq<Difference>) {
    forall i, j | 0 <= i < j < |differences| :: Before(differences[i].order, differences[j].order)
  }

  function Net(differences: seq<Difference>): int {
    if differences == [] then 0
    else Net(differences[..|differences| - 1]) + differences[|differences| - 1].difference
  }

  /** The listed differences are exactly the orders present on both sides with unequal sums, in
      strictly increasing order. */
  ghost predicate Lists(funds: seq<Item>, bills: seq<Item>, differences: seq<Difference>) {
    && InOrder(differences)
    && forall d :: d in differences <==>
         Differs(funds, bills, d.order) && d == DifferenceOf(funds, bills, d.order)
  }

  /** The amounts of a summary, and its counts. */
  ghost predicate HasAmounts(funds: seq<Item>, bills: seq<Item>, s: Summary) {
    && s.fundTotal == Sum(funds, Amount()) && s.billTotal == Sum(bills, Amount())
    && Lists(funds, bills, s.differences) && s.net == Net(s.differences)
  }

  predicate HasCounts(funds: seq<Item>, bills: seq<Item>, s: Summary) {
    var fo, bo := Orders(funds), Orders(bills);
    && s.fundCount == |funds| && s.billCount == |bills| && s.linked == |fo * bo|
    && s.unmatchedFunds == Sum(funds, Orderless()) + |fo - bo|
    && s.unmatchedBills == Sum(bills, Orderless()) + |bo - fo|
  }

  ghost predicate IsSummary(funds: seq<Item>, bills: seq<Item>, s: Summary) {
    HasAmounts(funds, bills, s) && HasCounts(funds, bills, s)
  }

  // ---------------------------------------------------------------- the computation

  method Total(items: seq<Item>) returns (r: int)
    ensures r == Sum(items, Amount())
  {
    r := 0;
    for i := 0 to |items|
      invariant r == Sum(items[..i], Amount())
    {
      assert items[..i + 1][..i] == items[..i];
      r := r + items[i].amount;
    }
    assert items[..|items|] == items;
  }

  /** Adds up the rows of each order and counts the rows without one. */
  method ByOrder(items: seq<Item>) returns (sums: map<string, int>, unmatched: nat)
    ensures sums.Keys == Orders(items) && unmatched == Sum(items, Orderless())
    ensures forall o | o in sums :: sums[o] == OrderSum(items, o)
  {
    sums, unmatched := map[], 0;
    for i := 0 to |items|
      invariant IsGrouping(sums, unmatched, items[..i])
    {
      assert items[..i + 1] == items[..i] + [items[i]];
      GroupsOfOneMore(sums, unmatched, items[..i], items[i]);
      var order := OrderOf(items[i]);
      if order != "" {
        sums := sums[order := At(sums, order) + items[i].amount];
      } else {
        unmatched := unmatched + 1;
      }
    }
    assert items[..|items|] == items;
    forall o | o in sums ensures sums[o] == OrderSum(items, o) { assert At(sums, o) == OrderSum(items, o); }
  }

  /** The sum of an order, starting from 0. */
  function At(sums: map<string, int>, order: string): int {
    if order in sums then sums[order] else 0
  }

  ghost predicate IsGrouping(sums: map<string, int>, unmatched: int, items: seq<Item>) {
    && sums.Keys == Orders(items) && unmatched == Sum(items, Orderless())
    && forall o | o != "" :: At(sums, o) == OrderSum(items, o)
  }

  lemma SumOfOneMore(items: seq<Item>, x: Item, w: Item -> int)
    ensures Sum(items + [x], w) == Sum(items, w) + w(x)
  {
    assert (items + [x])[..|items|] == items;
  }

  lemma OrderSumOfOneMore(items: seq<Item>, x: Item, o: string)
    ensures OrderSum(items + [x], o) == OrderSum(items, o) + if OrderOf(x) == o then x.amount else 0
  {
    SumOfOneMore(items, x, AmountIn({o}));
  }

  lemma GroupsOfOneMore(sums: map<string, int>, unmatched: int, items: seq<Item>, x: Item)
    requires IsGrouping(sums, unmatched, items)
    ensures var o := OrderOf(x);
            if o == "" then IsGrouping(sums, unmatched + 1, items + [x])
            else IsGrouping(sums[o := At(sums, o) + x.amount], unmatched, items + [x])
  {
    OrdersOfOneMore(items, x);
    SumOfOneMore(items, x, Orderless());
    var order := OrderOf(x);
    var sums' := if order == "" then sums else sums[order := At(sums, order) + x.amount];
    forall o | o != "" ensures At(sums', o) == OrderSum(items + [x], o) {
      OrderSumOfOneMore(items, x, o);
      assert At(sums, o) == OrderSum(items, o);
    }
  }

  lemma OrdersOfOneMore(items: seq<Item>, x: Item)
    ensures Orders(items + [x]) == Orders(items) + if OrderOf(x) == "" then {} else {OrderOf(x)}
  {
    var all := items + [x];
    forall o | o in Orders(items) ensures o in Orders(all) {
      var i :| 0 <= i < |items| && OrderOf(items[i]) == o;
      assert all[i] == items[i];
    }
    assert all[|items|] == x;
  }

  /** The ids of a set in increasing order. */
  method Sorted(ids: set<string>) returns (r: seq<string>)
    ensures Increasing(r) && forall id :: id in r <==> id in ids
  {
    r := [];
    var rest := ids;
    while rest != {}
      invariant rest <= ids && Increasing(r) && forall id :: id in r <==> id in ids - rest
      decreases |rest|
    {
      var id :| id in rest;
      rest := rest - {id};
      r := Inserted(r, id);
    }
  }

  function Inserted(ids: seq<string>, id: string): (r: seq<string>)
    requires Increasing(ids) && id !in ids
    ensures Increasing(r) && forall x :: x in r <==> x in ids || x == id
  {
    if ids == [] then [id]
    else
      BeforeIsTotal(ids[0], id);
      if Before(ids[0], id) then
        var tail := Inserted(ids[1..], id);
        assert forall x | x in tail :: Before(ids[0], x);
        assert ids == [ids[0]] + ids[1..];
        [ids[0]] + tail
      else
        assert forall x | x in ids :: Before(id, x) by {
          forall x | x in ids ensures Before(id, x) {
            if x != ids[0] { BeforeIsTransitive(id, ids[0], x); }
          }
        }
        [id] + ids
  }

  function DifferenceAt(f: map<string, int>, b: map<string, int>, order: string): Difference {
    Difference(order, At(f, order), At(b, order), At(f, order) - At(b, order))
  }

  /** The differing orders among the given ones. */
  function Differences(f: map<string, int>, b: map<string, int>, ids: seq<string>): seq<Difference> {
    if ids == [] then []
    else
      var n := |ids| - 1;
      var d := DifferenceAt(f, b, ids[n]);
      Differences(f, b, ids[..n]) + if d.difference != 0 then [d] else []
  }

  lemma {:induction false} DifferencesHold(f: map<string, int>, b: map<string, int>, ids: seq<string>, d: Difference)
    ensures d in Differences(f, b, ids) <==> d.order in ids && d == DifferenceAt(f, b, d.order) && d.difference != 0
  {
    if ids != [] {
      DifferencesHold(f, b, ids[..|ids| - 1], d);
      assert ids == ids[..|ids| - 1] + [ids[|ids| - 1]];
    }
  }

  lemma {:induction false} DifferencesAreInOrder(f: map<string, int>, b: map<string, int>, ids: seq<string>)
    requires Increasing(ids)
    ensures InOrder(Differences(f, b, ids))
  {
    if ids != [] {
      var n := |ids| - 1;
      DifferencesAreInOrder(f, b, ids[..n]);
      var init := Differences(f, b, ids[..n]);
      forall k | 0 <= k < |init| ensures Before(init[k].order, ids[n]) {
        DifferencesHold(f, b, ids[..n], init[k]);
      }
    }
  }

  lemma DifferencesAreListed(
    funds: seq<Item>, bills: seq<Item>, f: map<string, int>, b: map<string, int>, ids: seq<string>)
    requires f.Keys == Orders(funds) && b.Keys == Orders(bills)
    requires forall o | o in f :: f[o] == OrderSum(funds, o)
    requires forall o | o in b :: b[o] == OrderSum(bills, o)
    requires Increasing(ids) && forall id :: id in ids <==> id in Orders(funds) * Orders(bills)
    ensures Lists(funds, bills, Differences(f, b, ids))
  {
    DifferencesAreInOrder(f, b, ids);
    forall d
      ensures d in Differences(f, b, ids) <==>
              Differs(funds, bills, d.order) && d == DifferenceOf(funds, bills, d.order)
    {
      DifferencesHold(f, b, ids, d);
    }
  }

  /** Compares the two sides order by order. */
  method Compare(f: map<string, int>, b: map<string, int>, ids: seq<string>)
    returns (differences: seq<Difference>, net: int)
    requires forall id | id in ids :: id in f && id in b
    ensures differences == Differences(f, b, ids) && net == Net(differences)
  {
    differences, net := [], 0;
    for i := 0 to |ids|
      invariant differences == Differences(f, b, ids[..i]) && net == Net(differences)
    {
      DifferencesOfOneMore(f, b, ids, i);
      assert ids[i] in ids;
      var difference := f[ids[i]] - b[ids[i]];
      if difference != 0 {
        var d := Difference(ids[i], f[ids[i]], b[ids[i]], difference);
        NetOfOneMore(differences, d);
        differences := differences + [d];
        net := net + difference;
      }
    }
    assert ids[..|ids|] == ids;
  }

  lemma DifferencesOfOneMore(f: map<string, int>, b: map<string, int>, ids: seq<string>, i: nat)
    requires i < |ids|
    ensures var d := DifferenceAt(f, b, ids[i]);
            Differences(f, b, ids[..i + 1]) == Differences(f, b, ids[..i]) + if d.difference != 0 then [d] else []
  {
    assert ids[..i + 1][..i] == ids[..i];
  }

  lemma NetOfOneMore(differences: seq<Difference>, d: Difference)
    ensures Net(differences + [d]) == Net(differences) + d.difference
  {
    assert (differences + [d])[..|differences|] == differences;
  }

  method Summarise(funds: seq<Item>, bills: seq<Item>) returns (s: Summary)
    ensures IsSummary(funds, bills, s)
  {
    var fundTotal := Total(funds);
    var billTotal := Total(bills);
    var fundsByOrder, unmatchedFunds := ByOrder(funds);
    var billsByOrder, unmatchedBills := ByOrder(bills);
    var linked := fundsByOrder.Keys * billsByOrder.Keys;
    var ids := Sorted(linked);
    var differences, net := Compare(fundsByOrder, billsByOrder, ids);
    DifferencesAreListed(funds, bills, fundsByOrder, billsByOrder, ids);
    s := Summary(|funds|, |bills|, fundTotal, billTotal, net, differences, |linked|,
                 unmatchedFunds + |fundsByOrder.Keys - billsByOrder.Keys|,
                 unmatchedBills + |billsByOrder.Keys - fundsByOrder.Keys|);
  }

  // ---------------------------------------------------------------- what the summary means

  lemma {:induction false} SumAdds(items: seq<Item>, u: Item -> int, v: Item -> int, w: Item -> int)
    requires forall i | i in items :: u(i) + v(i) == w(i)
    ensures Sum(items, u) + Sum(items, v) == Sum(items, w)
  {
    if items != [] { SumAdds(items[..|items| - 1], u, v, w); }
  }

  lemma SumOverUnion(items: seq<Item>, a: set<string>, b: set<string>)
    requires a !! b
    ensures Sum(items, AmountIn(a)) + Sum(items, AmountIn(b)) == Sum(items, AmountIn(a + b))
  {
    SumAdds(items, AmountIn(a), AmountIn(b), AmountIn(a + b));
  }

  lemma {:induction false} SumOverNothing(items: seq<Item>)
    ensures Sum(items, AmountIn({})) == 0
  {
    if items != [] { SumOverNothing(items[..|items| - 1]); }
  }

  lemma {:induction false} SumOverEverything(items: seq<Item>, orders: set<string>)
    requires forall i | i in items :: OrderOf(i) in orders
    ensures Sum(items, AmountIn(orders)) == Sum(items, Amount())
  {
    if items != [] { SumOverEverything(items[..|items| - 1], orders); }
  }

  /** A total splits into the orderless rows, the orders of this side only, and the linked ones. */
  lemma TotalSplits(items: seq<Item>, other: set<string>)
    ensures var mine := Orders(items);
            Sum(items, Amount())
            == OrderSum(items, "") + Sum(items, AmountIn(mine - other)) + Sum(items, AmountIn(mine * other))
  {
    var mine := Orders(items);
    assert mine == (mine - other) + (mine * other);
    SumOverUnion(items, mine - other, mine * other);
    SumOverUnion(items, {""}, mine);
    SumOverEverything(items, {""} + mine);
  }

  lemma {:induction false} AgreeingOrdersCancel(funds: seq<Item>, bills: seq<Item>, orders: set<string>)
    requires forall o | o in orders :: OrderSum(funds, o) == OrderSum(bills, o)
    ensures Sum(funds, AmountIn(orders)) == Sum(bills, AmountIn(orders))
    decreases |orders|
  {
    if orders == {} {
      SumOverNothing(funds);
      SumOverNothing(bills);
    } else {
      var o :| o in orders;
      AgreeingOrdersCancel(funds, bills, orders - {o});
      SumOverUnion(funds, orders - {o}, {o});
      SumOverUnion(bills, orders - {o}, {o});
      assert orders - {o} + {o} == orders;
    }
  }

  function Listed(differences: seq<Difference>): set<string> {
    set d | d in differences :: d.order
  }

  /** The net difference is what the listed orders hold on the two sides. */
  lemma {:induction false} NetIsTheListedOrders(funds: seq<Item>, bills: seq<Item>, differences: seq<Difference>)
    requires InOrder(differences)
    requires forall d | d in differences :: d == DifferenceOf(funds, bills, d.order)
    ensures Net(differences) == Sum(funds, AmountIn(Listed(differences))) - Sum(bills, AmountIn(Listed(differences)))
  {
    if differences == [] {
      assert Listed(differences) == {};
      SumOverNothing(funds);
      SumOverNothing(bills);
    } else {
      var n := |differences| - 1;
      var init, last := differences[..n], differences[n];
      assert differences == init + [last];
      NetIsTheListedOrders(funds, bills, init);
      forall o | o in Listed(init) ensures o != last.order { BeforeIsTotal(o, o); }
      assert Listed(differences) == Listed(init) + {last.order};
      SumOverUnion(funds, Listed(init), {last.order});
      SumOverUnion(bills, Listed(init), {last.order});
    }
  }

  /** The net difference is what all linked orders hold on the two sides: the unlisted ones agree. */
  lemma NetIsTheLinkedOrders(funds: seq<Item>, bills: seq<Item>, differences: seq<Difference>)
    requires Lists(funds, bills, differences)
    ensures var linked := Orders(funds) * Orders(bills);
            Net(differences) == Sum(funds, AmountIn(linked)) - Sum(bills, AmountIn(linked))
  {
    var linked := Orders(funds) * Orders(bills);
    var listed := Listed(differences);
    assert listed <= linked;
    forall o | o in linked - listed ensures OrderSum(funds, o) == OrderSum(bills, o) {
      assert Differs(funds, bills, o) ==> DifferenceOf(funds, bills, o) in differences;
    }
    NetIsTheListedOrders(funds, bills, differences);
    AgreeingOrdersCancel(funds, bills, linked - listed);
    SumOverUnion(funds, listed, linked - listed);
    SumOverUnion(bills, listed, linked - listed);
    assert listed + (linked - listed) == linked;
  }

  /** No money is lost: the totals differ by the net difference, plus the funds without an order and
      of orders that have no bill, minus the bills without an order and of orders that have no
      fund. */
  lemma MoneyIsConserved(funds: seq<Item>, bills: seq<Item>, s: Summary)
    requires HasAmounts(funds, bills, s)
    ensures var fundOnly, billOnly := Orders(funds) - Orders(bills), Orders(bills) - Orders(funds);
            s.fundTotal - s.billTotal
            == s.net + OrderSum(funds, "") + Sum(funds, AmountIn(fundOnly))
               - OrderSum(bills, "") - Sum(bills, AmountIn(billOnly))
  {
    TotalSplits(funds, Orders(bills));
    TotalSplits(bills, Orders(funds));
    NetIsTheLinkedOrders(funds, bills, s.differences);
    assert Orders(bills) * Orders(funds) == Orders(funds) * Orders(bills);
  }

  function OrderlessRows(items: seq<Item>, n: nat): set<nat>
    requires n <= |items|
  {
    set i: nat | i < n && OrderOf(items[i]) == ""
  }

  lemma {:induction false} OrderlessAreCounted(items: seq<Item>, n: nat)
    requires n <= |items|
    ensures Sum(items[..n], Orderless()) == |OrderlessRows(items, n)|
  {
    if n > 0 {
      OrderlessAreCounted(items, n - 1);
      SumOfOneMore(items[..n - 1], items[n - 1], Orderless());
      assert items[..n] == items[..n - 1] + [items[n - 1]];
      OrderlessOfOneMore(items, n - 1);
    }
  }

  lemma AllOrderlessAreCounted(items: seq<Item>)
    ensures Sum(items, Orderless()) == |OrderlessRows(items, |items|)|
  {
    assert items[..|items|] == items;
    OrderlessAreCounted(items, |items|);
  }

  lemma OrderlessOfOneMore(items: seq<Item>, n: nat)
    requires n < |items|
    ensures OrderlessRows(items, n + 1) == OrderlessRows(items, n) + if OrderOf(items[n]) == "" then {n} else {}
  {
  }

  lemma PartsAddUp(a: set<string>, b: set<string>)
    ensures |a * b| + |a - b| == |a| && |a * b| + |b - a| == |b| && (|a * b| == 0 <==> a !! b)
  {
    assert a == a * b + (a - b) && b == a * b + (b - a);
  }

  /** No order and no row is forgotten: on each side the linked and the unmatched orders are all orders,
      and the unmatched count holds the rows without an order besides. */
  lemma EveryOrderIsCounted(funds: seq<Item>, bills: seq<Item>, s: Summary)
    requires HasCounts(funds, bills, s)
    ensures s.fundCount == |funds| && s.billCount == |bills|
    ensures s.linked + s.unmatchedFunds == |Orders(funds)| + |OrderlessRows(funds, |funds|)|
    ensures s.linked + s.unmatchedBills == |Orders(bills)| + |OrderlessRows(bills, |bills|)|
    ensures s.linked == 0 <==> Orders(funds) !! Orders(bills)
  {
    PartsAddUp(Orders(funds), Orders(bills));
    AllOrderlessAreCounted(funds);
    AllOrderlessAreCounted(bills);
  }

  lemma {:induction false} OrderedListsOfOneSetAreEqual(xs: seq<Difference>, ys: seq<Difference>)
    requires InOrder(xs) && InOrder(ys) && forall d :: d in xs <==> d in ys
    ensures xs == ys
  {
    assert ys != [] ==> ys[0] in xs;
    if xs != [] {
      assert xs[0] in ys && ys != [] && ys[0] in xs;
      BeforeIsTotal(xs[0].order, ys[0].order);
      assert xs[0] == ys[0];
      assert xs == [xs[0]] + xs[1..] && ys == [ys[0]] + ys[1..];
      BeforeIsTotal(xs[0].order, xs[0].order);
      assert xs[0] !in xs[1..] && ys[0] !in ys[1..];
      forall d ensures d in xs[1..] <==> d in ys[1..] {
        assert d in xs <==> d in ys;
      }
      OrderedListsOfOneSetAreEqual(xs[1..], ys[1..]);
    }
  }

  /** Two lists of rows have at most one summary. */
  lemma SummaryIsDetermined(funds: seq<Item>, bills: seq<Item>)
    ensures forall s, t | IsSummary(funds, bills, s) && IsSummary(funds, bills, t) :: s == t
  {
    forall s, t | IsSummary(funds, bills, s) && IsSummary(funds, bills, t) ensures s == t {
      OrderedListsOfOneSetAreEqual(s.differences, t.differences);
    }
  }

  lemma {:induction false} SumOfParts(xs: seq<Item>, ys: seq<Item>, w: Item -> int)
    ensures Sum(xs + ys, w) == Sum(xs, w) + Sum(ys, w)
  {
    if ys == [] {
      assert xs + ys == xs;
    } else {
      var n := |ys| - 1;
      assert (xs + ys)[..|xs| + n] == xs + ys[..n];
      SumOfParts(xs, ys[..n], w);
    }
  }

  /** A sum does not depend on the order of the rows. */
  lemma {:induction false} SumPermutes(xs: seq<Item>, ys: seq<Item>, w: Item -> int)
    requires multiset(xs) == multiset(ys)
    ensures Sum(xs, w) == Sum(ys, w)
  {
    if xs == [] {
      assert |multiset(ys)| == 0;
    } else {
      var x := xs[|xs| - 1];
      assert x in multiset(ys);
      var rest := TakenOut(ys, x, w);
      FrontLacksTheLast(xs);
      SumPermutes(xs[..|xs| - 1], rest, w);
    }
  }

  lemma FrontLacksTheLast(xs: seq<Item>)
    requires xs != []
    ensures multiset(xs[..|xs| - 1]) == multiset(xs) - multiset{xs[|xs| - 1]}
  {
    assert xs == xs[..|xs| - 1] + [xs[|xs| - 1]];
  }

  lemma TakenOut(ys: seq<Item>, x: Item, w: Item -> int) returns (rest: seq<Item>)
    requires x in ys
    ensures multiset(rest) == multiset(ys) - multiset{x}
    ensures Sum(ys, w) == Sum(rest, w) + w(x)
  {
    var k :| 0 <= k < |ys| && ys[k] == x;
    rest := ys[..k] + ys[k + 1..];
    WithoutOne(ys[..k], x, ys[k + 1..], w);
    assert ys[..k] + [x] + ys[k + 1..] == ys;
  }

  lemma WithoutOne(front: seq<Item>, x: Item, back: seq<Item>, w: Item -> int)
    ensures multiset(front + back) == multiset(front + [x] + back) - multiset{x}
    ensures Sum(front + [x] + back, w) == Sum(front + back, w) + w(x)
  {
    SumOfParts(front, back, w);
    SumOfParts(front + [x], back, w);
    SumOfOneMore(front, x, w);
  }

  lemma OrdersPermute(xs: seq<Item>, ys: seq<Item>)
    requires multiset(xs) == multiset(ys)
    ensures Orders(xs) == Orders(ys)
  {
    forall o | o in Orders(xs) ensures o in Orders(ys) { OrderCarriesOver(xs, ys, o); }
    forall o | o in Orders(ys) ensures o in Orders(xs) { OrderCarriesOver(ys, xs, o); }
  }

  lemma OrderCarriesOver(xs: seq<Item>, ys: seq<Item>, o: string)
    requires multiset(xs) == multiset(ys) && o in Orders(xs)
    ensures o in Orders(ys)
  {
    var i :| 0 <= i < |xs| && OrderOf(xs[i]) == o;
    assert xs[i] in multiset(ys);
    var j :| 0 <= j < |ys| && ys[j] == xs[i];
  }

  /** The summary does not depend on the order in which the rows are listed. */
  lemma SummaryIgnoresListing(funds: seq<Item>, bills: seq<Item>, funds': seq<Item>, bills': seq<Item>, s: Summary)
    requires multiset(funds) == multiset(funds') && multiset(bills) == multiset(bills')
    requires IsSummary(funds, bills, s)
    ensures IsSummary(funds', bills', s)
  {
    assert |multiset(funds)| == |multiset(funds')| && |multiset(bills)| == |multiset(bills')|;
    SumPermutes(funds, funds', Amount());
    SumPermutes(bills, bills', Amount());
    SumPermutes(funds, funds', Orderless());
    SumPermutes(bills, bills', Orderless());
    OrdersPermute(funds, funds');
    OrdersPermute(bills, bills');
    ListingIgnoresOrder(funds, bills, funds', bills', s.differences);
  }

  lemma DifferencePermutes(funds: seq<Item>, bills: seq<Item>, funds': seq<Item>, bills': seq<Item>, o: string)
    requires multiset(funds) == multiset(funds') && multiset(bills) == multiset(bills')
    ensures DifferenceOf(funds, bills, o) == DifferenceOf(funds', bills', o)
    ensures Differs(funds, bills, o) == Differs(funds', bills', o)
  {
    OrdersPermute(funds, funds');
    OrdersPermute(bills, bills');
    SumPermutes(funds, funds', AmountIn({o}));
    SumPermutes(bills, bills', AmountIn({o}));
  }

  lemma ListingIgnoresOrder(funds: seq<Item>, bills: seq<Item>, funds': seq<Item>, bills': seq<Item>,
                            differences: seq<Difference>)
    requires multiset(funds) == multiset(funds') && multiset(bills) == multiset(bills')
    requires Lists(funds, bills, differences)
    ensures Lists(funds', bills', differences)
  {
    forall d
      ensures d in differences <==> Differs(funds', bills', d.order) && d == DifferenceOf(funds', bills', d.order)
    {
      DifferencePermutes(funds, bills, funds', bills', d.order);
    }
  }
}
