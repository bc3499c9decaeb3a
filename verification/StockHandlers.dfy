/** Stock handlers that wait: a handler finds its version current and calls the gateway; the request
    arrives there later, and the answer is stored later still, while requests commit and other
    handlers run (backend/poi_admin/local_life/products.py). The runs of StockRuns take a handler as
    one step; this module says when that is justified and exactly what goes wrong otherwise. */
module StockHandlers {
  import opened Wrappers
  import opened Stock
  import SR = StockRuns

  type CallId = nat

  /** A stock update on its way: the operation it carries out, the row its handler loaded, whether the
      gateway may still receive it, and whether the handler still waits for the answer. */
  datatype Call = Call(key: Key, seen: Sku, pending: bool, listening: bool)

  datatype Desk = Desk(base: State, calls: seq<Call>)

  datatype Event =
    | Plain(e: SR.Event)
    | Begin(key: Key)
    | Arrive(c: CallId)
    | Answer(c: CallId)
    | Refuse(c: CallId)
    | GiveUp(c: CallId)

  predicate IsUpdate(s: State, key: Key) {
    key in s.ops && s.ops[key].SetStock? && s.ops[key].stock >= 0 && s.ops[key].sku in s.skus && s.created
  }

  predicate IsCall(s: Desk, c: CallId) {
    c < |s.calls| && IsUpdate(s.base, s.calls[c].key)
  }

  /** A handler that finds its operation superseded, or cannot run it, ends without a call. */
  predicate Enabled(s: Desk, e: Event) {
    match e
    case Plain(p) => !p.Run? && SR.Enabled(s.base, p)
    case Begin(key) => IsUpdate(s.base, key) && !Superseded(s.base, s.base.ops[key])
    case Arrive(c) => IsCall(s, c) && s.calls[c].pending
    case Answer(c) => IsCall(s, c) && !s.calls[c].pending && s.calls[c].listening
    case Refuse(c) => IsCall(s, c) && s.calls[c].pending
    case GiveUp(c) => IsCall(s, c)
  }

  /** The stock a handler leaves. The column is written only if it changes the row loaded. */
  function Landed(row: Sku, seen: Sku, stock: int): int {
    if stock != seen.stock then stock else row.stock
  }

  function Arrived(s: State, key: Key): State
    requires IsUpdate(s, key)
  {
    s.(remote := s.remote[s.ops[key].sku := s.ops[key].stock])
  }

  function Answered(s: State, key: Key, seen: Sku): State
    requires IsUpdate(s, key)
  {
    var o := s.ops[key];
    s.(skus := s.skus[o.sku := s.skus[o.sku].(stock := Landed(s.skus[o.sku], seen, o.stock))])
  }

  function Apply(s: Desk, e: Event): Desk
    requires Enabled(s, e)
  {
    match e
    case Plain(p) => s.(base := SR.Apply(s.base, p))
    case Begin(key) => s.(calls := s.calls + [Call(key, s.base.skus[s.base.ops[key].sku], true, true)])
    case Arrive(c) => Desk(Arrived(s.base, s.calls[c].key), s.calls[c := s.calls[c].(pending := false)])
    case Answer(c) =>
      Desk(Answered(s.base, s.calls[c].key, s.calls[c].seen), s.calls[c := s.calls[c].(listening := false)])
    case Refuse(c) => s.(calls := s.calls[c := s.calls[c].(pending := false, listening := false)])
    case GiveUp(c) => s.(calls := s.calls[c := s.calls[c].(listening := false)])
  }

  /** A call that nothing interrupts does to the stocks what an atomic run with that reply does: answered,
      with its answer lost, or refused. */
  lemma UninterruptedCallIs(s: Desk, key: Key)
    requires IsUpdate(s.base, key) && !Superseded(s.base, s.base.ops[key])
    ensures Enabled(s, Begin(key))
    ensures var c, o, s1 := |s.calls|, s.base.ops[key], Apply(s, Begin(key));
            && s1.base == s.base && Enabled(s1, Arrive(c)) && Enabled(s1, Refuse(c)) && Enabled(s1, GiveUp(c))
            && !Enabled(s1, Answer(c))
            && Apply(s1, Refuse(c)).base == AfterSetStock(s.base, o, Refused)
            && !Enabled(Apply(s1, Refuse(c)), Arrive(c)) && !Enabled(Apply(s1, Refuse(c)), Answer(c))
            && var s2 := Apply(s1, Arrive(c));
               && s2.base == AfterSetStock(s.base, o, ReplyLost)
               && Enabled(s2, Answer(c)) && !Enabled(s2, Arrive(c)) && !Enabled(s2, Refuse(c))
               && Apply(s2, Answer(c)).base == AfterSetStock(s.base, o, Applied)
               && !Enabled(Apply(s2, Answer(c)), Answer(c)) && !Enabled(Apply(s2, GiveUp(c)), Answer(c))
    ensures forall p :: Enabled(s, Plain(p)) <==> !p.Run? && SR.Enabled(s.base, p)
    ensures forall p | Enabled(s, Plain(p)) :: Apply(s, Plain(p)) == s.(base := SR.Apply(s.base, p))
  {
    var o := s.base.ops[key];
    assert s.base.remote[o.sku := o.stock][o.sku := o.stock] == s.base.remote[o.sku := o.stock];
  }

  /** A handler that gave up leaves its request under way. */
  lemma GivingUpLeavesTheRequest(s: Desk, c: CallId)
    requires IsCall(s, c) && s.calls[c].pending
    ensures Enabled(Apply(s, GiveUp(c)), Arrive(c)) && Apply(s, GiveUp(c)).base == s.base
    ensures forall d: CallId | d < |s.calls| && d != c :: Apply(s, GiveUp(c)).calls[d] == s.calls[d]
  {
  }

  ghost predicate Follows(ss: seq<Desk>, es: seq<Event>) {
    && |ss| == |es| + 1
    && forall i {:trigger Enabled(ss[i], es[i])} {:trigger Apply(ss[i], es[i])} | 0 <= i < |es| ::
         Enabled(ss[i], es[i]) && ss[i + 1] == Apply(ss[i], es[i])
  }

  ghost predicate IsRun(ss: seq<Desk>, es: seq<Event>) {
    Follows(ss, es) && SR.Init(ss[0].base) && ss[0].calls == []
  }

  /* ---- Undisturbed calls ---- */

  /** A request arrives while its operation is current, and its answer is stored while it still is,
      with the remote stock the request left and no other local one kept. */
  predicate IsUndisturbed(s: Desk, e: Event) {
    (e.Arrive? || e.Answer?) && IsCall(s, e.c) ==>
      var o := s.base.ops[s.calls[e.c].key];
      && !Superseded(s.base, o)
      && (e.Answer? ==> o.sku in s.base.remote && s.base.remote[o.sku] == o.stock
                        && Landed(s.base.skus[o.sku], s.calls[e.c].seen, o.stock) == o.stock)
  }

  /** The atomic handler run an event stands for, if any: the arrival is one whose reply is lost, the
      answer one more whose reply arrives. */
  function AtomicStep(s: Desk, e: Event): Option<SR.Event> {
    match e
    case Plain(p) => Some(p)
    case Arrive(c) => if c < |s.calls| then Some(SR.Run(s.calls[c].key, ReplyLost)) else None
    case Answer(c) => if c < |s.calls| then Some(SR.Run(s.calls[c].key, Applied)) else None
    case _ => None
  }

  lemma AtomicStepIs(s: Desk, e: Event)
    requires Enabled(s, e) && IsUndisturbed(s, e)
    ensures AtomicStep(s, e).None? ==> Apply(s, e).base == s.base
    ensures AtomicStep(s, e).Some? ==> SR.Enabled(s.base, AtomicStep(s, e).value)
    ensures AtomicStep(s, e).Some? ==> Apply(s, e).base == SR.Apply(s.base, AtomicStep(s, e).value)
  {
    if e.Answer? {
      var o := s.base.ops[s.calls[e.c].key];
      assert s.base.remote[o.sku := o.stock] == s.base.remote;
    }
  }

  lemma AtomicRunGrows(bs: seq<State>, ps: seq<SR.Event>, p: SR.Event) returns (bs': seq<State>)
    requires SR.IsRun(bs, ps) && SR.Enabled(bs[|ps|], p)
    ensures bs' == bs + [SR.Apply(bs[|ps|], p)] && SR.IsRun(bs', ps + [p])
  {
    bs' := bs + [SR.Apply(bs[|ps|], p)];
    forall i | 0 <= i < |ps| + 1
      ensures SR.Enabled(bs'[i], (ps + [p])[i]) && bs'[i + 1] == SR.Apply(bs'[i], (ps + [p])[i])
    {
      if i < |ps| { assert SR.Enabled(bs[i], ps[i]); }
    }
  }

  /** A run whose calls are all undisturbed is a run with atomic handlers, and everything proved of
      those holds of it. */
  lemma {:induction false} UndisturbedRunsAreAtomic(ss: seq<Desk>, es: seq<Event>, n: nat)
    returns (bs: seq<State>, ps: seq<SR.Event>)
    requires IsRun(ss, es) && n <= |es|
    requires forall k | 0 <= k < n :: IsUndisturbed(ss[k], es[k])
    ensures SR.IsRun(bs, ps) && bs[|ps|] == ss[n].base
  {
    if n == 0 {
      bs, ps := [ss[0].base], [];
    } else {
      bs, ps := UndisturbedRunsAreAtomic(ss, es, n - 1);
      var s, e := ss[n - 1], es[n - 1];
      assert Enabled(s, e) && ss[n] == Apply(s, e) && IsUndisturbed(s, e);
      AtomicStepIs(s, e);
      var step := AtomicStep(s, e);
      if step.Some? {
        bs := AtomicRunGrows(bs, ps, step.value);
        ps := ps + [step.value];
      }
    }
  }

  /* ---- Invariants of every run, disturbed or not ---- */

  /** The states differ in remote and local stock only. */
  predicate DiffersInStock(s: State, s': State) {
    && s' == s.(remote := s'.remote, skus := s'.skus) && s'.skus.Keys == s.skus.Keys
    && forall k | k in s.skus :: s'.skus[k] == s.skus[k].(stock := s'.skus[k].stock)
  }

  lemma HandlersTouchStockOnly(s: Desk, e: Event)
    requires Enabled(s, e) && !e.Plain?
    ensures DiffersInStock(s.base, Apply(s, e).base)
  {
  }

  lemma StockKeepsSku(s: State, s': State, k: SkuId)
    requires DiffersInStock(s, s') && k in s.skus && SR.SkuOk(s, k)
    ensures SR.SkuOk(s', k)
  {
    forall h | h in Wanted(s', k) ensures SR.HeldOk(s', k, h) {
      assert SR.HeldOk(s, k, h);
      if h.version > 1 {
        var key :| key in s.ops && SR.IsFor(s.ops[key], k, h.version);
        assert key in s'.ops && SR.IsFor(s'.ops[key], k, h.version);
      }
    }
    assert forall x | WasWanted(s', k, x, 1) :: WasWanted(s, k, x, 1);
  }

  lemma StockKeepsInv(s: State, s': State)
    requires DiffersInStock(s, s') && SR.Inv(s)
    ensures SR.Inv(s')
  {
    forall k | k in s'.skus ensures SR.SkuOk(s', k) { StockKeepsSku(s, s', k); }
    forall key | key in s'.ops ensures SR.OpOk(s', s'.ops[key]) { assert SR.OpOk(s, s.ops[key]); }
    forall c | c in s'.tickets ensures SR.TicketOk(s', s'.tickets[c]) { assert SR.TicketOk(s, s.tickets[c]); }
  }

  ghost predicate Inv(s: Desk) {
    SR.Inv(s.base) && forall c: CallId | c < |s.calls| :: IsCall(s, c)
  }

  lemma StepKeepsBase(s: Desk, e: Event)
    requires Inv(s) && Enabled(s, e)
    ensures SR.Inv(Apply(s, e).base)
  {
    if e.Plain? {
      SR.StepKeepsInv(s.base, e.e);
    } else {
      HandlersTouchStockOnly(s, e);
      StockKeepsInv(s.base, Apply(s, e).base);
    }
  }

  lemma UpdatesStay(s: State, e: SR.Event, key: Key)
    requires SR.Enabled(s, e) && IsUpdate(s, key)
    ensures IsUpdate(SR.Apply(s, e), key)
  {
    SR.OpsStay(s, e);
  }

  lemma StepKeepsInv(s: Desk, e: Event)
    requires Inv(s) && Enabled(s, e)
    ensures Inv(Apply(s, e))
  {
    var s' := Apply(s, e);
    StepKeepsBase(s, e);
    forall c: CallId | c < |s'.calls| ensures IsCall(s', c) {
      if c < |s.calls| { assert IsCall(s, c); }
      if e.Plain? { UpdatesStay(s.base, e.e, s.calls[c].key); }
    }
  }

  lemma {:induction false} RunKeepsInv(ss: seq<Desk>, es: seq<Event>, i: nat)
    requires Follows(ss, es) && Inv(ss[0]) && i < |ss|
    ensures Inv(ss[i])
  {
    if i > 0 {
      RunKeepsInv(ss, es, i - 1);
      assert Enabled(ss[i - 1], es[i - 1]) && ss[i] == Apply(ss[i - 1], es[i - 1]);
      StepKeepsInv(ss[i - 1], es[i - 1]);
    }
  }

  lemma RunsStartWell(ss: seq<Desk>, es: seq<Event>, i: nat)
    requires IsRun(ss, es) && i < |ss|
    ensures Inv(ss[i])
  {
    SR.RunKeepsInv([ss[0].base], [], 0);
    RunKeepsInv(ss, es, i);
  }

  /* ---- Disturbed calls ---- */

  /** The call carries another stock than the desired one, and may still reach the gateway or store
      its answer. */
  predicate MayUnsettle(s: Desk, c: CallId, sku: SkuId) {
    && IsCall(s, c)
    && var o, call := s.base.ops[s.calls[c].key], s.calls[c];
       && o.sku == sku && o.stock != s.base.skus[sku].desired
       && (call.pending || (call.listening && o.stock != call.seen.stock))
  }

  ghost predicate IsQuiet(s: Desk, sku: SkuId) {
    && Inv(s) && SR.Settled(s.base, sku) && SR.OffersOnlyTheDesired(s.base, sku)
    && forall c: CallId | c < |s.calls| :: !MayUnsettle(s, c, sku)
  }

  predicate CommitsFor(s: Desk, e: Event, sku: SkuId) {
    e.Plain? && SR.CommitsFor(s.base, e.e, sku)
  }

  lemma PlainStepKeepsQuiet(s: Desk, e: Event, sku: SkuId)
    requires IsQuiet(s, sku) && e.Plain? && Enabled(s, e) && !CommitsFor(s, e, sku)
    ensures IsQuiet(Apply(s, e), sku)
  {
    var s' := Apply(s, e);
    StepKeepsInv(s, e);
    SR.AgreedStep(s.base, e.e, sku);
    SR.RowStays(s.base, e.e, sku);
    SR.OpsStay(s.base, e.e);
    forall x | SR.Offers(s'.base, sku, x) ensures x == s'.base.skus[sku].desired {
      SR.OffersShrink(s.base, e.e, sku, x);
    }
    forall c: CallId | c < |s'.calls| ensures !MayUnsettle(s', c, sku) {
      assert IsCall(s, c) && !MayUnsettle(s, c, sku);
    }
  }

  lemma StockKeepsOffers(s: State, s': State, sku: SkuId)
    requires DiffersInStock(s, s') && sku in s.skus && SR.OffersOnlyTheDesired(s, sku)
    ensures SR.OffersOnlyTheDesired(s', sku)
  {
    forall x | SR.Offers(s', sku, x) ensures x == s'.skus[sku].desired {
      assert SR.Offers(s, sku, x);
    }
  }

  lemma HandlerKeepsSettled(s: Desk, e: Event, sku: SkuId)
    requires IsQuiet(s, sku) && !e.Plain? && Enabled(s, e)
    ensures SR.Settled(Apply(s, e).base, sku)
  {
    if e.Arrive? || e.Answer? { assert !MayUnsettle(s, e.c, sku); }
  }

  lemma HandlerKeepsHarmless(s: Desk, e: Event, sku: SkuId, c: CallId)
    requires IsQuiet(s, sku) && !e.Plain? && Enabled(s, e) && c < |Apply(s, e).calls|
    ensures !MayUnsettle(Apply(s, e), c, sku)
  {
    if c < |s.calls| {
      assert IsCall(s, c) && !MayUnsettle(s, c, sku);
    } else {
      var o := s.base.ops[e.key];
      assert o.sku == sku ==> SR.Offers(s.base, sku, o.stock);
    }
  }

  lemma StepKeepsQuiet(s: Desk, e: Event, sku: SkuId)
    requires IsQuiet(s, sku) && Enabled(s, e) && !CommitsFor(s, e, sku)
    ensures IsQuiet(Apply(s, e), sku)
  {
    if e.Plain? {
      PlainStepKeepsQuiet(s, e, sku);
    } else {
      StepKeepsInv(s, e);
      HandlersTouchStockOnly(s, e);
      StockKeepsOffers(s.base, Apply(s, e).base, sku);
      HandlerKeepsSettled(s, e, sku);
      forall c: CallId | c < |Apply(s, e).calls| ensures !MayUnsettle(Apply(s, e), c, sku) {
        HandlerKeepsHarmless(s, e, sku, c);
      }
    }
  }

  /** The run goes on from s without a commit for the SKU and ends with stock not settled. */
  ghost predicate Unsettles(s: Desk, ts: seq<Desk>, fs: seq<Event>, sku: SkuId) {
    && Follows(ts, fs) && ts[0] == s
    && (forall i | 0 <= i < |fs| :: !CommitsFor(ts[i], fs[i], sku))
    && !SR.Settled(ts[|fs|].base, sku)
  }

  lemma {:induction false} QuietLasts(ts: seq<Desk>, fs: seq<Event>, n: nat, sku: SkuId)
    requires Follows(ts, fs) && n <= |fs| && IsQuiet(ts[0], sku)
    requires forall i | 0 <= i < |fs| :: !CommitsFor(ts[i], fs[i], sku)
    ensures IsQuiet(ts[n], sku)
  {
    if n > 0 {
      QuietLasts(ts, fs, n - 1, sku);
      assert Enabled(ts[n - 1], fs[n - 1]) && ts[n] == Apply(ts[n - 1], fs[n - 1])
             && !CommitsFor(ts[n - 1], fs[n - 1], sku);
      StepKeepsQuiet(ts[n - 1], fs[n - 1], sku);
    }
  }

  lemma WaitingCallUnsettles(s: Desk, c: CallId, sku: SkuId)
    requires MayUnsettle(s, c, sku)
    ensures exists ts, fs :: Unsettles(s, ts, fs, sku)
  {
    var e := if s.calls[c].pending then Arrive(c) else Answer(c);
    var ts, fs := [s, Apply(s, e)], [e];
    assert Enabled(ts[0], fs[0]);
    assert Unsettles(s, ts, fs, sku);
  }

  /** Two ways to unsettle the SKU: call the gateway for an operation that carries another stock, or
      enqueue it first. */
  lemma WrongOperationUnsettles(s: Desk, key: Key, sku: SkuId, x: int)
    requires sku in s.base.skus && x >= 0 && x != s.base.skus[sku].desired
    requires key in s.base.ops && s.base.ops[key] == SetStock(sku, x, s.base.skus[sku].version)
    ensures exists ts, fs :: Unsettles(s, ts, fs, sku)
  {
    var fs := [Plain(SR.Created), Begin(key), Arrive(|s.calls|)];
    var s1 := Apply(s, fs[0]);
    var s2 := Apply(s1, fs[1]);
    var ts := [s, s1, s2, Apply(s2, fs[2])];
    assert Follows(ts, fs);
    assert Unsettles(s, ts, fs, sku);
  }

  lemma WrongReadUnsettles(s: Desk, sku: SkuId, x: int)
    requires sku in s.base.skus && x >= 0 && x != s.base.skus[sku].desired
    requires WasWanted(s.base, sku, x, s.base.skus[sku].version)
    requires Initial(sku, s.base.skus[sku].version) !in s.base.ops
    ensures exists ts, fs :: Unsettles(s, ts, fs, sku)
  {
    var v := s.base.skus[sku].version;
    var fs := [Plain(SR.Created), Plain(SR.EnqueueInitial(sku, x, v)), Begin(Initial(sku, v)), Arrive(|s.calls|)];
    var s1 := Apply(s, fs[0]);
    assert WasWanted(s1.base, sku, x, v);
    var s2 := Apply(s1, fs[1]);
    var s3 := Apply(s2, fs[2]);
    var ts := [s, s1, s2, s3, Apply(s3, fs[3])];
    assert Follows(ts, fs);
    assert Unsettles(s, ts, fs, sku);
  }

  lemma OtherOffersUnsettle(s: Desk, sku: SkuId, x: int)
    requires Inv(s) && sku in s.base.skus && SR.Offers(s.base, sku, x) && x != s.base.skus[sku].desired
    ensures exists ts, fs :: Unsettles(s, ts, fs, sku)
  {
    var v := s.base.skus[sku].version;
    if key :| key in s.base.ops && s.base.ops[key] == SetStock(sku, x, v) {
      assert SR.OpOk(s.base, s.base.ops[key]);
      WrongOperationUnsettles(s, key, sku, x);
    } else {
      assert SR.SkuOk(s.base, sku) && SR.HeldOk(s.base, sku, Held(v, x));
      WrongReadUnsettles(s, sku, x);
    }
  }

  /** From any state of a run on, settled stock stays settled until the next commit for the SKU,
      whatever handlers run and wait, if and only if nothing but the desired stock can be applied for
      the current version, and no call with another stock is still on its way to the gateway or has
      an answer to store that changes the row its handler loaded. */
  lemma SettledStockStaysExactlyWhen(ss: seq<Desk>, es: seq<Event>, i: nat, sku: SkuId)
    requires IsRun(ss, es) && i < |ss| && SR.Settled(ss[i].base, sku)
    ensures (forall ts, fs :: !Unsettles(ss[i], ts, fs, sku))
            <==> SR.OffersOnlyTheDesired(ss[i].base, sku)
                 && forall c: CallId | c < |ss[i].calls| :: !MayUnsettle(ss[i], c, sku)
  {
    var s := ss[i];
    RunsStartWell(ss, es, i);
    if !SR.OffersOnlyTheDesired(s.base, sku) {
      var x :| SR.Offers(s.base, sku, x) && x != s.base.skus[sku].desired;
      OtherOffersUnsettle(s, sku, x);
    } else if c: CallId :| c < |s.calls| && MayUnsettle(s, c, sku) {
      WaitingCallUnsettles(s, c, sku);
    } else {
      forall ts, fs ensures !Unsettles(s, ts, fs, sku) {
        if Unsettles(s, ts, fs, sku) { QuietLasts(ts, fs, |fs|, sku); }
      }
    }
  }

  /* ---- Checked commits ---- */

  predicate FindsItsVersion(s: Desk, e: Event) {
    e.Plain? ==> SR.FindsItsVersion(s.base, e.e)
  }

  lemma StockKeepsStocks(s: State, s': State)
    requires DiffersInStock(s, s') && SR.EachVersionHasOneStock(s) && SR.UpToDate(s)
    ensures SR.EachVersionHasOneStock(s') && SR.UpToDate(s')
  {
    forall sku, v, x | SR.StockAt(s', sku, v, x) ensures SR.StockAt(s, sku, v, x) {
      if !WasWanted(s', sku, x, v) {
        var key :| key in s'.ops && s'.ops[key] == SetStock(sku, x, v);
      }
    }
    forall sku, v ensures SR.OneStock(s', sku, v) { assert SR.OneStock(s, sku, v); }
    forall c | c in s'.tickets ensures SR.TicketUpToDate(s', s'.tickets[c]) {
      assert SR.TicketUpToDate(s, s.tickets[c]);
    }
  }

  lemma CheckedStepsKeepStocks(s: State, e: SR.Event)
    requires SR.Inv(s) && SR.EachVersionHasOneStock(s) && SR.UpToDate(s)
    requires SR.Enabled(s, e) && SR.FindsItsVersion(s, e)
    ensures SR.EachVersionHasOneStock(SR.Apply(s, e)) && SR.UpToDate(SR.Apply(s, e))
  {
    SR.StepKeepsUpToDate(s, e);
    if SR.Commits(s, e) { assert SR.TicketUpToDate(s, s.tickets[e.c]); }
    SR.ClashFreeStepsKeepOneStock(s, e);
  }

  lemma {:induction false} CheckedRunsKeepStocks(ss: seq<Desk>, es: seq<Event>, n: nat)
    requires IsRun(ss, es) && n <= |es| && forall k | 0 <= k < n :: FindsItsVersion(ss[k], es[k])
    ensures SR.EachVersionHasOneStock(ss[n].base) && SR.UpToDate(ss[n].base)
  {
    if n == 0 {
      SR.CheckedRunsAreUpToDate([ss[0].base], [], 0);
      SR.UnclashedRunsKeepOneStock([ss[0].base], [], 0);
    } else {
      CheckedRunsKeepStocks(ss, es, n - 1);
      RunsStartWell(ss, es, n - 1);
      var s, e := ss[n - 1], es[n - 1];
      assert Enabled(s, e) && ss[n] == Apply(s, e) && FindsItsVersion(s, e);
      if e.Plain? {
        CheckedStepsKeepStocks(s.base, e.e);
      } else {
        HandlersTouchStockOnly(s, e);
        StockKeepsStocks(s.base, ss[n].base);
      }
    }
  }

  /** Commits that find the version their requests had read leave the calls as the only condition. */
  lemma CheckedStockStaysExactlyWhen(ss: seq<Desk>, es: seq<Event>, i: nat, sku: SkuId)
    requires IsRun(ss, es) && i <= |es| && SR.Settled(ss[i].base, sku)
    requires forall k | 0 <= k < i :: FindsItsVersion(ss[k], es[k])
    ensures (forall ts, fs :: !Unsettles(ss[i], ts, fs, sku))
            <==> forall c: CallId | c < |ss[i].calls| :: !MayUnsettle(ss[i], c, sku)
  {
    var s := ss[i].base;
    RunsStartWell(ss, es, i);
    CheckedRunsKeepStocks(ss, es, i);
    var v := s.skus[sku].version;
    assert SR.SkuOk(s, sku) && SR.OneStock(s, sku, v) && SR.StockAt(s, sku, v, s.skus[sku].desired);
    forall x | SR.Offers(s, sku, x) ensures x == s.skus[sku].desired { assert SR.StockAt(s, sku, v, x); }
    SettledStockStaysExactlyWhen(ss, es, i, sku);
  }

  /* ---- A late update ---- */

  lemma RunGrows(ss: seq<Desk>, es: seq<Event>, e: Event) returns (ss': seq<Desk>)
    requires IsRun(ss, es) && Enabled(ss[|es|], e)
    ensures ss' == ss + [Apply(ss[|es|], e)] && IsRun(ss', es + [e])
  {
    ss' := ss + [Apply(ss[|es|], e)];
    forall i | 0 <= i < |es| + 1 ensures Enabled(ss'[i], (es + [e])[i]) && ss'[i + 1] == Apply(ss'[i], (es + [e])[i]) {
      if i < |es| { assert Enabled(ss[i], es[i]); }
    }
  }

  ghost predicate IsCheckedRun(ss: seq<Desk>, es: seq<Event>) {
    IsRun(ss, es) && forall k | 0 <= k < |es| :: FindsItsVersion(ss[k], es[k])
  }

  lemma CheckedRunGrows(ss: seq<Desk>, es: seq<Event>, e: Event) returns (ss': seq<Desk>, es': seq<Event>)
    requires IsCheckedRun(ss, es) && Enabled(ss[|es|], e) && FindsItsVersion(ss[|es|], e)
    ensures es' == es + [e] && ss' == ss + [Apply(ss[|es|], e)] && IsCheckedRun(ss', es')
  {
    ss' := RunGrows(ss, es, e);
    es' := es + [e];
  }

  const SKU := "sku"
  const FIRST := SetStock(SKU, 6, 2)
  const SECOND := SetStock(SKU, 7, 3)
  const WAITING := Call(Chosen("first"), Sku(0, 6, 2), true, true)

  function Opening(): State {
    State(false, false, map[SKU := Sku(0, 5, 1)], map[], map[], map[SKU := {Held(1, 5)}], map[])
  }

  /** A request for six commits, and its handler calls the gateway. */
  lemma FirstCommits() returns (ss: seq<Desk>, es: seq<Event>)
    ensures IsCheckedRun(ss, es)
    ensures var s := ss[|es|].base;
            && ss[|es|].calls == [] && s.created && !s.deleted && s.tickets == map[] && s.remote == map[]
            && s.skus == map[SKU := Sku(0, 6, 2)] && s.ops == map[Chosen("first") := FIRST]
  {
    ss, es := [Desk(Opening(), [])], [];
    assert SR.Init(Opening());
    ss, es := CheckedRunGrows(ss, es, Plain(SR.Created));
    ss, es := CheckedRunGrows(ss, es, Plain(SR.Read(0, Chosen("first"), SKU, 6, 1)));
    ss, es := CheckedRunGrows(ss, es, Plain(SR.Write(0)));
  }

  lemma FirstCallWaits() returns (ss: seq<Desk>, es: seq<Event>)
    ensures IsCheckedRun(ss, es)
    ensures var s := ss[|es|].base;
            && ss[|es|].calls == [WAITING] && s.created && !s.deleted && s.tickets == map[] && s.remote == map[]
            && s.skus == map[SKU := Sku(0, 6, 2)] && s.ops == map[Chosen("first") := FIRST]
  {
    ss, es := FirstCommits();
    ss, es := CheckedRunGrows(ss, es, Begin(Chosen("first")));
  }

  /** Meanwhile one for seven reads the new version and commits. */
  lemma SecondCommits() returns (ss: seq<Desk>, es: seq<Event>)
    ensures IsCheckedRun(ss, es)
    ensures var s := ss[|es|].base;
            && ss[|es|].calls == [WAITING] && s.created && s.remote == map[]
            && s.skus == map[SKU := Sku(0, 7, 3)]
            && s.ops == map[Chosen("first") := FIRST, Chosen("second") := SECOND]
  {
    ss, es := FirstCallWaits();
    ss, es := CheckedRunGrows(ss, es, Plain(SR.Read(1, Chosen("second"), SKU, 7, 2)));
    ss, es := CheckedRunGrows(ss, es, Plain(SR.Write(1)));
  }

  lemma SecondSettles() returns (ss: seq<Desk>, es: seq<Event>)
    ensures IsCheckedRun(ss, es) && SR.Settled(ss[|es|].base, SKU)
    ensures MayUnsettle(ss[|es|], 0, SKU) && ss[|es|].calls[0] == WAITING
  {
    ss, es := SecondCommits();
    ss, es := CheckedRunGrows(ss, es, Begin(Chosen("second")));
    ss, es := CheckedRunGrows(ss, es, Arrive(1));
    ss, es := CheckedRunGrows(ss, es, Answer(1));
  }

  /** Waiting calls do unsettle stock, though no two requests overlap: the superseded update arrives
      after the newer one was applied. */
  lemma LateUpdateUnsettles() returns (ss: seq<Desk>, es: seq<Event>)
    ensures IsCheckedRun(ss, es) && |es| > 0 && es[|es| - 1] == Arrive(0)
    ensures SR.Settled(ss[|es| - 1].base, SKU) && !SR.Settled(ss[|es|].base, SKU)
  {
    ss, es := SecondSettles();
    ss, es := CheckedRunGrows(ss, es, Arrive(0));
  }
}
