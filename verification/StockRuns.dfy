/** Whole runs of the stock protocol: requests that read a SKU and commit some time later,
    overlapping as they like; creation handlers that enqueue what they read some time ago; and stock
    handlers run in any order and any number of times
    (backend/poi_admin/local_life/products.py). */
module StockRuns {
  import opened Stock

  datatype Event =
    | Created
    | Deleted
    | EnqueueInitial(sku: SkuId, desired: int, version: int)
    | Read(c: Caller, key: Key, sku: SkuId, stock: int, version: int)
    | Drop(c: Caller)
    | Write(c: Caller)
    | Other(key: Key)
    | Run(key: Key, reply: Reply)

  /** The creation handler enqueues only pairs that were once stored; another command takes only a
      key that is free. */
  predicate Enabled(s: State, e: Event) {
    match e
    case EnqueueInitial(sku, desired, version) => s.created && WasWanted(s, sku, desired, version)
    case Read(c, _, _, stock, _) => stock >= 0 && c !in s.tickets
    case Drop(c) => c in s.tickets
    case Write(c) => c in s.tickets && s.tickets[c].sku in s.skus
    case Other(key) => key !in s.ops
    case Run(key, _) => key in s.ops
    case _ => true
  }

  /** The event is a commit that takes effect: its key is still free. */
  predicate Commits(s: State, e: Event) {
    e.Write? && e.c in s.tickets && s.tickets[e.c].sku in s.skus && s.tickets[e.c].key !in s.ops
  }

  function Apply(s: State, e: Event): State
    requires Enabled(s, e)
  {
    match e
    case Created => s.(created := true)
    case Deleted => s.(deleted := true)
    case EnqueueInitial(sku, desired, version) => AfterInitial(s, sku, desired, version)
    case Read(c, key, sku, stock, version) =>
      if key !in s.ops && UpdateResult(s, key, sku, stock, version).Ok?
      then s.(tickets := s.tickets[c := Ticket(key, sku, stock, s.skus[sku])]) else s
    case Drop(c) => s.(tickets := s.tickets - {c})
    case Write(c) => (if Commits(s, e) then CommitUpdate(s, s.tickets[c]) else s).(tickets := s.tickets - {c})
    case Other(key) => s.(ops := s.ops[key := Foreign])
    case Run(key, reply) => AfterSetStock(s, s.ops[key], reply)
  }

  ghost predicate Init(s: State) {
    && !s.created && !s.deleted && s.ops == map[] && s.remote == map[] && s.tickets == map[]
    && s.wanted == (map k | k in s.skus :: {Held(s.skus[k].version, s.skus[k].desired)})
    && forall k | k in s.skus :: s.skus[k].stock == 0 && s.skus[k].version == 1 && s.skus[k].desired >= 0
  }

  /** Any SKUs that were just submitted may be at the start. */
  lemma SkusMayStart(skus: map<SkuId, Sku>)
    requires forall k | k in skus :: skus[k] == Sku(0, skus[k].desired, 1) && skus[k].desired >= 0
    ensures Init(State(false, false, skus, map[], map[], map k | k in skus :: {Held(1, skus[k].desired)}, map[]))
  {
  }

  /** A request that reads and commits without interference does what the service's method does; given
      up in between, it leaves no trace. */
  lemma UninterruptedRequestIs(s: State, c: Caller, key: Key, sku: SkuId, stock: int, version: int)
    requires c !in s.tickets && stock >= 0
    ensures Enabled(s, Read(c, key, sku, stock, version))
    ensures var s1 := Apply(s, Read(c, key, sku, stock, version));
            if key in s.ops || UpdateResult(s, key, sku, stock, version).Err? then
              s1 == s == AfterUpdate(s, key, sku, stock, version)
            else
              && s1 == s.(tickets := s.tickets[c := Ticket(key, sku, stock, s.skus[sku])])
              && Enabled(s1, Write(c)) && Apply(s1, Write(c)) == AfterUpdate(s, key, sku, stock, version)
              && Enabled(s1, Drop(c)) && Apply(s1, Drop(c)) == s
  {
    if key !in s.ops && UpdateResult(s, key, sku, stock, version).Ok? {
      assert s.tickets[c := Ticket(key, sku, stock, s.skus[sku])] - {c} == s.tickets;
    }
  }

  /** What the other events do: the product may be linked and deleted at any time; the creation handler
      of a linked product enqueues a pair some row held; other commands take free keys; a handler runs
      for any stored operation; and a commit whose key was taken meanwhile leaves no trace. */
  lemma EventsAre(s: State, e: Event)
    ensures e.Created? ==> Enabled(s, e) && Apply(s, e) == s.(created := true)
    ensures e.Deleted? ==> Enabled(s, e) && Apply(s, e) == s.(deleted := true)
    ensures e.EnqueueInitial? ==>
              (Enabled(s, e) <==> s.created && e.sku in s.wanted && Held(e.version, e.desired) in s.wanted[e.sku])
    ensures e.EnqueueInitial? && Enabled(s, e) ==> Apply(s, e) == AfterInitial(s, e.sku, e.desired, e.version)
    ensures e.Other? ==> (Enabled(s, e) <==> e.key !in s.ops)
    ensures e.Other? && Enabled(s, e) ==> Apply(s, e) == s.(ops := s.ops[e.key := Foreign])
    ensures e.Run? ==> (Enabled(s, e) <==> e.key in s.ops)
    ensures e.Run? && Enabled(s, e) ==> Apply(s, e) == AfterSetStock(s, s.ops[e.key], e.reply)
    ensures e.Drop? ==> (Enabled(s, e) <==> e.c in s.tickets)
    ensures e.Write? ==> (Enabled(s, e) <==> e.c in s.tickets && s.tickets[e.c].sku in s.skus)
    ensures e.Write? && Enabled(s, e) ==>
              Apply(s, e) == (if s.tickets[e.c].key in s.ops then s else CommitUpdate(s, s.tickets[e.c])).(
                tickets := s.tickets - {e.c})
    ensures e.Read? ==> (Enabled(s, e) <==> e.stock >= 0 && e.c !in s.tickets)
  {
  }

  ghost predicate IsRun(ss: seq<State>, es: seq<Event>) {
    |es| < |ss| && Init(ss[0]) && Follows(ss, es)
  }

  /** Each state comes from the one before it by the event between them. */
  ghost predicate Follows(ss: seq<State>, es: seq<Event>) {
    && |ss| == |es| + 1
    && forall i {:trigger Enabled(ss[i], es[i])} {:trigger Apply(ss[i], es[i])} | 0 <= i < |es| ::
         Enabled(ss[i], es[i]) && ss[i + 1] == Apply(ss[i], es[i])
  }

  /* ---- Invariant of every run ---- */

  ghost predicate IsRecorded(s: State, sku: SkuId, version: int) {
    exists key :: key in s.ops && IsFor(s.ops[key], sku, version)
  }

  predicate IsFor(o: Stored, sku: SkuId, version: int) {
    o.SetStock? && o.sku == sku && o.targetVersion == version
  }

  ghost predicate HeldOk(s: State, k: SkuId, h: Held) {
    h.version >= 1 && h.desired >= 0 && (h.version > 1 ==> IsRecorded(s, k, h.version))
  }

  /** The row's pair was stored; every stored pair is reasonable, those of version 1 agree, and every
      later version was recorded by some operation. */
  ghost predicate SkuOk(s: State, k: SkuId)
    requires k in s.skus
  {
    && WasWanted(s, k, s.skus[k].desired, s.skus[k].version)
    && (forall h | h in Wanted(s, k) :: HeldOk(s, k, h))
    && (forall x, y | WasWanted(s, k, x, 1) && WasWanted(s, k, y, 1) :: x == y)
  }

  /** An operation of version 1 carries what was stored then. */
  predicate OpOk(s: State, o: Stored) {
    o.SetStock? ==>
      o.sku in s.skus && o.stock >= 0 && o.targetVersion >= 1
      && (o.targetVersion == 1 ==> WasWanted(s, o.sku, o.stock, 1))
  }

  predicate TicketOk(s: State, t: Ticket) {
    t.sku in s.skus && t.stock >= 0 && t.seen.version >= 1
  }

  ghost predicate Inv(s: State) {
    && s.wanted.Keys == s.skus.Keys
    && (forall k | k in s.skus :: SkuOk(s, k))
    && (forall key | key in s.ops :: OpOk(s, s.ops[key]))
    && (forall c | c in s.tickets :: TicketOk(s, s.tickets[c]))
  }

  /** Stored pairs and operations are never removed, and operations never changed. */
  lemma OpsStay(s: State, e: Event)
    requires Enabled(s, e)
    ensures forall key | key in s.ops :: key in Apply(s, e).ops && Apply(s, e).ops[key] == s.ops[key]
  {
  }

  lemma HeldStays(s: State, e: Event, k: SkuId, h: Held)
    requires Enabled(s, e) && h in Wanted(s, k)
    ensures h in Wanted(Apply(s, e), k)
  {
  }

  lemma StepKeepsKeys(s: State, e: Event)
    requires Enabled(s, e) && s.wanted.Keys == s.skus.Keys
    ensures Apply(s, e).skus.Keys == s.skus.Keys == Apply(s, e).wanted.Keys
  {
  }

  /** What a row holds after an event, it held before or a commit just stored it. */
  lemma NewRowsAreCommitted(s: State, e: Event, k: SkuId, h: Held)
    requires Enabled(s, e) && h in Wanted(Apply(s, e), k) && h !in Wanted(s, k)
    ensures Commits(s, e) && s.tickets[e.c].sku == k
    ensures h == Held(s.tickets[e.c].seen.version + 1, DesiredAfter(s.skus[k], s.tickets[e.c]))
  {
  }

  lemma StepKeepsHeld(s: State, e: Event, k: SkuId, h: Held)
    requires Inv(s) && Enabled(s, e) && k in s.skus && h in Wanted(Apply(s, e), k)
    ensures HeldOk(Apply(s, e), k, h)
  {
    var s' := Apply(s, e);
    assert SkuOk(s, k);
    if h in Wanted(s, k) {
      assert HeldOk(s, k, h);
      if h.version > 1 {
        var key :| key in s.ops && IsFor(s.ops[key], k, h.version);
        OpsStay(s, e);
        assert key in s'.ops && IsFor(s'.ops[key], k, h.version);
      }
    } else {
      NewRowsAreCommitted(s, e, k, h);
      var t := s.tickets[e.c];
      assert TicketOk(s, t) && HeldOk(s, k, Held(s.skus[k].version, s.skus[k].desired));
      assert t.key in s'.ops && IsFor(s'.ops[t.key], k, h.version);
    }
  }

  lemma FirstVersionStays(s: State, e: Event, k: SkuId, x: int)
    requires Inv(s) && Enabled(s, e) && k in s.skus && WasWanted(Apply(s, e), k, x, 1)
    ensures WasWanted(s, k, x, 1)
  {
    assert Commits(s, e) ==> TicketOk(s, s.tickets[e.c]);
    if !WasWanted(s, k, x, 1) { NewRowsAreCommitted(s, e, k, Held(1, x)); }
  }

  lemma RowIsHeld(s: State, e: Event, k: SkuId)
    requires Inv(s) && Enabled(s, e) && k in s.skus && k in Apply(s, e).skus
    ensures WasWanted(Apply(s, e), k, Apply(s, e).skus[k].desired, Apply(s, e).skus[k].version)
  {
    assert SkuOk(s, k);
  }

  lemma StepKeepsSku(s: State, e: Event, k: SkuId)
    requires Inv(s) && Enabled(s, e) && k in s.skus && k in Apply(s, e).skus
    ensures SkuOk(Apply(s, e), k)
  {
    var s' := Apply(s, e);
    assert SkuOk(s, k);
    RowIsHeld(s, e, k);
    forall h | h in Wanted(s', k) ensures HeldOk(s', k, h) { StepKeepsHeld(s, e, k, h); }
    forall x | WasWanted(s', k, x, 1) ensures WasWanted(s, k, x, 1) { FirstVersionStays(s, e, k, x); }
  }

  lemma StepKeepsOp(s: State, e: Event, key: Key)
    requires Inv(s) && Enabled(s, e) && key in Apply(s, e).ops
    ensures OpOk(Apply(s, e), Apply(s, e).ops[key])
  {
    StepKeepsKeys(s, e);
    if key in s.ops {
      OpsStay(s, e);
      var o := s.ops[key];
      assert OpOk(s, o);
      if o.SetStock? && o.targetVersion == 1 { HeldStays(s, e, o.sku, Held(1, o.stock)); }
    } else if e.Write? {
      assert TicketOk(s, s.tickets[e.c]);
    } else if e.EnqueueInitial? {
      assert SkuOk(s, e.sku) && HeldOk(s, e.sku, Held(e.version, e.desired));
    }
  }

  lemma StepKeepsTicket(s: State, e: Event, c: Caller)
    requires Inv(s) && Enabled(s, e) && c in Apply(s, e).tickets
    ensures TicketOk(Apply(s, e), Apply(s, e).tickets[c])
  {
    StepKeepsKeys(s, e);
    if c in s.tickets {
      assert TicketOk(s, s.tickets[c]);
    } else {
      assert SkuOk(s, e.sku) && HeldOk(s, e.sku, Held(s.skus[e.sku].version, s.skus[e.sku].desired));
    }
  }

  lemma StepKeepsInv(s: State, e: Event)
    requires Inv(s) && Enabled(s, e)
    ensures Inv(Apply(s, e))
  {
    var s' := Apply(s, e);
    StepKeepsKeys(s, e);
    forall k | k in s'.skus ensures SkuOk(s', k) { StepKeepsSku(s, e, k); }
    forall key | key in s'.ops ensures OpOk(s', s'.ops[key]) { StepKeepsOp(s, e, key); }
    forall c | c in s'.tickets ensures TicketOk(s', s'.tickets[c]) { StepKeepsTicket(s, e, c); }
  }

  lemma {:induction false} RunKeepsInv(ss: seq<State>, es: seq<Event>, i: nat)
    requires IsRun(ss, es) && i < |ss|
    ensures Inv(ss[i])
  {
    if i > 0 {
      RunKeepsInv(ss, es, i - 1);
      assert Enabled(ss[i - 1], es[i - 1]) && ss[i] == Apply(ss[i - 1], es[i - 1]);
      StepKeepsInv(ss[i - 1], es[i - 1]);
    }
  }

  /** A superseded operation changes nothing, locally or remotely. */
  lemma SupersededOperationIsInert(ss: seq<State>, es: seq<Event>, i: nat)
    requires IsRun(ss, es) && i < |es| && es[i].Run?
    requires es[i].key in ss[i].ops && ss[i].ops[es[i].key].SetStock? && Superseded(ss[i], ss[i].ops[es[i].key])
    ensures ss[i + 1] == ss[i]
  {
    assert Enabled(ss[i], es[i]) && ss[i + 1] == Apply(ss[i], es[i]);
  }

  /* ---- Versions and their stocks ---- */

  /** A stock the version stands for: the row held it, or an operation carries it. */
  ghost predicate StockAt(s: State, sku: SkuId, version: int, stock: int) {
    WasWanted(s, sku, stock, version)
    || exists key :: key in s.ops && s.ops[key] == SetStock(sku, stock, version)
  }

  ghost predicate OneStock(s: State, sku: SkuId, version: int) {
    forall x, y | StockAt(s, sku, version, x) && StockAt(s, sku, version, y) :: x == y
  }

  ghost predicate EachVersionHasOneStock(s: State) {
    forall sku, version :: OneStock(s, sku, version)
  }

  /** The commit gives its version a second stock: the row keeps another one than the request asks
      for, or the version already stands for another one. */
  ghost predicate Clashes(s: State, t: Ticket)
    requires t.sku in s.skus
  {
    DesiredAfter(s.skus[t.sku], t) != t.stock || HasOtherStock(s, t.sku, t.seen.version + 1, t.stock)
  }

  ghost predicate HasOtherStock(s: State, sku: SkuId, version: int, stock: int) {
    exists x :: x != stock && StockAt(s, sku, version, x)
  }

  ghost predicate ClashFree(s: State, e: Event) {
    Commits(s, e) ==> !Clashes(s, s.tickets[e.c])
  }

  ghost predicate Unclashed(ss: seq<State>, es: seq<Event>, n: nat)
    requires n <= |es| <= |ss|
  {
    forall k | 0 <= k < n :: ClashFree(ss[k], es[k])
  }

  /** Operations of one version carry one stock, and those of the current version the desired one. */
  ghost predicate OperationsAgree(s: State) {
    && (forall a, b | a in s.ops && b in s.ops && s.ops[a].SetStock? && s.ops[b].SetStock?
                      && s.ops[a].sku == s.ops[b].sku && s.ops[a].targetVersion == s.ops[b].targetVersion ::
          s.ops[a].stock == s.ops[b].stock)
    && (forall a | a in s.ops && s.ops[a].SetStock? && s.ops[a].sku in s.skus && !Superseded(s, s.ops[a]) ::
          s.ops[a].stock == s.skus[s.ops[a].sku].desired)
  }

  lemma OneStockMeansAgreement(s: State)
    requires Inv(s) && EachVersionHasOneStock(s)
    ensures OperationsAgree(s)
  {
    forall a, b | a in s.ops && b in s.ops && s.ops[a].SetStock? && s.ops[b].SetStock?
                  && s.ops[a].sku == s.ops[b].sku && s.ops[a].targetVersion == s.ops[b].targetVersion
      ensures s.ops[a].stock == s.ops[b].stock
    {
      var x, y := s.ops[a], s.ops[b];
      assert OneStock(s, x.sku, x.targetVersion);
      assert StockAt(s, x.sku, x.targetVersion, x.stock) && StockAt(s, x.sku, x.targetVersion, y.stock);
    }
    forall a | a in s.ops && s.ops[a].SetStock? && s.ops[a].sku in s.skus && !Superseded(s, s.ops[a])
      ensures s.ops[a].stock == s.skus[s.ops[a].sku].desired
    {
      var x := s.ops[a];
      assert SkuOk(s, x.sku) && OneStock(s, x.sku, x.targetVersion);
      assert StockAt(s, x.sku, x.targetVersion, x.stock) && StockAt(s, x.sku, x.targetVersion, s.skus[x.sku].desired);
    }
  }

  /** Only a commit adds a stock to a version. */
  lemma NewStocksAreCommitted(s: State, e: Event, sku: SkuId, version: int, stock: int)
    requires Inv(s) && Enabled(s, e) && StockAt(Apply(s, e), sku, version, stock) && !StockAt(s, sku, version, stock)
    ensures Commits(s, e) && s.tickets[e.c].sku == sku && version == s.tickets[e.c].seen.version + 1
    ensures stock == s.tickets[e.c].stock || stock == DesiredAfter(s.skus[sku], s.tickets[e.c])
  {
    var s' := Apply(s, e);
    if !WasWanted(s', sku, stock, version) {
      var key :| key in s'.ops && s'.ops[key] == SetStock(sku, stock, version);
    }
  }

  lemma ClashFreeStepsKeepOneStock(s: State, e: Event)
    requires Inv(s) && Enabled(s, e) && EachVersionHasOneStock(s) && ClashFree(s, e)
    ensures EachVersionHasOneStock(Apply(s, e))
  {
    var s' := Apply(s, e);
    forall sku, v, x, y | StockAt(s', sku, v, x) && StockAt(s', sku, v, y) ensures x == y {
      assert OneStock(s, sku, v);
      if !StockAt(s, sku, v, x) { NewStocksAreCommitted(s, e, sku, v, x); }
      if !StockAt(s, sku, v, y) { NewStocksAreCommitted(s, e, sku, v, y); }
    }
  }

  lemma ClashesShow(s: State, e: Event)
    requires Inv(s) && Enabled(s, e) && EachVersionHasOneStock(s) && !ClashFree(s, e)
    ensures !OperationsAgree(Apply(s, e))
  {
    var t, s' := s.tickets[e.c], Apply(s, e);
    var v := t.seen.version + 1;
    assert TicketOk(s, t) && s'.ops[t.key] == SetStock(t.sku, t.stock, v);
    if DesiredAfter(s.skus[t.sku], t) == t.stock {
      var x :| x != t.stock && StockAt(s, t.sku, v, x);
      if WasWanted(s, t.sku, x, v) {
        assert SkuOk(s, t.sku) && HeldOk(s, t.sku, Held(v, x));
        var key :| key in s.ops && IsFor(s.ops[key], t.sku, v);
        assert OneStock(s, t.sku, v) && StockAt(s, t.sku, v, s.ops[key].stock);
        assert s'.ops[key] == SetStock(t.sku, x, v);
      } else {
        var key :| key in s.ops && s.ops[key] == SetStock(t.sku, x, v);
        assert s'.ops[key] == SetStock(t.sku, x, v);
      }
    }
  }

  lemma {:induction false} UnclashedRunsKeepOneStock(ss: seq<State>, es: seq<Event>, n: nat)
    requires IsRun(ss, es) && n <= |es| && Unclashed(ss, es, n)
    ensures EachVersionHasOneStock(ss[n])
  {
    if n > 0 {
      UnclashedRunsKeepOneStock(ss, es, n - 1);
      RunKeepsInv(ss, es, n - 1);
      assert Enabled(ss[n - 1], es[n - 1]) && ss[n] == Apply(ss[n - 1], es[n - 1]) && ClashFree(ss[n - 1], es[n - 1]);
      ClashFreeStepsKeepOneStock(ss[n - 1], es[n - 1]);
    }
  }

  lemma StepDecidesAgreement(s: State, e: Event)
    requires Inv(s) && Enabled(s, e) && Inv(Apply(s, e)) && EachVersionHasOneStock(s)
    ensures OperationsAgree(Apply(s, e)) <==> ClashFree(s, e)
  {
    if ClashFree(s, e) {
      ClashFreeStepsKeepOneStock(s, e);
      OneStockMeansAgreement(Apply(s, e));
    } else {
      ClashesShow(s, e);
    }
  }

  /** In every state up to the n-th, operations carry their version's stock, and current ones the
      desired stock, if and only if no commit before it gave its version a second stock. */
  lemma {:induction false} OperationsAgreeExactlyWhenUnclashed(ss: seq<State>, es: seq<Event>, n: nat)
    requires IsRun(ss, es) && n <= |es|
    ensures (forall i | 0 <= i <= n :: OperationsAgree(ss[i])) <==> Unclashed(ss, es, n)
  {
    RunKeepsInv(ss, es, n);
    if n > 0 {
      OperationsAgreeExactlyWhenUnclashed(ss, es, n - 1);
      var s, e := ss[n - 1], es[n - 1];
      assert Enabled(s, e) && ss[n] == Apply(s, e);
      RunKeepsInv(ss, es, n - 1);
      if Unclashed(ss, es, n - 1) {
        UnclashedRunsKeepOneStock(ss, es, n - 1);
        StepDecidesAgreement(s, e);
      }
    }
  }

  /* ---- Convergence ---- */

  /** Local and remote stock are the desired one. */
  predicate Settled(s: State, sku: SkuId) {
    && sku in s.skus && s.skus[sku].stock == s.skus[sku].desired
    && sku in s.remote && s.remote[sku] == s.skus[sku].desired
  }

  /** An operation of the SKU's current version carries the stock, or the creation handler may still
      enqueue one that does. */
  ghost predicate Offers(s: State, sku: SkuId, stock: int)
    requires sku in s.skus
  {
    var v := s.skus[sku].version;
    || (exists key :: key in s.ops && s.ops[key] == SetStock(sku, stock, v))
    || (WasWanted(s, sku, stock, v) && Initial(sku, v) !in s.ops)
  }

  ghost predicate OffersOnlyTheDesired(s: State, sku: SkuId)
    requires sku in s.skus
  {
    forall x | Offers(s, sku, x) :: x == s.skus[sku].desired
  }

  predicate CommitsFor(s: State, e: Event, sku: SkuId) {
    Commits(s, e) && s.tickets[e.c].sku == sku
  }

  /** The event applies an operation of the SKU's current version, and the reply arrives. */
  predicate AppliesCurrent(s: State, e: Event, sku: SkuId) {
    && sku in s.skus && s.created && e.Run? && e.reply == Applied
    && e.key in s.ops && IsFor(s.ops[e.key], sku, s.skus[sku].version)
  }

  lemma RowStays(s: State, e: Event, sku: SkuId)
    requires Enabled(s, e) && sku in s.skus && !CommitsFor(s, e, sku)
    ensures sku in Apply(s, e).skus
    ensures Apply(s, e).skus[sku].version == s.skus[sku].version
    ensures Apply(s, e).skus[sku].desired == s.skus[sku].desired
    ensures Wanted(Apply(s, e), sku) == Wanted(s, sku)
  {
  }

  lemma OffersShrink(s: State, e: Event, sku: SkuId, x: int)
    requires Enabled(s, e) && sku in s.skus && !CommitsFor(s, e, sku)
    requires sku in Apply(s, e).skus && Offers(Apply(s, e), sku, x)
    ensures Offers(s, sku, x)
  {
    var s', v := Apply(s, e), s.skus[sku].version;
    RowStays(s, e, sku);
    if key :| key in s'.ops && s'.ops[key] == SetStock(sku, x, v) {
      if key in s.ops { OpsStay(s, e); } else { assert e.EnqueueInitial? && key == Initial(sku, v); }
    } else {
      OpsStay(s, e);
    }
  }

  lemma AgreedStep(s: State, e: Event, sku: SkuId)
    requires Inv(s) && Enabled(s, e) && sku in s.skus && !CommitsFor(s, e, sku) && OffersOnlyTheDesired(s, sku)
    ensures Settled(s, sku) || AppliesCurrent(s, e, sku) ==> Settled(Apply(s, e), sku)
  {
    if e.Run? && IsFor(s.ops[e.key], sku, s.skus[sku].version) {
      assert OpOk(s, s.ops[e.key]);
      assert Offers(s, sku, s.ops[e.key].stock);
    }
  }

  /** The run goes on from s without a commit for the SKU, applies a current operation in event k,
      and does not have the SKU settled in state j. */
  ghost predicate Unsettles(s: State, ts: seq<State>, fs: seq<Event>, k: nat, j: nat, sku: SkuId) {
    && Follows(ts, fs) && ts[0] == s
    && (forall i | 0 <= i < |fs| :: !CommitsFor(ts[i], fs[i], sku))
    && k < j < |ts| && AppliesCurrent(ts[k], fs[k], sku)
    && !Settled(ts[j], sku)
  }

  lemma {:induction false} AgreementLasts(ts: seq<State>, fs: seq<Event>, j: nat, sku: SkuId)
    requires Follows(ts, fs) && j < |ts| && Inv(ts[0]) && sku in ts[0].skus && OffersOnlyTheDesired(ts[0], sku)
    requires forall i | 0 <= i < |fs| :: !CommitsFor(ts[i], fs[i], sku)
    ensures Inv(ts[j]) && sku in ts[j].skus && OffersOnlyTheDesired(ts[j], sku)
  {
    if j > 0 {
      AgreementLasts(ts, fs, j - 1, sku);
      assert Enabled(ts[j - 1], fs[j - 1]) && ts[j] == Apply(ts[j - 1], fs[j - 1]);
      StepKeepsInv(ts[j - 1], fs[j - 1]);
      RowStays(ts[j - 1], fs[j - 1], sku);
      forall x | Offers(ts[j], sku, x) ensures x == ts[j].skus[sku].desired {
        OffersShrink(ts[j - 1], fs[j - 1], sku, x);
      }
    }
  }

  lemma {:induction false} AgreedStockSettles(ts: seq<State>, fs: seq<Event>, k: nat, j: nat, sku: SkuId)
    requires Follows(ts, fs) && k < j < |ts| && Inv(ts[0]) && sku in ts[0].skus && OffersOnlyTheDesired(ts[0], sku)
    requires forall i | 0 <= i < |fs| :: !CommitsFor(ts[i], fs[i], sku)
    requires AppliesCurrent(ts[k], fs[k], sku)
    ensures Settled(ts[j], sku)
    decreases j
  {
    if k < j - 1 { AgreedStockSettles(ts, fs, k, j - 1, sku); }
    AgreementLasts(ts, fs, j - 1, sku);
    assert Enabled(ts[j - 1], fs[j - 1]) && ts[j] == Apply(ts[j - 1], fs[j - 1]);
    AgreedStep(ts[j - 1], fs[j - 1], sku);
  }

  lemma WrongStockUnsettles(s: State, key: Key, sku: SkuId, x: int)
    requires s.created && sku in s.skus && x >= 0 && x != s.skus[sku].desired
    requires key in s.ops && s.ops[key] == SetStock(sku, x, s.skus[sku].version)
    ensures var e := Run(key, Applied);
            Enabled(s, e) && !Commits(s, e) && AppliesCurrent(s, e, sku) && !Settled(Apply(s, e), sku)
  {
  }

  /** Two ways to unsettle the SKU: run an operation that carries another stock, or enqueue it first. */
  lemma WrongOperationUnsettles(s: State, key: Key, sku: SkuId, x: int) returns (ts: seq<State>, fs: seq<Event>)
    requires sku in s.skus && x >= 0 && x != s.skus[sku].desired
    requires key in s.ops && s.ops[key] == SetStock(sku, x, s.skus[sku].version)
    ensures |fs| == 2 && |ts| == 3 && Unsettles(s, ts, fs, 1, 2, sku)
  {
    var s1 := s.(created := true);
    WrongStockUnsettles(s1, key, sku, x);
    fs := [Created, Run(key, Applied)];
    ts := [s, s1, Apply(s1, fs[1])];
  }

  lemma WrongReadUnsettles(s: State, sku: SkuId, x: int) returns (ts: seq<State>, fs: seq<Event>)
    requires sku in s.skus && x >= 0 && x != s.skus[sku].desired
    requires WasWanted(s, sku, x, s.skus[sku].version) && Initial(sku, s.skus[sku].version) !in s.ops
    ensures |fs| == 3 && |ts| == 4 && Unsettles(s, ts, fs, 2, 3, sku)
  {
    var v := s.skus[sku].version;
    var s1 := s.(created := true);
    var s2 := s1.(ops := s1.ops[Initial(sku, v) := SetStock(sku, x, v)]);
    WrongStockUnsettles(s2, Initial(sku, v), sku, x);
    fs := [Created, EnqueueInitial(sku, x, v), Run(Initial(sku, v), Applied)];
    assert WasWanted(s1, sku, x, v) && Enabled(s1, fs[1]) && s2 == Apply(s1, fs[1]);
    ts := [s, s1, s2, Apply(s2, fs[2])];
  }

  lemma OtherOffersUnsettle(s: State, sku: SkuId, x: int)
    requires Inv(s) && sku in s.skus && Offers(s, sku, x) && x != s.skus[sku].desired
    ensures exists ts, fs, k: nat, j: nat :: Unsettles(s, ts, fs, k, j, sku)
  {
    var v := s.skus[sku].version;
    if key :| key in s.ops && s.ops[key] == SetStock(sku, x, v) {
      assert OpOk(s, s.ops[key]);
      var ts, fs := WrongOperationUnsettles(s, key, sku, x);
    } else {
      assert SkuOk(s, sku) && HeldOk(s, sku, Held(v, x));
      var ts, fs := WrongReadUnsettles(s, sku, x);
    }
  }

  /** From a reachable state on, whatever handlers run, in whatever order and however often: once an
      operation of the current version is applied, stock is settled and stays so until the next
      commit for the SKU, if and only if nothing but the desired stock can be applied for that
      version. */
  lemma StockConvergesExactlyWhen(ss: seq<State>, es: seq<Event>, i: nat, sku: SkuId)
    requires IsRun(ss, es) && i < |ss| && sku in ss[i].skus
    ensures (forall ts, fs, k: nat, j: nat :: !Unsettles(ss[i], ts, fs, k, j, sku))
            <==> OffersOnlyTheDesired(ss[i], sku)
  {
    RunKeepsInv(ss, es, i);
    if OffersOnlyTheDesired(ss[i], sku) {
      forall ts, fs, k: nat, j: nat ensures !Unsettles(ss[i], ts, fs, k, j, sku) {
        if Unsettles(ss[i], ts, fs, k, j, sku) { AgreedStockSettles(ts, fs, k, j, sku); }
      }
    } else {
      var x :| Offers(ss[i], sku, x) && x != ss[i].skus[sku].desired;
      OtherOffersUnsettle(ss[i], sku, x);
    }
  }

  /** As long as no commit gave its version a second stock, stock converges. */
  lemma UnclashedStockConverges(ss: seq<State>, es: seq<Event>, i: nat, sku: SkuId)
    requires IsRun(ss, es) && i <= |es| && Unclashed(ss, es, i) && sku in ss[i].skus
    ensures OffersOnlyTheDesired(ss[i], sku)
    ensures forall ts, fs, k: nat, j: nat :: !Unsettles(ss[i], ts, fs, k, j, sku)
  {
    RunKeepsInv(ss, es, i);
    UnclashedRunsKeepOneStock(ss, es, i);
    var v := ss[i].skus[sku].version;
    assert SkuOk(ss[i], sku) && OneStock(ss[i], sku, v);
    assert StockAt(ss[i], sku, v, ss[i].skus[sku].desired);
    forall x | Offers(ss[i], sku, x) ensures x == ss[i].skus[sku].desired { assert StockAt(ss[i], sku, v, x); }
    StockConvergesExactlyWhen(ss, es, i, sku);
  }

  /* ---- Re-running the creation handler ---- */

  /** No other command takes a key of the form the creation handler derives. */
  predicate LeavesInitialKeys(es: seq<Event>, n: nat)
    requires n <= |es|
  {
    forall k | 0 <= k < n :: es[k].Read? || es[k].Other? ==> es[k].key.Chosen?
  }

  /** The operation under a derived key is one the creation handler stored. */
  predicate InitialOk(s: State, sku: SkuId, v: int)
    requires Initial(sku, v) in s.ops
  {
    IsFor(s.ops[Initial(sku, v)], sku, v) && WasWanted(s, sku, s.ops[Initial(sku, v)].stock, v)
  }

  ghost predicate InitialKeysOk(s: State) {
    && (forall c | c in s.tickets :: s.tickets[c].key.Chosen?)
    && (forall sku, v | Initial(sku, v) in s.ops :: InitialOk(s, sku, v))
  }

  lemma {:induction false} RunKeepsInitialKeys(ss: seq<State>, es: seq<Event>, i: nat)
    requires IsRun(ss, es) && i <= |es| && LeavesInitialKeys(es, i)
    ensures InitialKeysOk(ss[i])
  {
    if i > 0 {
      RunKeepsInitialKeys(ss, es, i - 1);
      var s, e := ss[i - 1], es[i - 1];
      assert Enabled(s, e) && ss[i] == Apply(s, e);
      OpsStay(s, e);
      forall sku, v | Initial(sku, v) in ss[i].ops ensures InitialOk(ss[i], sku, v) {
        if Initial(sku, v) in s.ops {
          assert InitialOk(s, sku, v);
          HeldStays(s, e, sku, Held(v, s.ops[Initial(sku, v)].stock));
        }
      }
    }
  }

  /** The row held one desired stock at this version. */
  ghost predicate WantedOnce(s: State, sku: SkuId, version: int) {
    forall x, y | WasWanted(s, sku, x, version) && WasWanted(s, sku, y, version) :: x == y
  }

  /** As long as no one else takes a key of the form it derives, the creation handler, re-run with any
      rows it may have read at a version, does not conflict with itself if and only if the row held
      one desired stock at that version. */
  lemma CreationRerunsNeverConflictExactlyWhen(ss: seq<State>, es: seq<Event>, i: nat, sku: SkuId, v: int)
    requires IsRun(ss, es) && i <= |es| && LeavesInitialKeys(es, i)
    ensures (forall x, y | WasWanted(ss[i], sku, x, v) && WasWanted(ss[i], sku, y, v) ::
               !InitialConflicts(AfterInitial(ss[i], sku, x, v), sku, y, v))
            <==> WantedOnce(ss[i], sku, v)
  {
    RunKeepsInitialKeys(ss, es, i);
    var s, key := ss[i], Initial(sku, v);
    if key in s.ops { assert InitialOk(s, sku, v); }
    if !WantedOnce(s, sku, v) {
      var x, y :| WasWanted(s, sku, x, v) && WasWanted(s, sku, y, v) && x != y;
      if key in s.ops {
        var z := s.ops[key].stock;
        assert WasWanted(s, sku, z, v);
        assert z != x ==> InitialConflicts(AfterInitial(s, sku, z, v), sku, x, v);
        assert z != y ==> InitialConflicts(AfterInitial(s, sku, z, v), sku, y, v);
      } else {
        assert InitialConflicts(AfterInitial(s, sku, x, v), sku, y, v);
      }
    }
  }

  /** So re-runs of the creation handler, however old the rows they read, meet no conflict and reuse
      their operations in every run without a clash in which the derived keys are left to it. */
  lemma CreationRerunsNeverConflict(ss: seq<State>, es: seq<Event>, i: nat)
    requires IsRun(ss, es) && i < |es| && es[i].EnqueueInitial?
    requires LeavesInitialKeys(es, i) && Unclashed(ss, es, i)
    ensures !InitialConflicts(ss[i], es[i].sku, es[i].desired, es[i].version)
    ensures Initial(es[i].sku, es[i].version) in ss[i].ops ==> ss[i + 1] == ss[i]
  {
    assert Enabled(ss[i], es[i]) && ss[i + 1] == Apply(ss[i], es[i]);
    RunKeepsInitialKeys(ss, es, i);
    CreationConflictsExactlyOnForeignKeys(ss, es, i);
    if Initial(es[i].sku, es[i].version) in ss[i].ops { assert InitialOk(ss[i], es[i].sku, es[i].version); }
  }

  /** Without a clash the handler fails on a SKU exactly when the derived key names anything but a
      stock operation for that SKU and version: the stock recorded there never makes it fail. */
  lemma CreationConflictsExactlyOnForeignKeys(ss: seq<State>, es: seq<Event>, i: nat)
    requires IsRun(ss, es) && i < |es| && es[i].EnqueueInitial? && Unclashed(ss, es, i)
    ensures var sku, v := es[i].sku, es[i].version;
            InitialConflicts(ss[i], sku, es[i].desired, v)
            <==> Initial(sku, v) in ss[i].ops && !IsFor(ss[i].ops[Initial(sku, v)], sku, v)
  {
    assert Enabled(ss[i], es[i]);
    UnclashedRunsKeepOneStock(ss, es, i);
    var s, sku, v := ss[i], es[i].sku, es[i].version;
    assert OneStock(s, sku, v) && StockAt(s, sku, v, es[i].desired);
    if Initial(sku, v) in s.ops && IsFor(s.ops[Initial(sku, v)], sku, v) {
      assert StockAt(s, sku, v, s.ops[Initial(sku, v)].stock);
    }
  }

  /** A command that took the derived key first makes the handler fail. */
  lemma TakenKeyConflicts(s: State, sku: SkuId)
    requires sku in s.skus && Initial(sku, s.skus[sku].version) !in s.ops
    ensures var row := s.skus[sku];
            InitialConflicts(Apply(s, Other(Initial(sku, row.version))), sku, row.desired, row.version)
  {
  }

  /* ---- Checked commits ---- */

  /** What an optimistic lock would enforce: the commit finds the version its request had read. */
  predicate FindsItsVersion(s: State, e: Event) {
    Commits(s, e) ==> s.skus[s.tickets[e.c].sku].version == s.tickets[e.c].seen.version
  }

  /** Nothing stands for a later version than the stored one, and a request that read the stored
      version read the stored desired stock. */
  ghost predicate UpToDate(s: State) {
    && (forall sku, v, x | StockAt(s, sku, v, x) :: sku in s.skus && v <= s.skus[sku].version)
    && (forall c | c in s.tickets :: TicketUpToDate(s, s.tickets[c]))
  }

  predicate TicketUpToDate(s: State, t: Ticket) {
    && t.sku in s.skus && t.seen.version <= s.skus[t.sku].version
    && (t.seen.version == s.skus[t.sku].version ==> t.seen.desired == s.skus[t.sku].desired)
  }

  lemma StepKeepsTicketUpToDate(s: State, e: Event, c: Caller)
    requires UpToDate(s) && Enabled(s, e) && FindsItsVersion(s, e) && c in Apply(s, e).tickets
    ensures TicketUpToDate(Apply(s, e), Apply(s, e).tickets[c])
  {
    if c in s.tickets { assert TicketUpToDate(s, s.tickets[c]); }
  }

  lemma VersionsGrow(s: State, e: Event, sku: SkuId)
    requires Enabled(s, e) && FindsItsVersion(s, e) && sku in s.skus
    ensures sku in Apply(s, e).skus && s.skus[sku].version <= Apply(s, e).skus[sku].version
    ensures CommitsFor(s, e, sku) ==> Apply(s, e).skus[sku].version == s.tickets[e.c].seen.version + 1
  {
  }

  lemma StepKeepsUpToDate(s: State, e: Event)
    requires Inv(s) && UpToDate(s) && Enabled(s, e) && FindsItsVersion(s, e)
    ensures UpToDate(Apply(s, e))
  {
    var s' := Apply(s, e);
    forall sku, v, x | StockAt(s', sku, v, x) ensures sku in s'.skus && v <= s'.skus[sku].version {
      if !StockAt(s, sku, v, x) { NewStocksAreCommitted(s, e, sku, v, x); }
      VersionsGrow(s, e, sku);
    }
    forall c | c in s'.tickets ensures TicketUpToDate(s', s'.tickets[c]) { StepKeepsTicketUpToDate(s, e, c); }
  }

  lemma {:induction false} CheckedRunsAreUpToDate(ss: seq<State>, es: seq<Event>, n: nat)
    requires IsRun(ss, es) && n <= |es| && forall k | 0 <= k < n :: FindsItsVersion(ss[k], es[k])
    ensures UpToDate(ss[n])
  {
    if n > 0 {
      CheckedRunsAreUpToDate(ss, es, n - 1);
      RunKeepsInv(ss, es, n - 1);
      assert Enabled(ss[n - 1], es[n - 1]) && ss[n] == Apply(ss[n - 1], es[n - 1])
             && FindsItsVersion(ss[n - 1], es[n - 1]);
      StepKeepsUpToDate(ss[n - 1], es[n - 1]);
    }
  }

  /** Commits that find the version their requests had read never clash. */
  lemma CheckedCommitsDoNotClash(ss: seq<State>, es: seq<Event>, n: nat)
    requires IsRun(ss, es) && n <= |es| && forall k | 0 <= k < n :: FindsItsVersion(ss[k], es[k])
    ensures Unclashed(ss, es, n)
  {
    forall k | 0 <= k < n ensures ClashFree(ss[k], es[k]) {
      CheckedRunsAreUpToDate(ss, es, k);
      assert FindsItsVersion(ss[k], es[k]);
      if Commits(ss[k], es[k]) { assert TicketUpToDate(ss[k], ss[k].tickets[es[k].c]); }
    }
  }

  /** Two requests that read one row and both commit leave one version with both operations. The
      desired stock is that of the later commit, or of the earlier one if the later request asked for
      what it had read; whichever operation is applied last decides the stock, so it is as desired
      exactly when that operation carries the desired stock. */
  lemma OverlappingRequestsDiverge(s: State, a: Ticket, b: Ticket)
    requires s.created && a.sku == b.sku && a.sku in s.skus && a.seen == b.seen == s.skus[a.sku]
    requires a.stock >= 0 && b.stock >= 0 && a.key != b.key
    ensures var s' := CommitUpdate(CommitUpdate(s, a), b);
            var desired := if b.stock != b.seen.desired then b.stock else a.stock;
            var aLast := AfterSetStock(AfterSetStock(s', s'.ops[b.key], Applied), s'.ops[a.key], Applied);
            var bLast := AfterSetStock(AfterSetStock(s', s'.ops[a.key], Applied), s'.ops[b.key], Applied);
            && s'.skus[a.sku].desired == desired
            && !Superseded(s', s'.ops[a.key]) && !Superseded(s', s'.ops[b.key])
            && (Settled(aLast, a.sku) <==> a.stock == desired)
            && (Settled(bLast, a.sku) <==> b.stock == desired)
  {
  }
}
