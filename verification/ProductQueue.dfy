/** The product protocol running under the leased queue: workers claim, lose, reclaim and retry
    product operations while commands read, check and commit, overlapping as they like
    (backend/poi_admin/local_life/products.py, backend/poi_admin/operations/worker.py).
    No callbacks arrive in these runs. */
module ProductQueue {
  import opened Wrappers
  import Q = Operations
  import R = OperationRuns
  import opened Products
  import ProductRuns
  import ProductOverlap

  /** `results` holds what the handler said, for workers that have run it on the operation they
      hold; `cleared` the commands that have found no unfinished operation. */
  datatype System = System(
    queue: R.System, shop: State, results: map<Q.WorkerId, HandlerResult>, cleared: set<Caller>)

  /** A command reads the product, queries the queue, and commits its intent together with its queue
      row: three steps with anything in between. `Work` is a worker running the handler of the
      product operation it holds. */
  datatype Event =
    | Queue(e: R.Event)
    | Look(c: Caller, request: CommandRequest)
    | Ask(c: Caller)
    | Forget(c: Caller)
    | Commit(c: Caller, row: Q.Operation, at: real)
    | Work(w: Q.WorkerId, reply: Reply)

  predicate Unfinished(q: R.System, op: OpId) {
    op in q.ops && q.ops[op].status in {Q.Queued, Q.Running, Q.RetryWait}
  }

  /** The query a command makes: an unfinished operation of this product. */
  predicate Pending(c: System) {
    exists op | op in c.shop.intents :: Unfinished(c.queue, op)
  }

  /** The worker the queue event belongs to, if it ends or replaces what that worker holds. */
  function Released(e: R.Event): set<Q.WorkerId> {
    match e
    case Succeed(w, _, _) => {w}
    case Fail(w, _, _, _) => {w}
    case Crash(w) => {w}
    case _ => {}
  }

  /** A worker reports success only after the handler finished; it may report failure at any time,
      because the handler raised or because the process shuts down. */
  predicate Enabled(s: System, e: Event) {
    match e
    case Queue(q) =>
      && R.Enabled(s.queue, q)
      && (q.Enqueue? ==> q.newId !in s.shop.intents)
      && (q.Succeed? && R.At(s.queue, q.w).id in s.shop.intents ==>
            q.w in s.results && s.results[q.w] == Done)
    case Look(c, r) => IsRequest(r) && c !in s.shop.tickets
    case Ask(c) => c in s.shop.tickets
    case Forget(c) => c in s.shop.tickets
    case Commit(c, row, at) =>
      && c in s.shop.tickets && c in s.cleared && at <= s.queue.clock
      && row == Q.NewOperation(row.tenant, s.shop.tickets[c].request.key, row.request, row.maxAttempts, at)
    case Work(w, _) => R.At(s.queue, w).Holding? && R.At(s.queue, w).id in s.shop.intents
  }

  /** The commit takes effect: its key is still free. */
  predicate Commits(s: System, e: Event) {
    e.Commit? && e.c in s.shop.tickets && s.shop.tickets[e.c].request.key !in s.queue.ops
  }

  /** The step of the product protocol an event is, if it is one. */
  function ShopEvent(s: System, e: Event): Option<ProductRuns.Event> {
    match e
    case Queue(_) => None
    case Look(c, r) => Some(ProductRuns.Read(c, r))
    case Ask(c) => if Pending(s) then Some(ProductRuns.Drop(c)) else None
    case Forget(c) => Some(ProductRuns.Drop(c))
    case Commit(c, _, _) => Some(if Commits(s, e) then ProductRuns.Write(c) else ProductRuns.Drop(c))
    case Work(w, reply) =>
      var l := R.At(s.queue, w);
      if l.Holding? then Some(ProductRuns.Run(l.id, reply)) else None
  }

  function ShopAfter(s: System, e: Event): State
    requires Enabled(s, e)
  {
    var p := ShopEvent(s, e);
    if p.None? then s.shop else ProductRuns.Apply(s.shop, p.value)
  }

  function Apply(s: System, e: Event): System
    requires Enabled(s, e)
  {
    var shop := ShopAfter(s, e);
    match e
    case Queue(q) => System(R.Apply(s.queue, q), shop, s.results - Released(q), s.cleared)
    case Look(c, _) => System(s.queue, shop, s.results, s.cleared - {c})
    case Ask(c) => System(s.queue, shop, s.results, if Pending(s) then s.cleared - {c} else s.cleared + {c})
    case Forget(c) => System(s.queue, shop, s.results, s.cleared - {c})
    case Commit(c, row, _) =>
      System(if Commits(s, e) then s.queue.(ops := s.queue.ops[row.key := row]) else s.queue,
             shop, s.results, s.cleared - {c})
    case Work(w, reply) =>
      System(s.queue, shop,
             s.results[w := Handle(s.shop.product, s.shop.intents[R.At(s.queue, w).id], reply).result], s.cleared)
  }

  /** A command that reads, queries and commits without interference does what the service's method does,
      where `pending` is what the queue then holds; if it is accepted, its queue row is stored with it. */
  lemma UninterruptedCommandIs(s: System, c: Caller, r: CommandRequest, row: Q.Operation, at: real)
    requires IsRequest(r) && c !in s.shop.tickets && s.shop.intents.Keys <= s.queue.ops.Keys
    requires at <= s.queue.clock && row == Q.NewOperation(row.tenant, r.key, row.request, row.maxAttempts, at)
    requires r.key in s.queue.ops ==> r.key in s.shop.intents
    ensures Enabled(s, Look(c, r))
    ensures var s1 := Apply(s, Look(c, r));
            var accepted := r.key !in s.shop.intents && CommandCheck(s.shop.product, r, Pending(s)).Ok?;
            && s1.queue == s.queue && s1.results == s.results
            && (c !in s1.shop.tickets ==> s1.shop == s.shop && !accepted)
            && (c in s1.shop.tickets ==>
                  && Enabled(s1, Ask(c)) && !Enabled(s1, Commit(c, row, at))
                  && var s2 := Apply(s1, Ask(c));
                     && s2.queue == s.queue
                     && (Pending(s) ==> s2.shop == s.shop && !accepted)
                     && (!Pending(s) ==>
                           && accepted && Enabled(s2, Commit(c, row, at))
                           && var s3 := Apply(s2, Commit(c, row, at));
                              && s3.shop == AfterCommand(s.shop, r, false)
                              && s3.queue == s.queue.(ops := s.queue.ops[r.key := row])))
  {
    ProductRuns.UninterruptedCommandIs(s.shop, c, r);
    var s1 := Apply(s, Look(c, r));
    assert Pending(s1) == Pending(s);
  }

  /** Only a command that has found no unfinished operation since it read commits, with a clock reading
      up to the present and the row of its own key; committing or giving up ends it. */
  lemma ClearedIs(s: System, c: Caller, r: CommandRequest, row: Q.Operation, at: real)
    ensures Enabled(s, Commit(c, row, at)) ==>
              && c in s.shop.tickets && c in s.cleared && at <= s.queue.clock
              && row.key == s.shop.tickets[c].request.key && row.status == Q.Queued && row.nextAttempt == at
    ensures Enabled(s, Commit(c, row, at)) ==>
              var after := Apply(s, Commit(c, row, at));
              && c !in after.cleared && c !in after.shop.tickets
              && forall d | d != c :: d in after.cleared <==> d in s.cleared
    ensures Enabled(s, Look(c, r)) ==>
              forall d :: d in Apply(s, Look(c, r)).cleared <==> d in s.cleared && d != c
    ensures Enabled(s, Ask(c)) ==>
              && (c in Apply(s, Ask(c)).cleared <==> !Pending(s))
              && forall d | d != c :: d in Apply(s, Ask(c)).cleared <==> d in s.cleared
    ensures Enabled(s, Forget(c)) <==> c in s.shop.tickets
    ensures Enabled(s, Forget(c)) ==>
              var after := Apply(s, Forget(c));
              c !in after.shop.tickets && after.shop == s.shop.(tickets := after.shop.tickets)
              && forall d :: d in after.cleared <==> d in s.cleared && d != c
  {
  }

  /** A worker runs the handler of the product operation it holds: it stores what the handler stores and
      keeps its result, until it reports or crashes. It reports success only for a handler that is done;
      other operations are not concerned. */
  lemma WorkIs(s: System, w: Q.WorkerId, reply: Reply)
    ensures Enabled(s, Work(w, reply)) <==> R.At(s.queue, w).Holding? && R.At(s.queue, w).id in s.shop.intents
    ensures Enabled(s, Work(w, reply)) ==>
              var run := Handle(s.shop.product, s.shop.intents[R.At(s.queue, w).id], reply);
              Apply(s, Work(w, reply)) == s.(shop := s.shop.(product := run.product),
                                             results := s.results[w := run.result])
    ensures forall q :: Enabled(s, Queue(q)) <==>
              && R.Enabled(s.queue, q) && (q.Enqueue? ==> q.newId !in s.shop.intents)
              && (q.Succeed? && R.At(s.queue, q.w).id in s.shop.intents ==> q.w in s.results && s.results[q.w] == Done)
    ensures forall q | Enabled(s, Queue(q)) ::
              var after := Apply(s, Queue(q));
              && after.queue == R.Apply(s.queue, q) && after.shop == s.shop
              && forall v :: v in after.results <==>
                   v in s.results && !((q.Succeed? || q.Fail? || q.Crash?) && q.w == v)
  {
  }

  ghost predicate Init(s: System) {
    && ProductRuns.Init(s.shop)
    && s.queue.ops.Keys == s.shop.intents.Keys
    && (forall a, b | a in s.shop.intents && b in s.shop.intents :: a == b)
    && Q.TableOk(s.queue.ops)
    && s.queue.workers == map[] && s.results == map[] && s.cleared == {}
  }

  /** A submitted product may start with the row of its creation in the queue, at any time. */
  lemma CreationMayStart(p: Product, key: OpId, row: Q.Operation, clock: real)
    requires p.version == 1 && p.external.None? && !p.linked && p.remote == Some(PendingCreate)
    requires p.desired == UnderReview && Q.RowOk(row)
    ensures Init(System(R.System(clock, map[key := row], map[]),
                        State(p, map[key := CreateIntent(row.key)], map[]), map[], {}))
  {
  }

  ghost predicate IsRun(cs: seq<System>, es: seq<Event>) {
    && |cs| == |es| + 1 && Init(cs[0])
    && forall i {:trigger Enabled(cs[i], es[i])} {:trigger Apply(cs[i], es[i])} | 0 <= i < |es| ::
         Enabled(cs[i], es[i]) && cs[i + 1] == Apply(cs[i], es[i])
  }

  /* ---- The product part ---- */

  ghost predicate Inv(s: System) {
    ProductRuns.Inv(s.shop) && s.shop.intents.Keys <= s.queue.ops.Keys
  }

  lemma StepKeepsInv(s: System, e: Event)
    requires Inv(s) && Enabled(s, e)
    ensures Inv(Apply(s, e))
    ensures forall op | op in s.shop.intents ::
              op in Apply(s, e).shop.intents && Apply(s, e).shop.intents[op] == s.shop.intents[op]
  {
    var s', p := Apply(s, e), ShopEvent(s, e);
    if p.Some? { ProductRuns.StepKeepsInv(s.shop, p.value); }
    forall op | op in s'.shop.intents ensures op in s'.queue.ops {
      if e.Queue? { R.RowFrame(s.queue, e.e, op); }
    }
  }

  lemma {:induction false} RunKeepsInv(cs: seq<System>, es: seq<Event>, i: nat)
    requires IsRun(cs, es) && i < |cs|
    ensures Inv(cs[i])
  {
    if i > 0 {
      RunKeepsInv(cs, es, i - 1);
      assert Enabled(cs[i - 1], es[i - 1]) && cs[i] == Apply(cs[i - 1], es[i - 1]);
      StepKeepsInv(cs[i - 1], es[i - 1]);
    }
  }

  /** The product part of every run under the queue is a callback-free run of the product protocol,
      so every result about those holds under the queue; and its commits are those of the run, so a
      run whose commits find the version they had read projects to such a run. */
  lemma {:induction false} QueueRunsAreProductRuns(cs: seq<System>, es: seq<Event>, n: nat)
    returns (ss: seq<State>, ps: seq<ProductRuns.Event>)
    requires IsRun(cs, es) && n <= |es|
    ensures ProductRuns.IsRun(ss, ps) && ss[|ps|] == cs[n].shop
    ensures ProductRuns.NoCallback(ps, 0, |ps|)
    ensures ProductOverlap.Checked(ss, ps, |ps|) <==> Checked(cs, es, n)
  {
    if n == 0 {
      ss, ps := [cs[0].shop], [];
    } else {
      var ss', ps' := QueueRunsAreProductRuns(cs, es, n - 1);
      var c, e := cs[n - 1], es[n - 1];
      assert Enabled(c, e) && cs[n] == Apply(c, e);
      RunKeepsInv(cs, es, n - 1);
      var p := ShopEvent(c, e);
      assert Checked(cs, es, n) <==> Checked(cs, es, n - 1) && IsChecked(c, e);
      if p.None? {
        ss, ps := ss', ps';
      } else {
        ss, ps := ss' + [cs[n].shop], ps' + [p.value];
        RunGrows(ss', ps', p.value, cs[n].shop);
        ProductOverlap.CheckedGrows(ss', ps', cs[n].shop, p.value);
        assert Commits(c, e) <==> ProductRuns.Commits(c.shop, p.value);
      }
    }
  }

  lemma RunGrows(ss: seq<State>, ps: seq<ProductRuns.Event>, p: ProductRuns.Event, s: State)
    requires ProductRuns.IsRun(ss, ps) && ProductRuns.NoCallback(ps, 0, |ps|) && !p.Callback?
    requires ProductRuns.Enabled(ss[|ps|], p) && s == ProductRuns.Apply(ss[|ps|], p)
    ensures ProductRuns.IsRun(ss + [s], ps + [p]) && ProductRuns.NoCallback(ps + [p], 0, |ps| + 1)
  {
    var ss', ps' := ss + [s], ps + [p];
    forall i | 0 <= i < |ps'|
      ensures ProductRuns.Enabled(ss'[i], ps'[i]) && ss'[i + 1] == ProductRuns.Apply(ss'[i], ps'[i])
    {
      if i < |ps| { assert ProductRuns.Enabled(ss[i], ps[i]); }
    }
  }

  /** All commits before the n-th event find the version their requests had read. */
  predicate Checked(cs: seq<System>, es: seq<Event>, n: nat)
    requires n <= |es| <= |cs|
  {
    forall k | 0 <= k < n :: IsChecked(cs[k], es[k])
  }

  predicate IsChecked(s: System, e: Event) {
    Commits(s, e) ==> ProductOverlap.FindsItsVersion(s.shop, s.shop.tickets[e.c])
  }

  /* ---- Succeeded operations ---- */

  predicate Revives(s: System, e: Event, op: OpId) {
    var p := ShopEvent(s, e);
    p.Some? && ProductRuns.Revives(s.shop, p.value, op)
  }

  /** Once its handler finished for a worker that still holds it, or it succeeded, the operation is
      spent. */
  ghost predicate FinishedIsSpent(s: System, op: OpId) {
    && ProductRuns.IsIntent(s.shop, op)
    && ((exists w :: HasFinished(s, w, op)) || (op in s.queue.ops && s.queue.ops[op].status == Q.Succeeded) ==>
          ProductRuns.Spent(s.shop, op))
  }

  predicate HasFinished(s: System, w: Q.WorkerId, op: OpId) {
    w in s.results && s.results[w] == Done && R.At(s.queue, w).Holding? && R.At(s.queue, w).id == op
  }

  /** Results belong to workers that hold an operation. */
  ghost predicate ResultsAreHeld(s: System) {
    forall w | w in s.results :: R.At(s.queue, w).Holding? && R.At(s.queue, w).id in s.shop.intents
  }

  lemma StepKeepsResultsHeld(s: System, e: Event)
    requires Inv(s) && Enabled(s, e) && ResultsAreHeld(s)
    ensures ResultsAreHeld(Apply(s, e))
  {
    var s' := Apply(s, e);
    StepKeepsInv(s, e);
    forall w | w in s'.results
      ensures R.At(s'.queue, w).Holding? && R.At(s'.queue, w).id in s'.shop.intents
    {
      if !e.Work? || e.w != w { assert w in s.results && R.At(s.queue, w).Holding?; }
    }
  }

  lemma OldResultsWereFinished(s: System, e: Event, w: Q.WorkerId, op: OpId)
    requires Enabled(s, e) && ResultsAreHeld(s) && HasFinished(Apply(s, e), w, op) && !(e.Work? && e.w == w)
    ensures HasFinished(s, w, op)
  {
  }

  lemma StepKeepsFinishedSpent(s: System, e: Event, op: OpId)
    requires Inv(s) && Enabled(s, e) && ResultsAreHeld(s) && FinishedIsSpent(s, op) && !Revives(s, e, op)
    ensures FinishedIsSpent(Apply(s, e), op)
  {
    var s', p := Apply(s, e), ShopEvent(s, e);
    StepKeepsInv(s, e);
    if p.Some? && ProductRuns.Spent(s.shop, op) { ProductRuns.SpentStep(s.shop, p.value, op); }
    if e.Queue? { R.RowFrame(s.queue, e.e, op); }
    if e.Queue? && e.e.Succeed? && R.At(s.queue, e.e.w).id == op { assert HasFinished(s, e.e.w, op); }
    if e.Work? && R.At(s.queue, e.w).id == op { ProductRuns.HandlerEffect(s.shop, op, e.reply); }
    forall w | HasFinished(s', w, op) ensures ProductRuns.Spent(s'.shop, op) {
      if !(e.Work? && e.w == w) { OldResultsWereFinished(s, e, w, op); }
    }
  }

  lemma {:induction false} RunsKeepFinishedSpent(cs: seq<System>, es: seq<Event>, i: nat, op: OpId)
    requires IsRun(cs, es) && i <= |es| && ProductRuns.IsIntent(cs[i].shop, op)
    requires forall k | 0 <= k < i :: !Revives(cs[k], es[k], op)
    ensures ResultsAreHeld(cs[i]) && FinishedIsSpent(cs[i], op)
  {
    if i > 0 {
      var s, e := cs[i - 1], es[i - 1];
      assert Enabled(s, e) && cs[i] == Apply(s, e);
      RunKeepsInv(cs, es, i - 1);
      RunsKeepResultsHeld(cs, es, i - 1);
      RunsKeepResultsHeld(cs, es, i);
      if op in s.shop.intents {
        StepKeepsInv(s, e);
        RunsKeepFinishedSpent(cs, es, i - 1, op);
        StepKeepsFinishedSpent(s, e, op);
      } else {
        NewOperationsAreUnfinished(s, e, op);
      }
    }
  }

  lemma NewOperationsAreUnfinished(s: System, e: Event, op: OpId)
    requires Inv(s) && Enabled(s, e) && ResultsAreHeld(s)
    requires op !in s.shop.intents && ProductRuns.IsIntent(Apply(s, e).shop, op)
    ensures FinishedIsSpent(Apply(s, e), op)
  {
    var s' := Apply(s, e);
    assert e.Commit? && Commits(s, e) && s'.queue.ops[op].status == Q.Queued;
    forall w ensures !HasFinished(s', w, op) {
      assert w in s.results ==> R.At(s.queue, w).id in s.shop.intents;
    }
  }

  lemma {:induction false} RunsKeepResultsHeld(cs: seq<System>, es: seq<Event>, i: nat)
    requires IsRun(cs, es) && i <= |es|
    ensures ResultsAreHeld(cs[i])
  {
    if i > 0 {
      RunsKeepResultsHeld(cs, es, i - 1);
      RunKeepsInv(cs, es, i - 1);
      assert Enabled(cs[i - 1], es[i - 1]) && cs[i] == Apply(cs[i - 1], es[i - 1]);
      StepKeepsResultsHeld(cs[i - 1], es[i - 1]);
    }
  }

  /** Crashes, take-overs, duplicate handler runs, manual retries and overlapping commands included:
      when an operation that no event revived has succeeded, the product is settled where it
      wanted it, at its version, exactly if its intent still validates. A next command is then
      refused only while another operation is unfinished, from a status its table does not list, or
      with an outdated version. */
  lemma SucceededCommandIsSettled(cs: seq<System>, es: seq<Event>, i: nat, op: OpId, r: CommandRequest)
    requires IsRun(cs, es) && i <= |es| && ProductRuns.IsIntent(cs[i].shop, op)
    requires forall k | 0 <= k < i :: !Revives(cs[k], es[k], op)
    requires op in cs[i].queue.ops && cs[i].queue.ops[op].status == Q.Succeeded
    ensures ProductRuns.IsValid(cs[i].shop, op) <==>
              && ProductRuns.IsCurrent(cs[i].shop, op)
              && cs[i].shop.product.remote == Some(cs[i].shop.intents[op].target)
              && cs[i].shop.product.desired == cs[i].shop.intents[op].target
    ensures ProductRuns.IsValid(cs[i].shop, op) ==>
              (CommandCheck(cs[i].shop.product, r, Pending(cs[i])).Ok? <==>
                 && !Pending(cs[i])
                 && cs[i].shop.intents[op].target in AllowedFrom(r.command)
                 && (r.version.Some? ==> r.version.value == cs[i].shop.product.version))
  {
    RunKeepsInv(cs, es, i);
    RunsKeepFinishedSpent(cs, es, i, op);
    assert ProductRuns.IntentOk(cs[i].shop, cs[i].shop.intents[op]);
  }

  /** As long as commits find the version their requests had read, no operation is revived, and the
      intent of the newest command validates: so when it has succeeded, the product is where it
      wanted it. */
  lemma CheckedCommandsSettle(cs: seq<System>, es: seq<Event>, i: nat, op: OpId)
    requires IsRun(cs, es) && i <= |es| && Checked(cs, es, i)
    requires ProductRuns.IsCurrent(cs[i].shop, op)
    requires op in cs[i].queue.ops && cs[i].queue.ops[op].status == Q.Succeeded
    ensures cs[i].shop.product.remote == Some(cs[i].shop.intents[op].target)
    ensures cs[i].shop.product.desired == cs[i].shop.intents[op].target
  {
    var ss, ps := QueueRunsAreProductRuns(cs, es, i);
    ProductOverlap.CheckedRunsWithCallbacks(ss, ps, |ps|);
    assert ProductRuns.IsValid(cs[i].shop, op);
    forall k | 0 <= k < i ensures !Revives(cs[k], es[k], op) {
      CheckedStepRevivesNothing(cs, es, k, i, op);
    }
    SucceededCommandIsSettled(cs, es, i, op, CommandRequest("", Update, None, None, ""));
  }

  lemma CheckedStepRevivesNothing(cs: seq<System>, es: seq<Event>, k: nat, n: nat, op: OpId)
    requires IsRun(cs, es) && k < n <= |es| && Checked(cs, es, n)
    ensures !Revives(cs[k], es[k], op)
  {
    assert Enabled(cs[k], es[k]) && cs[k + 1] == Apply(cs[k], es[k]);
    var ss, ps := QueueRunsAreProductRuns(cs, es, k);
    RunKeepsInv(cs, es, k);
    var p := ShopEvent(cs[k], es[k]);
    if p.Some? {
      assert ProductRuns.Commits(cs[k].shop, p.value) ==> Commits(cs[k], es[k]);
      RunGrows(ss, ps, p.value, cs[k + 1].shop);
      ProductOverlap.CheckedGrows(ss, ps, cs[k + 1].shop, p.value);
      assert IsChecked(cs[k], es[k]);
      ProductOverlap.CheckedRunsReviveNothing(ss + [cs[k + 1].shop], ps + [p.value], |ps|, op);
    }
  }

  /* ---- One unfinished operation at a time ---- */

  ghost predicate AtMostOneUnfinished(s: System) {
    forall a, b | a in s.shop.intents && b in s.shop.intents && Unfinished(s.queue, a) && Unfinished(s.queue, b) ::
      a == b
  }

  /** The event makes an operation of the product unfinished while another one is: a commit, although
      an operation was enqueued since its query, or a manual retry of a failed operation. */
  predicate AddsSecond(s: System, e: Event) {
    || (Commits(s, e) && Pending(s))
    || (e.Queue? && e.e.Retry? && e.e.id in s.shop.intents && R.Resets(s.queue, e.e, e.e.id)
        && exists op | op in s.shop.intents :: op != e.e.id && Unfinished(s.queue, op))
  }

  lemma QueueStepDecidesUnfinished(s: System, q: R.Event)
    requires Inv(s) && Enabled(s, Queue(q)) && AtMostOneUnfinished(s)
    ensures AtMostOneUnfinished(Apply(s, Queue(q))) <==> !AddsSecond(s, Queue(q))
  {
    var s' := Apply(s, Queue(q));
    forall op | op in s.shop.intents
      ensures op in s.queue.ops && (R.Resets(s.queue, q, op) ==> Unfinished(s'.queue, op))
      ensures !R.Resets(s.queue, q, op) ==> (Unfinished(s'.queue, op) ==> Unfinished(s.queue, op))
    {
      R.RowFrame(s.queue, q, op);
    }
    if AddsSecond(s, Queue(q)) {
      var op :| op in s.shop.intents && op != q.id && Unfinished(s.queue, op);
      R.RowFrame(s.queue, q, op);
      assert Unfinished(s'.queue, q.id) && Unfinished(s'.queue, op);
    }
  }

  lemma StepDecidesUnfinished(s: System, e: Event)
    requires Inv(s) && Enabled(s, e) && AtMostOneUnfinished(s)
    ensures AtMostOneUnfinished(Apply(s, e)) <==> !AddsSecond(s, e)
  {
    var s' := Apply(s, e);
    if e.Queue? {
      QueueStepDecidesUnfinished(s, e.e);
    } else if Commits(s, e) {
      var key := s.shop.tickets[e.c].request.key;
      assert key in s'.shop.intents && Unfinished(s'.queue, key);
      assert forall op | op in s.shop.intents :: op != key && (Unfinished(s'.queue, op) <==> Unfinished(s.queue, op));
      assert forall op | op in s'.shop.intents :: op == key || op in s.shop.intents;
    } else {
      assert s'.queue == s.queue && s'.shop.intents == s.shop.intents;
    }
  }

  /** At most one operation of the product is unfinished at all times if and only if no commit and no
      manual retry finds another unfinished one: the query a command makes before it commits is not
      enough. */
  lemma {:induction false} OneOperationAtATime(cs: seq<System>, es: seq<Event>, n: nat)
    requires IsRun(cs, es) && n <= |es|
    ensures (forall i | 0 <= i <= n :: AtMostOneUnfinished(cs[i]))
            <==> (forall k | 0 <= k < n :: !AddsSecond(cs[k], es[k]))
  {
    if n > 0 {
      OneOperationAtATime(cs, es, n - 1);
      RunKeepsInv(cs, es, n - 1);
      assert Enabled(cs[n - 1], es[n - 1]) && cs[n] == Apply(cs[n - 1], es[n - 1]);
      if AtMostOneUnfinished(cs[n - 1]) { StepDecidesUnfinished(cs[n - 1], es[n - 1]); }
    }
  }

  /** A manual retry of one of the product's operations. */
  predicate IsRetry(s: System, e: Event) {
    e.Queue? && e.e.Retry? && e.e.id in s.shop.intents && R.Resets(s.queue, e.e, e.e.id)
  }

  /** A command that found no unfinished operation, and still finds the version it read, finds none
      now. */
  ghost predicate ClearedMeansIdle(s: System) {
    forall c | c in s.cleared && c in s.shop.tickets :: ClearedOk(s, s.shop.tickets[c])
  }

  predicate ClearedOk(s: System, t: Ticket) {
    ProductOverlap.FindsItsVersion(s.shop, t) ==> !Pending(s)
  }

  lemma OnlyCommitsAndRetriesAdd(s: System, e: Event)
    requires Inv(s) && Enabled(s, e) && !Commits(s, e) && !IsRetry(s, e) && Pending(Apply(s, e))
    ensures Pending(s)
  {
    var s' := Apply(s, e);
    var op :| op in s'.shop.intents && Unfinished(s'.queue, op);
    assert op in s.shop.intents;
    if e.Queue? { R.RowFrame(s.queue, e.e, op); }
  }

  lemma OtherStepsKeepTheVersion(s: System, e: Event)
    requires Enabled(s, e) && !Commits(s, e)
    ensures Apply(s, e).shop.product.version == s.shop.product.version
  {
    if e.Work? { HandlerOutcome(s.shop.product, s.shop.intents[R.At(s.queue, e.w).id], e.reply); }
  }

  lemma StepKeepsClearedIdle(s: System, e: Event)
    requires Inv(s) && ProductOverlap.CheckedInv(s.shop) && Enabled(s, e) && IsChecked(s, e) && !IsRetry(s, e)
    requires ClearedMeansIdle(s)
    ensures ClearedMeansIdle(Apply(s, e))
  {
    var s' := Apply(s, e);
    forall c | c in s'.cleared && c in s'.shop.tickets ensures ClearedOk(s', s'.shop.tickets[c]) {
      var t := s'.shop.tickets[c];
      assert c in s.shop.tickets && t == s.shop.tickets[c];
      assert ProductOverlap.TicketFresh(s.shop, t);
      if c in s.cleared { assert ClearedOk(s, t); }
      if !Commits(s, e) {
        OtherStepsKeepTheVersion(s, e);
        if Pending(s') { OnlyCommitsAndRetriesAdd(s, e); }
      }
    }
  }

  lemma {:induction false} CheckedRunsKeepClearedIdle(cs: seq<System>, es: seq<Event>, n: nat)
    requires IsRun(cs, es) && n <= |es| && Checked(cs, es, n) && forall k | 0 <= k < n :: !IsRetry(cs[k], es[k])
    ensures ClearedMeansIdle(cs[n])
  {
    if n > 0 {
      CheckedRunsKeepClearedIdle(cs, es, n - 1);
      RunKeepsInv(cs, es, n - 1);
      CheckedShop(cs, es, n - 1);
      assert Enabled(cs[n - 1], es[n - 1]) && cs[n] == Apply(cs[n - 1], es[n - 1]) && IsChecked(cs[n - 1], es[n - 1]);
      StepKeepsClearedIdle(cs[n - 1], es[n - 1]);
    }
  }

  lemma CheckedShop(cs: seq<System>, es: seq<Event>, n: nat)
    requires IsRun(cs, es) && n <= |es| && Checked(cs, es, n)
    ensures ProductOverlap.CheckedInv(cs[n].shop)
  {
    var ss, ps := QueueRunsAreProductRuns(cs, es, n);
    ProductOverlap.CheckedRunKeepsInv(ss, ps, |ps|);
  }

  /** So at most one operation is unfinished as long as commits find the version their requests had
      read and nothing is retried by hand. */
  lemma CheckedCommandsRunAlone(cs: seq<System>, es: seq<Event>, n: nat)
    requires IsRun(cs, es) && n <= |es| && Checked(cs, es, n) && forall k | 0 <= k < n :: !IsRetry(cs[k], es[k])
    ensures AtMostOneUnfinished(cs[n])
  {
    forall k | 0 <= k < n ensures !AddsSecond(cs[k], es[k]) {
      CheckedRunsKeepClearedIdle(cs, es, k);
      assert Enabled(cs[k], es[k]) && IsChecked(cs[k], es[k]);
      if Commits(cs[k], es[k]) { assert ClearedOk(cs[k], cs[k].shop.tickets[es[k].c]); }
    }
    OneOperationAtATime(cs, es, n);
  }

  /** Two commands that both queried an idle queue do both enqueue. */
  lemma OverlappingCommandsBothEnqueue(s: System, c: Caller, d: Caller, rowC: Q.Operation, rowD: Q.Operation, at: real)
    requires Enabled(s, Commit(c, rowC, at)) && Enabled(s, Commit(d, rowD, at)) && c != d
    requires Commits(s, Commit(c, rowC, at)) && Commits(s, Commit(d, rowD, at)) && rowC.key != rowD.key
    ensures var s' := Apply(s, Commit(c, rowC, at));
            && Enabled(s', Commit(d, rowD, at)) && Commits(s', Commit(d, rowD, at))
            && AddsSecond(s', Commit(d, rowD, at))
            && !AtMostOneUnfinished(Apply(s', Commit(d, rowD, at)))
  {
    var s' := Apply(s, Commit(c, rowC, at));
    assert rowC.key in s'.shop.intents && Unfinished(s'.queue, rowC.key);
    var s'' := Apply(s', Commit(d, rowD, at));
    assert rowC.key in s''.shop.intents && rowD.key in s''.shop.intents;
    assert Unfinished(s''.queue, rowC.key) && Unfinished(s''.queue, rowD.key);
  }
}
