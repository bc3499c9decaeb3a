/** Why product handlers may be taken as one step under the queue: the lease. Here a handler loads the
    product, waits for the gateway and stores the result later, as in ProductHandlers, and runs for
    a worker that holds the operation, as in ProductQueue
    (backend/poi_admin/operations/worker.py, backend/poi_admin/local_life/products.py). */
module QueueHandlers {
  import opened Wrappers
  import Q = Operations
  import R = OperationRuns
  import opened Products
  import PO = ProductOverlap
  import PQ = ProductQueue
  import PH = ProductHandlers

  /** `working` holds, per worker whose handler is waiting, the product it loaded. */
  datatype System = System(base: PQ.System, working: map<Q.WorkerId, Product>)

  datatype Event =
    | Plain(e: PQ.Event)
    | Begin(w: Q.WorkerId)
    | Finish(w: Q.WorkerId, reply: Reply)

  predicate HoldsProduct(s: PQ.System, w: Q.WorkerId) {
    R.At(s.queue, w).Holding? && R.At(s.queue, w).id in s.shop.intents
  }

  /** A worker reports success only after its handler has returned; when it reports failure or dies,
      the handler is cut off. */
  predicate Enabled(s: System, e: Event) {
    match e
    case Plain(p) =>
      !p.Work? && PQ.Enabled(s.base, p) && (p.Queue? && p.e.Succeed? ==> p.e.w !in s.working)
    case Begin(w) => w !in s.working && HoldsProduct(s.base, w)
    case Finish(w, _) => w in s.working && HoldsProduct(s.base, w)
  }

  function Finished(s: System, w: Q.WorkerId, reply: Reply): HandlerRun
    requires w in s.working && HoldsProduct(s.base, w)
  {
    Handle(s.working[w], s.base.shop.intents[R.At(s.base.queue, w).id], reply)
  }

  function Apply(s: System, e: Event): System
    requires Enabled(s, e)
  {
    match e
    case Plain(p) => System(PQ.Apply(s.base, p), if p.Queue? then s.working - PQ.Released(p.e) else s.working)
    case Begin(w) => s.(working := s.working[w := s.base.shop.product])
    case Finish(w, reply) =>
      var run := Finished(s, w, reply);
      var product := PH.Landed(s.base.shop.product, s.working[w], run.product);
      System(s.base.(shop := s.base.shop.(product := product), results := s.base.results[w := run.result]),
             s.working - {w})
  }

  /** A handler that nothing interrupts does what the atomic step of its worker does. */
  lemma UninterruptedHandlerIs(s: System, w: Q.WorkerId, reply: Reply)
    requires w !in s.working && HoldsProduct(s.base, w)
    ensures Enabled(s, Begin(w)) && PQ.Enabled(s.base, PQ.Work(w, reply))
    ensures var s1 := Apply(s, Begin(w));
            && s1 == s.(working := s.working[w := s.base.shop.product])
            && Enabled(s1, Finish(w, reply))
            && Apply(s1, Finish(w, reply)) == s.(base := PQ.Apply(s.base, PQ.Work(w, reply)))
  {
    assert s.working[w := s.base.shop.product] - {w} == s.working;
  }

  /** While a handler waits its worker cannot report success; reporting failure or crashing cuts the
      handler off, and no other event of the queue or of a command does. */
  lemma WaitingIs(s: System, p: PQ.Event)
    ensures Enabled(s, Plain(p)) <==>
              !p.Work? && PQ.Enabled(s.base, p) && !(p.Queue? && p.e.Succeed? && p.e.w in s.working)
    ensures Enabled(s, Plain(p)) ==>
              && Apply(s, Plain(p)).base == PQ.Apply(s.base, p)
              && forall w :: w in Apply(s, Plain(p)).working <==>
                               w in s.working && !(p.Queue? && (p.e.Fail? || p.e.Crash?) && p.e.w == w)
  {
  }

  ghost predicate IsRun(ss: seq<System>, es: seq<Event>) {
    && |ss| == |es| + 1 && PQ.Init(ss[0].base) && ss[0].working == map[]
    && forall i {:trigger Enabled(ss[i], es[i])} {:trigger Apply(ss[i], es[i])} | 0 <= i < |es| ::
         Enabled(ss[i], es[i]) && ss[i + 1] == Apply(ss[i], es[i])
  }

  predicate LandsUndisturbed(s: System, e: Event) {
    e.Finish? && e.w in s.working ==> PH.IsUndisturbed(s.base.shop.product, s.working[e.w])
  }

  /* ---- Projection ---- */

  predicate Has(s: PQ.System, w: Q.WorkerId, op: OpId) {
    R.At(s.queue, w) == R.Won(op) || (R.At(s.queue, w).Holding? && R.At(s.queue, w).id == op)
  }

  /** The event takes an operation of the product over from a worker that is still at it. */
  ghost predicate TakesFromTheLiving(s: PQ.System, e: PQ.Event) {
    e.Queue? && exists op, v :: TakesFrom(s, e.e, op, v)
  }

  predicate TakesFrom(s: PQ.System, q: R.Event, op: OpId, v: Q.WorkerId) {
    op in s.shop.intents && R.Claims(s.queue, q, op) && s.queue.ops[op].status == Q.Running && Has(s, v, op)
  }

  /** The event is no unchecked commit, no manual retry, and no take-over from the living. */
  ghost predicate IsCalm(s: PQ.System, e: PQ.Event) {
    PQ.IsChecked(s, e) && !PQ.IsRetry(s, e) && !TakesFromTheLiving(s, e)
  }

  ghost predicate Calm(s: System, e: Event) {
    e.Plain? ==> IsCalm(s.base, e.e)
  }

  /** The atomic step an event stands for, if it is one. */
  function AtomicStep(e: Event): Option<PQ.Event> {
    match e
    case Plain(p) => Some(p)
    case Begin(_) => None
    case Finish(w, reply) => Some(PQ.Work(w, reply))
  }

  lemma AtomicStepIs(s: System, e: Event)
    requires Enabled(s, e) && LandsUndisturbed(s, e) && AtomicStep(e).Some?
    ensures PQ.Enabled(s.base, AtomicStep(e).value)
    ensures Apply(s, e).base == PQ.Apply(s.base, AtomicStep(e).value)
    ensures Calm(s, e) ==> IsCalm(s.base, AtomicStep(e).value)
  {
    if e.Finish? {
      PH.UndisturbedHandlersAreAtomic(
        s.base.shop.product, s.working[e.w], s.base.shop.intents[R.At(s.base.queue, e.w).id], e.reply);
    }
  }

  ghost predicate CalmUpTo(ss: seq<System>, es: seq<Event>, n: nat)
    requires n <= |es| <= |ss|
  {
    forall k | 0 <= k < n :: Calm(ss[k], es[k])
  }

  ghost predicate IsCalmRun(cs: seq<PQ.System>, qs: seq<PQ.Event>) {
    PQ.IsRun(cs, qs) && forall k | 0 <= k < |qs| :: IsCalm(cs[k], qs[k])
  }

  /** A run whose handlers all find the row as they loaded it is a run with atomic handlers. */
  lemma {:induction false} UndisturbedRunsAreAtomic(ss: seq<System>, es: seq<Event>, n: nat)
    returns (cs: seq<PQ.System>, qs: seq<PQ.Event>)
    requires IsRun(ss, es) && n <= |es|
    requires forall k | 0 <= k < n :: LandsUndisturbed(ss[k], es[k])
    ensures PQ.IsRun(cs, qs) && cs[|qs|] == ss[n].base
    ensures CalmUpTo(ss, es, n) ==> IsCalmRun(cs, qs)
  {
    if n == 0 {
      cs, qs := [ss[0].base], [];
    } else {
      var cs', qs' := UndisturbedRunsAreAtomic(ss, es, n - 1);
      assert Enabled(ss[n - 1], es[n - 1]) && ss[n] == Apply(ss[n - 1], es[n - 1])
             && LandsUndisturbed(ss[n - 1], es[n - 1]);
      assert CalmUpTo(ss, es, n) ==> CalmUpTo(ss, es, n - 1) && Calm(ss[n - 1], es[n - 1]);
      cs, qs := AtomicRunGrows(ss[n - 1], es[n - 1], cs', qs');
    }
  }

  lemma AtomicRunGrows(s: System, e: Event, cs: seq<PQ.System>, qs: seq<PQ.Event>)
    returns (cs': seq<PQ.System>, qs': seq<PQ.Event>)
    requires PQ.IsRun(cs, qs) && cs[|qs|] == s.base && Enabled(s, e) && LandsUndisturbed(s, e)
    ensures PQ.IsRun(cs', qs') && cs'[|qs'|] == Apply(s, e).base
    ensures IsCalmRun(cs, qs) && Calm(s, e) ==> IsCalmRun(cs', qs')
  {
    if AtomicStep(e).Some? {
      AtomicStepIs(s, e);
      cs' := QueueRunGrows(cs, qs, AtomicStep(e).value);
      qs' := qs + [AtomicStep(e).value];
    } else {
      cs', qs' := cs, qs;
    }
  }

  lemma QueueRunGrows(cs: seq<PQ.System>, qs: seq<PQ.Event>, q: PQ.Event) returns (cs': seq<PQ.System>)
    requires PQ.IsRun(cs, qs) && PQ.Enabled(cs[|qs|], q)
    ensures cs' == cs + [PQ.Apply(cs[|qs|], q)] && PQ.IsRun(cs', qs + [q])
    ensures IsCalmRun(cs, qs) && IsCalm(cs[|qs|], q) ==> IsCalmRun(cs', qs + [q])
  {
    cs' := cs + [PQ.Apply(cs[|qs|], q)];
    forall i | 0 <= i < |qs| + 1
      ensures PQ.Enabled(cs'[i], (qs + [q])[i]) && cs'[i + 1] == PQ.Apply(cs'[i], (qs + [q])[i])
    {
      if i < |qs| { assert PQ.Enabled(cs[i], qs[i]); }
    }
  }

  /* ---- The lease ---- */

  /** Workers that are at an operation of the product own its row. */
  ghost predicate HoldersOwn(s: PQ.System) {
    && (forall w | w in s.queue.workers :: HeldExists(s, w))
    && (forall w, op | Has(s, w, op) && op in s.shop.intents && op in s.queue.ops :: Q.OwnedBy(s.queue.ops[op], w))
  }

  predicate HeldExists(s: PQ.System, w: Q.WorkerId) {
    var l := R.At(s.queue, w);
    (l.Won? ==> l.claimed in s.queue.ops) && (l.Holding? ==> l.id in s.queue.ops)
  }

  lemma NewHoldersClaimed(s: PQ.System, q: R.Event, w: Q.WorkerId, op: OpId)
    requires PQ.Enabled(s, PQ.Queue(q)) && Has(PQ.Apply(s, PQ.Queue(q)), w, op) && !Has(s, w, op)
    ensures R.Claims(s.queue, q, op) && q.w == w
  {
  }

  lemma QueueStepKeepsHeld(s: PQ.System, q: R.Event, w: Q.WorkerId)
    requires PQ.Enabled(s, PQ.Queue(q)) && w in PQ.Apply(s, PQ.Queue(q)).queue.workers
    requires forall v | v in s.queue.workers :: HeldExists(s, v)
    ensures HeldExists(PQ.Apply(s, PQ.Queue(q)), w)
  {
    if w in s.queue.workers {
      assert HeldExists(s, w);
      var l := R.At(s.queue, w);
      if l.Won? { R.RowFrame(s.queue, q, l.claimed); }
      if l.Holding? { R.RowFrame(s.queue, q, l.id); }
    }
  }

  lemma QueueStepKeepsOwner(s: PQ.System, q: R.Event, w: Q.WorkerId, op: OpId)
    requires PQ.Enabled(s, PQ.Queue(q)) && HoldersOwn(s) && !TakesFromTheLiving(s, PQ.Queue(q))
    requires op in s.shop.intents && op in s.queue.ops && Has(PQ.Apply(s, PQ.Queue(q)), w, op)
    ensures op in R.OpsAfter(s.queue, q) && Q.OwnedBy(R.OpsAfter(s.queue, q)[op], w)
  {
    R.RowFrame(s.queue, q, op);
    if Has(s, w, op) {
      assert Q.OwnedBy(s.queue.ops[op], w);
      assert !TakesFrom(s, q, op, w);
    } else {
      NewHoldersClaimed(s, q, w, op);
    }
  }

  lemma QueueStepKeepsHolders(s: PQ.System, q: R.Event)
    requires PQ.Inv(s) && PQ.Enabled(s, PQ.Queue(q)) && HoldersOwn(s) && !TakesFromTheLiving(s, PQ.Queue(q))
    ensures HoldersOwn(PQ.Apply(s, PQ.Queue(q)))
  {
    var s' := PQ.Apply(s, PQ.Queue(q));
    forall w | w in s'.queue.workers ensures HeldExists(s', w) { QueueStepKeepsHeld(s, q, w); }
    forall w, op | Has(s', w, op) && op in s'.shop.intents && op in s'.queue.ops
      ensures Q.OwnedBy(s'.queue.ops[op], w)
    {
      QueueStepKeepsOwner(s, q, w, op);
    }
  }

  lemma StepKeepsHolders(s: PQ.System, e: PQ.Event)
    requires PQ.Inv(s) && PQ.Enabled(s, e) && HoldersOwn(s) && !TakesFromTheLiving(s, e)
    ensures HoldersOwn(PQ.Apply(s, e))
  {
    if e.Queue? {
      QueueStepKeepsHolders(s, e.e);
    } else {
      var s' := PQ.Apply(s, e);
      forall w | w in s'.queue.workers ensures HeldExists(s', w) { assert HeldExists(s, w); }
      forall w, op | Has(s', w, op) && op in s'.shop.intents && op in s'.queue.ops
        ensures Q.OwnedBy(s'.queue.ops[op], w)
      {
        assert w in s.queue.workers && HeldExists(s, w) && Has(s, w, op);
        assert op in s.queue.ops && op in s.shop.intents;
      }
    }
  }

  lemma {:induction false} CalmRunsKeepHolders(cs: seq<PQ.System>, qs: seq<PQ.Event>, n: nat)
    requires IsCalmRun(cs, qs) && n <= |qs|
    ensures HoldersOwn(cs[n])
  {
    if n > 0 {
      CalmRunsKeepHolders(cs, qs, n - 1);
      PQ.RunKeepsInv(cs, qs, n - 1);
      assert PQ.Enabled(cs[n - 1], qs[n - 1]) && cs[n] == PQ.Apply(cs[n - 1], qs[n - 1])
             && IsCalm(cs[n - 1], qs[n - 1]);
      StepKeepsHolders(cs[n - 1], qs[n - 1]);
    }
  }

  /** What calm runs with atomic handlers provide. */
  ghost predicate Base(s: PQ.System) {
    && PQ.Inv(s) && HoldersOwn(s) && PQ.AtMostOneUnfinished(s) && PQ.ClearedMeansIdle(s)
    && PO.CheckedInv(s.shop)
  }

  lemma CalmRunsProvide(cs: seq<PQ.System>, qs: seq<PQ.Event>)
    requires IsCalmRun(cs, qs)
    ensures Base(cs[|qs|])
  {
    assert PQ.Checked(cs, qs, |qs|);
    PQ.RunKeepsInv(cs, qs, |qs|);
    CalmRunsKeepHolders(cs, qs, |qs|);
    PQ.CheckedCommandsRunAlone(cs, qs, |qs|);
    PQ.CheckedRunsKeepClearedIdle(cs, qs, |qs|);
    PQ.CheckedShop(cs, qs, |qs|);
  }

  /** Every waiting handler belongs to a worker that holds its operation, and loaded the product as it
      is now. */
  ghost predicate SeenIsStored(s: System) {
    forall w | w in s.working :: HoldsProduct(s.base, w) && s.working[w] == s.base.shop.product
  }

  lemma WorkersAreUnfinished(s: System, w: Q.WorkerId)
    requires Base(s.base) && SeenIsStored(s) && w in s.working
    ensures var op := R.At(s.base.queue, w).id;
            op in s.base.shop.intents && op in s.base.queue.ops && Q.OwnedBy(s.base.queue.ops[op], w)
            && PQ.Unfinished(s.base.queue, op)
  {
    assert Has(s.base, w, R.At(s.base.queue, w).id);
  }

  /** Two handlers of the product never wait at the same time. */
  lemma OneHandlerAtATime(s: System, w: Q.WorkerId, v: Q.WorkerId)
    requires Base(s.base) && SeenIsStored(s) && w in s.working && v in s.working
    ensures w == v
  {
    WorkersAreUnfinished(s, w);
    WorkersAreUnfinished(s, v);
  }

  /** While a handler waits no command commits. */
  lemma NoCommitWhileWorking(s: System, e: PQ.Event, w: Q.WorkerId)
    requires Base(s.base) && SeenIsStored(s) && w in s.working && PQ.Enabled(s.base, e) && PQ.IsChecked(s.base, e)
    ensures !PQ.Commits(s.base, e)
  {
    WorkersAreUnfinished(s, w);
    if PQ.Commits(s.base, e) {
      assert PQ.ClearedOk(s.base, s.base.shop.tickets[e.c]);
      assert PQ.Pending(s.base);
    }
  }

  lemma HeldWorkStays(s: System, p: PQ.Event, w: Q.WorkerId)
    requires Base(s.base) && SeenIsStored(s) && Enabled(s, Plain(p)) && w in Apply(s, Plain(p)).working
    ensures w in s.working && HoldsProduct(Apply(s, Plain(p)).base, w)
  {
    PQ.StepKeepsInv(s.base, p);
  }

  lemma StepKeepsSeen(s: System, e: Event)
    requires Base(s.base) && SeenIsStored(s) && Enabled(s, e) && Calm(s, e)
    ensures SeenIsStored(Apply(s, e))
  {
    var s' := Apply(s, e);
    forall w | w in s'.working ensures HoldsProduct(s'.base, w) && s'.working[w] == s'.base.shop.product {
      match e
      case Plain(p) =>
        HeldWorkStays(s, p, w);
        NoCommitWhileWorking(s, p, w);
        assert s'.base.shop.product == s.base.shop.product;
      case Begin(v) => assert w != v ==> w in s.working;
      case Finish(v, _) => OneHandlerAtATime(s, w, v);
    }
  }

  /** As long as commits find the version their requests had read, nothing is retried by hand, and no
      operation is taken over from a worker that is still at it (the lease outlives the worker's
      attempt), every handler finds the product as it loaded it, however long it waited. */
  lemma {:induction false} LeasesKeepHandlersUndisturbed(ss: seq<System>, es: seq<Event>, n: nat)
    requires IsRun(ss, es) && n <= |es| && CalmUpTo(ss, es, n)
    ensures forall k | 0 <= k < n :: LandsUndisturbed(ss[k], es[k])
    ensures SeenIsStored(ss[n]) && Base(ss[n].base)
  {
    if n > 0 {
      LeasesKeepHandlersUndisturbed(ss, es, n - 1);
      var s, e := ss[n - 1], es[n - 1];
      assert Enabled(s, e) && ss[n] == Apply(s, e) && Calm(s, e);
      StepKeepsSeen(s, e);
      assert LandsUndisturbed(s, e);
    }
    var cs, qs := UndisturbedRunsAreAtomic(ss, es, n);
    CalmRunsProvide(cs, qs);
  }

  /** So such a run is one with atomic handlers, and when the operation of the newest command has
      succeeded, the product is where the command wanted it. */
  lemma LeasedCommandsSettle(ss: seq<System>, es: seq<Event>, i: nat, op: OpId)
    requires IsRun(ss, es) && i <= |es| && CalmUpTo(ss, es, i)
    requires PQ.ProductRuns.IsCurrent(ss[i].base.shop, op)
    requires op in ss[i].base.queue.ops && ss[i].base.queue.ops[op].status == Q.Succeeded
    ensures ss[i].base.shop.product.remote == Some(ss[i].base.shop.intents[op].target)
    ensures ss[i].base.shop.product.desired == ss[i].base.shop.intents[op].target
  {
    LeasesKeepHandlersUndisturbed(ss, es, i);
    var cs, qs := UndisturbedRunsAreAtomic(ss, es, i);
    assert PQ.Checked(cs, qs, |qs|);
    PQ.CheckedCommandsSettle(cs, qs, |qs|, op);
  }
}
