/** Product handlers that wait: a handler loads the product and validates its intent, then waits for
    the gateway, and stores the result later, while commands commit and other handlers run
    (backend/poi_admin/local_life/products.py). The runs of ProductRuns take a handler as one step;
    this module says when that is justified and exactly what goes wrong otherwise. */
module ProductHandlers {
  import opened Wrappers
  import opened Products
  import PR = ProductRuns

  type Worker = nat

  /** A handler that is waiting: its operation, and the product it loaded. */
  datatype Work = Work(op: OpId, seen: Product)

  datatype Shop = Shop(base: State, working: map<Worker, Work>)

  datatype Event =
    | Plain(e: PR.Event)
    | Begin(w: Worker, op: OpId)
    | Finish(w: Worker, reply: Reply)
    | Stop(w: Worker)

  predicate Enabled(s: Shop, e: Event) {
    match e
    case Plain(p) => !p.Run? && PR.Enabled(s.base, p)
    case Begin(w, op) => w !in s.working && op in s.base.intents
    case Finish(w, _) => w in s.working && s.working[w].op in s.base.intents
    case Stop(w) => w in s.working
  }

  /** Storing a row updates the columns that differ from the row that was loaded. A handler touches
      neither version nor content. */
  function Landed(p: Product, seen: Product, after: Product): Product {
    p.(external := if after.external != seen.external then after.external else p.external,
       linked := if after.linked != seen.linked then after.linked else p.linked,
       remote := if after.remote != seen.remote then after.remote else p.remote,
       desired := if after.desired != seen.desired then after.desired else p.desired)
  }

  function Finished(s: Shop, w: Worker, reply: Reply): HandlerRun
    requires w in s.working && s.working[w].op in s.base.intents
  {
    Handle(s.working[w].seen, s.base.intents[s.working[w].op], reply)
  }

  function Apply(s: Shop, e: Event): Shop
    requires Enabled(s, e)
  {
    match e
    case Plain(p) => s.(base := PR.Apply(s.base, p))
    case Begin(w, op) => s.(working := s.working[w := Work(op, s.base.product)])
    case Finish(w, reply) =>
      s.(base := s.base.(product := Landed(s.base.product, s.working[w].seen, Finished(s, w, reply).product)),
         working := s.working - {w})
    case Stop(w) => s.(working := s.working - {w})
  }

  /** What a handler stores: each column it changed on the row it loaded, and no other. */
  lemma LandedIs(p: Product, seen: Product, after: Product)
    ensures var landed := Landed(p, seen, after);
            && landed.external == (if after.external == seen.external then p.external else after.external)
            && landed.linked == (if after.linked == seen.linked then p.linked else after.linked)
            && landed.remote == (if after.remote == seen.remote then p.remote else after.remote)
            && landed.desired == (if after.desired == seen.desired then p.desired else after.desired)
            && landed.version == p.version && landed.content == p.content
  {
  }

  /** A handler that nothing interrupts does what an atomic run does; one that is stopped leaves no
      trace. Everything but handler runs happens as before while handlers wait. */
  lemma UninterruptedHandlerIs(s: Shop, w: Worker, op: OpId, reply: Reply)
    requires w !in s.working && op in s.base.intents
    ensures Enabled(s, Begin(w, op))
    ensures var s1 := Apply(s, Begin(w, op));
            && s1 == s.(working := s.working[w := Work(op, s.base.product)])
            && Enabled(s1, Finish(w, reply)) && Enabled(s1, Stop(w))
            && Apply(s1, Finish(w, reply)) == s.(base := PR.Apply(s.base, PR.Run(op, reply)))
            && Apply(s1, Stop(w)) == s
    ensures forall p :: Enabled(s, Plain(p)) <==> !p.Run? && PR.Enabled(s.base, p)
    ensures forall p | Enabled(s, Plain(p)) :: Apply(s, Plain(p)) == s.(base := PR.Apply(s.base, p))
  {
    assert s.working[w := Work(op, s.base.product)] - {w} == s.working;
  }

  ghost predicate Follows(ss: seq<Shop>, es: seq<Event>) {
    && |ss| == |es| + 1
    && forall i {:trigger Enabled(ss[i], es[i])} {:trigger Apply(ss[i], es[i])} | 0 <= i < |es| ::
         Enabled(ss[i], es[i]) && ss[i + 1] == Apply(ss[i], es[i])
  }

  ghost predicate IsRun(ss: seq<Shop>, es: seq<Event>) {
    Follows(ss, es) && PR.Init(ss[0].base) && ss[0].working == map[]
  }

  /* ---- Undisturbed handlers ---- */

  /** The stored product is the one the handler loaded, but for its content. */
  predicate IsUndisturbed(p: Product, seen: Product) {
    && p.external == seen.external && p.linked == seen.linked && p.remote == seen.remote
    && p.desired == seen.desired && p.version == seen.version
  }

  /** The event is not a handler storing over a row that changed while it waited. */
  predicate LandsUndisturbed(s: Shop, e: Event) {
    e.Finish? && e.w in s.working ==> IsUndisturbed(s.base.product, s.working[e.w].seen)
  }

  lemma ContentDecidesNoUpdate(p: Product, content: Content, i: Intent, reply: Reply)
    requires i.Intent?
    ensures ApplyUpdate(p.(content := content), i, reply).product
            == ApplyUpdate(p, i, reply).product.(content := content)
    ensures ApplyUpdate(p.(content := content), i, reply).result == ApplyUpdate(p, i, reply).result
  {
  }

  lemma ContentDecidesNoAction(p: Product, content: Content, i: Intent, reply: Reply)
    requires i.Intent? && i.command.Act?
    ensures ApplyAction(p.(content := content), i, reply).product
            == ApplyAction(p, i, reply).product.(content := content)
    ensures ApplyAction(p.(content := content), i, reply).result == ApplyAction(p, i, reply).result
  {
  }

  /** A handler sends the content, and otherwise does the same whatever it is. */
  lemma ContentDecidesNothing(p: Product, content: Content, i: Intent, reply: Reply)
    ensures Handle(p.(content := content), i, reply).product == Handle(p, i, reply).product.(content := content)
    ensures Handle(p.(content := content), i, reply).result == Handle(p, i, reply).result
  {
    if i.Intent? {
      ContentDecidesNoUpdate(p, content, i, reply);
      if i.command.Act? { ContentDecidesNoAction(p, content, i, reply); }
    }
  }

  /** A handler that finds the row as it loaded it does what an atomic run at that moment does: it
      stores the same, with the same outcome. */
  lemma UndisturbedHandlersAreAtomic(p: Product, seen: Product, i: Intent, reply: Reply)
    requires IsUndisturbed(p, seen)
    ensures Landed(p, seen, Handle(seen, i, reply).product) == Handle(p, i, reply).product
    ensures Handle(seen, i, reply).result == Handle(p, i, reply).result
  {
    ContentDecidesNothing(seen, p.content, i, reply);
    HandlerOutcome(seen, i, reply);
  }

  /** So a run whose handlers all find the row as they loaded it is, to the product, a run with
      atomic handlers, and everything proved of those holds of it. */
  lemma {:induction false} UndisturbedRunsAreAtomic(ss: seq<Shop>, es: seq<Event>, n: nat)
    returns (bs: seq<State>, ps: seq<PR.Event>)
    requires IsRun(ss, es) && n <= |es|
    requires forall k | 0 <= k < n :: LandsUndisturbed(ss[k], es[k])
    ensures PR.IsRun(bs, ps) && bs[|ps|] == ss[n].base
    ensures (forall k | 0 <= k < n :: !(es[k].Plain? && es[k].e.Callback?)) ==> PR.NoCallback(ps, 0, |ps|)
  {
    if n == 0 {
      bs, ps := [ss[0].base], [];
    } else {
      bs, ps := UndisturbedRunsAreAtomic(ss, es, n - 1);
      var s, e := ss[n - 1], es[n - 1];
      assert Enabled(s, e) && ss[n] == Apply(s, e) && LandsUndisturbed(s, e);
      var step := AtomicStep(s, e);
      if step.Some? {
        AtomicStepIs(s, e);
        bs := PR.RunGrows(bs, ps, step.value);
        ps := ps + [step.value];
      }
    }
  }

  /** The atomic step an event stands for, if it is one. */
  function AtomicStep(s: Shop, e: Event): Option<PR.Event> {
    match e
    case Plain(p) => Some(p)
    case Finish(w, reply) => if w in s.working then Some(PR.Run(s.working[w].op, reply)) else None
    case _ => None
  }

  lemma AtomicStepIs(s: Shop, e: Event)
    requires Enabled(s, e) && LandsUndisturbed(s, e) && AtomicStep(s, e).Some?
    ensures PR.Enabled(s.base, AtomicStep(s, e).value)
    ensures Apply(s, e).base == PR.Apply(s.base, AtomicStep(s, e).value)
  {
    if e.Finish? {
      UndisturbedHandlersAreAtomic(s.base.product, s.working[e.w].seen, s.base.intents[s.working[e.w].op], e.reply);
    }
  }

  /* ---- Disturbed handlers ---- */

  predicate IntentOk(i: Intent) {
    i.Intent? ==>
      !i.command.Create? && i.source in AllowedFrom(i.command) && i.target == TargetOf(i.command, i.source)
  }

  ghost predicate Inv(s: Shop) {
    && (forall op | op in s.base.intents :: IntentOk(s.base.intents[op]))
    && (forall c | c in s.base.tickets :: TicketOk(s.base.tickets[c]))
    && (forall w | w in s.working :: s.working[w].op in s.base.intents)
  }

  predicate TicketOk(t: Ticket) {
    IsRequest(t.request) && t.seen.desired in AllowedFrom(t.request.command)
  }

  lemma StepKeepsInv(s: Shop, e: Event)
    requires Inv(s) && Enabled(s, e)
    ensures Inv(Apply(s, e))
    ensures forall op | op in s.base.intents ::
              op in Apply(s, e).base.intents && Apply(s, e).base.intents[op] == s.base.intents[op]
  {
    var s' := Apply(s, e);
    forall op | op in s'.base.intents ensures IntentOk(s'.base.intents[op]) {
      if op in s.base.intents { assert IntentOk(s.base.intents[op]); }
      if e.Plain? && e.e.Write? { assert TicketOk(s.base.tickets[e.e.c]); }
    }
    forall c | c in s'.base.tickets ensures TicketOk(s'.base.tickets[c]) {
      if c in s.base.tickets { assert TicketOk(s.base.tickets[c]); }
    }
  }

  lemma {:induction false} RunKeepsInv(ss: seq<Shop>, es: seq<Event>, i: nat)
    requires Follows(ss, es) && Inv(ss[0]) && i < |ss|
    ensures Inv(ss[i])
  {
    if i > 0 {
      RunKeepsInv(ss, es, i - 1);
      assert Enabled(ss[i - 1], es[i - 1]) && ss[i] == Apply(ss[i - 1], es[i - 1]);
      StepKeepsInv(ss[i - 1], es[i - 1]);
    }
  }

  lemma RunsStartWell(ss: seq<Shop>, es: seq<Event>, i: nat)
    requires IsRun(ss, es) && i < |ss|
    ensures Inv(ss[i])
  {
    RunKeepsInv(ss, es, i);
  }

  /** A creation that loaded the product before it had a remote id. */
  predicate IsLateCreation(s: Shop, w: Worker) {
    && w in s.working && s.working[w].op in s.base.intents
    && s.base.intents[s.working[w].op].CreateIntent? && s.working[w].seen.external.None?
  }

  /** A command that validated on its way to another status. */
  predicate IsOnItsWay(s: Shop, w: Worker) {
    && w in s.working && s.working[w].op in s.base.intents
    && var i, seen := s.base.intents[s.working[w].op], s.working[w].seen;
       && i.Intent? && ValidateIntent(seen, i).Ok? && seen.external.Some?
       && seen.remote == Some(i.source) && i.source != i.target
  }

  /** What a handler can store: its target, when it validated on the way there; for a creation that
      loaded no remote id, anything; and otherwise nothing. */
  lemma HandlersStore(s: Shop, w: Worker, reply: Reply)
    requires Inv(s) && w in s.working
    ensures var seen, after := s.working[w].seen, Finished(s, w, reply).product;
            && (!IsLateCreation(s, w) ==> after.external == seen.external && after.linked == seen.linked)
            && (!IsLateCreation(s, w) && after != seen ==>
                  IsOnItsWay(s, w) && after == seen.(remote := Some(s.base.intents[s.working[w].op].target)))
  {
    assert IntentOk(s.base.intents[s.working[w].op]);
  }

  /** The status changes along the tables, or not at all, at every step but a callback, as long as no
      creation lands over a stored remote id and no handler over another status than the one it
      loaded. Version and desired state may have changed. */
  lemma StatusMovesAlongTheTablesUnlessOverwritten(ss: seq<Shop>, es: seq<Event>, i: nat)
    requires IsRun(ss, es) && i < |es| && !(es[i].Plain? && es[i].e.Callback?)
    requires es[i].Finish? ==>
               !IsLateCreation(ss[i], es[i].w) && es[i].w in ss[i].working
               && ss[i].base.product.remote == ss[i].working[es[i].w].seen.remote
    ensures var before, after := ss[i].base.product.remote, ss[i + 1].base.product.remote;
            after == before || (before.Some? && after.Some? && PR.Edge(before.value, after.value))
  {
    var s, e := ss[i], es[i];
    assert Enabled(s, e) && ss[i + 1] == Apply(s, e);
    RunsStartWell(ss, es, i);
    if e.Finish? {
      HandlersStore(s, e.w, e.reply);
      var intent := s.base.intents[s.working[e.w].op];
      assert IntentOk(intent);
      if ss[i + 1].base.product.remote != s.base.product.remote && intent.command.Act? {
        assert intent.source in AllowedFrom(Act(intent.command.action));
      }
    }
  }

  predicate NoCallback(es: seq<Event>) {
    forall k | 0 <= k < |es| :: !(es[k].Plain? && es[k].e.Callback?)
  }

  /** The run goes on from s and ends in a state without `keeps`. */
  ghost predicate Leaves(s: Shop, ss: seq<Shop>, es: seq<Event>, keeps: Product -> bool) {
    Follows(ss, es) && ss[0] == s && !keeps(ss[|es|].base.product)
  }

  function IsDeleted(): Product -> bool {
    (p: Product) => p.remote == Some(Deleted) && p.external.Some?
  }

  /** The handler may store another status than deleted. */
  predicate MayUndelete(s: Shop, w: Worker) {
    IsLateCreation(s, w) || (IsOnItsWay(s, w) && s.base.intents[s.working[w].op].target != Deleted)
  }

  lemma StepKeepsDeleted(s: Shop, e: Event)
    requires Inv(s) && Enabled(s, e) && !(e.Plain? && e.e.Callback?)
    requires IsDeleted()(s.base.product) && forall w | w in s.working :: !MayUndelete(s, w)
    ensures IsDeleted()(Apply(s, e).base.product) && forall w | w in Apply(s, e).working :: !MayUndelete(Apply(s, e), w)
  {
    StepKeepsInv(s, e);
    if e.Finish? { HandlersStore(s, e.w, e.reply); }
    forall w | w in Apply(s, e).working ensures !MayUndelete(Apply(s, e), w) {
      assert IntentOk(Apply(s, e).base.intents[Apply(s, e).working[w].op]);
      if w in s.working { assert !MayUndelete(s, w); }
    }
  }

  lemma {:induction false} DeletedLasts(ss: seq<Shop>, es: seq<Event>, n: nat)
    requires Follows(ss, es) && n <= |es| && Inv(ss[0]) && NoCallback(es)
    requires IsDeleted()(ss[0].base.product) && forall w | w in ss[0].working :: !MayUndelete(ss[0], w)
    ensures IsDeleted()(ss[n].base.product) && forall w | w in ss[n].working :: !MayUndelete(ss[n], w)
  {
    if n > 0 {
      DeletedLasts(ss, es, n - 1);
      RunKeepsInv(ss, es, n - 1);
      assert Enabled(ss[n - 1], es[n - 1]) && ss[n] == Apply(ss[n - 1], es[n - 1]);
      StepKeepsDeleted(ss[n - 1], es[n - 1]);
    }
  }

  /** The reply by which a handler that may undelete the product does so. */
  function UndeletingReply(s: Shop, w: Worker): Reply
    requires w in s.working && s.working[w].op in s.base.intents
  {
    var i := s.base.intents[s.working[w].op];
    Returned(Some(if i.Intent? then i.target else if s.working[w].seen.remote == Some(Draft) then Listed else Draft),
             "id", true, true)
  }

  lemma UndeletingReplyUndeletes(s: Shop, w: Worker)
    requires Inv(s) && w in s.working && IsDeleted()(s.base.product) && MayUndelete(s, w)
    ensures !IsDeleted()(Apply(s, Finish(w, UndeletingReply(s, w))).base.product)
  {
    assert IntentOk(s.base.intents[s.working[w].op]);
  }

  /** From any state of a run on, a deleted product stays deleted, whatever is submitted, retried or
      overlaps, if and only if no handler is waiting that validated on its way to another status
      before the deletion, and no creation that loaded no remote id. */
  lemma DeletedIsFinalExactlyWhen(ss: seq<Shop>, es: seq<Event>, i: nat)
    requires IsRun(ss, es) && i < |ss| && IsDeleted()(ss[i].base.product)
    ensures (forall ts, fs | NoCallback(fs) :: !Leaves(ss[i], ts, fs, IsDeleted()))
            <==> (forall w | w in ss[i].working :: !MayUndelete(ss[i], w))
  {
    var s := ss[i];
    RunsStartWell(ss, es, i);
    if w :| w in s.working && MayUndelete(s, w) {
      var e := Finish(w, UndeletingReply(s, w));
      UndeletingReplyUndeletes(s, w);
      var ts, fs := [s, Apply(s, e)], [e];
      assert Enabled(ts[0], fs[0]);
      assert Leaves(s, ts, fs, IsDeleted()) && NoCallback(fs);
    } else {
      forall ts, fs | NoCallback(fs) ensures !Leaves(s, ts, fs, IsDeleted()) {
        if Leaves(s, ts, fs, IsDeleted()) { DeletedLasts(ts, fs, |fs|); }
      }
    }
  }

  lemma RunGrows(ss: seq<Shop>, es: seq<Event>, e: Event) returns (ss': seq<Shop>)
    requires IsRun(ss, es) && Enabled(ss[|es|], e)
    ensures ss' == ss + [Apply(ss[|es|], e)] && IsRun(ss', es + [e])
  {
    ss' := ss + [Apply(ss[|es|], e)];
    forall i | 0 <= i < |es| + 1 ensures Enabled(ss'[i], (es + [e])[i]) && ss'[i + 1] == Apply(ss'[i], (es + [e])[i]) {
      if i < |es| { assert Enabled(ss[i], es[i]); }
    }
  }

  /** A delisted product, and the requests to list and to delete it, which both read it. */
  const START := Product(Some("id"), true, Some(Delisted), Delisted, 1, map[])
  const TO_LIST := CommandRequest("list", Act(List), None, None, "")
  const TO_DELETE := CommandRequest("delete", Act(Delete), None, None, "")

  function StartingShop(): Shop {
    Shop(State(START, map[], map[]), map[])
  }

  const LISTING := Intent(Act(List), Delisted, Listed, 2, "", map[])
  const LISTING_WORK := Work("list", START.(desired := Listed, version := 2))

  lemma BothRequestsRead() returns (ss: seq<Shop>, es: seq<Event>)
    ensures IsRun(ss, es) && NoCallback(es)
    ensures var tickets := map[0 := Ticket(TO_LIST, START), 1 := Ticket(TO_DELETE, START)];
            ss[|es|] == Shop(State(START, map[], tickets), map[])
  {
    ss, es := [StartingShop()], [];
    var e := Plain(PR.Read(0, TO_LIST));
    ss := RunGrows(ss, es, e);
    es := es + [e];
    e := Plain(PR.Read(1, TO_DELETE));
    ss := RunGrows(ss, es, e);
    es := es + [e];
  }

  /** The first one commits, and its handler loads the product. */
  lemma ListingWaits() returns (ss: seq<Shop>, es: seq<Event>)
    ensures IsRun(ss, es) && NoCallback(es)
    ensures ss[|es|] == Shop(State(LISTING_WORK.seen, map["list" := LISTING], map[1 := Ticket(TO_DELETE, START)]),
                             map[0 := LISTING_WORK])
  {
    ss, es := BothRequestsRead();
    var e := Plain(PR.Write(0));
    ss := RunGrows(ss, es, e);
    es := es + [e];
    e := Begin(0, "list");
    ss := RunGrows(ss, es, e);
    es := es + [e];
  }

  const DELETION := Intent(Act(Delete), Delisted, Deleted, 2, "", map[])

  /** Meanwhile the second one commits, and its handler loads the product. */
  lemma DeletionBegins() returns (ss: seq<Shop>, es: seq<Event>)
    ensures IsRun(ss, es) && NoCallback(es)
    ensures var p := START.(desired := Deleted, version := 2);
            ss[|es|] == Shop(State(p, map["list" := LISTING, "delete" := DELETION], map[]),
                             map[0 := LISTING_WORK, 1 := Work("delete", p)])
  {
    ss, es := ListingWaits();
    var e := Plain(PR.Write(1));
    ss := RunGrows(ss, es, e);
    es := es + [e];
    e := Begin(1, "delete");
    ss := RunGrows(ss, es, e);
    es := es + [e];
  }

  lemma DeletionOvertakesListing() returns (ss: seq<Shop>, es: seq<Event>)
    ensures IsRun(ss, es) && NoCallback(es)
    ensures IsDeleted()(ss[|es|].base.product) && 0 in ss[|es|].working && ss[|es|].working[0] == LISTING_WORK
    ensures "list" in ss[|es|].base.intents && ss[|es|].base.intents["list"] == LISTING
  {
    ss, es := DeletionBegins();
    var e := Finish(1, Returned(None, "", true, true));
    ss := RunGrows(ss, es, e);
    es := es + [e];
  }

  /** Waiting handlers do undelete: the listing returns after the deletion and is stored over it. */
  lemma LateListingUndeletes() returns (ss: seq<Shop>, es: seq<Event>, i: nat)
    ensures IsRun(ss, es) && NoCallback(es) && i < |ss|
    ensures ss[i].base.product.remote == Some(Deleted) && ss[|es|].base.product.remote == Some(Listed)
  {
    ss, es := DeletionOvertakesListing();
    i := |es|;
    var e := Finish(0, Returned(Some(Listed), "", true, true));
    ss := RunGrows(ss, es, e);
    es := es + [e];
  }

  /* ---- Remote ids ---- */

  function HasId(id: string): Product -> bool {
    (p: Product) => p.external == Some(id)
  }

  lemma {:induction false} IdLasts(ss: seq<Shop>, es: seq<Event>, n: nat, id: string)
    requires Follows(ss, es) && n <= |es| && Inv(ss[0])
    requires HasId(id)(ss[0].base.product) && forall w | w in ss[0].working :: !IsLateCreation(ss[0], w)
    ensures HasId(id)(ss[n].base.product) && forall w | w in ss[n].working :: !IsLateCreation(ss[n], w)
  {
    if n > 0 {
      IdLasts(ss, es, n - 1, id);
      RunKeepsInv(ss, es, n - 1);
      var s, e := ss[n - 1], es[n - 1];
      assert Enabled(s, e) && ss[n] == Apply(s, e);
      StepKeepsInv(s, e);
      if e.Finish? { HandlersStore(s, e.w, e.reply); }
      forall w | w in ss[n].working ensures !IsLateCreation(ss[n], w) {
        if w in s.working { assert !IsLateCreation(s, w); }
      }
    }
  }

  /** From any state of a run on, a stored remote id is never replaced if and only if no creation is
      waiting that loaded none: such a creation has called the gateway as well, and stores what that
      returns. */
  lemma RemoteIdStaysExactlyWhen(ss: seq<Shop>, es: seq<Event>, i: nat, id: string)
    requires IsRun(ss, es) && i < |ss| && ss[i].base.product.external == Some(id)
    ensures (forall ts, fs :: !Leaves(ss[i], ts, fs, HasId(id)))
            <==> (forall w | w in ss[i].working :: !IsLateCreation(ss[i], w))
  {
    var s := ss[i];
    RunsStartWell(ss, es, i);
    if w :| w in s.working && IsLateCreation(s, w) {
      var e := Finish(w, Returned(None, id + "x", true, true));
      var ts, fs := [s, Apply(s, e)], [e];
      assert Enabled(ts[0], fs[0]);
      assert Leaves(s, ts, fs, HasId(id));
    } else {
      forall ts, fs ensures !Leaves(s, ts, fs, HasId(id)) {
        if Leaves(s, ts, fs, HasId(id)) { IdLasts(ts, fs, |fs|, id); }
      }
    }
  }
}
