/** Whole runs of the product protocol: commands that read a product and commit some time later,
    overlapping as they like; handler runs of any recorded operation in any order and any number of
    times (the queue may retry, reclaim and replay them); and callbacks
    (backend/poi_admin/local_life/products.py, backend/poi_admin/webhooks/handlers.py). */
module ProductRuns {
  import opened Wrappers
  import opened Products

  /** A command reads the product, and then gives up or commits. */
  datatype Event =
    | Read(c: Caller, request: CommandRequest)
    | Drop(c: Caller)
    | Write(c: Caller)
    | Run(op: OpId, reply: Reply)
    | Callback(status: Option<ProductStatus>)

  predicate Enabled(s: State, e: Event) {
    match e
    case Read(c, r) => IsRequest(r) && c !in s.tickets
    case Drop(c) => c in s.tickets
    case Write(c) => c in s.tickets
    case Run(op, _) => op in s.intents
    case Callback(_) => true
  }

  /** A command goes on exactly if its key is new and its checks pass. A commit whose key was taken
      meanwhile is rolled back. A callback stores the status it brings, or leaves the stored one,
      and bumps the version. */
  function Apply(s: State, e: Event): State
    requires Enabled(s, e)
  {
    match e
    case Read(c, r) =>
      if r.key !in s.intents && CommandCheck(s.product, r, false).Ok?
      then s.(tickets := s.tickets[c := Ticket(r, s.product)]) else s
    case Drop(c) => s.(tickets := s.tickets - {c})
    case Write(c) => (if Commits(s, e) then Commit(s, s.tickets[c]) else s).(tickets := s.tickets - {c})
    case Run(op, reply) => s.(product := Handle(s.product, s.intents[op], reply).product)
    case Callback(status) => s.(product := s.product.(remote := status, version := s.product.version + 1))
  }

  /** The event is a commit that takes effect. */
  predicate Commits(s: State, e: Event) {
    e.Write? && e.c in s.tickets && s.tickets[e.c].request.key !in s.intents
  }

  /** The gateway calls an event makes. */
  function Calls(s: State, e: Event): seq<GatewayCall>
    requires Enabled(s, e)
  {
    if e.Run? then Handle(s.product, s.intents[e.op], e.reply).calls else []
  }

  /** A product that was just submitted for creation. */
  predicate IsNew(p: Product) {
    p.external.None? && !p.linked && p.remote == Some(PendingCreate) && p.desired == UnderReview
  }

  /** A product that exists remotely and has the status it wants, as an imported or seeded one. */
  predicate IsSettled(p: Product) {
    p.external.Some? && p.remote == Some(p.desired)
  }

  ghost predicate Init(s: State) {
    && (IsNew(s.product) || IsSettled(s.product)) && s.product.version == 1 && s.tickets == map[]
    && forall op | op in s.intents :: s.intents[op].CreateIntent?
  }

  ghost predicate IsRun(ss: seq<State>, es: seq<Event>) {
    && |ss| == |es| + 1 && Init(ss[0])
    && forall i {:trigger Enabled(ss[i], es[i])} {:trigger Apply(ss[i], es[i])} | 0 <= i < |es| ::
         Enabled(ss[i], es[i]) && ss[i + 1] == Apply(ss[i], es[i])
  }

  /** A product may start as it is submitted, with any content, and as it was imported, at any status. */
  lemma ProductsMayStart(p: Product, key: OpId, fingerprint: string)
    requires p.version == 1
    requires || (p.external.None? && !p.linked && p.remote == Some(PendingCreate) && p.desired == UnderReview)
             || (p.external.Some? && p.remote.Some? && p.remote.value == p.desired)
    ensures Init(State(p, map[key := CreateIntent(fingerprint)], map[]))
  {
  }

  /** A command that reads and commits without interference does what the service's method does; given
      up in between, it leaves no trace. */
  lemma UninterruptedCommandIs(s: State, c: Caller, r: CommandRequest)
    requires IsRequest(r) && c !in s.tickets
    ensures Enabled(s, Read(c, r))
    ensures var s1 := Apply(s, Read(c, r));
            if r.key in s.intents || CommandCheck(s.product, r, false).Err? then s1 == s == AfterCommand(s, r, false)
            else
              && s1 == s.(tickets := s.tickets[c := Ticket(r, s.product)])
              && Enabled(s1, Write(c)) && Apply(s1, Write(c)) == AfterCommand(s, r, false)
              && Enabled(s1, Drop(c)) && Apply(s1, Drop(c)) == s
  {
    assert s.tickets[c := Ticket(r, s.product)] - {c} == s.tickets;
  }

  /** What the other events do: a commit whose key was taken meanwhile leaves no trace; a handler runs
      for any recorded operation and stores what it returns; a callback may come at any time, stores
      its status and takes the next version. */
  lemma EventsAre(s: State, e: Event)
    ensures e.Read? ==> (Enabled(s, e) ==> IsRequest(e.request) && e.c !in s.tickets)
    ensures e.Write? || e.Drop? ==> (Enabled(s, e) <==> e.c in s.tickets)
    ensures e.Write? && Enabled(s, e) ==>
              Apply(s, e) == (if s.tickets[e.c].request.key in s.intents then s else Commit(s, s.tickets[e.c])).(
                tickets := s.tickets - {e.c})
    ensures e.Run? ==> (Enabled(s, e) <==> e.op in s.intents)
    ensures e.Run? && Enabled(s, e) ==>
              && Apply(s, e) == s.(product := Handle(s.product, s.intents[e.op], e.reply).product)
              && Calls(s, e) == Handle(s.product, s.intents[e.op], e.reply).calls
    ensures !e.Run? && Enabled(s, e) ==> Calls(s, e) == []
    ensures e.Callback? ==>
              && Enabled(s, e) && Apply(s, e).product.remote == e.status
              && Apply(s, e) == s.(product := s.product.(remote := e.status, version := s.product.version + 1))
  {
  }

  /** No callback among events i, ..., j - 1. */
  predicate NoCallback(es: seq<Event>, i: nat, j: nat)
    requires i <= j <= |es|
  {
    forall k | i <= k < j :: !es[k].Callback?
  }

  predicate IsIntent(s: State, op: OpId) {
    op in s.intents && s.intents[op].Intent?
  }

  /** An operation whose recorded version is the product's. */
  predicate IsCurrent(s: State, op: OpId) {
    IsIntent(s, op) && s.intents[op].targetVersion == s.product.version
  }

  /** The handler of the operation would act on the product. */
  predicate IsValid(s: State, op: OpId) {
    IsIntent(s, op) && ValidateIntent(s.product, s.intents[op]).Ok?
  }

  /* ---- What holds whatever overlaps ---- */

  predicate TicketOk(s: State, t: Ticket) {
    && IsRequest(t.request) && t.seen.external.Some? && s.product.external == t.seen.external
    && t.seen.remote == Some(t.seen.desired) && t.seen.desired in AllowedFrom(t.request.command)
    && t.seen.version >= 1
  }

  predicate IntentOk(s: State, i: Intent) {
    i.Intent? ==>
      && !i.command.Create? && 1 < i.targetVersion && s.product.external.Some?
      && i.source in AllowedFrom(i.command) && i.target == TargetOf(i.command, i.source)
  }

  ghost predicate Inv(s: State) {
    && s.product.version >= 1
    && (forall c | c in s.tickets :: TicketOk(s, s.tickets[c]))
    && (forall op | op in s.intents :: IntentOk(s, s.intents[op]))
  }

  /** Running a handler can only move the product to its intent's target, and only if the intent
      still validates. */
  lemma HandlerEffect(s: State, op: OpId, reply: Reply)
    requires Inv(s) && IsIntent(s, op)
    ensures var i, r := s.intents[op], Handle(s.product, s.intents[op], reply);
            && (r.product == s.product || (IsValid(s, op) && r.product == s.product.(remote := Some(i.target))))
            && (IsValid(s, op) ==> IsCurrent(s, op))
            && (r.calls != [] ==> IsValid(s, op))
            && (r.result.Done? ==> IsValid(s, op) && r.product.remote == Some(i.target))
            && (!IsValid(s, op) ==> r.result.Rejected?)
  {
    assert IntentOk(s, s.intents[op]);
  }

  lemma StepKeepsInv(s: State, e: Event)
    requires Inv(s) && Enabled(s, e)
    ensures Inv(Apply(s, e))
    ensures forall op | op in s.intents :: op in Apply(s, e).intents && Apply(s, e).intents[op] == s.intents[op]
    ensures s.product.external.Some? ==>
              Apply(s, e).product.external == s.product.external && Apply(s, e).product.linked == s.product.linked
  {
    var s' := Apply(s, e);
    forall c | c in s'.tickets ensures TicketOk(s', s'.tickets[c]) {
      if c in s.tickets { assert TicketOk(s, s.tickets[c]); }
    }
    forall op | op in s'.intents ensures IntentOk(s', s'.intents[op]) {
      if op in s.intents { assert IntentOk(s, s.intents[op]); }
      if e.Write? { assert TicketOk(s, s.tickets[e.c]); }
    }
  }

  lemma {:induction false} RunKeepsInv(ss: seq<State>, es: seq<Event>, i: nat)
    requires IsRun(ss, es) && i < |ss|
    ensures Inv(ss[i])
  {
    if i > 0 {
      RunKeepsInv(ss, es, i - 1);
      StepKeepsInv(ss[i - 1], es[i - 1]);
    }
  }

  /** Recorded intents are never changed or removed. */
  lemma {:induction false} IntentsStay(ss: seq<State>, es: seq<Event>, i: nat, j: nat, op: OpId)
    requires IsRun(ss, es) && i <= j < |ss| && op in ss[i].intents
    ensures op in ss[j].intents && ss[j].intents[op] == ss[i].intents[op]
    decreases j
  {
    if i < j {
      IntentsStay(ss, es, i, j - 1, op);
      assert Enabled(ss[j - 1], es[j - 1]) && ss[j] == Apply(ss[j - 1], es[j - 1]);
      RunKeepsInv(ss, es, j - 1);
      StepKeepsInv(ss[j - 1], es[j - 1]);
    }
  }

  /** An update or action whose version is no longer the product's, however often it is run, calls
      no gateway, fails, and changes nothing. */
  lemma StaleCommandIsInert(ss: seq<State>, es: seq<Event>, i: nat)
    requires IsRun(ss, es) && i < |es| && es[i].Run?
    requires IsIntent(ss[i], es[i].op) && !IsCurrent(ss[i], es[i].op)
    ensures ss[i + 1] == ss[i] && es[i].op in ss[i].intents && Calls(ss[i], es[i]) == []
    ensures Handle(ss[i].product, ss[i].intents[es[i].op], es[i].reply).result.Rejected?
  {
    assert Enabled(ss[i], es[i]) && ss[i + 1] == Apply(ss[i], es[i]);
    RunKeepsInv(ss, es, i);
    HandlerEffect(ss[i], es[i].op, es[i].reply);
  }

  /** The remote product is created only while no remote id is stored; every other gateway call
      comes from a current operation, carries out its command, and an update sends the content of
      the row. (For whether that is the content recorded with the operation, see
      UpdatesSendTheirOwnContent.) */
  lemma GatewayCallsComeFromACurrentIntent(ss: seq<State>, es: seq<Event>, i: nat, call: GatewayCall)
    requires IsRun(ss, es) && i < |es| && Enabled(ss[i], es[i]) && call in Calls(ss[i], es[i])
    ensures es[i].Run? && Calls(ss[i], es[i]) == [call]
    ensures call.CreateCall? ==> ss[i].product.external.None?
    ensures !call.CreateCall? ==> IsCurrent(ss[i], es[i].op) && ss[i].product.external.Some?
    ensures call.UpdateCall? ==>
              && call.content == ss[i].product.content
              && ss[i].intents[es[i].op].command == (if call.auditFree then AuditFreeUpdate else Update)
    ensures call.ActionCall? ==> ss[i].intents[es[i].op].command == Act(call.action)
  {
    RunKeepsInv(ss, es, i);
    assert IntentOk(ss[i], ss[i].intents[es[i].op]);
  }

  /** Once a remote id is stored it never changes, so the product is never created again. */
  lemma {:induction false} CreatedOnce(ss: seq<State>, es: seq<Event>, i: nat, j: nat)
    requires IsRun(ss, es) && i <= j < |ss| && ss[i].product.external.Some?
    ensures ss[j].product.external == ss[i].product.external
    ensures ss[j].product.linked == ss[i].product.linked
    decreases j
  {
    if i < j {
      CreatedOnce(ss, es, i, j - 1);
      assert Enabled(ss[j - 1], es[j - 1]) && ss[j] == Apply(ss[j - 1], es[j - 1]);
      RunKeepsInv(ss, es, j - 1);
      StepKeepsInv(ss[j - 1], es[j - 1]);
    }
  }

  /** Before its creation is answered a product wants to be under review and has no commands. */
  lemma {:induction false} UncreatedProduct(ss: seq<State>, es: seq<Event>, i: nat)
    requires IsRun(ss, es) && i < |ss| && ss[i].product.external.None?
    ensures ss[i].product.desired == UnderReview && !ss[i].product.linked && ss[i].tickets == map[]
    ensures forall op | op in ss[i].intents :: ss[i].intents[op].CreateIntent?
  {
    RunKeepsInv(ss, es, i);
    assert forall op | op in ss[i].intents :: IntentOk(ss[i], ss[i].intents[op]);
    assert ss[i].tickets == map[] by {
      assert forall c | c in ss[i].tickets :: TicketOk(ss[i], ss[i].tickets[c]);
    }
    if i > 0 {
      assert Enabled(ss[i - 1], es[i - 1]) && ss[i] == Apply(ss[i - 1], es[i - 1]);
      RunKeepsInv(ss, es, i - 1);
      StepKeepsInv(ss[i - 1], es[i - 1]);
      UncreatedProduct(ss, es, i - 1);
    }
  }

  /** From the reply that first stored a remote id on, a creation that is run again is done exactly
      if that reply had a known status. */
  lemma CreationIsDoneExactlyAfterAKnownStatus(ss: seq<State>, es: seq<Event>, i: nat, j: nat, reply: Reply)
    requires IsRun(ss, es) && i < j < |ss|
    requires ss[i].product.external.None? && ss[i + 1].product.external.Some?
    ensures es[i].Run?
    ensures ApplyCreate(ss[j].product, reply).result == Done <==> es[i].reply.Returned? && es[i].reply.status.Some?
  {
    UncreatedProduct(ss, es, i);
    assert Enabled(ss[i], es[i]) && ss[i + 1] == Apply(ss[i], es[i]);
    CreatedOnce(ss, es, i + 1, j);
  }

  /** A creation answered with an unknown status leaves a product that stays unusable until a
      callback arrives: its remote id is stored, so it is not created again, but its SKUs have
      none, so every retry of the creation fails, and every command is refused. */
  lemma {:induction false} UnknownStatusStrandsCreation(ss: seq<State>, es: seq<Event>, i: nat, j: nat)
    requires IsRun(ss, es) && i < j < |ss| && NoCallback(es, i, j)
    requires es[i].Run? && es[i].op in ss[i].intents && ss[i].intents[es[i].op].CreateIntent?
    requires ss[i].product.external.None? && ss[i].product.remote == Some(PendingCreate)
    requires es[i].reply.Returned? && es[i].reply.skusOk && es[i].reply.idsFree && es[i].reply.status.None?
    ensures ss[j].product == ss[i].product.(external := Some(es[i].reply.external))
    ensures ss[j].intents == ss[i].intents && ss[j].tickets == map[]
    ensures forall reply :: ApplyCreate(ss[j].product, reply) == HandlerRun(ss[j].product, [], Rejected(SkuMismatch))
    ensures forall r: CommandRequest, pending: bool ::
              CommandCheck(ss[j].product, r, pending) == Err(if pending then OperationPending else StatePending)
    decreases j
  {
    UncreatedProduct(ss, es, i);
    assert Enabled(ss[j - 1], es[j - 1]) && ss[j] == Apply(ss[j - 1], es[j - 1]);
    if i + 1 < j {
      UnknownStatusStrandsCreation(ss, es, i, j - 1);
    }
  }

  /* ---- Lifecycle, whatever overlaps ---- */

  /** One entry of the transition tables: the command may start at `a` and leads to `b`. */
  predicate Edge(a: ProductStatus, b: ProductStatus) {
    || (a in AllowedFrom(Update) && b == TargetOf(Update, a))
    || (a in AllowedFrom(AuditFreeUpdate) && b == TargetOf(AuditFreeUpdate, a))
    || exists action: Action :: a in AllowedFrom(Act(action)) && b == ActionTarget(action)
  }

  /** After creation, every event but a callback keeps the local status or moves it along the
      tables. */
  lemma StatusMovesAlongTheTables(ss: seq<State>, es: seq<Event>, i: nat)
    requires IsRun(ss, es) && i < |es| && !es[i].Callback? && ss[i].product.external.Some?
    ensures ss[i + 1].product.remote == ss[i].product.remote
            || (ss[i].product.remote.Some? && ss[i + 1].product.remote.Some?
                && Edge(ss[i].product.remote.value, ss[i + 1].product.remote.value))
  {
    var s, e := ss[i], es[i];
    assert Enabled(s, e) && ss[i + 1] == Apply(s, e);
    RunKeepsInv(ss, es, i);
    if e.Run? && s.intents[e.op].Intent? {
      HandlerEffect(s, e.op, e.reply);
      assert IntentOk(s, s.intents[e.op]);
      var intent := s.intents[e.op];
      if ss[i + 1].product.remote != s.product.remote {
        assert s.product.remote == Some(intent.source);
        if intent.command.Act? { assert intent.source in AllowedFrom(Act(intent.command.action)); }
      }
    }
  }

  lemma EdgesAroundListedAndDeleted(a: ProductStatus, b: ProductStatus)
    requires Edge(a, b)
    ensures a != Deleted
    ensures a == Listed ==> b == Listed || b == Delisted
  {
  }

  /** Deleted is final without callbacks, whatever is retried and whatever overlaps. */
  lemma {:induction false} DeletedIsFinal(ss: seq<State>, es: seq<Event>, i: nat, j: nat)
    requires IsRun(ss, es) && i <= j < |ss| && NoCallback(es, i, j)
    requires ss[i].product.external.Some? && ss[i].product.remote == Some(Deleted)
    ensures ss[j].product.remote == Some(Deleted)
    decreases j
  {
    if i < j {
      DeletedIsFinal(ss, es, i, j - 1);
      CreatedOnce(ss, es, i, j - 1);
      StatusMovesAlongTheTables(ss, es, j - 1);
      if ss[j].product.remote != Some(Deleted) {
        EdgesAroundListedAndDeleted(Deleted, ss[j].product.remote.value);
      }
    }
  }

  /** No callback-free run goes from listed to deleted without passing through delisted. */
  lemma {:induction false} ListedReachesDeletedThroughDelisted(ss: seq<State>, es: seq<Event>, i: nat, j: nat)
    returns (k: nat)
    requires IsRun(ss, es) && i <= j < |ss| && NoCallback(es, i, j)
    requires ss[i].product.external.Some? && ss[i].product.remote == Some(Listed)
    requires ss[j].product.remote != Some(Listed)
    ensures i < k <= j && ss[k].product.remote == Some(Delisted)
    decreases j - i
  {
    StatusMovesAlongTheTables(ss, es, i);
    CreatedOnce(ss, es, i, i + 1);
    if ss[i + 1].product.remote == Some(Listed) {
      k := ListedReachesDeletedThroughDelisted(ss, es, i + 1, j);
    } else {
      EdgesAroundListedAndDeleted(Listed, ss[i + 1].product.remote.value);
      k := i + 1;
    }
  }

  /** The events by which an action is submitted and carried out without interference. */
  function ActionEvents(key: OpId, a: Action): seq<Event> {
    [Read(0, CommandRequest(key, Act(a), None, None, "")), Write(0),
     Run(key, Returned(Some(ActionTarget(a)), "", true, true))]
  }

  /** Every action its table allows can be carried out from a settled product, which then is settled
      at the action's target. */
  lemma ActionsAreCarriedOut(s: State, key: OpId, a: Action) returns (s1: State, s2: State, s3: State)
    requires IsSettled(s.product) && s.product.desired in AllowedFrom(Act(a)) && key !in s.intents && s.tickets == map[]
    ensures var es := ActionEvents(key, a);
            && Enabled(s, es[0]) && s1 == Apply(s, es[0])
            && Enabled(s1, es[1]) && s2 == Apply(s1, es[1])
            && Enabled(s2, es[2]) && s3 == Apply(s2, es[2])
    ensures IsSettled(s3.product) && s3.product.desired == ActionTarget(a) && s3.tickets == map[]
    ensures s3.intents.Keys == s.intents.Keys + {key}
  {
    var es := ActionEvents(key, a);
    s1 := Apply(s, es[0]);
    s2 := Apply(s1, es[1]);
    s3 := Apply(s2, es[2]);
  }

  lemma RunGrows(ss: seq<State>, es: seq<Event>, e: Event) returns (ss': seq<State>)
    requires IsRun(ss, es) && Enabled(ss[|es|], e)
    ensures ss' == ss + [Apply(ss[|es|], e)] && IsRun(ss', es + [e])
  {
    ss' := ss + [Apply(ss[|es|], e)];
    forall i | 0 <= i < |es| + 1 ensures Enabled(ss'[i], (es + [e])[i]) && ss'[i + 1] == Apply(ss'[i], (es + [e])[i]) {
      if i < |es| { assert Enabled(ss[i], es[i]); }
    }
  }

  lemma ActionExtendsRun(ss: seq<State>, es: seq<Event>, key: OpId, a: Action)
    returns (ss': seq<State>, es': seq<Event>)
    requires IsRun(ss, es) && NoCallback(es, 0, |es|)
    requires IsSettled(ss[|es|].product) && ss[|es|].product.desired in AllowedFrom(Act(a))
    requires key !in ss[|es|].intents && ss[|es|].tickets == map[]
    ensures IsRun(ss', es') && NoCallback(es', 0, |es'|) && ss <= ss'
    ensures IsSettled(ss'[|es'|].product) && ss'[|es'|].product.desired == ActionTarget(a)
    ensures ss'[|es'|].tickets == map[] && ss'[|es'|].intents.Keys == ss[|es|].intents.Keys + {key}
  {
    var s1, s2, s3 := ActionsAreCarriedOut(ss[|es|], key, a);
    var xs := ActionEvents(key, a);
    var ss1 := RunGrows(ss, es, xs[0]);
    var ss2 := RunGrows(ss1, es + [xs[0]], xs[1]);
    ss' := RunGrows(ss2, es + [xs[0]] + [xs[1]], xs[2]);
    es' := es + [xs[0]] + [xs[1]] + [xs[2]];
  }

  /** Runs from listed to deleted exist: one that delists the product first. */
  lemma ListedProductsCanBeDeleted() returns (ss: seq<State>, es: seq<Event>)
    ensures IsRun(ss, es) && NoCallback(es, 0, |es|)
    ensures ss[0].product.external.Some? && ss[0].product.remote == Some(Listed)
    ensures ss[|es|].product.remote == Some(Deleted)
  {
    var s := State(Product(Some("id"), true, Some(Listed), Listed, 1, map[]), map[], map[]);
    ss, es := [s], [];
    ss, es := ActionExtendsRun(ss, es, "a", Delist);
    ss, es := ActionExtendsRun(ss, es, "b", Delete);
  }

  /* ---- Products that are never listed ---- */

  const LISTABLE := {Approved, Listed, Delisted}

  predicate IsListing(c: Command) {
    c == Act(List) || c == Act(Delist) || c == AuditFreeUpdate
  }

  predicate IntentIsUnlisted(i: Intent) {
    i.Intent? ==> i.target !in LISTABLE
  }

  /** The product wants none of the statuses from which it could be listed, and nothing under way or
      recorded leads to one. */
  ghost predicate Unlisted(s: State) {
    && s.product.desired !in LISTABLE
    && (forall op | op in s.intents :: IntentIsUnlisted(s.intents[op]))
    && (forall c | c in s.tickets :: TargetFor(s.tickets[c]) !in LISTABLE)
  }

  lemma StepKeepsUnlisted(s: State, e: Event)
    requires Inv(s) && Unlisted(s) && Enabled(s, e)
    ensures Unlisted(Apply(s, e))
  {
    if e.Run? && s.intents[e.op].Intent? {
      HandlerEffect(s, e.op, e.reply);
      assert IntentIsUnlisted(s.intents[e.op]);
    }
  }

  lemma {:induction false} RunKeepsUnlisted(ss: seq<State>, es: seq<Event>, i: nat)
    requires IsRun(ss, es) && i < |ss| && ss[0].product.desired !in LISTABLE
    ensures Unlisted(ss[i])
  {
    if i > 0 {
      RunKeepsUnlisted(ss, es, i - 1);
      RunKeepsInv(ss, es, i - 1);
      assert Enabled(ss[i - 1], es[i - 1]) && ss[i] == Apply(ss[i - 1], es[i - 1]);
      StepKeepsUnlisted(ss[i - 1], es[i - 1]);
    }
  }

  /** Some run from s accepts the command in some state. */
  ghost predicate IsAccepted(s: State, ss: seq<State>, es: seq<Event>, i: nat, r: CommandRequest, pending: bool) {
    IsRun(ss, es) && ss[0] == s && i < |ss| && IsRequest(r) && CommandCheck(ss[i].product, r, pending).Ok?
  }

  /** Whatever is submitted, retried, overlaps or called back: listing, delisting and audit-free
      updates are accepted in some run of a product if and only if it wants to be approved, listed or
      delisted at the start. A product that starts with its creation never does, since callbacks
      leave the desired state alone and no command leads to `approved`. */
  lemma ListingNeedsAListableStart(s: State)
    requires Init(s)
    ensures (exists ss, es, i: nat, r, pending :: IsAccepted(s, ss, es, i, r, pending) && IsListing(r.command))
            <==> s.product.desired in LISTABLE
    ensures IsNew(s.product) ==> s.product.desired !in LISTABLE
  {
    if s.product.desired in LISTABLE {
      var r := CommandRequest("", AuditFreeUpdate, Some(1), Some(map[]), "");
      assert IsAccepted(s, [s], [], 0, r, false);
    } else {
      forall ss, es, i: nat, r, pending | IsAccepted(s, ss, es, i, r, pending) ensures !IsListing(r.command) {
        RunKeepsUnlisted(ss, es, i);
      }
    }
  }

  /* ---- Finished commands ---- */

  /** The operation reached its target, or does not validate. */
  predicate Spent(s: State, op: OpId) {
    IsIntent(s, op) && (IsValid(s, op) ==> s.product.remote == Some(s.intents[op].target))
  }

  /** The event stores the operation's version again over its desired state, while the product is
      back where the operation started. */
  predicate Revives(s: State, e: Event, op: OpId) {
    && IsIntent(s, op) && s.intents[op].source != s.intents[op].target
    && (|| (Commits(s, e) && s.tickets[e.c].seen.version + 1 == s.intents[op].targetVersion
            && DesiredAfter(s.product, s.tickets[e.c]) == s.intents[op].target
            && s.product.remote == Some(s.intents[op].source))
        || (e.Callback? && s.product.version + 1 == s.intents[op].targetVersion
            && s.product.desired == s.intents[op].target && e.status == Some(s.intents[op].source)))
  }

  lemma SpentStep(s: State, e: Event, op: OpId)
    requires Inv(s) && Enabled(s, e) && Spent(s, op)
    ensures Spent(Apply(s, e), op) <==> !Revives(s, e, op)
  {
    assert IntentOk(s, s.intents[op]);
    StepKeepsInv(s, e);
    if e.Run? && s.intents[e.op].Intent? { HandlerEffect(s, e.op, e.reply); }
  }

  /** A spent operation stays spent exactly until an event revives it. */
  lemma {:induction false} SpentExactlyUntilRevived(ss: seq<State>, es: seq<Event>, i: nat, n: nat, op: OpId)
    requires IsRun(ss, es) && i <= n < |ss| && Spent(ss[i], op)
    ensures (forall j | i <= j <= n :: Spent(ss[j], op)) <==> (forall k | i <= k < n :: !Revives(ss[k], es[k], op))
    decreases n
  {
    if i < n {
      SpentExactlyUntilRevived(ss, es, i, n - 1, op);
      assert Enabled(ss[n - 1], es[n - 1]) && ss[n] == Apply(ss[n - 1], es[n - 1]);
      RunKeepsInv(ss, es, n - 1);
      if Spent(ss[n - 1], op) { SpentStep(ss[n - 1], es[n - 1], op); }
    }
  }

  /** After a run of its handler that finished, later runs of an operation make no gateway call and
      change nothing, as long as no event revives it. The audit-free update is the exception: as
      long as it validates, each run sends the content again. */
  lemma FinishedCommandsActOnce(ss: seq<State>, es: seq<Event>, i: nat, j: nat, op: OpId)
    requires IsRun(ss, es) && i < j < |es| && es[i].Run? && es[j].Run? && es[i].op == es[j].op == op
    requires IsIntent(ss[i], op) && Handle(ss[i].product, ss[i].intents[op], es[i].reply).result == Done
    requires forall k | i < k < j :: !Revives(ss[k], es[k], op)
    ensures op in ss[j].intents && ss[j].intents[op] == ss[i].intents[op] && Enabled(ss[j], es[j])
    ensures Calls(ss[j], es[j]) != [] <==> ss[i].intents[op].command.AuditFreeUpdate? && IsValid(ss[j], op)
    ensures ss[j + 1].product == ss[j].product
  {
    assert Enabled(ss[i], es[i]) && ss[i + 1] == Apply(ss[i], es[i]);
    assert Enabled(ss[j], es[j]) && ss[j + 1] == Apply(ss[j], es[j]);
    RunKeepsInv(ss, es, i);
    HandlerEffect(ss[i], op, es[i].reply);
    IntentsStay(ss, es, i, j, op);
    SpentExactlyUntilRevived(ss, es, i + 1, j, op);
    assert Spent(ss[j], op);
    RunKeepsInv(ss, es, j);
    HandlerEffect(ss[j], op, es[j].reply);
    assert IntentOk(ss[j], ss[j].intents[op]);
  }
}
