/** Versioned product intents: what a command records and what its handler does with it later
    (backend/poi_admin/local_life/products.py). One product; its operations are named by their
    idempotency keys. */
module Products {
  import opened Wrappers

  type OpId = string
  type Caller = nat
  /** The descriptive fields of a product, as they are sent to the gateway. */
  type Content = map<string, string>

  datatype ProductStatus = PendingCreate | UnderReview | Draft | Approved | Listed | Delisted | Deleted
  datatype Action = CancelAudit | List | Delist | Delete
  datatype Command = Create | Update | AuditFreeUpdate | Act(action: Action)

  /** `remote` is None when the stored string is not a known status; `linked` says that every SKU
      has its remote id. */
  datatype Product = Product(
    external: Option<string>,
    linked: bool,
    remote: Option<ProductStatus>,
    desired: ProductStatus,
    version: int,
    content: Content)

  /** What a command records with its operation. `recorded` is the content the product had when
      the command was committed; the stored payload does not hold it, and no handler reads it. */
  datatype Intent =
    | CreateIntent(fingerprint: string)
    | Intent(command: Command, source: ProductStatus, target: ProductStatus, targetVersion: int,
             fingerprint: string, recorded: Content)

  /** A request under way: it passed its checks on the row `seen`, and has not committed yet. */
  datatype Ticket = Ticket(request: CommandRequest, seen: Product)

  datatype State = State(product: Product, intents: map<OpId, Intent>, tickets: map<Caller, Ticket>)

  /* ---- Transition tables ---- */

  function ActionTarget(a: Action): ProductStatus {
    match a
    case CancelAudit => Draft
    case List => Listed
    case Delist => Delisted
    case Delete => Deleted
  }

  function AllowedFrom(c: Command): set<ProductStatus> {
    match c
    case Create => {}
    case Update => {Draft, Approved, Delisted}
    case AuditFreeUpdate => {Approved, Listed, Delisted}
    case Act(CancelAudit) => {UnderReview}
    case Act(List) => {Approved, Delisted}
    case Act(Delist) => {Listed}
    case Act(Delete) => {Draft, Approved, Delisted}
  }

  function TargetOf(c: Command, current: ProductStatus): ProductStatus {
    match c
    case Create => current
    case Update => UnderReview
    case AuditFreeUpdate => current
    case Act(a) => ActionTarget(a)
  }

  /* ---- Commands ---- */

  datatype CommandError =
    | KeyConflict | NotReady | OperationPending | InvalidStatus | StatePending
    | InvalidTransition | VersionConflict

  /** `version` is the version the caller has seen; actions do not send one. `content` holds
      the fields an update sets; actions set none. */
  datatype CommandRequest = CommandRequest(
    key: OpId, command: Command, version: Option<int>, content: Option<Content>, fingerprint: string)

  predicate IsRequest(r: CommandRequest) {
    !r.command.Create? && (r.command.Act? <==> r.version.None?) && (r.command.Act? <==> r.content.None?)
  }

  /** The checks of a command whose key is new; `pending` says whether the queue holds an
      unfinished operation for the product. */
  function CommandCheck(p: Product, r: CommandRequest, pending: bool): Result<ProductStatus, CommandError> {
    if p.external.None? then Err(NotReady)
    else if pending then Err(OperationPending)
    else if p.remote.None? then Err(InvalidStatus)
    else if p.remote.value != p.desired then Err(StatePending)
    else if p.desired !in AllowedFrom(r.command) then Err(InvalidTransition)
    else if r.version.Some? && r.version.value != p.version then Err(VersionConflict)
    else Ok(p.desired)
  }

  /** A repeated key returns its operation only for the same command, and for an update only for
      the same request body. */
  predicate SameCommand(i: Intent, r: CommandRequest) {
    i.Intent? && i.command == r.command && (r.command.Act? || i.fingerprint == r.fingerprint)
  }

  function CommandResult(s: State, r: CommandRequest, pending: bool): Result<OpId, CommandError> {
    if r.key in s.intents then
      if SameCommand(s.intents[r.key], r) then Ok(r.key) else Err(KeyConflict)
    else
      match CommandCheck(s.product, r, pending)
      case Ok(_) => Ok(r.key)
      case Err(e) => Err(e)
  }

  /** The fields a commit writes: those set to another value than the one read. */
  function Changed(t: Ticket): Content {
    if t.request.content.None? then map[]
    else map k | k in t.request.content.value
                 && (k !in t.seen.content || t.seen.content[k] != t.request.content.value[k]) ::
           t.request.content.value[k]
  }

  function TargetFor(t: Ticket): ProductStatus {
    TargetOf(t.request.command, t.seen.desired)
  }

  /** The intent a ticket records: everything in it comes from the row that was read. */
  function IntentFor(t: Ticket): Intent {
    Intent(t.request.command, t.seen.desired, TargetFor(t), t.seen.version + 1, t.request.fingerprint,
           t.seen.content + Changed(t))
  }

  /** The desired state a commit leaves. The column is written only if it changes the row read. */
  function DesiredAfter(p: Product, t: Ticket): ProductStatus {
    if TargetFor(t) != t.seen.desired then TargetFor(t) else p.desired
  }

  /** A commit updates the row by the changed columns alone and sets the version to the one read
      plus one; nothing compares the stored row with the one read. */
  function Commit(s: State, t: Ticket): State {
    s.(product := s.product.(content := s.product.content + Changed(t), desired := DesiredAfter(s.product, t),
                             version := t.seen.version + 1),
       intents := s.intents[t.request.key := IntentFor(t)])
  }

  /** A command without interference. */
  function AfterCommand(s: State, r: CommandRequest, pending: bool): State {
    if r.key !in s.intents && CommandCheck(s.product, r, pending).Ok? then Commit(s, Ticket(r, s.product)) else s
  }

  /* ---- Handlers ---- */

  /** What one gateway call comes back with. For the creation call: the remote id, whether the
      remote SKU ids pass the handler's checks, and whether no other product has these ids. */
  datatype Reply =
    | Returned(status: Option<ProductStatus>, external: string, skusOk: bool, idsFree: bool)
    | Raised(terminal: bool, code: string)

  datatype GatewayCall =
    | CreateCall(content: Content)
    | UpdateCall(content: Content, auditFree: bool)
    | ActionCall(action: Action)

  datatype HandlerError =
    | IntentChanged | StateChanged | UnknownStatus | InvalidPayload | MissingExternal
    | TargetNotReached | SkuMismatch | IdentifierConflict | Gateway(code: string)

  datatype HandlerResult = Done | Rejected(error: HandlerError)

  datatype HandlerRun = HandlerRun(product: Product, calls: seq<GatewayCall>, result: HandlerResult)

  /** The stored product still is the one the intent was recorded for. */
  function ValidateIntent(p: Product, i: Intent): Result<ProductStatus, HandlerError>
    requires i.Intent?
  {
    if p.remote.None? then Err(UnknownStatus)
    else if p.version != i.targetVersion || p.desired != i.target then Err(IntentChanged)
    else if p.remote.value != i.source && p.remote.value != i.target then Err(StateChanged)
    else Ok(p.remote.value)
  }

  function ApplyUpdate(p: Product, i: Intent, reply: Reply): HandlerRun
    requires i.Intent?
  {
    match ValidateIntent(p, i)
    case Err(e) => HandlerRun(p, [], Rejected(e))
    case Ok(current) =>
      var auditFree := i.command.AuditFreeUpdate?;
      if !auditFree && current == i.target then HandlerRun(p, [], Done)
      else if p.external.None? then HandlerRun(p, [], Rejected(MissingExternal))
      else
        var calls := [UpdateCall(p.content, auditFree)];
        match reply
        case Raised(_, code) => HandlerRun(p, calls, Rejected(Gateway(code)))
        case Returned(status, _, _, _) =>
          if status.None? then HandlerRun(p, calls, Rejected(UnknownStatus))
          else if status.value != i.target then HandlerRun(p, calls, Rejected(TargetNotReached))
          else HandlerRun(p.(remote := status, desired := status.value), calls, Done)
  }

  const NOT_FOUND := "product_not_found"

  function ApplyAction(p: Product, i: Intent, reply: Reply): HandlerRun
    requires i.Intent? && i.command.Act?
  {
    var a := i.command.action;
    match ValidateIntent(p, i)
    case Err(e) => HandlerRun(p, [], Rejected(e))
    case Ok(current) =>
      if i.target != ActionTarget(a) then HandlerRun(p, [], Rejected(InvalidPayload))
      else if current == i.target then HandlerRun(p, [], Done)
      else if p.external.None? then HandlerRun(p, [], Rejected(MissingExternal))
      else
        var calls := [ActionCall(a)];
        if a.Delete? then
          if reply.Raised? && !(reply.terminal && reply.code == NOT_FOUND)
          then HandlerRun(p, calls, Rejected(Gateway(reply.code)))
          else HandlerRun(p.(remote := Some(Deleted), desired := Deleted), calls, Done)
        else
          match reply
          case Raised(_, code) => HandlerRun(p, calls, Rejected(Gateway(code)))
          case Returned(status, _, _, _) =>
            if status.None? then HandlerRun(p, calls, Rejected(UnknownStatus))
            else if status.value != i.target then HandlerRun(p, calls, Rejected(TargetNotReached))
            else HandlerRun(p.(remote := status, desired := status.value), calls, Done)
  }

  /** The remote half of product creation. A reply with an unknown status raises after the remote
      id was assigned to the loaded product; the failure is then recorded, and committed, on the
      same session, so the id is stored although the handler failed, unless another product has
      it. */
  function ApplyCreate(p: Product, reply: Reply): HandlerRun {
    if p.external.Some? then HandlerRun(p, [], if p.linked then Done else Rejected(SkuMismatch))
    else
      var calls := [CreateCall(p.content)];
      match reply
      case Raised(_, code) => HandlerRun(p, calls, Rejected(Gateway(code)))
      case Returned(status, external, skusOk, idsFree) =>
        if !skusOk then HandlerRun(p, calls, Rejected(SkuMismatch))
        else if status.None? then
          HandlerRun(if idsFree then p.(external := Some(external)) else p, calls, Rejected(UnknownStatus))
        else if !idsFree then HandlerRun(p, calls, Rejected(IdentifierConflict))
        else HandlerRun(p.(external := Some(external), linked := true, remote := status), calls, Done)
  }

  function Handle(p: Product, i: Intent, reply: Reply): HandlerRun {
    if i.CreateIntent? || i.command.Create? then ApplyCreate(p, reply)
    else if i.command.Act? then ApplyAction(p, i, reply)
    else ApplyUpdate(p, i, reply)
  }

  /** The reply that strands a creation. */
  predicate IsUnknownCreation(i: Intent, p: Product, reply: Reply) {
    && (i.CreateIntent? || i.command.Create?) && p.external.None?
    && reply.Returned? && reply.skusOk && reply.idsFree && reply.status.None?
  }

  /** A handler calls the gateway at most once and never touches version or content. One that is
      rejected changes nothing, but for the creation with an unknown status; an update or action
      that is done leaves the product settled at its target; a creation that is done leaves it
      linked. */
  lemma HandlerOutcome(p: Product, i: Intent, reply: Reply)
    ensures var r := Handle(p, i, reply);
            && |r.calls| <= 1
            && r.product.version == p.version && r.product.content == p.content
            && (r.result.Rejected? && r.product != p <==> IsUnknownCreation(i, p, reply))
            && (r.result.Done? && i.Intent? && !i.command.Create? ==>
                  r.product.remote == Some(i.target) && r.product.desired == i.target
                  && p.version == i.targetVersion && p.desired == i.target)
            && (r.result.Done? && (i.CreateIntent? || i.command.Create?) ==>
                  r.product.linked && r.product.external.Some?)
  {
  }

  /* ---- From a command to its gateway call ---- */

  /** Which commands a settled product takes, by its status. */
  function CommandsIn(status: ProductStatus): set<Command> {
    match status
    case UnderReview => {Act(CancelAudit)}
    case Draft => {Update, Act(Delete)}
    case Approved => {Update, AuditFreeUpdate, Act(List), Act(Delete)}
    case Listed => {AuditFreeUpdate, Act(Delist)}
    case Delisted => {Update, AuditFreeUpdate, Act(List), Act(Delete)}
    case PendingCreate => {}
    case Deleted => {}
  }

  /** A command with a new key is accepted exactly for a created, idle product that is settled in a
      status that takes it, at the version its caller saw; otherwise the first failed check names the
      error. */
  lemma AcceptanceIs(p: Product, r: CommandRequest, pending: bool)
    ensures var check := CommandCheck(p, r, pending);
            var settled := p.external.Some? && !pending && p.remote == Some(p.desired);
            && (check == Ok(p.desired) <==>
                  settled && r.command in CommandsIn(p.desired) && (r.version == None || r.version == Some(p.version)))
            && (check.Ok? ==> check.value == p.desired)
            && (check == Err(NotReady) <==> p.external.None?)
            && (check == Err(OperationPending) <==> p.external.Some? && pending)
            && (check == Err(InvalidStatus) <==> p.external.Some? && !pending && p.remote.None?)
            && (check == Err(StatePending) <==>
                  p.external.Some? && !pending && p.remote.Some? && p.remote.value != p.desired)
            && (check == Err(InvalidTransition) <==> settled && r.command !in CommandsIn(p.desired))
            && (check == Err(VersionConflict) <==>
                  settled && r.command in CommandsIn(p.desired) && r.version.Some? && r.version.value != p.version)
  {
  }

  /** A known key returns its operation exactly to the same command, with the same body in the case of
      an update, and is a conflict for any other. */
  lemma KnownKeyIsAnswered(s: State, r: CommandRequest, pending: bool)
    requires r.key in s.intents
    ensures AfterCommand(s, r, pending) == s
    ensures var i := s.intents[r.key];
            var same := i.Intent? && i.command == r.command && (!r.command.Act? ==> i.fingerprint == r.fingerprint);
            CommandResult(s, r, pending) == if same then Ok(r.key) else Err(KeyConflict)
  {
  }

  /** What a command wants: an update another audit, an audit-free one the status it finds, and an
      action its target. */
  predicate Wants(c: Command, before: ProductStatus, after: ProductStatus) {
    match c
    case Update => after == UnderReview
    case AuditFreeUpdate => after == before
    case Act(CancelAudit) => after == Draft
    case Act(List) => after == Listed
    case Act(Delist) => after == Delisted
    case Act(Delete) => after == Deleted
    case Create => false
  }

  /** An accepted command stores what it wants, its content and the next version, records them with its
      operation, and leaves everything else; a refused one changes nothing. */
  lemma CommandIsRecorded(s: State, r: CommandRequest, pending: bool)
    requires IsRequest(r) && r.key !in s.intents
    ensures var after, check := AfterCommand(s, r, pending), CommandCheck(s.product, r, pending);
            && (check.Err? ==> after == s && CommandResult(s, r, pending) == Err(check.error))
            && (check.Ok? ==>
                  && CommandResult(s, r, pending) == Ok(r.key)
                  && Wants(r.command, s.product.desired, after.product.desired)
                  && after.product.version == s.product.version + 1
                  && after.product.content == (if r.content.Some? then s.product.content + r.content.value
                                               else s.product.content)
                  && after.product == s.product.(desired := after.product.desired, version := after.product.version,
                                                 content := after.product.content)
                  && after.intents == s.intents[r.key := Intent(r.command, s.product.desired, after.product.desired,
                                                                after.product.version, r.fingerprint,
                                                                after.product.content)]
                  && after.tickets == s.tickets)
  {
    if CommandCheck(s.product, r, pending).Ok? && r.content.Some? {
      assert s.product.content + Changed(Ticket(r, s.product)) == s.product.content + r.content.value;
    }
  }

  /** The one call a command makes when its handler first runs. */
  function CallOf(c: Command, content: Content): seq<GatewayCall> {
    match c
    case Update => [UpdateCall(content, false)]
    case AuditFreeUpdate => [UpdateCall(content, true)]
    case Act(a) => [ActionCall(a)]
    case Create => []
  }

  /** An accepted command reaches the gateway: its first handler run makes exactly its call, with the
      content it stored, whatever the reply. */
  lemma AcceptedCommandReachesGateway(s: State, r: CommandRequest, pending: bool, reply: Reply)
    requires IsRequest(r) && r.key !in s.intents && CommandCheck(s.product, r, pending).Ok?
    ensures var after := AfterCommand(s, r, pending);
            && r.key in after.intents
            && Handle(after.product, after.intents[r.key], reply).calls == CallOf(r.command, after.product.content)
  {
    CommandIsRecorded(s, r, pending);
  }

  /** A stored intent is still to be carried out exactly at its version and target, from its source or
      at its target; otherwise the first failed check names the error. */
  lemma ValidationIs(p: Product, i: Intent)
    requires i.Intent?
    ensures var valid, changed := ValidateIntent(p, i), p.version != i.targetVersion || p.desired != i.target;
            && (valid.Ok? <==> !changed && (p.remote == Some(i.source) || p.remote == Some(i.target)))
            && (valid.Ok? ==> p.remote == Some(valid.value))
            && (valid == Err(UnknownStatus) <==> p.remote.None?)
            && (valid == Err(IntentChanged) <==> p.remote.Some? && changed)
            && (valid == Err(StateChanged) <==>
                  p.remote.Some? && !changed && p.remote != Some(i.source) && p.remote != Some(i.target))
  {
  }

  /** When the handler of an update or action calls the gateway: for a valid intent that is not at its
      target yet, and for an audit-free update in any case. Without a call it is done exactly when the
      product is at its target already. */
  lemma CallsAre(p: Product, i: Intent, reply: Reply)
    requires i.Intent? && !i.command.Create?
    ensures var run, valid := Handle(p, i, reply), ValidateIntent(p, i);
            var foreign := i.command.Act? && !Wants(i.command, i.source, i.target);
            var there := p.remote == Some(i.target) && !i.command.AuditFreeUpdate?;
            && (run.calls != [] <==> valid.Ok? && !foreign && !there && p.external.Some?)
            && (run.calls != [] ==> run.calls == CallOf(i.command, p.content))
            && (run.calls == [] ==>
                  && run.product == p
                  && run.result == if valid.Err? then Rejected(valid.error)
                                   else if foreign then Rejected(InvalidPayload)
                                   else if there then Done
                                   else Rejected(MissingExternal))
  {
  }

  /** What a call that was made leads to: the handler is done exactly when the reply has the target's
      status, or, for a deletion, unless the call failed for another reason than an unknown product.
      Done, the product is at the target; otherwise nothing is stored and the reply names the error. */
  lemma CallsSucceedExactlyWhen(p: Product, i: Intent, reply: Reply)
    requires i.Intent? && !i.command.Create? && Handle(p, i, reply).calls != []
    ensures var run, deletes := Handle(p, i, reply), i.command == Act(Delete);
            && (run.result.Done? <==>
                  || (reply.Returned? && (reply.status == Some(i.target) || deletes))
                  || (deletes && reply.Raised? && reply.terminal && reply.code == "product_not_found"))
            && (run.result.Done? ==> run.product == p.(remote := Some(i.target), desired := i.target))
            && (!run.result.Done? ==>
                  && run.product == p
                  && run.result == Rejected(if reply.Raised? then Gateway(reply.code)
                                            else if reply.status.None? then UnknownStatus
                                            else TargetNotReached))
  {
  }

  /** A creation calls the gateway exactly while no remote id is stored, with the stored content. The
      call is done exactly when the reply has valid SKU ids, a known status and ids no other product
      has; then the remote id and the reply's status are stored and the SKUs are linked. Without a
      call it is done exactly when the SKUs are linked. */
  lemma CreationSucceedsExactlyWhen(p: Product, i: Intent, reply: Reply)
    requires i.CreateIntent? || i.command.Create?
    ensures var run := Handle(p, i, reply);
            && run.calls == (if p.external.None? then [CreateCall(p.content)] else [])
            && (p.external.Some? ==>
                  run.product == p && run.result == if p.linked then Done else Rejected(SkuMismatch))
            && (p.external.None? ==>
                  && (run.result.Done? <==> reply.Returned? && reply.skusOk && reply.status.Some? && reply.idsFree)
                  && (run.result.Done? ==>
                        run.product == p.(external := Some(reply.external), linked := true, remote := reply.status))
                  && (!run.result.Done? ==>
                        && run.product.linked == p.linked && run.product.remote == p.remote
                        && run.product.desired == p.desired
                        && (run.product.external.Some? ==> run.product.external == Some(reply.external))
                        && run.result == Rejected(if reply.Raised? then Gateway(reply.code)
                                                  else if !reply.skusOk then SkuMismatch
                                                  else if reply.status.None? then UnknownStatus
                                                  else IdentifierConflict)))
  {
  }

  /* ---- The service and its handlers over one stored product ---- */

  class ProductService {
    var external: Option<string>
    var linked: bool
    var remoteStatus: Option<ProductStatus>
    var desiredState: ProductStatus
    var version: int
    var content: Content
    var intents: map<OpId, Intent>

    function Value(): State
      reads this
    {
      State(Product(external, linked, remoteStatus, desiredState, version, content), intents, map[])
    }

    constructor (key: OpId, content: Content, fingerprint: string)
      ensures Value() == State(Product(None, false, Some(PendingCreate), UnderReview, 1, content),
                               map[key := CreateIntent(fingerprint)], map[])
    {
      external, linked, remoteStatus, desiredState, version := None, false, Some(PendingCreate), UnderReview, 1;
      this.content := content;
      intents := map[key := CreateIntent(fingerprint)];
    }

    /** A command is accepted exactly for a created product without an unfinished operation that is
        settled in a status its table lists, and for an update at the version its caller saw. */
    method RequireCommand(r: CommandRequest, pending: bool) returns (current: Result<ProductStatus, CommandError>)
      ensures current.Ok? <==>
                && external.Some? && !pending && remoteStatus == Some(desiredState)
                && desiredState in AllowedFrom(r.command)
                && (r.version.Some? ==> r.version.value == version)
      ensures current.Ok? ==> current.value == desiredState
      ensures current == CommandCheck(Value().product, r, pending)
    {
      if external.None? { return Err(NotReady); }
      if pending { return Err(OperationPending); }
      if remoteStatus.None? { return Err(InvalidStatus); }
      if remoteStatus.value != desiredState { return Err(StatePending); }
      if remoteStatus.value !in AllowedFrom(r.command) { return Err(InvalidTransition); }
      if r.version.Some? && r.version.value != version { return Err(VersionConflict); }
      return Ok(remoteStatus.value);
    }

    /** An accepted command stores the desired state it wants, its content and the next version, and
        records them; a refused or repeated one changes nothing. */
    method Submit(r: CommandRequest, pending: bool) returns (result: Result<OpId, CommandError>)
      requires IsRequest(r)
      modifies this
      ensures r.key !in old(intents) && result.Ok? ==>
                && Wants(r.command, old(desiredState), desiredState) && version == old(version) + 1
                && content == (if r.content.Some? then old(content) + r.content.value else old(content))
                && external == old(external) && linked == old(linked) && remoteStatus == old(remoteStatus)
                && intents == old(intents)[r.key := Intent(r.command, old(desiredState), desiredState, version,
                                                           r.fingerprint, content)]
      ensures r.key in old(intents) || result.Err? ==> Value() == old(Value())
      ensures result == CommandResult(old(Value()), r, pending)
      ensures Value() == AfterCommand(old(Value()), r, pending)
    {
      if r.key in intents {
        if SameCommand(intents[r.key], r) { return Ok(r.key); }
        return Err(KeyConflict);
      }
      var check := RequireCommand(r, pending);
      if check.Err? { return Err(check.error); }
      var current := check.value;
      var target := TargetOf(r.command, current);
      ghost var t := Ticket(r, Value().product);
      var recorded := content;
      if r.content.Some? {
        content := content + r.content.value;
        recorded := content;
      }
      assert content == t.seen.content + Changed(t);
      desiredState := target;
      version := version + 1;
      intents := intents[r.key := Intent(r.command, current, target, version, r.fingerprint, recorded)];
      return Ok(r.key);
    }

    /** After a call it is done exactly when the reply has the target's status; otherwise nothing is
        stored. */
    method RunUpdate(i: Intent, reply: Reply) returns (calls: seq<GatewayCall>, result: HandlerResult)
      requires i.Intent?
      modifies this
      ensures calls != [] ==> (result.Done? <==> reply.Returned? && reply.status == Some(i.target))
      ensures calls != [] && result.Done? ==> remoteStatus == Some(i.target) && desiredState == i.target
      ensures calls == [] || !result.Done? ==> Value() == old(Value())
      ensures HandlerRun(Value().product, calls, result) == ApplyUpdate(old(Value().product), i, reply)
      ensures intents == old(intents)
    {
      calls := [];
      var valid := ValidateIntent(Value().product, i);
      if valid.Err? { return calls, Rejected(valid.error); }
      var auditFree := i.command.AuditFreeUpdate?;
      if !auditFree && valid.value == i.target { return calls, Done; }
      if external.None? { return calls, Rejected(MissingExternal); }
      calls := [UpdateCall(content, auditFree)];
      if reply.Raised? { return calls, Rejected(Gateway(reply.code)); }
      if reply.status.None? { return calls, Rejected(UnknownStatus); }
      if reply.status.value != i.target { return calls, Rejected(TargetNotReached); }
      remoteStatus := reply.status;
      desiredState := reply.status.value;
      return calls, Done;
    }

    /** After a call it is done exactly when the reply has the target's status, or, for a deletion, when
        the call returned or the gateway does not know the product; otherwise nothing is stored. */
    method RunAction(i: Intent, reply: Reply) returns (calls: seq<GatewayCall>, result: HandlerResult)
      requires i.Intent? && i.command.Act?
      modifies this
      ensures calls != [] ==>
                (result.Done? <==>
                   || (reply.Returned? && (reply.status == Some(i.target) || i.command == Act(Delete)))
                   || (i.command == Act(Delete) && reply == Raised(true, "product_not_found")))
      ensures calls != [] && result.Done? ==> remoteStatus == Some(i.target) && desiredState == i.target
      ensures calls == [] || !result.Done? ==> Value() == old(Value())
      ensures HandlerRun(Value().product, calls, result) == ApplyAction(old(Value().product), i, reply)
      ensures intents == old(intents)
    {
      calls := [];
      var action := i.command.action;
      var valid := ValidateIntent(Value().product, i);
      if valid.Err? { return calls, Rejected(valid.error); }
      if i.target != ActionTarget(action) { return calls, Rejected(InvalidPayload); }
      if valid.value == i.target { return calls, Done; }
      if external.None? { return calls, Rejected(MissingExternal); }
      calls := [ActionCall(action)];
      if action.Delete? {
        if reply.Raised? && !(reply.terminal && reply.code == NOT_FOUND) {
          return calls, Rejected(Gateway(reply.code));
        }
        remoteStatus := Some(Deleted);
      } else {
        if reply.Raised? { return calls, Rejected(Gateway(reply.code)); }
        if reply.status.None? { return calls, Rejected(UnknownStatus); }
        if reply.status.value != i.target { return calls, Rejected(TargetNotReached); }
        remoteStatus := reply.status;
      }
      desiredState := remoteStatus.value;
      return calls, Done;
    }

    /** A creation that calls the gateway is done exactly when the reply has valid SKU ids, a known
        status and ids no other product has, and then stores them. */
    method RunCreate(reply: Reply) returns (calls: seq<GatewayCall>, result: HandlerResult)
      modifies this
      ensures calls == if old(external).None? then [CreateCall(old(content))] else []
      ensures calls != [] ==>
                (result.Done? <==> reply.Returned? && reply.skusOk && reply.status.Some? && reply.idsFree)
      ensures calls != [] && result.Done? ==>
                external == Some(reply.external) && linked && remoteStatus == reply.status
      ensures HandlerRun(Value().product, calls, result) == ApplyCreate(old(Value().product), reply)
      ensures intents == old(intents)
    {
      calls := [];
      if external.None? {
        calls := [CreateCall(content)];
        if reply.Raised? { return calls, Rejected(Gateway(reply.code)); }
        if !reply.skusOk { return calls, Rejected(SkuMismatch); }
        if reply.status.None? {
          if reply.idsFree { external := Some(reply.external); }
          return calls, Rejected(UnknownStatus);
        }
        if !reply.idsFree { return calls, Rejected(IdentifierConflict); }
        external := Some(reply.external);
        remoteStatus := reply.status;
        linked := true;
      }
      if !linked { return calls, Rejected(SkuMismatch); }
      return calls, Done;
    }
  }
}
