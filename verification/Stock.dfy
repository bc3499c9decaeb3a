/** Stock intents of a product's SKUs, and how they converge
    (backend/poi_admin/local_life/products.py). */
module Stock {
  import opened Wrappers

  type SkuId = string

  datatype Sku = Sku(stock: int, desired: int, version: int)

  /** Idempotency keys: those a caller chooses, and those the creation handler derives. */
  datatype Key = Chosen(s: string) | Initial(sku: SkuId, version: int)

  /** The operation stored under a key: a stock operation of this product, or anything else. */
  datatype Stored = SetStock(sku: SkuId, stock: int, targetVersion: int) | Foreign

  type Caller = nat

  /** A version of a SKU row, and the desired stock the row then held. */
  datatype Held = Held(version: int, desired: int)

  /** A request under way: it passed its checks on the SKU row `seen`, and has not committed yet. */
  datatype Ticket = Ticket(key: Key, sku: SkuId, stock: int, seen: Sku)

  /** `created` says that the remote product and its SKUs are linked, `deleted` that the product is
      deleted; `remote` is the stock the remote shop has. `wanted` remembers, per SKU, every pair of
      version and desired stock its row ever held; no code reads it. */
  datatype State = State(
    created: bool,
    deleted: bool,
    skus: map<SkuId, Sku>,
    ops: map<Key, Stored>,
    remote: map<SkuId, int>,
    wanted: map<SkuId, set<Held>>,
    tickets: map<Caller, Ticket>)

  /** The outcome of one remote stock update. */
  datatype Reply = Applied | NotReceived | ReplyLost | Refused

  datatype StockError = KeyConflict | SkuNotFound | NotReady | ProductDeleted | VersionConflict

  /* ---- Requests ---- */

  function UpdateResult(s: State, key: Key, sku: SkuId, stock: int, version: int): Result<Key, StockError> {
    if key in s.ops then
      if s.ops[key].SetStock? && s.ops[key].sku == sku && s.ops[key].stock == stock
      then Ok(key) else Err(KeyConflict)
    else if sku !in s.skus then Err(SkuNotFound)
    else if !s.created then Err(NotReady)
    else if s.deleted then Err(ProductDeleted)
    else if s.skus[sku].version != version then Err(VersionConflict)
    else Ok(key)
  }

  function Wanted(s: State, sku: SkuId): set<Held> {
    if sku in s.wanted then s.wanted[sku] else {}
  }

  /** The row of the SKU held this desired stock at this version. */
  predicate WasWanted(s: State, sku: SkuId, stock: int, version: int) {
    Held(version, stock) in Wanted(s, sku)
  }

  /** The desired stock a commit leaves. The column is written only if it changes the row read. */
  function DesiredAfter(row: Sku, t: Ticket): int {
    if t.stock != t.seen.desired then t.stock else row.desired
  }

  /** A commit sets the version to the one read plus one; nothing compares the stored row with the
      one read. */
  function CommitUpdate(s: State, t: Ticket): State
    requires t.sku in s.skus
  {
    var desired, version := DesiredAfter(s.skus[t.sku], t), t.seen.version + 1;
    s.(skus := s.skus[t.sku := s.skus[t.sku].(desired := desired, version := version)],
       ops := s.ops[t.key := SetStock(t.sku, t.stock, version)],
       wanted := s.wanted[t.sku := Wanted(s, t.sku) + {Held(version, desired)}])
  }

  /** A request without interference. */
  function AfterUpdate(s: State, key: Key, sku: SkuId, stock: int, version: int): State {
    if key !in s.ops && UpdateResult(s, key, sku, stock, version).Ok?
    then CommitUpdate(s, Ticket(key, sku, stock, s.skus[sku])) else s
  }

  /* ---- Handlers ---- */

  /** The creation handler enqueues the stock of a SKU as it had read it: `desired` and `version`
      come from one read, possibly an old one. */
  function InitialConflicts(s: State, sku: SkuId, desired: int, version: int): bool {
    var key := Initial(sku, version);
    key in s.ops && s.ops[key] != SetStock(sku, desired, version)
  }

  function AfterInitial(s: State, sku: SkuId, desired: int, version: int): State {
    var key := Initial(sku, version);
    if key in s.ops then s else s.(ops := s.ops[key := SetStock(sku, desired, version)])
  }

  predicate Superseded(s: State, o: Stored)
    requires o.SetStock?
  {
    o.sku in s.skus && s.skus[o.sku].version != o.targetVersion
  }

  /** The stock handler; only an answered update is recorded locally. */
  function AfterSetStock(s: State, o: Stored, reply: Reply): State {
    if o.SetStock? && o.stock >= 0 && o.sku in s.skus && !Superseded(s, o) && s.created then
      var remote := if reply.Applied? || reply.ReplyLost? then s.remote[o.sku := o.stock] else s.remote;
      if reply.Applied? then s.(remote := remote, skus := s.skus[o.sku := s.skus[o.sku].(stock := o.stock)])
      else s.(remote := remote)
    else s
  }

  /* ---- From a request to the remote stock ---- */

  /** A request with a new key is accepted exactly for a SKU of a linked product that is not deleted,
      at the version its caller saw; otherwise the first failed check names the error. */
  lemma AcceptanceIs(s: State, key: Key, sku: SkuId, stock: int, version: int)
    requires key !in s.ops
    ensures var r := UpdateResult(s, key, sku, stock, version);
            && (r.Ok? <==> sku in s.skus && s.created && !s.deleted && s.skus[sku].version == version)
            && (r.Ok? ==> r.value == key)
            && (r == Err(SkuNotFound) <==> sku !in s.skus)
            && (r == Err(NotReady) <==> sku in s.skus && !s.created)
            && (r == Err(ProductDeleted) <==> sku in s.skus && s.created && s.deleted)
            && (r == Err(VersionConflict) <==>
                  sku in s.skus && s.created && !s.deleted && s.skus[sku].version != version)
  {
  }

  /** A known key returns its operation exactly to a request for the same stock of the same SKU, and
      nothing changes. */
  lemma KnownKeyIsAnswered(s: State, key: Key, sku: SkuId, stock: int, version: int)
    requires key in s.ops
    ensures AfterUpdate(s, key, sku, stock, version) == s
    ensures var o := s.ops[key];
            UpdateResult(s, key, sku, stock, version)
            == if o.SetStock? && o.sku == sku && o.stock == stock then Ok(key) else Err(KeyConflict)
  {
  }

  /** The rows of the two states agree, but for this SKU. */
  ghost predicate OnlySkuChanges(s: State, after: State, sku: SkuId) {
    after.skus.Keys == s.skus.Keys && forall k | k in s.skus && k != sku :: after.skus[k] == s.skus[k]
  }

  /** An accepted request wants its stock at the next version and records an operation for both; the
      stored and the remote stock stay. A refused one changes nothing. */
  lemma UpdateIsRecorded(s: State, key: Key, sku: SkuId, stock: int, version: int)
    requires key !in s.ops
    ensures var after := AfterUpdate(s, key, sku, stock, version);
            && (UpdateResult(s, key, sku, stock, version).Err? ==> after == s)
            && (UpdateResult(s, key, sku, stock, version).Ok? ==>
                  && OnlySkuChanges(s, after, sku)
                  && after.skus[sku] == Sku(s.skus[sku].stock, stock, s.skus[sku].version + 1)
                  && after.ops == s.ops[key := SetStock(sku, stock, after.skus[sku].version)]
                  && after.remote == s.remote && after.created == s.created && after.deleted == s.deleted)
  {
  }

  /** The handler reaches the remote stock exactly with an operation for a stock of at least zero and
      the current version of a SKU of a linked product, unless the request is lost or refused; it
      stores the stock exactly when the update was answered. No other SKU changes, here or there. */
  lemma HandlerStores(s: State, o: Stored, reply: Reply)
    ensures var after := AfterSetStock(s, o, reply);
            var runs := o.SetStock? && o.stock >= 0 && o.sku in s.skus && s.skus[o.sku].version == o.targetVersion
                        && s.created;
            && (runs && reply.Applied? ==>
                  && OnlySkuChanges(s, after, o.sku)
                  && after.skus[o.sku] == Sku(o.stock, s.skus[o.sku].desired, s.skus[o.sku].version))
            && (!(runs && reply.Applied?) ==> after.skus == s.skus)
            && after.remote == (if runs && (reply.Applied? || reply.ReplyLost?) then s.remote[o.sku := o.stock]
                                else s.remote)
            && after == s.(remote := after.remote, skus := after.skus)
  {
  }

  /** So the handler of an accepted request, answered before any other commit, leaves local and remote
      stock at what was asked for. */
  lemma AcceptedRequestIsCarriedOut(s: State, key: Key, sku: SkuId, stock: int, version: int)
    requires key !in s.ops && stock >= 0 && UpdateResult(s, key, sku, stock, version).Ok?
    ensures var committed := AfterUpdate(s, key, sku, stock, version);
            key in committed.ops
            && var after := AfterSetStock(committed, committed.ops[key], Applied);
               sku in after.skus && after.skus[sku].stock == after.skus[sku].desired == stock
               && sku in after.remote && after.remote[sku] == stock
  {
  }

  /** The creation handler records the stock and version it read under the derived key, unless the key
      is taken; it fails exactly when the key holds anything else. */
  lemma InitialStockIsRecorded(s: State, sku: SkuId, desired: int, version: int)
    ensures var after, key := AfterInitial(s, sku, desired, version), Initial(sku, version);
            && key in after.ops
            && (key in s.ops ==> after == s)
            && (key !in s.ops ==> after == s.(ops := s.ops[key := SetStock(sku, desired, version)]))
            && (InitialConflicts(s, sku, desired, version) <==> after.ops[key] != SetStock(sku, desired, version))
  {
  }

  /* ---- Linking the SKUs of a created product ---- */

  datatype RemoteSku = RemoteSku(external: string, merchant: Option<string>)

  /** The remote id of a merchant id: the last one listed. */
  function ByMerchant(remote: seq<RemoteSku>, merchant: string): Option<string> {
    if remote == [] then None
    else if remote[|remote| - 1].merchant == Some(merchant) then Some(remote[|remote| - 1].external)
    else ByMerchant(remote[..|remote| - 1], merchant)
  }

  function RemoteIds(locals: seq<string>, remote: seq<RemoteSku>): seq<string>
    requires |locals| == |remote|
  {
    seq(|locals|, i requires 0 <= i < |locals| =>
      match ByMerchant(remote, locals[i]) case Some(id) => id case None => remote[i].external)
  }

  /** The remote ids of the local SKUs, or nothing when the reply does not identify them. */
  function AssignRemoteIds(locals: seq<string>, remote: seq<RemoteSku>): Option<seq<string>> {
    if |locals| != |remote| then None
    else
      var ids := RemoteIds(locals, remote);
      if "" in ids || (exists i, j | 0 <= i < j < |ids| :: ids[i] == ids[j]) then None else Some(ids)
  }

  lemma {:induction false} ByMerchantFinds(remote: seq<RemoteSku>, j: nat)
    requires j < |remote| && remote[j].merchant.Some?
    requires forall a, b | 0 <= a < b < |remote| :: remote[a].merchant != remote[b].merchant
    ensures ByMerchant(remote, remote[j].merchant.value) == Some(remote[j].external)
  {
    if j < |remote| - 1 { ByMerchantFinds(remote[..|remote| - 1], j); }
  }

  /** When the reply names every SKU by its merchant id, once each, the order in which it lists them
      does not matter: every local SKU gets the id listed for its own merchant id. */
  lemma LinksFollowMerchantIds(locals: seq<string>, remote: seq<RemoteSku>)
    requires forall a, b | 0 <= a < b < |remote| :: remote[a].merchant != remote[b].merchant
    requires AssignRemoteIds(locals, remote).Some?
    ensures var ids := AssignRemoteIds(locals, remote).value;
            && |ids| == |locals| && "" !in ids
            && (forall i, j | 0 <= i < j < |ids| :: ids[i] != ids[j])
            && forall i, j | 0 <= i < |locals| && 0 <= j < |remote| && remote[j].merchant == Some(locals[i]) ::
                 ids[i] == remote[j].external
  {
    forall i, j | 0 <= i < |locals| && 0 <= j < |remote| && remote[j].merchant == Some(locals[i])
      ensures RemoteIds(locals, remote)[i] == remote[j].external
    {
      ByMerchantFinds(remote, j);
    }
  }

  /** The reply does not name the merchant id. */
  predicate IsUnnamed(remote: seq<RemoteSku>, merchant: string) {
    forall i | 0 <= i < |remote| :: remote[i].merchant != Some(merchant)
  }

  lemma {:induction false} UnnamedIsNotFound(remote: seq<RemoteSku>, merchant: string)
    requires IsUnnamed(remote, merchant)
    ensures ByMerchant(remote, merchant).None?
  {
    if remote != [] { UnnamedIsNotFound(remote[..|remote| - 1], merchant); }
  }

  /** SKUs the reply does not name get the id at their position, and the SKUs are linked exactly when
      the reply has as many of them and every one gets an id of its own. */
  lemma UnnamedSkusFollowPositions(locals: seq<string>, remote: seq<RemoteSku>)
    ensures |locals| == |remote| ==>
              var ids := RemoteIds(locals, remote);
              && (forall i | 0 <= i < |locals| && IsUnnamed(remote, locals[i]) :: ids[i] == remote[i].external)
              && (AssignRemoteIds(locals, remote) == Some(ids) <==>
                    (forall i | 0 <= i < |ids| :: ids[i] != "")
                    && (forall i, j | 0 <= i < j < |ids| :: ids[i] != ids[j]))
              && (AssignRemoteIds(locals, remote).Some? ==> AssignRemoteIds(locals, remote).value == ids)
    ensures |locals| != |remote| ==> AssignRemoteIds(locals, remote).None?
  {
    forall i | 0 <= i < |locals| && IsUnnamed(remote, locals[i])
      ensures ByMerchant(remote, locals[i]).None?
    {
      UnnamedIsNotFound(remote, locals[i]);
    }
  }

  /* ---- The service and its handlers ---- */

  class StockService {
    var created: bool
    var deleted: bool
    var skus: map<SkuId, Sku>
    var ops: map<Key, Stored>
    var remote: map<SkuId, int>
    ghost var wanted: map<SkuId, set<Held>>

    ghost function Value(): State
      reads this
    {
      State(created, deleted, skus, ops, remote, wanted, map[])
    }

    constructor (initial: map<SkuId, Sku>)
      ensures Value() == State(false, false, initial, map[], map[],
                               map k | k in initial :: {Held(initial[k].version, initial[k].desired)}, map[])
    {
      created, deleted, skus, ops, remote := false, false, initial, map[], map[];
      wanted := map k | k in initial :: {Held(initial[k].version, initial[k].desired)};
    }

    /** A request with a new key is accepted exactly for a SKU of a linked product that is not deleted,
        at the version its caller saw; the first failed check names the error. */
    method UpdateStock(key: Key, sku: SkuId, stock: int, version: int) returns (r: Result<Key, StockError>)
      modifies this
      ensures key !in old(ops) ==>
                r == if sku !in old(skus) then Err(SkuNotFound)
                     else if !created then Err(NotReady)
                     else if deleted then Err(ProductDeleted)
                     else if old(skus)[sku].version != version then Err(VersionConflict)
                     else Ok(key)
      ensures key !in old(ops) && r.Ok? ==>
                && skus == old(skus)[sku := Sku(old(skus)[sku].stock, stock, version + 1)]
                && ops == old(ops)[key := SetStock(sku, stock, version + 1)]
      ensures key in old(ops) || r.Err? ==> skus == old(skus) && ops == old(ops)
      ensures remote == old(remote) && created == old(created) && deleted == old(deleted)
      ensures r == UpdateResult(old(Value()), key, sku, stock, version)
      ensures Value() == AfterUpdate(old(Value()), key, sku, stock, version)
    {
      if key in ops {
        if ops[key].SetStock? && ops[key].sku == sku && ops[key].stock == stock { return Ok(key); }
        return Err(KeyConflict);
      }
      if sku !in skus { return Err(SkuNotFound); }
      if !created { return Err(NotReady); }
      if deleted { return Err(ProductDeleted); }
      if skus[sku].version != version { return Err(VersionConflict); }
      skus := skus[sku := skus[sku].(desired := stock, version := version + 1)];
      ops := ops[key := SetStock(sku, stock, version + 1)];
      wanted := wanted[sku := Wanted(old(Value()), sku) + {Held(version + 1, stock)}];
      return Ok(key);
    }

    /** The last part of the creation handler: one stock operation per SKU, as currently stored.
        It stops at the first conflict. */
    method EnqueueInitialStocks(order: seq<SkuId>) returns (conflict: bool)
      requires forall i | 0 <= i < |order| :: order[i] in skus
      modifies this
      ensures skus == old(skus)
      ensures conflict <==> exists i | 0 <= i < |order| ::
                InitialConflicts(old(Value()), order[i], skus[order[i]].desired, skus[order[i]].version)
      ensures !conflict ==>
                Value() == old(Value()).(ops := ops)
                && (forall k | k in old(ops) :: k in ops && ops[k] == old(ops)[k])
                && (forall k | k in ops && k !in old(ops) :: exists i | 0 <= i < |order| ::
                      k == Initial(order[i], skus[order[i]].version))
                && forall i | 0 <= i < |order| :: var sku := skus[order[i]];
                     Initial(order[i], sku.version) in ops
                     && ops[Initial(order[i], sku.version)] == SetStock(order[i], sku.desired, sku.version)
    {
      for i := 0 to |order|
        invariant Value() == old(Value()).(ops := ops)
        invariant forall k | k in old(ops) :: k in ops && ops[k] == old(ops)[k]
        invariant forall k | k in ops && k !in old(ops) :: exists j | 0 <= j < i ::
                    k == Initial(order[j], skus[order[j]].version)
        invariant forall j | 0 <= j < i :: var sku := skus[order[j]];
                    Initial(order[j], sku.version) in ops
                    && ops[Initial(order[j], sku.version)] == SetStock(order[j], sku.desired, sku.version)
        invariant forall j | 0 <= j < i ::
                    !InitialConflicts(old(Value()), order[j], skus[order[j]].desired, skus[order[j]].version)
      {
        var sku := skus[order[i]];
        var key := Initial(order[i], sku.version);
        var operation := SetStock(order[i], sku.desired, sku.version);
        if key in ops {
          if ops[key] != operation {
            assert InitialConflicts(old(Value()), order[i], skus[order[i]].desired, skus[order[i]].version);
            return true;
          }
        } else {
          ops := ops[key := operation];
        }
      }
      return false;
    }

    method RunSetStock(o: Stored, reply: Reply)
      requires o.SetStock?
      modifies this
      ensures Value() == AfterSetStock(old(Value()), o, reply)
    {
      if o.stock < 0 || o.sku !in skus { return; }
      if skus[o.sku].version != o.targetVersion { return; }
      if !created { return; }
      if reply.Applied? || reply.ReplyLost? { remote := remote[o.sku := o.stock]; }
      if reply.Applied? { skus := skus[o.sku := skus[o.sku].(stock := o.stock)]; }
    }
  }
}
