/** Consuming a voucher over an unreliable network (backend/poi_admin/local_life/vouchers.py) against
    the remote voucher of the mock gateway (backend/poi_admin/connections/mock.py). */
module Vouchers {
  import opened Wrappers

  const AVAILABLE := "available"
  const CONSUMED := "consumed"

  /** A field of a reply; `nested` says whether it is a list or an object. */
  datatype Field = Field(text: string, nested: bool)

  type Fields = map<string, Field>

  datatype Remote = Remote(state: string, store: Option<string>, raw: Fields)

  /** `code` is what the voucher's code decrypts to, if it does; `syncedAt` is None until the first
      result is stored. */
  datatype Local = Local(
    code: Option<string>, sku: string, state: string, store: Option<string>,
    consumedAt: Option<int>, revokedAt: Option<int>, lastRequest: Option<string>,
    summary: Fields, syncedAt: Option<int>)

  const SUMMARY_FIELDS := {
    "status", "state", "product_id", "sku_id", "valid_from", "valid_until", "consume_store_id",
    "consume_store_name", "out_store_id", "order_id", "voucher_type", "code_type"
  }

  function SafeRaw(raw: Fields): Fields {
    map k | k in raw && k in SUMMARY_FIELDS && !raw[k].nested :: raw[k]
  }

  /** A bare timeout, or a transient gateway error with its code. */
  datatype Trouble = BareTimeout | Transient(code: string)

  datatype ConsumeError =
    | InvalidPayload | VoucherNotFound | SkuMissing | CodeUnavailable
    | Refused               // the remote voucher is neither available nor consumed
    | Raised(trouble: Trouble)

  /** What the network does to one consume request: the reply arrives, the reply is lost, or the
      request does not arrive in time; a `late` request is still under way. */
  datatype Net = Answer | LostReply(trouble: Trouble) | LostRequest(trouble: Trouble, late: bool)

  /** How far one attempt has come: nothing to do, unsure whether the request took effect, holding a
      result that is not stored yet, or over with an error. */
  datatype Phase =
    | Idle
    | Doubtful(trouble: Trouble)
    | Answered(result: Remote, reconciled: bool)
    | Failed(error: ConsumeError)

  // ---------------------------------------------------------------- the remote voucher

  function Lookup(vouchers: map<string, Remote>, code: string): Remote {
    if code in vouchers then vouchers[code] else Remote(AVAILABLE, None, map[])
  }

  /** A consumed voucher answers with its state, whatever store asks. */
  function ConsumeResult(v: Remote, store: string): Result<Remote, ConsumeError> {
    if v.state == CONSUMED then Ok(v)
    else if v.state != AVAILABLE then Err(Refused)
    else Ok(Remote(CONSUMED, Some(store), v.raw))
  }

  function AfterConsume(v: Remote, store: string): Remote {
    if ConsumeResult(v, store).Ok? then ConsumeResult(v, store).value else v
  }

  class MockGateway {
    var vouchers: map<string, Remote>

    constructor ()
      ensures vouchers == map[]
    {
      vouchers := map[];
    }

    method GetVoucher(code: string) returns (v: Remote)
      ensures v == Lookup(vouchers, code)
    {
      if code in vouchers { return vouchers[code]; }
      return Remote(AVAILABLE, None, map[]);
    }

    method ConsumeVoucher(code: string, store: string) returns (r: Result<Remote, ConsumeError>)
      modifies this
      ensures r == ConsumeResult(Lookup(old(vouchers), code), store)
      ensures Lookup(vouchers, code) == AfterConsume(Lookup(old(vouchers), code), store)
      ensures forall c | c != code :: Lookup(vouchers, c) == Lookup(old(vouchers), c)
    {
      var current := GetVoucher(code);
      if current.state == CONSUMED { return Ok(current); }
      if current.state != AVAILABLE { return Err(Refused); }
      var result := Remote(CONSUMED, Some(store), current.raw);
      vouchers := vouchers[code := result];
      return Ok(result);
    }

    /** A revoked voucher is available again and keeps the store of its last consumption. */
    method RevokeConsumption(code: string) returns (r: Result<Remote, ConsumeError>)
      modifies this
      ensures var before := Lookup(old(vouchers), code);
              if before.state == CONSUMED
              then r == Ok(Remote(AVAILABLE, before.store, before.raw)) && vouchers == old(vouchers)[code := r.value]
              else r == Err(Refused) && vouchers == old(vouchers)
    {
      var current := GetVoucher(code);
      if current.state != CONSUMED { return Err(Refused); }
      var result := Remote(AVAILABLE, current.store, current.raw);
      vouchers := vouchers[code := result];
      return Ok(result);
    }
  }

  // ---------------------------------------------------------------- one attempt

  /** Only after a timeout or an unavailable upstream does the handler look the voucher up. */
  predicate InDoubt(t: Trouble) {
    t.BareTimeout? || t.code in {"timeout", "upstream_unavailable"}
  }

  function Lost(t: Trouble): Phase {
    if InDoubt(t) then Doubtful(t) else Failed(Raised(t))
  }

  predicate Arrives(net: Net) {
    !net.LostRequest?
  }

  function SentPhase(v: Remote, store: string, net: Net): Phase {
    match net
    case Answer =>
      var r := ConsumeResult(v, store);
      if r.Ok? then Answered(r.value, false) else Failed(r.error)
    case LostReply(t) => Lost(t)
    case LostRequest(t, _) => Lost(t)
  }

  /** The remote voucher counts as this operation's success when it is consumed at the requested
      store, or at a store the remote side does not name. */
  function ProbedPhase(v: Remote, store: string, original: Trouble, probe: Option<Trouble>): Phase {
    if probe.Some? then Failed(Raised(probe.value))
    else if v.state == CONSUMED && (v.store == None || v.store == Some(store)) then Answered(v, true)
    else Failed(Raised(original))
  }

  /** The local voucher after `apply_remote`; a first consumption time is kept. */
  function Applied(l: Local, result: Remote, now: int): Local {
    var l := l.(state := result.state, store := result.store, summary := SafeRaw(result.raw), syncedAt := Some(now));
    if result.state == CONSUMED then
      l.(consumedAt := if l.consumedAt.Some? then l.consumedAt else Some(now), revokedAt := None)
    else if result.state == AVAILABLE then l.(revokedAt := Some(now), consumedAt := None)
    else l
  }

  function Stored(l: Local, result: Remote, request: string, now: int): Local {
    Applied(l, result, now).(lastRequest := Some(request))
  }

  /** Where an undisturbed attempt ends, before anything is stored. */
  function FinalPhase(v: Remote, store: string, net: Net, probe: Option<Trouble>): Phase {
    var sent := SentPhase(v, store, net);
    if sent.Doubtful?
    then ProbedPhase(if Arrives(net) then AfterConsume(v, store) else v, store, sent.trouble, probe)
    else sent
  }

  /** Where a sent request leads: an answer ends the attempt with the voucher as it then is, if it was
      available or consumed; without one the handler looks the voucher up after a timeout or an
      unavailable upstream, and gives up after any other trouble. */
  lemma SendingEnds(v: Remote, store: string, net: Net)
    ensures var phase := SentPhase(v, store, net);
            && (net.Answer? && v.state == "consumed" ==> phase == Answered(v, false))
            && (net.Answer? && v.state == "available" ==>
                  phase == Answered(Remote("consumed", Some(store), v.raw), false))
            && (net.Answer? && v.state !in {"available", "consumed"} ==> phase == Failed(Refused))
            && (!net.Answer? ==>
                  var t := net.trouble;
                  phase == if t == BareTimeout || t == Transient("timeout") || t == Transient("upstream_unavailable")
                           then Doubtful(t) else Failed(Raised(t)))
  {
  }

  /** Where a look-up leads: success exactly for a voucher consumed at the requested store or at one that
      is not named; otherwise the original trouble, or that of the look-up. */
  lemma LookupEnds(v: Remote, store: string, original: Trouble, probe: Option<Trouble>)
    ensures var phase := ProbedPhase(v, store, original, probe);
            && (probe.Some? ==> phase == Failed(Raised(probe.value)))
            && (probe.None? ==>
                  phase == if v.state == "consumed" && (v.store.None? || v.store.value == store)
                           then Answered(v, true) else Failed(Raised(original)))
  {
  }

  /** An undisturbed attempt: a request that arrives consumes an available voucher and changes no other;
      the attempt ends with the voucher as it then is, or with an error. */
  lemma AttemptEnds(v: Remote, store: string, net: Net, probe: Option<Trouble>)
    ensures var remote, end := if net.LostRequest? then v else AfterConsume(v, store), FinalPhase(v, store, net, probe);
            && AfterConsume(v, store) == (if v.state == "available" then Remote("consumed", Some(store), v.raw) else v)
            && (end.Answered? ==> end.result == remote && remote.state == "consumed")
            && (end.Answered? <==>
                  && remote.state == "consumed"
                  && (net.Answer? ||
                      (InDoubt(net.trouble) && probe.None? && (remote.store.None? || remote.store.value == store))))
            && (end.Answered? ==> (end.reconciled <==> !net.Answer?))
            && (end.Answered? || end.Failed?)
  {
  }

  /** The fields of a remote voucher that may be stored: its state, what it is for, when and where it can
      be or was consumed, and its kinds; in particular not its code. */
  predicate IsPublic(field: string) {
    || field == "status" || field == "state"
    || field == "product_id" || field == "sku_id" || field == "order_id"
    || field == "valid_from" || field == "valid_until"
    || field == "consume_store_id" || field == "consume_store_name" || field == "out_store_id"
    || field == "voucher_type" || field == "code_type"
  }

  /** A stored result: state, store and the public flat fields are the remote ones, the request is
      recorded; a consumption keeps its first time and clears the revocation, a return to available
      the other way round, and any other state keeps both. */
  lemma ResultIsStored(l: Local, result: Remote, request: string, now: int)
    ensures var after := Stored(l, result, request, now);
            && after.state == result.state && after.store == result.store
            && after.lastRequest == Some(request) && after.syncedAt == Some(now)
            && after.code == l.code && after.sku == l.sku
            && (forall k :: k in after.summary <==> k in result.raw && !result.raw[k].nested && IsPublic(k))
            && (forall k | k in after.summary :: after.summary[k] == result.raw[k])
            && (result.state == "consumed" ==>
                  && after.revokedAt.None?
                  && after.consumedAt == (if l.consumedAt.Some? then l.consumedAt else Some(now)))
            && (result.state == "available" ==> after.revokedAt == Some(now) && after.consumedAt.None?)
            && (result.state !in {"available", "consumed"} ==>
                  after.consumedAt == l.consumedAt && after.revokedAt == l.revokedAt)
  {
  }

  class VoucherService {
    var vouchers: map<string, Local>
    const gateway: MockGateway

    constructor (gateway: MockGateway)
      ensures vouchers == map[] && this.gateway == gateway
    {
      vouchers := map[];
      this.gateway := gateway;
    }

    /** One run of the handler without interruption. The request changes the remote voucher exactly
        when it arrives; the local one changes exactly when the attempt ends with a result, which is
        then its state. `reconciled` tells a looked-up result from a replied one. */
    method Consume(id: Option<string>, store: Option<string>, request: Option<string>,
                   net: Net, probe: Option<Trouble>, now: int)
      returns (r: Result<bool, ConsumeError>)
      modifies this, gateway
      ensures id.None? || store.None? || request.None? ==> r == Err(InvalidPayload)
      ensures id.Some? && store.Some? && request.Some? ==>
                && (id.value !in old(vouchers) ==> r == Err(VoucherNotFound))
                && (id.value in old(vouchers) ==>
                      var l := old(vouchers)[id.value];
                      && (l.sku == "" ==> r == Err(SkuMissing))
                      && (l.sku != "" && l.code.None? ==> r == Err(CodeUnavailable))
                      && (l.sku != "" && l.code.Some? ==>
                            var v := Lookup(old(gateway.vouchers), l.code.value);
                            var end := FinalPhase(v, store.value, net, probe);
                            && Lookup(gateway.vouchers, l.code.value)
                               == (if Arrives(net) then AfterConsume(v, store.value) else v)
                            && (end.Answered? ==>
                                  && r == Ok(end.reconciled)
                                  && vouchers
                                     == old(vouchers)[id.value := Stored(l, end.result, request.value, now)])
                            && (end.Failed? ==> r == Err(end.error))))
      ensures r.Err? ==> vouchers == old(vouchers)
      ensures r.Err? && !r.error.Raised? && !r.error.Refused? ==> gateway.vouchers == old(gateway.vouchers)
    {
      if id.None? || store.None? || request.None? { return Err(InvalidPayload); }
      if id.value !in vouchers { return Err(VoucherNotFound); }
      var voucher := vouchers[id.value];
      if voucher.sku == "" { return Err(SkuMissing); }
      if voucher.code.None? { return Err(CodeUnavailable); }
      var code := voucher.code.value;
      var reply: Result<Remote, ConsumeError> := Err(Refused);
      if Arrives(net) {
        reply := gateway.ConsumeVoucher(code, store.value);
      }
      if !net.Answer? {
        var trouble := net.trouble;
        if !InDoubt(trouble) { return Err(Raised(trouble)); }
        if probe.Some? { return Err(Raised(probe.value)); }
        var remote := gateway.GetVoucher(code);
        if remote.state == CONSUMED && (remote.store == None || remote.store == Some(store.value)) {
          vouchers := vouchers[id.value := Stored(voucher, remote, request.value, now)];
          return Ok(true);
        }
        return Err(Raised(trouble));
      }
      if reply.Err? { return Err(reply.error); }
      vouchers := vouchers[id.value := Stored(voucher, reply.value, request.value, now)];
      return Ok(false);
    }
  }
}
