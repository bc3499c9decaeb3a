/** Racing enqueues and racing callback deliveries, as instances of the unique-insert race
    (backend/poi_admin/operations/service.py, backend/poi_admin/webhooks/service.py). Stored keys
    and fingerprints are digests; they are modelled by what they are digests of. */
module Enqueue {
  import opened Wrappers
  import opened Redaction
  import opened Operations
  import opened UniqueInsert

  /* ---- Operations ---- */

  /** One call of enqueue that passed the checks made before the table is read. */
  datatype EnqueueCall = EnqueueCall(tenant: string, key: string, request: Request)

  function Stored(call: EnqueueCall): Entry<(string, string), Request> {
    Entry((call.tenant, call.key), Safe(call.request))
  }

  function EnqueueCalls(calls: map<Caller, EnqueueCall>): Calls<(string, string), Request> {
    map c | c in calls :: Stored(calls[c])
  }

  /** What an answered call returns: the row it was given, if that row was enqueued for the same
      request, and a conflict otherwise. */
  function Answer(s: State<(string, string), Request>, c: Caller, call: EnqueueCall): Result<RowId, EnqueueError>
    requires c in s.phases && s.phases[c].Done? && s.phases[c].row in s.rows
  {
    if s.rows[s.phases[c].row].value == Safe(call.request) then Ok(s.phases[c].row)
    else Err(IdempotencyConflict)
  }

  /** Same command up to the values of secrets. */
  predicate SameRequest(a: Request, b: Request) {
    && a.command == b.command && a.connection == b.connection && a.resource == b.resource
    && AgreeOutsideSecrets(a.payload, b.payload)
  }

  /** However enqueues race, one call per key decides: it gets its row, every other call with the
      same key gets that same row exactly when its request agrees with the deciding one up to
      secrets, and a conflict when it does not. */
  lemma RacingEnqueuesAgree(
    calls: map<Caller, EnqueueCall>, ss: seq<State<(string, string), Request>>, es: seq<Step>, i: nat, c: Caller)
    returns (creator: Caller)
    requires IsRun(EnqueueCalls(calls), ss, es) && i < |ss|
    requires c in calls && c in ss[i].phases && ss[i].phases[c].Done?
    ensures creator in calls && calls[creator].tenant == calls[c].tenant && calls[creator].key == calls[c].key
    ensures Created(ss[i], creator, ss[i].phases[c].row)
    ensures ss[i].phases[c].row in ss[i].rows
    ensures Answer(ss[i], creator, calls[creator]) == Ok(ss[i].phases[c].row)
    ensures forall d | d in calls && d in ss[i].phases && ss[i].phases[d].Done?
                       && calls[d].tenant == calls[c].tenant && calls[d].key == calls[c].key ::
              && ss[i].phases[d].row in ss[i].rows
              && Answer(ss[i], d, calls[d]) ==
                 if SameRequest(calls[d].request, calls[creator].request) then Ok(ss[i].phases[c].row)
                 else Err(IdempotencyConflict)
  {
    creator := ExactlyOneCallerCreates(EnqueueCalls(calls), ss, es, i, c);
    forall d | d in calls && d in ss[i].phases && ss[i].phases[d].Done?
               && calls[d].tenant == calls[c].tenant && calls[d].key == calls[c].key
      ensures ss[i].phases[d].row == ss[i].phases[c].row
      ensures ss[i].rows[ss[i].phases[c].row].value == Safe(calls[d].request)
              <==> SameRequest(calls[d].request, calls[creator].request)
    {
      assert EnqueueCalls(calls)[d].key == EnqueueCalls(calls)[c].key;
      RedactIdentifiesExactlySecrets(calls[d].request.payload, calls[creator].request.payload);
    }
    assert ss[i].rows[ss[i].phases[c].row] == Stored(calls[creator]);
  }

  /* ---- Callbacks ---- */

  datatype Delivery = Delivery(connection: string, payload: Json)

  /** The inbox row of a delivery: its fingerprint is taken over the whole payload, and only the
      redacted payload is stored in the clear. */
  function InboxEntry(d: Delivery): Entry<(string, Json), Json> {
    Entry((d.connection, d.payload), Redact(d.payload))
  }

  function DeliveryCalls(deliveries: map<Caller, Delivery>): Calls<(string, Json), Json> {
    map c | c in deliveries :: InboxEntry(deliveries[c])
  }

  /** Of all deliveries of one payload to one connection, exactly one is reported as new, whatever
      the interleaving, and all others as duplicates of the row it made. */
  lemma ExactlyOneDeliveryIsNew(
    deliveries: map<Caller, Delivery>, ss: seq<State<(string, Json), Json>>, es: seq<Step>, i: nat, c: Caller)
    requires IsRun(DeliveryCalls(deliveries), ss, es) && i < |ss|
    requires c in deliveries && c in ss[i].phases && ss[i].phases[c].Done?
    ensures var answered := set d | d in deliveries && deliveries[d] == deliveries[c]
                                    && d in ss[i].phases && ss[i].phases[d].Done?;
            && |set d | d in answered && ss[i].phases[d].created| == 1
            && forall d | d in answered :: ss[i].phases[d].row == ss[i].phases[c].row
  {
    var creator := ExactlyOneCallerCreates(DeliveryCalls(deliveries), ss, es, i, c);
    var answered := set d | d in deliveries && deliveries[d] == deliveries[c]
                            && d in ss[i].phases && ss[i].phases[d].Done?;
    assert forall d | d in answered :: DeliveryCalls(deliveries)[d].key == DeliveryCalls(deliveries)[c].key;
    assert creator in answered;
    assert (set d | d in answered && ss[i].phases[d].created) == {creator};
  }
}
