/** Whole runs of one consume operation: any number of attempts by any number of workers, cut off
    anywhere, over a network that loses requests and replies and delivers requests late, possibly
    beside other consumers and revocations (backend/poi_admin/local_life/vouchers.py). */
module VoucherRuns {
  import opened Wrappers
  import opened Vouchers

  type Worker = nat

  /** What stays fixed in the operation's payload. */
  datatype Operation = Operation(store: string, request: string)

  /** `late` requests are still under way although their sender gave up. The counters of remote
      consumptions, revocations and stored results are read by no code. */
  datatype State = State(
    remote: Remote, local: Local, phases: map<Worker, Phase>, late: nat,
    consumptions: nat, revocations: nat, successes: nat)

  datatype Event =
    | Send(w: Worker, net: Net)
    | Probe(w: Worker, probe: Option<Trouble>)
    | Store(w: Worker, now: int)
    | Stop(w: Worker)               // a crash, or the worker reporting its error
    | LateArrival
    | OtherConsume(store: string)
    | OtherRevoke
    | OtherChange(state: string)    // refunded, expired or reserved

  function PhaseOf(s: State, w: Worker): Phase {
    if w in s.phases then s.phases[w] else Idle
  }

  predicate Enabled(s: State, e: Event) {
    match e
    case Send(w, _) => PhaseOf(s, w).Idle?
    case Probe(w, _) => PhaseOf(s, w).Doubtful?
    case Store(w, _) => PhaseOf(s, w).Answered?
    case Stop(w) => true
    case LateArrival => s.late > 0
    case OtherConsume(_) => true
    case OtherRevoke => s.remote.state == CONSUMED
    case OtherChange(state) => s.remote.state == AVAILABLE && state != CONSUMED && state != AVAILABLE
  }

  /** A consume request reaches the remote voucher. */
  function Arrived(s: State, store: string): State {
    s.(remote := AfterConsume(s.remote, store),
       consumptions := if s.remote.state == AVAILABLE then s.consumptions + 1 else s.consumptions)
  }

  function Apply(op: Operation, s: State, e: Event): State
    requires Enabled(s, e)
  {
    match e
    case Send(w, net) =>
      var s' := if Arrives(net) then Arrived(s, op.store) else s;
      s'.(phases := s.phases[w := SentPhase(s.remote, op.store, net)],
          late := if net.LostRequest? && net.late then s.late + 1 else s.late)
    case Probe(w, probe) =>
      s.(phases := s.phases[w := ProbedPhase(s.remote, op.store, PhaseOf(s, w).trouble, probe)])
    case Store(w, now) =>
      s.(local := Stored(s.local, PhaseOf(s, w).result, op.request, now), phases := s.phases[w := Idle],
         successes := s.successes + 1)
    case Stop(w) => s.(phases := s.phases[w := Idle])
    case LateArrival => Arrived(s, op.store).(late := s.late - 1)
    case OtherConsume(store) => Arrived(s, store)
    case OtherRevoke => s.(remote := s.remote.(state := AVAILABLE), revocations := s.revocations + 1)
    case OtherChange(state) => s.(remote := s.remote.(state := state))
  }

  ghost predicate Init(s: State) {
    s.phases == map[] && s.late == 0 && s.consumptions == 0 && s.revocations == 0 && s.successes == 0
  }

  ghost predicate IsRun(op: Operation, ss: seq<State>, es: seq<Event>) {
    && |ss| == |es| + 1 && Init(ss[0])
    && forall i {:trigger Enabled(ss[i], es[i])} {:trigger Apply(op, ss[i], es[i])} | 0 <= i < |es| ::
         Enabled(ss[i], es[i]) && ss[i + 1] == Apply(op, ss[i], es[i])
  }

  /** Nobody else consumes, revokes or changes the voucher. */
  predicate IsOwn(e: Event) {
    !e.OtherConsume? && !e.OtherRevoke? && !e.OtherChange?
  }

  predicate Alone(es: seq<Event>) {
    forall i | 0 <= i < |es| :: IsOwn(es[i])
  }

  /** Any two vouchers may be at the start, with no attempt under way. */
  lemma AnyVouchersMayStart(remote: Remote, local: Local)
    ensures Init(State(remote, local, map[], 0, 0, 0, 0))
  {
  }

  /** Requests that do not arrive in time are under way until they arrive, each once; a worker may stop
      at any time and is then idle, as after storing its result; and others may consume the voucher at
      any time, revoke it while it is consumed, and give it any other state while it is available. */
  lemma EventsAre(op: Operation, s: State, e: Event)
    ensures e.Stop? || e.OtherConsume? ==> Enabled(s, e)
    ensures e.LateArrival? ==> (Enabled(s, e) <==> s.late >= 1)
    ensures e.OtherRevoke? ==> (Enabled(s, e) <==> s.remote.state == "consumed")
    ensures e.OtherChange? ==>
              (Enabled(s, e) <==> s.remote.state == "available" && e.state !in {"available", "consumed"})
    ensures Enabled(s, e) ==>
              var after := Apply(op, s, e);
              && (e.Send? || e.LateArrival? || after.late == s.late)
              && (e.Send? ==> after.late == if e.net.LostRequest? && e.net.late then s.late + 1 else s.late)
              && (e.LateArrival? ==> after.late + 1 == s.late && after.remote == AfterConsume(s.remote, op.store))
              && (e.Stop? || e.Store? ==> PhaseOf(after, e.w) == Idle && after.remote == s.remote)
              && (e.Stop? ==> after.local == s.local)
              && (e.OtherConsume? ==> after.remote == AfterConsume(s.remote, e.store) && after.local == s.local)
              && (e.OtherRevoke? ==> after.remote == Remote("available", s.remote.store, s.remote.raw))
              && (e.OtherChange? ==> after.remote == Remote(e.state, s.remote.store, s.remote.raw))
              && after.successes == (if e.Store? then s.successes + 1 else s.successes)
              && after.revocations == (if e.OtherRevoke? then s.revocations + 1 else s.revocations)
              && (after.consumptions == s.consumptions + 1 <==>
                    s.remote.state == "available" && after.remote.state == "consumed")
              && (after.consumptions == s.consumptions || after.consumptions == s.consumptions + 1)
  {
  }

  // ---------------------------------------------------------------- every run

  function Holds(v: Remote): nat {
    if v.state == CONSUMED then 1 else 0
  }

  /** In every run, whoever takes part: each consumption beyond the one that holds now was revoked.
      In particular the voucher is never consumed twice without a revocation in between. */
  lemma {:induction false} ConsumptionsAreRevokedOrHold(op: Operation, ss: seq<State>, es: seq<Event>, i: nat)
    requires IsRun(op, ss, es) && i < |ss|
    ensures Holds(ss[0].remote) + ss[i].consumptions == Holds(ss[i].remote) + ss[i].revocations
  {
    if i > 0 {
      ConsumptionsAreRevokedOrHold(op, ss, es, i - 1);
      assert Enabled(ss[i - 1], es[i - 1]) && ss[i] == Apply(op, ss[i - 1], es[i - 1]);
    }
  }

  ghost predicate ResultsAreConsumed(s: State) {
    && (forall w | w in s.phases && s.phases[w].Answered? :: s.phases[w].result.state == CONSUMED)
    && (s.successes > 0 ==> s.local.state == CONSUMED && s.local.consumedAt.Some? && s.local.revokedAt.None?)
  }

  /** In every run, only consumed vouchers are stored as results. */
  lemma {:induction false} SuccessMeansConsumed(op: Operation, ss: seq<State>, es: seq<Event>, i: nat)
    requires IsRun(op, ss, es) && i < |ss|
    ensures ResultsAreConsumed(ss[i])
  {
    if i > 0 {
      SuccessMeansConsumed(op, ss, es, i - 1);
      assert Enabled(ss[i - 1], es[i - 1]) && ss[i] == Apply(op, ss[i - 1], es[i - 1]);
    }
  }

  // ---------------------------------------------------------------- runs without competition

  /** What the remote voucher becomes once a request of the operation takes effect. */
  function Target(op: Operation, start: Remote): Remote {
    AfterConsume(start, op.store)
  }

  ghost predicate Inv(op: Operation, start: Remote, s: State) {
    && (s.remote == start || s.remote == Target(op, start))
    && (s.consumptions > 0 ==> s.remote == Target(op, start))
    && (forall w | w in s.phases && s.phases[w].Answered? :: s.phases[w].result == s.remote == Target(op, start))
    && (forall w | w in s.phases ::
          s.phases[w] == Failed(Refused) ==> start.state != AVAILABLE && start.state != CONSUMED)
    && (s.successes > 0 ==>
          && s.remote == Target(op, start)
          && s.local.state == s.remote.state == CONSUMED && s.local.store == s.remote.store
          && s.local.summary == SafeRaw(s.remote.raw)
          && s.local.consumedAt.Some? && s.local.lastRequest == Some(op.request))
  }

  lemma StepKeepsInv(op: Operation, start: Remote, s: State, e: Event)
    requires Inv(op, start, s) && ResultsAreConsumed(s) && Enabled(s, e) && IsOwn(e)
    ensures Inv(op, start, Apply(op, s, e))
    ensures s.successes > 0 ==> Apply(op, s, e).local.consumedAt == s.local.consumedAt
  {
    if e.Probe? || e.Store? { assert PhaseOf(s, e.w) == s.phases[e.w]; }
  }

  lemma {:induction false} RunKeepsInv(op: Operation, ss: seq<State>, es: seq<Event>, i: nat)
    requires IsRun(op, ss, es) && Alone(es) && i < |ss|
    ensures Inv(op, ss[0].remote, ss[i])
  {
    if i > 0 {
      RunKeepsInv(op, ss, es, i - 1);
      SuccessMeansConsumed(op, ss, es, i - 1);
      assert Enabled(ss[i - 1], es[i - 1]) && ss[i] == Apply(op, ss[i - 1], es[i - 1]);
      StepKeepsInv(op, ss[0].remote, ss[i - 1], es[i - 1]);
    }
  }

  /** Whatever is lost, delayed, repeated or cut off, the operation consumes the remote voucher at
      most once, and only if it was available at the start. */
  lemma ConsumedAtMostOnce(op: Operation, ss: seq<State>, es: seq<Event>, i: nat)
    requires IsRun(op, ss, es) && Alone(es) && i < |ss|
    ensures ss[i].consumptions <= 1
    ensures ss[i].consumptions == 1 ==>
              ss[0].remote.state == AVAILABLE && ss[i].remote == Remote(CONSUMED, Some(op.store), ss[0].remote.raw)
  {
    RunKeepsInv(op, ss, es, i);
    ConsumptionsAreRevokedOrHold(op, ss, es, i);
    NothingIsRevoked(op, ss, es, i);
  }

  lemma {:induction false} NothingIsRevoked(op: Operation, ss: seq<State>, es: seq<Event>, i: nat)
    requires IsRun(op, ss, es) && Alone(es) && i < |ss|
    ensures ss[i].revocations == 0
    ensures ss[0].remote.state == CONSUMED ==> ss[i].consumptions == 0
  {
    if i > 0 {
      NothingIsRevoked(op, ss, es, i - 1);
      RunKeepsInv(op, ss, es, i - 1);
      assert Enabled(ss[i - 1], es[i - 1]) && ss[i] == Apply(op, ss[i - 1], es[i - 1]) && IsOwn(es[i - 1]);
    }
  }

  /** Once the operation succeeded, the remote and the local voucher are consumed and agree on the
      store, and the request number is recorded. The store is the requested one exactly when the
      voucher had not already been consumed elsewhere before the operation. */
  lemma SuccessSettlesBothSides(op: Operation, ss: seq<State>, es: seq<Event>, i: nat)
    requires IsRun(op, ss, es) && Alone(es) && i < |ss| && ss[i].successes > 0
    ensures ss[i].remote.state == CONSUMED && ss[i].local.state == CONSUMED
    ensures ss[i].local.store == ss[i].remote.store && ss[i].local.lastRequest == Some(op.request)
    ensures ss[i].local.store == Some(op.store)
            <==> !(ss[0].remote.state == CONSUMED && ss[0].remote.store != Some(op.store))
  {
    RunKeepsInv(op, ss, es, i);
  }

  /** After the first success no later attempt, arrival or crash changes the remote or the local
      voucher, not even the recorded time of consumption; only the time of the last synchronisation
      moves. */
  lemma {:induction false} SuccessIsStable(op: Operation, ss: seq<State>, es: seq<Event>, i: nat, j: nat)
    requires IsRun(op, ss, es) && Alone(es) && i <= j < |ss| && ss[i].successes > 0
    ensures ss[j].successes > 0 && ss[j].remote == ss[i].remote
    ensures ss[j].local == ss[i].local.(syncedAt := ss[j].local.syncedAt)
  {
    if i < j {
      SuccessIsStable(op, ss, es, i, j - 1);
      RunKeepsInv(op, ss, es, j - 1);
      RunKeepsInv(op, ss, es, j);
      SuccessMeansConsumed(op, ss, es, j - 1);
      assert Enabled(ss[j - 1], es[j - 1]) && ss[j] == Apply(op, ss[j - 1], es[j - 1]) && IsOwn(es[j - 1]);
      StepKeepsInv(op, ss[0].remote, ss[j - 1], es[j - 1]);
    }
  }

  /** No retry is ever refused on account of an earlier attempt: the operation is refused only if the
      voucher was neither available nor consumed from the start. */
  lemma RetriesAreNotRefused(op: Operation, ss: seq<State>, es: seq<Event>, i: nat, w: Worker)
    requires IsRun(op, ss, es) && Alone(es) && i < |ss| && PhaseOf(ss[i], w) == Failed(Refused)
    ensures ss[0].remote.state != AVAILABLE && ss[0].remote.state != CONSUMED
    ensures ss[i].remote == ss[0].remote && ss[i].successes == 0
  {
    RunKeepsInv(op, ss, es, i);
  }

  /** Whatever happened before, the next attempt whose request arrives succeeds when its reply
      arrives too. When the reply is lost and the look-up works, it succeeds exactly when the voucher
      was not already consumed at another store before the operation: what a reply reports as
      success, a look-up then reports as failure. */
  lemma NextAttemptSucceeds(op: Operation, ss: seq<State>, es: seq<Event>, i: nat, w: Worker, net: Net)
    requires IsRun(op, ss, es) && Alone(es) && i < |ss| && PhaseOf(ss[i], w).Idle? && Arrives(net)
    requires ss[0].remote.state == AVAILABLE || ss[0].remote.state == CONSUMED
    ensures var start, sent := ss[0].remote, Apply(op, ss[i], Send(w, net));
            && (net.Answer? ==> PhaseOf(sent, w) == Answered(Target(op, start), false))
            && (net.LostReply? && InDoubt(net.trouble) ==>
                  && Enabled(sent, Probe(w, None))
                  && (PhaseOf(Apply(op, sent, Probe(w, None)), w).Answered?
                      <==> !(start.state == CONSUMED && start.store.Some? && start.store.value != op.store)))
  {
    RunKeepsInv(op, ss, es, i);
  }

  /** An uninterrupted attempt is the handler's run: sending, looking up if in doubt, storing. */
  lemma AttemptIsTheHandler(op: Operation, s: State, w: Worker, net: Net, probe: Option<Trouble>, now: int)
    requires PhaseOf(s, w).Idle?
    ensures var sent := Apply(op, s, Send(w, net));
            var ended := if PhaseOf(sent, w).Doubtful? then Apply(op, sent, Probe(w, probe)) else sent;
            && PhaseOf(ended, w) == FinalPhase(s.remote, op.store, net, probe)
            && ended.remote == (if Arrives(net) then AfterConsume(s.remote, op.store) else s.remote)
            && (PhaseOf(ended, w).Answered? ==>
                  Apply(op, ended, Store(w, now)).local == Stored(s.local, PhaseOf(ended, w).result, op.request, now))
  {
  }
}
