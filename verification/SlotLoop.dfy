/** One worker slot alternating between webhooks and operations (backend/poi_admin/worker.py and
    `run_once` in backend/poi_admin/operations/worker.py). */
module SlotLoop {

  /** What a claim of each queue would find during one cycle. */
  datatype Offer = Offer(operation: bool, webhook: bool)

  datatype Work = Operation | Webhook | Nothing

  /** One cycle: the preferred queue is asked first, and the other one if that is empty. */
  method RunOnce(preferWebhook: bool, offer: Offer) returns (work: Work)
    ensures work == Chosen(preferWebhook, offer)
  {
    if preferWebhook && offer.webhook { return Webhook; }
    if !offer.operation {
      if !preferWebhook && offer.webhook { return Webhook; }
      return Nothing;
    }
    return Operation;
  }

  function Chosen(preferWebhook: bool, offer: Offer): Work {
    if offer.operation && offer.webhook then (if preferWebhook then Webhook else Operation)
    else if offer.operation then Operation
    else if offer.webhook then Webhook
    else Nothing
  }

  /** The preference in cycle i: even slots start with webhooks, and it flips whenever a cycle found
      something to do. */
  function Preference(slot: nat, offers: seq<Offer>, i: nat): bool
    requires i <= |offers|
  {
    if i == 0 then slot % 2 == 0
    else
      var before := Preference(slot, offers, i - 1);
      if offers[i - 1].operation || offers[i - 1].webhook then !before else before
  }

  /** The preferred queue is served whenever it has something, the other one only when that has nothing;
      even slots prefer webhooks first, and the preference flips exactly after a cycle that served one. */
  lemma ServiceIs(slot: nat, offers: seq<Offer>, i: nat)
    requires i < |offers|
    ensures var work, prefersWebhooks := WorkAt(slot, offers, i), Preference(slot, offers, i);
            && (work == Webhook <==> offers[i].webhook && (prefersWebhooks || !offers[i].operation))
            && (work == Operation <==> offers[i].operation && (!prefersWebhooks || !offers[i].webhook))
            && (Preference(slot, offers, i + 1) != prefersWebhooks <==> work != Nothing)
            && (Preference(slot, offers, 0) <==> slot % 2 == 0)
  {
  }

  /** What the slot does in cycle i. */
  function WorkAt(slot: nat, offers: seq<Offer>, i: nat): Work
    requires i < |offers|
  {
    Chosen(Preference(slot, offers, i), offers[i])
  }

  /** How many cycles of the current burst came before cycle i: a burst ends with a cycle that found
      nothing, or when it is full. */
  function BurstPosition(slot: nat, burst: nat, offers: seq<Offer>, i: nat): nat
    requires burst >= 1 && i <= |offers|
  {
    if i == 0 || WorkAt(slot, offers, i - 1) == Nothing then 0
    else
      var next := BurstPosition(slot, burst, offers, i - 1) + 1;
      if next == burst then 0 else next
  }

  /** The slot sleeps after cycle i: the first of its burst, and it found nothing. */
  predicate SleepsAfter(slot: nat, burst: nat, offers: seq<Offer>, i: nat)
    requires burst >= 1 && i < |offers|
  {
    WorkAt(slot, offers, i) == Nothing && BurstPosition(slot, burst, offers, i) == 0
  }

  /** One burst from cycle `start` on: it ends with a cycle that found nothing, when it is full, or at
      the last offer. */
  method RunBurst(slot: nat, burst: nat, offers: seq<Offer>, start: nat, preference: bool)
    returns (log: seq<Work>, processed: nat, preferWebhook: bool)
    requires burst >= 1 && start < |offers|
    requires preference == Preference(slot, offers, start) && BurstPosition(slot, burst, offers, start) == 0
    ensures 1 <= |log| <= |offers| - start && processed <= |log| <= processed + 1
    ensures forall k | start <= k < start + |log| :: log[k - start] == WorkAt(slot, offers, k)
    ensures forall k | start <= k < start + |log| :: SleepsAfter(slot, burst, offers, k) <==> processed == 0
    ensures preferWebhook == Preference(slot, offers, start + |log|)
    ensures start + |log| < |offers| ==> BurstPosition(slot, burst, offers, start + |log|) == 0
  {
    log, processed, preferWebhook := [], 0, preference;
    while processed < burst && start + processed < |offers|
      invariant processed == |log| <= burst && start + |log| <= |offers|
      invariant preferWebhook == Preference(slot, offers, start + |log|)
      invariant forall k | start <= k < start + |log| :: log[k - start] == WorkAt(slot, offers, k) != Nothing
      invariant BurstPosition(slot, burst, offers, start + |log|) == if |log| < burst then |log| else 0
    {
      var work := RunOnce(preferWebhook, offers[start + processed]);
      log := log + [work];
      if work == Nothing { return; }
      processed := processed + 1;
      preferWebhook := !preferWebhook;
    }
  }

  /** The slot over as many cycles as there are offers. Bursts decide only when it sleeps: what it
      does in each cycle is the same for every burst size. It sleeps exactly after a burst whose first
      cycle found nothing. */
  method RunSlot(slot: nat, burst: nat, offers: seq<Offer>) returns (log: seq<Work>, slept: seq<bool>)
    requires burst >= 1
    ensures |log| == |slept| == |offers|
    ensures forall i | 0 <= i < |offers| :: log[i] == WorkAt(slot, offers, i)
    ensures forall i | 0 <= i < |offers| :: slept[i] == SleepsAfter(slot, burst, offers, i)
  {
    log, slept := [], [];
    var preferWebhook := slot % 2 == 0;
    while |log| < |offers|
      invariant |slept| == |log| <= |offers|
      invariant preferWebhook == Preference(slot, offers, |log|)
      invariant |log| < |offers| ==> BurstPosition(slot, burst, offers, |log|) == 0
      invariant forall i | 0 <= i < |log| :: log[i] == WorkAt(slot, offers, i)
      invariant forall i | 0 <= i < |log| :: slept[i] == SleepsAfter(slot, burst, offers, i)
    {
      var done, processed;
      ghost var start := |log|;
      done, processed, preferWebhook := RunBurst(slot, burst, offers, |log|, preferWebhook);
      log, slept := log + done, slept + seq(|done|, _ => processed == 0);
      assert forall k | start <= k < |log| :: log[k] == done[k - start] && slept[k] == (processed == 0);
    }
  }

  /** So it never sleeps after a cycle that found something, and always after the second of two that did
      not. */
  lemma SleepsAre(slot: nat, burst: nat, offers: seq<Offer>, i: nat)
    requires burst >= 1 && i < |offers|
    ensures SleepsAfter(slot, burst, offers, i) ==> WorkAt(slot, offers, i) == Nothing
    ensures WorkAt(slot, offers, i) == Nothing && i > 0 && WorkAt(slot, offers, i - 1) == Nothing ==>
              SleepsAfter(slot, burst, offers, i)
    ensures WorkAt(slot, offers, i) == Nothing && i == 0 ==> SleepsAfter(slot, burst, offers, i)
  {
  }

  /** A burst goes on through cycles that find something until it is full, and the next one starts
      there. */
  lemma {:induction false} BurstsFill(slot: nat, burst: nat, offers: seq<Offer>, i: nat, j: nat)
    requires burst >= 1 && i <= j <= |offers| && j <= i + burst && BurstPosition(slot, burst, offers, i) == 0
    requires forall k | i <= k < j :: WorkAt(slot, offers, k) != Nothing
    ensures BurstPosition(slot, burst, offers, j) == if j == i + burst then 0 else j - i
    decreases j
  {
    if i < j {
      assert WorkAt(slot, offers, j - 1) != Nothing;
      BurstsFill(slot, burst, offers, i, j - 1);
    }
  }

  /** Cycles i and j both found something, and no cycle between them did. */
  predicate ConsecutiveProductive(slot: nat, offers: seq<Offer>, i: nat, j: nat) {
    && i < j < |offers|
    && WorkAt(slot, offers, i) != Nothing && WorkAt(slot, offers, j) != Nothing
    && forall k | i < k < j :: WorkAt(slot, offers, k) == Nothing
  }

  lemma {:induction false} IdleCyclesKeepThePreference(slot: nat, offers: seq<Offer>, i: nat, j: nat)
    requires i <= j <= |offers| && forall k | i <= k < j :: WorkAt(slot, offers, k) == Nothing
    ensures Preference(slot, offers, j) == Preference(slot, offers, i)
  {
    if i < j {
      IdleCyclesKeepThePreference(slot, offers, i, j - 1);
      assert WorkAt(slot, offers, j - 1) == Nothing;
    }
  }

  /** Neither queue starves the other: of two consecutive productive cycles in which an operation can
      be claimed, one processes an operation, and likewise for webhooks. */
  lemma NeitherQueueStarves(slot: nat, offers: seq<Offer>, i: nat, j: nat)
    requires ConsecutiveProductive(slot, offers, i, j)
    ensures offers[i].operation && offers[j].operation ==>
              WorkAt(slot, offers, i) == Operation || WorkAt(slot, offers, j) == Operation
    ensures offers[i].webhook && offers[j].webhook ==>
              WorkAt(slot, offers, i) == Webhook || WorkAt(slot, offers, j) == Webhook
  {
    IdleCyclesKeepThePreference(slot, offers, i + 1, j);
  }

  function Count(slot: nat, offers: seq<Offer>, lo: nat, hi: nat, work: Work): nat
    requires lo <= hi <= |offers|
    decreases hi
  {
    if lo == hi then 0
    else Count(slot, offers, lo, hi - 1, work) + if WorkAt(slot, offers, hi - 1) == work then 1 else 0
  }

  /** Every cycle serves one of the queues or nothing. */
  lemma {:induction false} CountsAddUp(slot: nat, offers: seq<Offer>, lo: nat, hi: nat)
    requires lo <= hi <= |offers|
    ensures Count(slot, offers, lo, hi, Operation) + Count(slot, offers, lo, hi, Webhook)
            + Count(slot, offers, lo, hi, Nothing) == hi - lo
    decreases hi
  {
    if lo < hi { CountsAddUp(slot, offers, lo, hi - 1); }
  }

  /** The least number of operations, and of webhooks, a slot processes over a stretch of cycles in
      which that queue always has something: half of the cycles, whatever the other queue holds. */
  lemma {:induction false} EachQueueGetsHalf(slot: nat, offers: seq<Offer>, lo: nat, hi: nat)
    requires lo <= hi <= |offers|
    ensures (forall k | lo <= k < hi :: offers[k].operation) ==>
              Count(slot, offers, lo, hi, Operation) >= (hi - lo) / 2
    ensures (forall k | lo <= k < hi :: offers[k].webhook) ==>
              Count(slot, offers, lo, hi, Webhook) >= (hi - lo) / 2
    decreases hi
  {
    if hi - lo >= 2 {
      EachQueueGetsHalf(slot, offers, lo, hi - 2);
      if offers[hi - 2] != Offer(false, false) && offers[hi - 1] != Offer(false, false) {
        NeitherQueueStarves(slot, offers, hi - 2, hi - 1);
      }
    }
  }
}
