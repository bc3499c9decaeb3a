/** Commands read a product and commit later; nothing ties the commit to the row that was read
    (backend/poi_admin/local_life/products.py). This module says which results about commands depend
    on that, and exactly when they hold: each one holds over a run if and only if every commit of
    the run passes a test that could be made on the stored rows just before it. Commits that find the
    version their request had read pass all of these tests. */
module ProductOverlap {
  import opened Wrappers
  import opened Products
  import opened ProductRuns

  /** What an optimistic lock would enforce: the commit finds the version its request had read. */
  predicate FindsItsVersion(s: State, t: Ticket) {
    s.product.version == t.seen.version
  }

  /** All commits among events 0, ..., n - 1 find the version their requests had read. */
  predicate Checked(ss: seq<State>, es: seq<Event>, n: nat)
    requires n <= |es| <= |ss|
  {
    forall k | 0 <= k < n :: IsChecked(ss[k], es[k])
  }

  predicate IsChecked(s: State, e: Event) {
    Commits(s, e) ==> FindsItsVersion(s, s.tickets[e.c])
  }

  lemma CheckedGrows(ss: seq<State>, es: seq<Event>, s: State, e: Event)
    requires |ss| == |es| + 1
    ensures Checked(ss + [s], es + [e], |es| + 1) <==> Checked(ss, es, |es|) && IsChecked(ss[|es|], e)
  {
    var ss', es' := ss + [s], es + [e];
    assert forall k | 0 <= k < |es| :: ss'[k] == ss[k] && es'[k] == es[k];
    assert ss'[|es|] == ss[|es|] && es'[|es|] == e;
    if Checked(ss, es, |es|) && IsChecked(ss[|es|], e) {
      forall k | 0 <= k < |es| + 1 ensures IsChecked(ss'[k], es'[k]) {
        if k < |es| { assert IsChecked(ss[k], es[k]); }
      }
    }
    if Checked(ss', es', |es| + 1) {
      forall k | 0 <= k < |es| ensures IsChecked(ss[k], es[k]) { assert IsChecked(ss'[k], es'[k]); }
      assert IsChecked(ss'[|es|], es'[|es|]);
    }
  }

  ghost predicate VersionsDistinct(s: State) {
    forall a, b | IsIntent(s, a) && IsIntent(s, b) && s.intents[a].targetVersion == s.intents[b].targetVersion :: a == b
  }

  /* ---- Runs whose commits are checked ---- */

  predicate TicketFresh(s: State, t: Ticket) {
    t.seen.version <= s.product.version && (t.seen.version == s.product.version ==> t.seen == s.product)
  }

  predicate CurrentOk(s: State, i: Intent) {
    i.Intent? ==>
      && i.targetVersion <= s.product.version
      && (i.targetVersion == s.product.version ==>
            && s.product.desired == i.target
            && (s.product.remote == Some(i.source) || s.product.remote == Some(i.target))
            && s.product.content == i.recorded)
  }

  ghost predicate CheckedInv(s: State) {
    && Inv(s) && VersionsDistinct(s)
    && (forall c | c in s.tickets :: TicketFresh(s, s.tickets[c]))
    && (forall op | op in s.intents :: CurrentOk(s, s.intents[op]))
  }

  lemma CommitKeepsCheckedInv(s: State, e: Event)
    requires CheckedInv(s) && Enabled(s, e) && Commits(s, e) && FindsItsVersion(s, s.tickets[e.c])
    ensures CheckedInv(Apply(s, e))
  {
    StepKeepsInv(s, e);
    var s', t := Apply(s, e), s.tickets[e.c];
    assert TicketFresh(s, t) && TicketOk(s, t);
    forall c | c in s'.tickets ensures TicketFresh(s', s'.tickets[c]) { assert TicketFresh(s, s.tickets[c]); }
    forall op | op in s'.intents ensures CurrentOk(s', s'.intents[op]) {
      if op in s.intents { assert CurrentOk(s, s.intents[op]); }
    }
    forall a, b | IsIntent(s', a) && IsIntent(s', b) && s'.intents[a].targetVersion == s'.intents[b].targetVersion
      ensures a == b
    {
      if a in s.intents { assert CurrentOk(s, s.intents[a]); }
      if b in s.intents { assert CurrentOk(s, s.intents[b]); }
      if a != t.request.key && b != t.request.key { assert IsIntent(s, a) && IsIntent(s, b); }
    }
  }

  lemma StepKeepsCheckedInv(s: State, e: Event)
    requires CheckedInv(s) && Enabled(s, e)
    requires IsChecked(s, e)
    ensures CheckedInv(Apply(s, e))
  {
    if Commits(s, e) {
      CommitKeepsCheckedInv(s, e);
    } else {
      StepKeepsInv(s, e);
      var s' := Apply(s, e);
      if e.Run? && s.intents[e.op].Intent? {
        HandlerEffect(s, e.op, e.reply);
        assert CurrentOk(s, s.intents[e.op]);
      }
      forall c | c in s'.tickets ensures TicketFresh(s', s'.tickets[c]) {
        if c in s.tickets { assert TicketFresh(s, s.tickets[c]) && TicketOk(s, s.tickets[c]); }
      }
      forall op | op in s'.intents ensures CurrentOk(s', s'.intents[op]) { assert CurrentOk(s, s.intents[op]); }
      assert forall op | IsIntent(s', op) :: IsIntent(s, op);
    }
  }

  lemma {:induction false} CheckedRunKeepsInv(ss: seq<State>, es: seq<Event>, i: nat)
    requires IsRun(ss, es) && i < |ss| && Checked(ss, es, i)
    ensures CheckedInv(ss[i])
  {
    if i > 0 {
      CheckedRunKeepsInv(ss, es, i - 1);
      assert Enabled(ss[i - 1], es[i - 1]) && ss[i] == Apply(ss[i - 1], es[i - 1]) && IsChecked(ss[i - 1], es[i - 1]);
      StepKeepsCheckedInv(ss[i - 1], es[i - 1]);
    }
  }

  /* ---- Versions ---- */

  ghost predicate IsRecorded(s: State, version: int) {
    exists op :: IsIntent(s, op) && s.intents[op].targetVersion == version
  }

  /** Every version so far, but the first, was recorded by some operation. */
  ghost predicate Covered(s: State) {
    forall v | 1 < v <= s.product.version :: IsRecorded(s, v)
  }

  lemma {:induction false} CheckedRunsCover(ss: seq<State>, es: seq<Event>, n: nat)
    requires IsRun(ss, es) && n <= |es| && Checked(ss, es, n) && NoCallback(es, 0, n)
    ensures Covered(ss[n])
  {
    if n > 0 {
      CheckedRunsCover(ss, es, n - 1);
      var s, e := ss[n - 1], es[n - 1];
      assert Enabled(s, e) && ss[n] == Apply(s, e);
      RunKeepsInv(ss, es, n - 1);
      StepKeepsInv(s, e);
      if e.Run? { HandlerOutcome(s.product, s.intents[e.op], e.reply); }
      forall v | 1 < v <= ss[n].product.version ensures IsRecorded(ss[n], v) {
        if v <= s.product.version {
          assert IsRecorded(s, v);
          var op :| IsIntent(s, op) && s.intents[op].targetVersion == v;
          assert IsIntent(ss[n], op);
        } else {
          assert IsIntent(ss[n], s.tickets[e.c].request.key);
        }
      }
    }
  }

  lemma UncheckedCommitCollides(s: State, e: Event)
    requires CheckedInv(s) && Covered(s) && Enabled(s, e) && Commits(s, e) && !FindsItsVersion(s, s.tickets[e.c])
    ensures !VersionsDistinct(Apply(s, e))
  {
    var t, s' := s.tickets[e.c], Apply(s, e);
    assert TicketFresh(s, t) && TicketOk(s, t);
    var v := t.seen.version + 1;
    assert IsRecorded(s, v);
    var op :| IsIntent(s, op) && s.intents[op].targetVersion == v;
    assert IsIntent(s', op) && IsIntent(s', t.request.key) && op != t.request.key;
  }

  /** Without callbacks, target versions are distinct exactly when every commit found the version its
      request had read. */
  lemma {:induction false} TargetVersionsAreDistinctExactlyWhenChecked(ss: seq<State>, es: seq<Event>, n: nat)
    requires IsRun(ss, es) && n <= |es| && NoCallback(es, 0, n)
    ensures VersionsDistinct(ss[n]) <==> Checked(ss, es, n)
  {
    if Checked(ss, es, n) {
      CheckedRunKeepsInv(ss, es, n);
    } else if n > 0 {
      var s, e := ss[n - 1], es[n - 1];
      assert Enabled(s, e) && ss[n] == Apply(s, e);
      TargetVersionsAreDistinctExactlyWhenChecked(ss, es, n - 1);
      if Checked(ss, es, n - 1) {
        CheckedRunKeepsInv(ss, es, n - 1);
        CheckedRunsCover(ss, es, n - 1);
        UncheckedCommitCollides(s, e);
      } else {
        var a, b :| IsIntent(s, a) && IsIntent(s, b) && a != b
                    && s.intents[a].targetVersion == s.intents[b].targetVersion;
        IntentsStay(ss, es, n - 1, n, a);
        IntentsStay(ss, es, n - 1, n, b);
        assert IsIntent(ss[n], a) && IsIntent(ss[n], b);
      }
    }
  }

  /* ---- Tests on a commit ---- */

  /** The stored product is at the start or the end of the way from `source` to `target`. */
  predicate OnTheWay(p: Product, source: ProductStatus, target: ProductStatus) {
    p.remote == Some(source) || p.remote == Some(target)
  }

  /** The operation already recorded the version the ticket is about to store. */
  predicate SharesVersion(s: State, t: Ticket, op: OpId) {
    IsIntent(s, op) && s.intents[op].targetVersion == t.seen.version + 1
  }

  /** The desired state and content the commit leaves, and the stored remote status, suit the
      operation of the ticket. */
  predicate SuitsTicket(s: State, t: Ticket) {
    DesiredAfter(s.product, t) == TargetFor(t) && OnTheWay(s.product, t.seen.desired, TargetFor(t))
  }

  predicate Suits(s: State, t: Ticket, op: OpId)
    requires op in s.intents && s.intents[op].Intent?
  {
    DesiredAfter(s.product, t) == s.intents[op].target
    && OnTheWay(s.product, s.intents[op].source, s.intents[op].target)
  }

  /** The commit suits its own operation and all that recorded the same version. */
  predicate SuitsAll(s: State, t: Ticket) {
    SuitsTicket(s, t) && forall op | op in s.intents && SharesVersion(s, t, op) :: Suits(s, t, op)
  }

  /** The commit takes the version no further back than to the newest one, and suits some operation
      of that version. */
  predicate SuitsTheNewest(s: State, t: Ticket) {
    && (forall op | op in s.intents && IsIntent(s, op) :: s.intents[op].targetVersion <= t.seen.version + 1)
    && (SuitsTicket(s, t) || exists op | op in s.intents && SharesVersion(s, t, op) :: Suits(s, t, op))
  }

  /** The request read the target of every operation of the version it read, and every operation of
      the version after its own read its target. */
  predicate Links(s: State, t: Ticket) {
    && (forall op | op in s.intents && IsIntent(s, op) && s.intents[op].targetVersion == t.seen.version ::
          s.intents[op].target == t.seen.desired)
    && (forall op | op in s.intents && IsIntent(s, op) && s.intents[op].targetVersion == t.seen.version + 2 ::
          s.intents[op].source == TargetFor(t))
  }

  /** The content the commit leaves is what its own operation records, and what every update of the
      same version has recorded. */
  predicate KeepsContent(s: State, t: Ticket) {
    var content := s.product.content + Changed(t);
    && (!t.request.command.Act? ==> content == t.seen.content + Changed(t))
    && (forall op | op in s.intents && SharesVersion(s, t, op) && !s.intents[op].command.Act? ::
          s.intents[op].recorded == content)
  }

  datatype Test = ForValidation | ForChain | ForNewest | ForContent

  predicate Passes(test: Test, s: State, t: Ticket) {
    match test
    case ForValidation => SuitsAll(s, t)
    case ForChain => Links(s, t)
    case ForNewest => SuitsTheNewest(s, t)
    case ForContent => KeepsContent(s, t)
  }

  /** All commits among events 0, ..., n - 1 pass the test. */
  predicate AllPass(test: Test, ss: seq<State>, es: seq<Event>, n: nat)
    requires n <= |es| <= |ss|
  {
    forall k | 0 <= k < n && Commits(ss[k], es[k]) :: Passes(test, ss[k], ss[k].tickets[es[k].c])
  }

  /** A commit that finds the version its request had read, after others that did, passes every
      test. */
  lemma CheckedCommitsPass(test: Test, ss: seq<State>, es: seq<Event>, n: nat)
    requires IsRun(ss, es) && n <= |es| && Checked(ss, es, n)
    ensures AllPass(test, ss, es, n)
  {
    forall k | 0 <= k < n && Commits(ss[k], es[k]) ensures Passes(test, ss[k], ss[k].tickets[es[k].c]) {
      var s, t := ss[k], ss[k].tickets[es[k].c];
      CheckedRunKeepsInv(ss, es, k);
      assert TicketFresh(s, t) && TicketOk(s, t);
      assert forall op | op in s.intents :: CurrentOk(s, s.intents[op]);
    }
  }

  /* ---- What the tests are for ---- */

  /** Validation is the version check: its checks of desired and remote status reject nothing the
      version check lets through. */
  ghost predicate ValidationIsTheVersionCheck(s: State) {
    forall op | IsIntent(s, op) :: IsValid(s, op) <==> IsCurrent(s, op)
  }

  /** Commands chain: each one starts from the target of the one before it. */
  ghost predicate Chained(s: State) {
    forall a, b | IsIntent(s, a) && IsIntent(s, b) && s.intents[b].targetVersion == s.intents[a].targetVersion + 1 ::
      s.intents[b].source == s.intents[a].target
  }

  /** The operation is the newest command: its version is the product's and the greatest recorded
      one, the product wants its target, and is on the way there. */
  ghost predicate IsNewest(s: State, op: OpId) {
    && IsCurrent(s, op) && s.product.desired == s.intents[op].target
    && OnTheWay(s.product, s.intents[op].source, s.intents[op].target)
    && forall a | IsIntent(s, a) :: s.intents[a].targetVersion <= s.intents[op].targetVersion
  }

  ghost predicate NewestIsCurrent(s: State) {
    (s.product.version > 1 ==> exists op :: IsNewest(s, op))
  }

  /** Current updates find the content they recorded. */
  ghost predicate ContentIsRecorded(s: State) {
    forall op | IsCurrent(s, op) && !s.intents[op].command.Act? :: s.product.content == s.intents[op].recorded
  }

  ghost predicate Holds(test: Test, s: State) {
    match test
    case ForValidation => ValidationIsTheVersionCheck(s)
    case ForChain => Chained(s)
    case ForNewest => NewestIsCurrent(s)
    case ForContent => ContentIsRecorded(s)
  }

  /** Without callbacks the remote status is always known. */
  lemma {:induction false} StatusIsKnown(ss: seq<State>, es: seq<Event>, i: nat)
    requires IsRun(ss, es) && i < |ss| && NoCallback(es, 0, i)
    ensures ss[i].product.remote.Some?
  {
    if i > 0 {
      StatusIsKnown(ss, es, i - 1);
      assert Enabled(ss[i - 1], es[i - 1]) && ss[i] == Apply(ss[i - 1], es[i - 1]);
    }
  }

  lemma CommitDecidesValidation(s: State, e: Event)
    requires Inv(s) && s.product.remote.Some? && Enabled(s, e) && Commits(s, e)
    ensures ValidationIsTheVersionCheck(Apply(s, e)) <==> SuitsAll(s, s.tickets[e.c])
  {
    var s', t := Apply(s, e), s.tickets[e.c];
    var key := t.request.key;
    assert IsCurrent(s', key) && s'.intents[key] == IntentFor(t);
    assert IsValid(s', key) <==> SuitsTicket(s, t);
    forall op | op in s.intents && s.intents[op].Intent?
      ensures IsIntent(s', op) && (IsCurrent(s', op) <==> SharesVersion(s, t, op))
      ensures IsValid(s', op) <==> SharesVersion(s, t, op) && Suits(s, t, op)
    {
    }
    if SuitsAll(s, t) {
      forall op | IsIntent(s', op) ensures IsValid(s', op) <==> IsCurrent(s', op) {
        if op != key { assert op in s.intents && s.intents[op].Intent?; }
      }
    }
  }

  lemma CommitDecidesChain(s: State, e: Event)
    requires Inv(s) && Enabled(s, e) && Commits(s, e) && Chained(s)
    ensures Chained(Apply(s, e)) <==> Links(s, s.tickets[e.c])
  {
    var s', t := Apply(s, e), s.tickets[e.c];
    var key := t.request.key;
    assert IsIntent(s', key) && s'.intents[key] == IntentFor(t);
    assert forall op | op in s.intents && s.intents[op].Intent? :: IsIntent(s', op) && s'.intents[op] == s.intents[op];
    if Links(s, t) {
      forall a, b | IsIntent(s', a) && IsIntent(s', b) && s'.intents[b].targetVersion == s'.intents[a].targetVersion + 1
        ensures s'.intents[b].source == s'.intents[a].target
      {
        if a != key { assert IsIntent(s, a); }
        if b != key { assert IsIntent(s, b); }
      }
    }
  }

  lemma CommitDecidesNewest(s: State, e: Event)
    requires Inv(s) && Enabled(s, e) && Commits(s, e)
    ensures NewestIsCurrent(Apply(s, e)) <==> SuitsTheNewest(s, s.tickets[e.c])
  {
    var s', t := Apply(s, e), s.tickets[e.c];
    var key := t.request.key;
    assert TicketOk(s, t);
    assert IsCurrent(s', key) && s'.intents[key] == IntentFor(t);
    assert forall op | op in s.intents && s.intents[op].Intent? :: IsIntent(s', op) && s'.intents[op] == s.intents[op];
    if SuitsTheNewest(s, t) {
      assert forall a | IsIntent(s', a) :: a == key || IsIntent(s, a);
      if SuitsTicket(s, t) {
        assert IsNewest(s', key);
      } else {
        var op :| op in s.intents && SharesVersion(s, t, op) && Suits(s, t, op);
        assert IsNewest(s', op);
      }
    }
    if NewestIsCurrent(s') {
      var op :| IsNewest(s', op);
      if op != key { assert SharesVersion(s, t, op) && Suits(s, t, op); }
    }
  }

  lemma CommitDecidesContent(s: State, e: Event)
    requires Inv(s) && Enabled(s, e) && Commits(s, e)
    ensures ContentIsRecorded(Apply(s, e)) <==> KeepsContent(s, s.tickets[e.c])
  {
    var s', t := Apply(s, e), s.tickets[e.c];
    var key := t.request.key;
    assert IsCurrent(s', key) && s'.intents[key] == IntentFor(t);
    forall op | op in s.intents && s.intents[op].Intent?
      ensures IsCurrent(s', op) <==> SharesVersion(s, t, op)
      ensures s'.intents[op] == s.intents[op]
    {
    }
    if KeepsContent(s, t) {
      forall op | IsCurrent(s', op) && !s'.intents[op].command.Act?
        ensures s'.product.content == s'.intents[op].recorded
      {
        if op != key { assert SharesVersion(s, t, op); }
      }
    }
  }

  lemma OtherStepsKeep(test: Test, s: State, e: Event)
    requires Inv(s) && s.product.remote.Some? && Enabled(s, e) && !Commits(s, e) && !e.Callback? && Holds(test, s)
    ensures Holds(test, Apply(s, e))
  {
    var s' := Apply(s, e);
    if e.Run? && s.intents[e.op].Intent? { HandlerEffect(s, e.op, e.reply); }
    if e.Run? { HandlerOutcome(s.product, s.intents[e.op], e.reply); }
    assert forall op | op in s.intents :: IntentOk(s, s.intents[op]);
    assert forall op :: IsIntent(s', op) <==> IsIntent(s, op);
    match test
    case ForValidation =>
      forall op | IsIntent(s', op) ensures IsValid(s', op) <==> IsCurrent(s', op) {
        assert IsValid(s, op) <==> IsCurrent(s, op);
      }
    case ForNewest =>
      if s'.product.version > 1 {
        var op :| IsNewest(s, op);
        assert IsNewest(s', op);
      }
    case _ =>
  }

  lemma StepDecides(test: Test, s: State, e: Event)
    requires Inv(s) && s.product.remote.Some? && Enabled(s, e) && !e.Callback? && Holds(test, s)
    ensures Holds(test, Apply(s, e)) <==> (Commits(s, e) ==> Passes(test, s, s.tickets[e.c]))
  {
    if !Commits(s, e) {
      OtherStepsKeep(test, s, e);
    } else {
      match test
      case ForValidation => CommitDecidesValidation(s, e);
      case ForChain => CommitDecidesChain(s, e);
      case ForNewest => CommitDecidesNewest(s, e);
      case ForContent => CommitDecidesContent(s, e);
    }
  }

  /** The four results over whole callback-free runs: validation is the version check, commands
      chain, the newest command is current, and updates send their own content, in every state up
      to the n-th, if and only if every commit before it passes the test of that result. */
  lemma {:induction false} HoldsExactlyWhenCommitsPass(test: Test, ss: seq<State>, es: seq<Event>, n: nat)
    requires IsRun(ss, es) && n <= |es| && NoCallback(es, 0, n)
    ensures (forall i | 0 <= i <= n :: Holds(test, ss[i])) <==> AllPass(test, ss, es, n)
  {
    if n > 0 {
      HoldsExactlyWhenCommitsPass(test, ss, es, n - 1);
      var s, e := ss[n - 1], es[n - 1];
      assert Enabled(s, e) && ss[n] == Apply(s, e);
      RunKeepsInv(ss, es, n - 1);
      StatusIsKnown(ss, es, n - 1);
      if Holds(test, s) { StepDecides(test, s, e); }
    }
  }

  /** So all four hold throughout every callback-free run whose commits find the version their
      requests had read. */
  lemma CheckedRunsKeepAll(test: Test, ss: seq<State>, es: seq<Event>, i: nat)
    requires IsRun(ss, es) && i <= |es| && NoCallback(es, 0, i) && Checked(ss, es, i)
    ensures Holds(test, ss[i])
  {
    CheckedCommitsPass(test, ss, es, i);
    HoldsExactlyWhenCommitsPass(test, ss, es, i);
  }

  /** With callbacks too, as long as commits are checked: at most one update or action matches the
      product's version, it validates exactly then, and it finds the content it recorded. */
  lemma CheckedRunsWithCallbacks(ss: seq<State>, es: seq<Event>, i: nat)
    requires IsRun(ss, es) && i <= |es| && Checked(ss, es, i)
    ensures VersionsDistinct(ss[i]) && ValidationIsTheVersionCheck(ss[i]) && ContentIsRecorded(ss[i])
    ensures forall a, b | IsCurrent(ss[i], a) && IsCurrent(ss[i], b) :: a == b
  {
    CheckedRunKeepsInv(ss, es, i);
    assert forall op | op in ss[i].intents :: CurrentOk(ss[i], ss[i].intents[op]);
  }

  /** An update's gateway call carries the content recorded with its operation in every callback-free
      run whose commits pass the test for it. */
  lemma UpdatesSendTheirOwnContent(ss: seq<State>, es: seq<Event>, i: nat, call: GatewayCall)
    requires IsRun(ss, es) && i < |es| && NoCallback(es, 0, i) && AllPass(ForContent, ss, es, i)
    requires Enabled(ss[i], es[i]) && call in Calls(ss[i], es[i]) && call.UpdateCall?
    ensures es[i].Run? && IsIntent(ss[i], es[i].op) && call.content == ss[i].intents[es[i].op].recorded
  {
    HoldsExactlyWhenCommitsPass(ForContent, ss, es, i);
    assert Holds(ForContent, ss[i]);
    GatewayCallsComeFromACurrentIntent(ss, es, i, call);
  }

  /** While commits are checked no event revives a spent operation, so a finished command acts at
      most once. */
  lemma CheckedRunsReviveNothing(ss: seq<State>, es: seq<Event>, k: nat, op: OpId)
    requires IsRun(ss, es) && k < |es| && Checked(ss, es, k + 1)
    ensures !Revives(ss[k], es[k], op)
  {
    assert Checked(ss, es, k);
    CheckedRunKeepsInv(ss, es, k);
    if IsIntent(ss[k], op) { assert CurrentOk(ss[k], ss[k].intents[op]); }
  }

  /** The tests do fail: two requests that read one settled product and lead to different targets.
      Whichever commits second fails the test for validation, and the operation of the first one is
      current and rejected. */
  lemma OverlappingCommandsFailValidation(s: State, c: Caller, d: Caller)
    requires c in s.tickets && d in s.tickets && c != d
    requires s.tickets[c].request.key != s.tickets[d].request.key
    requires s.tickets[c].request.key !in s.intents && s.tickets[d].request.key !in s.intents
    requires s.tickets[c].seen == s.tickets[d].seen == s.product && s.product.remote == Some(s.product.desired)
    requires TargetFor(s.tickets[c]) != TargetFor(s.tickets[d])
    ensures var s' := Apply(s, Write(c));
            && Commits(s, Write(c)) && Commits(s', Write(d)) && s'.tickets[d] == s.tickets[d]
            && !SuitsAll(s', s'.tickets[d])
            && var s'' := Apply(s', Write(d));
               IsCurrent(s'', s.tickets[c].request.key) && IsCurrent(s'', s.tickets[d].request.key)
               && (TargetFor(s.tickets[d]) != s.product.desired ==> !IsValid(s'', s.tickets[c].request.key))
  {
    var s' := Apply(s, Write(c));
    assert SharesVersion(s', s'.tickets[d], s.tickets[c].request.key);
  }
}
