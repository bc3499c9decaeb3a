/** Cursor pagination with a page limit and detection of repeated cursors
    (backend/poi_admin/local_life/accounting.py). */
module Pagination {
  import opened Wrappers

  /** The cursor sent with a request; the first request sends none. */
  type Cursor = Option<string>

  /** `next` is empty on the last page; a request may also fail. */
  datatype Page<T> = Page(items: seq<T>, next: string) | Broken(code: string)

  type Source<!T> = Cursor -> Page<T>

  datatype PageError = RepeatedCursor | LimitExceeded | GatewayError(code: string)

  const LIMIT := 1000

  /** The cursor of request k, following the chain from the start. */
  function CursorAt<T>(source: Source<T>, k: nat): Cursor {
    if k == 0 then None else Some(NextOf(source(CursorAt(source, k - 1))))
  }

  function PageAt<T>(source: Source<T>, k: nat): Page<T> {
    source(CursorAt(source, k))
  }

  function NextOf<T>(page: Page<T>): string {
    if page.Page? then page.next else ""
  }

  /** Page k leads to another one. */
  predicate GoesOn<T>(source: Source<T>, k: nat) {
    PageAt(source, k).Page? && PageAt(source, k).next != ""
  }

  predicate OpenBefore<T>(source: Source<T>, n: nat) {
    forall k: nat | k < n :: GoesOn(source, k)
  }

  /** Page k is the last one of the chain. */
  predicate IsLast<T>(source: Source<T>, k: nat) {
    PageAt(source, k).Page? && PageAt(source, k).next == "" && OpenBefore(source, k)
  }

  predicate EndsWithin<T>(source: Source<T>, limit: nat) {
    exists k: nat | k < limit :: IsLast(source, k)
  }

  /** Request k fails, and is reached. */
  predicate IsBroken<T>(source: Source<T>, k: nat, code: string) {
    PageAt(source, k) == Broken(code) && OpenBefore(source, k)
  }

  predicate BreaksWithin<T>(source: Source<T>, limit: nat, code: string) {
    exists k: nat | k < limit :: IsBroken(source, k, code)
  }

  /** The items of the first n pages. */
  function Chain<T>(source: Source<T>, n: nat): seq<T> {
    if n == 0 then [] else
      var page := PageAt(source, n - 1);
      Chain(source, n - 1) + if page.Page? then page.items else []
  }

  /** A cursor comes back. */
  predicate RepeatsWithin<T>(source: Source<T>, limit: nat) {
    exists i: nat, j: nat | i < j <= limit :: CursorAt(source, i) == CursorAt(source, j) && OpenBefore(source, j)
  }

  lemma {:induction false} EqualCursorsContinueEqually<T>(source: Source<T>, i: nat, j: nat, d: nat)
    requires CursorAt(source, i) == CursorAt(source, j)
    ensures CursorAt(source, i + d) == CursorAt(source, j + d)
  {
    if d > 0 { EqualCursorsContinueEqually(source, i, j, d - 1); }
  }

  /** A chain that comes back to a cursor never ends and never breaks. */
  lemma {:induction false} RepetitionNeverEnds<T>(source: Source<T>, i: nat, j: nat, k: nat)
    requires i < j && CursorAt(source, i) == CursorAt(source, j) && OpenBefore(source, j)
    ensures GoesOn(source, k)
    decreases k
  {
    if k >= j {
      EqualCursorsContinueEqually(source, i, j, k - j);
      RepetitionNeverEnds(source, i, j, i + (k - j));
    }
  }

  /** The chain stops at one page. */
  lemma StopIsUnique<T>(source: Source<T>, k: nat, l: nat)
    requires OpenBefore(source, k) && !GoesOn(source, k) && OpenBefore(source, l) && !GoesOn(source, l)
    ensures k == l
  {
    assert k < l ==> GoesOn(source, k);
    assert l < k ==> GoesOn(source, l);
  }

  /** The items of all pages up to and including the last one. */
  ghost function WholeList<T>(source: Source<T>): seq<T>
    requires EndsWithin(source, LIMIT)
  {
    var k: nat :| k < LIMIT && IsLast(source, k);
    Chain(source, k + 1)
  }

  /** The cursors named by the first n pages. */
  function Followed<T>(source: Source<T>, n: nat): set<string> {
    if n == 0 then {} else Followed(source, n - 1) + {NextOf(PageAt(source, n - 1))}
  }

  lemma {:induction false} FollowedAreSent<T>(source: Source<T>, n: nat, c: string) returns (k: nat)
    requires c in Followed(source, n)
    ensures 1 <= k <= n && CursorAt(source, k) == Some(c)
  {
    if NextOf(PageAt(source, n - 1)) == c { k := n; } else { k := FollowedAreSent(source, n - 1, c); }
  }

  lemma {:induction false} SentAreFollowed<T>(source: Source<T>, n: nat, k: nat)
    requires 1 <= k <= n
    ensures CursorAt(source, k).Some? && CursorAt(source, k).value in Followed(source, n)
  {
    if k < n { SentAreFollowed(source, n - 1, k); }
  }

  /** The cursors of requests 0 to n are pairwise different. */
  predicate Distinct<T>(source: Source<T>, n: nat) {
    forall i: nat, j: nat | i < j <= n :: CursorAt(source, i) != CursorAt(source, j)
  }

  lemma NewCursorStaysDistinct<T>(source: Source<T>, n: nat)
    requires Distinct(source, n) && NextOf(PageAt(source, n)) !in Followed(source, n)
    ensures Distinct(source, n + 1)
  {
    forall i: nat | i <= n ensures CursorAt(source, i) != CursorAt(source, n + 1) {
      if i > 0 { SentAreFollowed(source, n, i); }
    }
  }

  lemma KnownCursorRepeats<T>(source: Source<T>, n: nat)
    requires n < LIMIT && OpenBefore(source, n + 1) && NextOf(PageAt(source, n)) in Followed(source, n)
    ensures RepeatsWithin(source, LIMIT) && OpenBefore(source, LIMIT)
  {
    var k := FollowedAreSent(source, n, NextOf(PageAt(source, n)));
    assert CursorAt(source, k) == CursorAt(source, n + 1);
    forall m: nat | m < LIMIT ensures GoesOn(source, m) { RepetitionNeverEnds(source, k, n + 1, m); }
  }

  /** A chain that stops at a page has no other outcome. */
  lemma OutcomesExclude<T>(source: Source<T>, k: nat)
    requires k < LIMIT && OpenBefore(source, k) && !GoesOn(source, k)
    ensures !RepeatsWithin(source, LIMIT)
    ensures EndsWithin(source, LIMIT) <==> IsLast(source, k)
    ensures forall code :: BreaksWithin(source, LIMIT, code) <==> IsBroken(source, k, code)
  {
    if RepeatsWithin(source, LIMIT) {
      var i: nat, j: nat :| i < j <= LIMIT && CursorAt(source, i) == CursorAt(source, j) && OpenBefore(source, j);
      RepetitionNeverEnds(source, i, j, k);
    }
    forall l: nat | OpenBefore(source, l) && !GoesOn(source, l) ensures l == k { StopIsUnique(source, k, l); }
    assert forall l: nat | IsLast(source, l) :: OpenBefore(source, l) && !GoesOn(source, l);
    assert forall l: nat, code | IsBroken(source, l, code) :: OpenBefore(source, l) && !GoesOn(source, l);
  }

  lemma OpenChainsHaveNoOutcome<T>(source: Source<T>)
    requires OpenBefore(source, LIMIT)
    ensures !EndsWithin(source, LIMIT) && forall code :: !BreaksWithin(source, LIMIT, code)
  {
    forall l: nat | l < LIMIT ensures !IsLast(source, l) { assert GoesOn(source, l); }
    forall code ensures !BreaksWithin(source, LIMIT, code) {
      forall l: nat | l < LIMIT ensures !IsBroken(source, l, code) { assert GoesOn(source, l); }
    }
  }

  /** Fetches all pages. It succeeds exactly when the chain ends within the limit, and then returns
      the pages of the chain one after the other; it fails with the error of a request exactly when
      the chain breaks there, and at a repetition exactly when a cursor comes back; and no cursor is
      sent twice in any case. */
  method FetchAll<T>(source: Source<T>) returns (r: Result<seq<T>, PageError>, requests: nat)
    ensures r.Ok? <==> EndsWithin(source, LIMIT)
    ensures r.Ok? ==> r.value == WholeList(source) == Chain(source, requests)
    ensures forall code :: r == Err(GatewayError(code)) <==> BreaksWithin(source, LIMIT, code)
    ensures r == Err(RepeatedCursor) <==> RepeatsWithin(source, LIMIT)
    ensures 1 <= requests <= 1000 && Distinct(source, requests - 1)
  {
    var items: seq<T> := [];
    var cursor: Cursor := None;
    var seen: set<string> := {};
    for i := 0 to LIMIT
      invariant cursor == CursorAt(source, i) && items == Chain(source, i)
      invariant seen == Followed(source, i)
      invariant OpenBefore(source, i) && Distinct(source, i)
    {
      var page := source(cursor);
      assert page == PageAt(source, i);
      if page.Broken? {
        OutcomesExclude(source, i);
        return Err(GatewayError(page.code)), i + 1;
      }
      items := items + page.items;
      assert items == Chain(source, i + 1);
      if page.next == "" {
        OutcomesExclude(source, i);
        WholeListIs(source, i);
        return Ok(items), i + 1;
      }
      if page.next in seen {
        KnownCursorRepeats(source, i);
        OpenChainsHaveNoOutcome(source);
        return Err(RepeatedCursor), i + 1;
      }
      NewCursorStaysDistinct(source, i);
      seen := seen + {page.next};
      cursor := Some(page.next);
    }
    OpenChainsHaveNoOutcome(source);
    return Err(LimitExceeded), LIMIT;
  }

  lemma WholeListIs<T>(source: Source<T>, k: nat)
    requires k < LIMIT && IsLast(source, k)
    ensures WholeList(source) == Chain(source, k + 1)
  {
    forall l: nat | IsLast(source, l) ensures l == k { StopIsUnique(source, k, l); }
  }

  /** A chain that ends sends every cursor at most once on its way. */
  lemma EndingChainsDoNotRepeat<T>(source: Source<T>, last: nat, i: nat, j: nat)
    requires IsLast(source, last) && i < j <= last
    ensures CursorAt(source, i) != CursorAt(source, j)
  {
    if CursorAt(source, i) == CursorAt(source, j) {
      RepetitionNeverEnds(source, i, j, last);
    }
  }
}
