/** Generation of match candidates between unmapped stores and unmapped POIs
    (backend/poi_admin/stores/service.py). Scores are opaque numbers. */
module Candidates {
  import opened Wrappers

  type Id = string
  type Pair = (Id, Id)

  datatype Candidate = Candidate(score: int, dismissed: bool)
  datatype PoiRow = PoiRow(id: Id, status: string)

  type Board = map<Pair, Candidate>

  predicate IsLive(p: PoiRow) { p.status != "deleted" && p.status != "stale" }

  lemma LiveIs(p: PoiRow)
    ensures IsLive(p) <==> p.status !in {"deleted", "stale"}
  {
  }

  function LivePois(pois: seq<PoiRow>): seq<Id> {
    if pois == [] then []
    else LivePois(pois[..|pois| - 1]) + if IsLive(pois[|pois| - 1]) then [pois[|pois| - 1].id] else []
  }

  predicate Dismissed(board: Board, pair: Pair) { pair in board && board[pair].dismissed }

  /** The pairs one store contributes, in the order of the POIs. */
  function PairsOf(board: Board, store: Id, pois: seq<Id>, mappedPois: set<Id>): seq<Pair> {
    if pois == [] then []
    else
      var pair := (store, pois[|pois| - 1]);
      PairsOf(board, store, pois[..|pois| - 1], mappedPois)
      + if pair.1 in mappedPois || Dismissed(board, pair) then [] else [pair]
  }

  function AllPairs(
    board: Board, stores: seq<Id>, pois: seq<Id>, mappedStores: set<Id>, mappedPois: set<Id>): seq<Pair>
  {
    if stores == [] then []
    else
      var store := stores[|stores| - 1];
      AllPairs(board, stores[..|stores| - 1], pois, mappedStores, mappedPois)
      + if store in mappedStores then [] else PairsOf(board, store, pois, mappedPois)
  }

  /** The board after the listed pairs were scored. */
  function Scored(board: Board, pairs: seq<Pair>, score: Pair -> int): Board {
    if pairs == [] then board
    else
      var pair := pairs[|pairs| - 1];
      Scored(board, pairs[..|pairs| - 1], score)[pair := Candidate(score(pair), false)]
  }

  /** Stable insertion by decreasing score. */
  function Insert(pairs: seq<Pair>, pair: Pair, score: Pair -> int): seq<Pair> {
    if pairs == [] || score(pairs[|pairs| - 1]) >= score(pair) then pairs + [pair]
    else Insert(pairs[..|pairs| - 1], pair, score) + [pairs[|pairs| - 1]]
  }

  function ByScore(pairs: seq<Pair>, score: Pair -> int): seq<Pair> {
    if pairs == [] then []
    else Insert(ByScore(pairs[..|pairs| - 1], score), pairs[|pairs| - 1], score)
  }

  ghost predicate Decreasing(pairs: seq<Pair>, score: Pair -> int) {
    forall i, j | 0 <= i < j < |pairs| :: score(pairs[i]) >= score(pairs[j])
  }

  lemma {:induction false} InsertAdds(pairs: seq<Pair>, pair: Pair, score: Pair -> int)
    ensures multiset(Insert(pairs, pair, score)) == multiset(pairs) + multiset{pair}
    ensures forall x | x in Insert(pairs, pair, score) :: x in pairs || x == pair
  {
    if pairs != [] && score(pairs[|pairs| - 1]) < score(pair) {
      assert pairs == pairs[..|pairs| - 1] + [pairs[|pairs| - 1]];
      InsertAdds(pairs[..|pairs| - 1], pair, score);
    }
  }

  lemma {:induction false} InsertKeepsOrder(pairs: seq<Pair>, pair: Pair, score: Pair -> int)
    requires Decreasing(pairs, score)
    ensures Decreasing(Insert(pairs, pair, score), score)
  {
    if pairs != [] && score(pairs[|pairs| - 1]) < score(pair) {
      var init, last := pairs[..|pairs| - 1], pairs[|pairs| - 1];
      InsertKeepsOrder(init, pair, score);
      var inserted := Insert(init, pair, score);
      forall i | 0 <= i < |inserted| ensures score(inserted[i]) >= score(last) {
        InsertAdds(init, pair, score);
        assert inserted[i] in inserted;
      }
    }
  }

  lemma {:induction false} ByScoreSorts(pairs: seq<Pair>, score: Pair -> int)
    ensures Decreasing(ByScore(pairs, score), score)
    ensures multiset(ByScore(pairs, score)) == multiset(pairs)
  {
    if pairs != [] {
      var init, last := pairs[..|pairs| - 1], pairs[|pairs| - 1];
      assert pairs == init + [last];
      ByScoreSorts(init, score);
      InsertKeepsOrder(ByScore(init, score), last, score);
      InsertAdds(ByScore(init, score), last, score);
    }
  }

  class CandidateService {
    var board: Board

    constructor ()
      ensures board == map[]
    {
      board := map[];
    }

    /** `stores` are the active stores of the tenant, `pois` the POI rows of the connection. */
    method GenerateCandidates(
      stores: seq<Id>, pois: seq<PoiRow>, mappedStores: set<Id>, mappedPois: set<Id>, score: Pair -> int)
      returns (candidates: seq<Pair>)
      modifies this
      ensures var pairs := AllPairs(old(board), stores, LivePois(pois), mappedStores, mappedPois);
              candidates == ByScore(pairs, score) && board == Scored(old(board), pairs, score)
    {
      var live := LivePois(pois);
      var existing := board;
      candidates := [];
      for i := 0 to |stores|
        invariant candidates == AllPairs(existing, stores[..i], live, mappedStores, mappedPois)
        invariant board == Scored(existing, candidates, score)
      {
        assert stores[..i + 1][..i] == stores[..i];
        if stores[i] in mappedStores { continue; }
        ghost var before := candidates;
        for j := 0 to |live|
          invariant candidates == before + PairsOf(existing, stores[i], live[..j], mappedPois)
          invariant board == Scored(existing, candidates, score)
        {
          assert live[..j + 1][..j] == live[..j];
          var pair := (stores[i], live[j]);
          if pair.1 in mappedPois { continue; }
          if pair in existing && existing[pair].dismissed { continue; }
          assert (candidates + [pair])[..|candidates|] == candidates;
          board := board[pair := Candidate(score(pair), false)];
          candidates := candidates + [pair];
        }
        assert live[..|live|] == live;
      }
      assert stores[..|stores|] == stores;
      candidates := ByScore(candidates, score);
    }
  }

  /* ---- What is generated ---- */

  ghost predicate DistinctIds(pois: seq<PoiRow>) {
    forall i, j | 0 <= i < j < |pois| :: pois[i].id != pois[j].id
  }

  lemma {:induction false} LivePoisAre(pois: seq<PoiRow>)
    requires DistinctIds(pois)
    ensures forall id :: id in LivePois(pois) <==> exists i | 0 <= i < |pois| :: pois[i].id == id && IsLive(pois[i])
    ensures NoRepeats(LivePois(pois))
  {
    if pois != [] {
      var init, last := pois[..|pois| - 1], pois[|pois| - 1];
      assert pois == init + [last];
      LivePoisAre(init);
      assert last.id !in LivePois(init);
    }
  }

  lemma {:induction false} PairsOfAre(board: Board, store: Id, pois: seq<Id>, mappedPois: set<Id>)
    requires NoRepeats(pois)
    ensures forall p :: p in PairsOf(board, store, pois, mappedPois)
              <==> p.0 == store && p.1 in pois && p.1 !in mappedPois && !Dismissed(board, p)
    ensures NoRepeats(PairsOf(board, store, pois, mappedPois))
  {
    if pois != [] {
      var init := pois[..|pois| - 1];
      assert pois == init + [pois[|pois| - 1]];
      PairsOfAre(board, store, init, mappedPois);
      assert (store, pois[|pois| - 1]) !in PairsOf(board, store, init, mappedPois);
    }
  }

  lemma {:induction false} AllPairsAre(
    board: Board, stores: seq<Id>, pois: seq<Id>, mappedStores: set<Id>, mappedPois: set<Id>)
    requires NoRepeats(stores) && NoRepeats(pois)
    ensures forall p :: p in AllPairs(board, stores, pois, mappedStores, mappedPois)
              <==> p.0 in stores && p.0 !in mappedStores && p.1 in pois && p.1 !in mappedPois && !Dismissed(board, p)
    ensures NoRepeats(AllPairs(board, stores, pois, mappedStores, mappedPois))
  {
    if stores != [] {
      var init, store := stores[..|stores| - 1], stores[|stores| - 1];
      assert stores == init + [store];
      AllPairsAre(board, init, pois, mappedStores, mappedPois);
      PairsOfAre(board, store, pois, mappedPois);
      var earlier := AllPairs(board, init, pois, mappedStores, mappedPois);
      var added := PairsOf(board, store, pois, mappedPois);
      if store !in mappedStores {
        forall i, j | 0 <= i < |earlier| && 0 <= j < |added| ensures earlier[i] != added[j] {
          assert earlier[i] in earlier && added[j] in added;
        }
      }
    }
  }

  lemma {:induction false} ScoredIs(board: Board, pairs: seq<Pair>, score: Pair -> int)
    ensures forall p :: p in Scored(board, pairs, score) <==> p in board || p in pairs
    ensures forall p | p in Scored(board, pairs, score) ::
              Scored(board, pairs, score)[p] == if p in pairs then Candidate(score(p), false) else board[p]
  {
    if pairs != [] {
      assert pairs == pairs[..|pairs| - 1] + [pairs[|pairs| - 1]];
      ScoredIs(board, pairs[..|pairs| - 1], score);
    }
  }

  lemma NoRepeatsIsMultiplicity<T>(xs: seq<T>, ys: seq<T>)
    requires NoRepeats(xs) && multiset(xs) == multiset(ys)
    ensures NoRepeats(ys)
  {
    forall i, j | 0 <= i < j < |ys| ensures ys[i] != ys[j] {
      if ys[i] == ys[j] {
        TwiceInMultiset(ys, i, j);
        AtMostOnce(xs, ys[i]);
      }
    }
  }

  lemma TwiceInMultiset<T>(ys: seq<T>, i: nat, j: nat)
    requires i < j < |ys| && ys[i] == ys[j]
    ensures multiset(ys)[ys[i]] >= 2
  {
    assert ys == ys[..j] + ys[j..];
    assert ys[i] in ys[..j] && ys[i] in ys[j..] by { assert ys[..j][i] == ys[i] && ys[j..][0] == ys[j]; }
  }

  lemma {:induction false} AtMostOnce<T>(xs: seq<T>, x: T)
    requires NoRepeats(xs)
    ensures multiset(xs)[x] <= 1
  {
    if xs != [] {
      assert xs == xs[..|xs| - 1] + [xs[|xs| - 1]];
      AtMostOnce(xs[..|xs| - 1], x);
      assert xs[|xs| - 1] !in xs[..|xs| - 1];
    }
  }

  /** Exactly one candidate per active unmapped store and live unmapped POI whose pair is not
      dismissed, best score first; the board holds the fresh score of each of them and is otherwise
      unchanged, so what was dismissed stays so. */
  lemma GeneratesExactlyTheOpenPairs(
    board: Board, stores: seq<Id>, pois: seq<PoiRow>, mappedStores: set<Id>, mappedPois: set<Id>, score: Pair -> int)
    requires NoRepeats(stores) && DistinctIds(pois)
    ensures var pairs := AllPairs(board, stores, LivePois(pois), mappedStores, mappedPois);
            var listed := ByScore(pairs, score);
            && NoRepeats(listed) && Decreasing(listed, score)
            && (forall p :: p in listed <==>
                  && p.0 in stores && p.0 !in mappedStores && p.1 !in mappedPois && !Dismissed(board, p)
                  && exists i | 0 <= i < |pois| :: pois[i].id == p.1 && IsLive(pois[i]))
            && (forall p :: p in Scored(board, pairs, score) <==> p in board || p in listed)
            && (forall p | p in Scored(board, pairs, score) ::
                  Scored(board, pairs, score)[p] == if p in listed then Candidate(score(p), false) else board[p])
  {
    LivePoisAre(pois);
    AllPairsAre(board, stores, LivePois(pois), mappedStores, mappedPois);
    var pairs := AllPairs(board, stores, LivePois(pois), mappedStores, mappedPois);
    ByScoreSorts(pairs, score);
    NoRepeatsIsMultiplicity(pairs, ByScore(pairs, score));
    ScoredIs(board, pairs, score);
    assert forall p :: p in ByScore(pairs, score) <==> p in multiset(ByScore(pairs, score));
    assert forall p :: p in pairs <==> p in multiset(pairs);
  }
}
