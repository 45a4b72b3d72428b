/** On-chain ADL ranking: keep the profitable candidates, order them by rank, highest first. */
module RankAdl {

  datatype AdlCandidate = AdlCandidate(positionId: nat, pnl: int, collateral: int, leverage: nat)

  datatype RankedAdl = RankedAdl(positionId: nat, rank: int)

  /** Profit in basis points of collateral, times leverage; 0 for anything that is not a winner. */
  function AdlRank(pnl: int, collateral: int, leverage: nat): int {
    if pnl <= 0 || collateral <= 0 then 0 else pnl * 10_000 / collateral * leverage
  }

  /** The candidates with a positive rank, in the order given. */
  function Winners(candidates: seq<AdlCandidate>): seq<RankedAdl> {
    if candidates == [] then []
    else
      var c := candidates[|candidates| - 1];
      var r := AdlRank(c.pnl, c.collateral, c.leverage);
      Winners(candidates[..|candidates| - 1]) + if r > 0 then [RankedAdl(c.positionId, r)] else []
  }

  predicate Descending(s: seq<RankedAdl>) {
    forall i, j :: 0 <= i < j < |s| ==> s[i].rank >= s[j].rank
  }

  /** The entries of one rank, in order. */
  function OfRank(s: seq<RankedAdl>, rank: int): seq<RankedAdl> {
    if s == [] then []
    else OfRank(s[..|s| - 1], rank) + if s[|s| - 1].rank == rank then [s[|s| - 1]] else []
  }

  /** Same entries, equal ranks in the same order. */
  ghost predicate StableArrangement(s: seq<RankedAdl>, of: seq<RankedAdl>) {
    forall rank :: OfRank(s, rank) == OfRank(of, rank)
  }

  /** Filters, then sorts in place by shifting each entry left past smaller ranks. */
  method Rank(candidates: seq<AdlCandidate>) returns (ranked: seq<RankedAdl>)
    ensures Descending(ranked)
    ensures StableArrangement(ranked, Winners(candidates))
  {
    ranked := [];
    for k := 0 to |candidates|
      invariant ranked == Winners(candidates[..k])
    {
      assert candidates[..k + 1][..k] == candidates[..k];
      var c := candidates[k];
      var r := AdlRank(c.pnl, c.collateral, c.leverage);
      if r > 0 {
        ranked := ranked + [RankedAdl(c.positionId, r)];
      }
    }
    assert candidates[..|candidates|] == candidates;
    var n := |ranked|;
    var i := 1;
    while i < n
      invariant |ranked| == n && 1 <= i
      invariant i <= n ==> Descending(ranked[..i])
      invariant i > n ==> n == 0
      invariant StableArrangement(ranked, Winners(candidates))
    {
      var cur := ranked[i];
      var j := i;
      assert ranked[j := cur] == ranked;
      while j > 0 && ranked[j - 1].rank < cur.rank
        invariant |ranked| == n && 0 <= j <= i
        invariant forall p, q :: 0 <= p < q <= i && p != j && q != j ==> ranked[p].rank >= ranked[q].rank
        invariant forall q :: j < q <= i ==> ranked[q].rank < cur.rank
        invariant StableArrangement(ranked[j := cur], Winners(candidates))
      {
        var prev := ranked[j - 1];
        SwapKeepsArrangement(ranked, j, cur);
        ranked := ranked[j := prev];
        j := j - 1;
      }
      ranked := ranked[j := cur];
      i := i + 1;
    }
    if n > 0 {
      assert ranked[..n] == ranked;
    }
  }

  /** The rank is the profit in basis points of collateral, rounded down, times the
      leverage, and 0 without profit or collateral. */
  lemma RankMeans(pnl: int, collateral: int, leverage: nat) returns (points: nat)
    ensures AdlRank(pnl, collateral, leverage) == points * leverage
    ensures if pnl <= 0 || collateral <= 0 then points == 0
            else points * collateral <= pnl * 10_000 < (points + 1) * collateral
  {
    points := 0;
    if pnl > 0 && collateral > 0 {
      points := pnl * 10_000 / collateral;
      assert pnl * 10_000 == collateral * (pnl * 10_000 / collateral) + pnl * 10_000 % collateral;
    }
  }

  /** How many candidates have this id and this rank. */
  function Candidates(candidates: seq<AdlCandidate>, id: nat, rank: int): nat {
    if candidates == [] then 0
    else
      var c := candidates[|candidates| - 1];
      Candidates(candidates[..|candidates| - 1], id, rank)
      + if c.positionId == id && AdlRank(c.pnl, c.collateral, c.leverage) == rank then 1 else 0
  }

  /** Every candidate with a positive rank is kept once under its own id, and nobody else. */
  lemma {:induction false} WinnersAreCandidates(candidates: seq<AdlCandidate>, id: nat, rank: int)
    ensures multiset(Winners(candidates))[RankedAdl(id, rank)] == if rank > 0 then Candidates(candidates, id, rank) else 0
  {
    if candidates != [] {
      WinnersAreCandidates(candidates[..|candidates| - 1], id, rank);
    }
  }

  lemma {:induction false} OfRankConcat(a: seq<RankedAdl>, b: seq<RankedAdl>, rank: int)
    ensures OfRank(a + b, rank) == OfRank(a, rank) + OfRank(b, rank)
  {
    if b == [] {
      assert a + b == a;
    } else {
      assert (a + b)[..|a + b| - 1] == a + b[..|b| - 1];
      OfRankConcat(a, b[..|b| - 1], rank);
    }
  }

  /** Exchanging neighbours of different rank leaves every rank's entries as they were. */
  lemma SwapKeepsArrangement(s: seq<RankedAdl>, j: nat, cur: RankedAdl)
    requires 0 < j < |s| && s[j - 1].rank < cur.rank
    ensures StableArrangement(s[j := s[j - 1]][j - 1 := cur], s[j := cur])
  {
    var a, prev, b := s[..j - 1], s[j - 1], s[j + 1..];
    var before, after := s[j := cur], s[j := prev][j - 1 := cur];
    assert before == a + [prev, cur] + b;
    assert after == a + [cur, prev] + b;
    forall rank: int
      ensures OfRank(after, rank) == OfRank(before, rank)
    {
      OfRankConcat(a + [prev, cur], b, rank);
      OfRankConcat(a + [cur, prev], b, rank);
      OfRankConcat(a, [prev, cur], rank);
      OfRankConcat(a, [cur, prev], rank);
      PairOfRank(prev, cur, rank);
    }
  }

  lemma PairOfRank(x: RankedAdl, y: RankedAdl, rank: int)
    requires x.rank != y.rank
    ensures OfRank([x, y], rank) == OfRank([y, x], rank)
  {
    assert [x, y][..1] == [x] && [y, x][..1] == [y] && [x][..0] == [] && [y][..0] == [];
  }

  lemma {:induction false} OfRankCounts(s: seq<RankedAdl>, x: RankedAdl)
    ensures multiset(OfRank(s, x.rank))[x] == multiset(s)[x]
  {
    if s != [] {
      assert s == s[..|s| - 1] + [s[|s| - 1]];
      OfRankCounts(s[..|s| - 1], x);
    }
  }

  /** An arrangement holds exactly the winners, each as often as it was given. */
  lemma ArrangementIsPermutation(s: seq<RankedAdl>, of: seq<RankedAdl>)
    requires StableArrangement(s, of)
    ensures multiset(s) == multiset(of)
  {
    forall x: RankedAdl
      ensures multiset(s)[x] == multiset(of)[x]
    {
      OfRankCounts(s, x);
      OfRankCounts(of, x);
    }
  }

  /** Descending and stable together determine the result: there is only one such arrangement. */
  lemma {:induction false} ArrangementIsUnique(s: seq<RankedAdl>, t: seq<RankedAdl>)
    requires Descending(s) && Descending(t) && StableArrangement(s, t)
    ensures s == t
  {
    ArrangementIsPermutation(s, t);
    assert |multiset(s)| == |multiset(t)|;
    if s != [] {
      var x, y := s[|s| - 1], t[|t| - 1];
      LastIsLowest(s, t);
      var s', t' := s[..|s| - 1], t[..|t| - 1];
      forall rank: int
        ensures OfRank(s', rank) == OfRank(t', rank)
      {
        SameWithoutLast(s, t, rank);
      }
      assert OfRank(s, x.rank)[|OfRank(s, x.rank)| - 1] == x;
      assert OfRank(t, x.rank)[|OfRank(t, x.rank)| - 1] == y;
      ArrangementIsUnique(s', t');
      assert s == s' + [x] && t == t' + [y];
    }
  }

  lemma SameWithoutLast(s: seq<RankedAdl>, t: seq<RankedAdl>, rank: int)
    requires s != [] && t != [] && s[|s| - 1].rank == t[|t| - 1].rank
    requires OfRank(s, rank) == OfRank(t, rank)
    ensures OfRank(s[..|s| - 1], rank) == OfRank(t[..|t| - 1], rank)
  {
    LastOfRank(s, rank);
    LastOfRank(t, rank);
  }

  lemma LastOfRank(s: seq<RankedAdl>, rank: int)
    requires s != []
    ensures OfRank(s[..|s| - 1], rank)
         == if rank == s[|s| - 1].rank then OfRank(s, rank)[..|OfRank(s, rank)| - 1] else OfRank(s, rank)
  {
  }

  lemma LastIsLowest(s: seq<RankedAdl>, t: seq<RankedAdl>)
    requires Descending(s) && Descending(t) && s != [] && |s| == |t| && multiset(s) == multiset(t)
    ensures s[|s| - 1].rank == t[|t| - 1].rank
  {
    var x, y := s[|s| - 1], t[|t| - 1];
    assert x in multiset(t) && y in multiset(s);
    var i :| 0 <= i < |t| && t[i] == x;
    var j :| 0 <= j < |s| && s[j] == y;
  }
}
