/** The off-chain ADL queue: winners scored, ordered by (score, id), ranked and cut into quintiles. */
module AdlQueue {
  import opened Fixed

  datatype PositionState = PositionState(
    positionId: nat, trader: string, isLong: bool, collateral: int, size: int, entryPrice: int, leverage: int)

  datatype Winner = Winner(position: PositionState, pnl: int, score: int)

  datatype Row = Row(positionId: nat, trader: string, asset: string, isLong: bool, size: int, pnl: int, score: int, rank: nat, quintile: nat)

  function Pnl(p: PositionState, mark: int): int
    requires p.entryPrice > 0
  {
    TruncDiv(p.size * (if p.isLong then mark - p.entryPrice else p.entryPrice - mark), p.entryPrice)
  }

  predicate Wins(p: PositionState, mark: int) {
    p.entryPrice > 0 && p.collateral > 0 && Pnl(p, mark) > 0
  }

  function Scored(p: PositionState, mark: int): Winner
    requires Wins(p, mark)
  {
    Winner(p, Pnl(p, mark), TruncDiv(Pnl(p, mark) * 10_000, p.collateral) * p.leverage)
  }

  function Winners(positions: seq<PositionState>, mark: int): seq<Winner> {
    if positions == [] then []
    else
      var p := positions[|positions| - 1];
      Winners(positions[..|positions| - 1], mark) + if Wins(p, mark) then [Scored(p, mark)] else []
  }

  /** Higher score first, ties by lower id. */
  predicate Before(a: Winner, b: Winner) {
    a.score > b.score || (a.score == b.score && a.position.positionId < b.position.positionId)
  }

  function Insert(w: Winner, s: seq<Winner>): seq<Winner> {
    if s == [] then [w] else if Before(w, s[0]) then [w] + s else [s[0]] + Insert(w, s[1..])
  }

  function Sort(winners: seq<Winner>): seq<Winner> {
    if winners == [] then [] else Insert(winners[|winners| - 1], Sort(winners[..|winners| - 1]))
  }

  function Quintile(index: nat, count: nat): nat
    requires index < count
  {
    var q := index * 5 / count + 1;
    if q < 5 then q else 5
  }

  function RowOf(w: Winner, asset: string, index: nat, count: nat): Row
    requires index < count
  {
    Row(w.position.positionId, w.position.trader, asset, w.position.isLong, w.position.size, w.pnl, w.score,
        index + 1, Quintile(index, count))
  }

  function Rows(sorted: seq<Winner>, asset: string): seq<Row> {
    seq(|sorted|, i requires 0 <= i < |sorted| => RowOf(sorted[i], asset, i, |sorted|))
  }

  function Queue(positions: seq<PositionState>, mark: int, asset: string): seq<Row> {
    Rows(Sort(Winners(positions, mark)), asset)
  }

  method RankAdlQueue(positions: seq<PositionState>, mark: int, asset: string) returns (rows: seq<Row>)
    ensures rows == Queue(positions, mark, asset)
  {
    var winners := [];
    for i := 0 to |positions|
      invariant winners == Winners(positions[..i], mark)
    {
      assert positions[..i + 1][..i] == positions[..i];
      var p := positions[i];
      if p.entryPrice <= 0 || p.collateral <= 0 {
        continue;
      }
      var pnl := Pnl(p, mark);
      if pnl <= 0 {
        continue;
      }
      winners := winners + [Winner(p, pnl, TruncDiv(pnl * 10_000, p.collateral) * p.leverage)];
    }
    assert positions[..|positions|] == positions;
    rows := Rows(Sort(winners), asset);
  }

  // ------------------------------------------------------------------- the order

  predicate UniqueIds(positions: seq<PositionState>) {
    forall i, j :: 0 <= i < j < |positions| ==> positions[i].positionId != positions[j].positionId
  }

  predicate UniqueWinners(winners: seq<Winner>) {
    forall i, j :: 0 <= i < j < |winners| ==> winners[i].position.positionId != winners[j].position.positionId
  }

  predicate StrictlyOrdered(s: seq<Winner>) {
    forall i, j :: 0 <= i < j < |s| ==> Before(s[i], s[j])
  }

  lemma {:induction false} InsertContents(w: Winner, s: seq<Winner>)
    ensures multiset(Insert(w, s)) == multiset(s) + multiset{w}
  {
    if s != [] && !Before(w, s[0]) {
      InsertContents(w, s[1..]);
      assert s == [s[0]] + s[1..];
    }
  }

  lemma {:induction false} InsertOrders(w: Winner, s: seq<Winner>)
    requires StrictlyOrdered(s)
    requires forall i :: 0 <= i < |s| ==> s[i].position.positionId != w.position.positionId
    ensures StrictlyOrdered(Insert(w, s))
  {
    if s != [] && !Before(w, s[0]) {
      InsertOrders(w, s[1..]);
      InsertContents(w, s[1..]);
      var rest := Insert(w, s[1..]);
      forall i | 0 <= i < |rest|
        ensures Before(s[0], rest[i])
      {
        assert rest[i] in multiset(rest);
        assert rest[i] == w || rest[i] in s[1..];
      }
    }
  }

  lemma {:induction false} SortContents(winners: seq<Winner>)
    ensures multiset(Sort(winners)) == multiset(winners)
  {
    if winners != [] {
      SortContents(winners[..|winners| - 1]);
      InsertContents(winners[|winners| - 1], Sort(winners[..|winners| - 1]));
      assert winners == winners[..|winners| - 1] + [winners[|winners| - 1]];
    }
  }

  lemma {:induction false} SortOrders(winners: seq<Winner>)
    requires UniqueWinners(winners)
    ensures StrictlyOrdered(Sort(winners))
  {
    if winners != [] {
      var init, last := winners[..|winners| - 1], winners[|winners| - 1];
      SortOrders(init);
      SortContents(init);
      forall i | 0 <= i < |Sort(init)|
        ensures Sort(init)[i].position.positionId != last.position.positionId
      {
        assert Sort(init)[i] in multiset(init);
      }
      InsertOrders(last, Sort(init));
    }
  }

  /** Any strictly ordered arrangement of the same winners is the same list, so
      the sorting algorithm does not matter. */
  lemma {:induction false} OrderIsUnique(s: seq<Winner>, t: seq<Winner>)
    requires StrictlyOrdered(s) && StrictlyOrdered(t) && multiset(s) == multiset(t)
    ensures s == t
  {
    assert |multiset(s)| == |multiset(t)|;
    if s != [] {
      SameFirst(s, t);
      assert s == [s[0]] + s[1..] && t == [t[0]] + t[1..];
      assert multiset(s[1..]) == multiset(s) - multiset{s[0]};
      assert multiset(t[1..]) == multiset(t) - multiset{t[0]};
      OrderIsUnique(s[1..], t[1..]);
    }
  }

  lemma SameFirst(s: seq<Winner>, t: seq<Winner>)
    requires StrictlyOrdered(s) && StrictlyOrdered(t) && multiset(s) == multiset(t) && s != [] && t != []
    ensures s[0] == t[0]
  {
    assert s[0] in multiset(t) && t[0] in multiset(s);
  }

  // ------------------------------------------------------------ who wins, and how much

  function MoveOf(p: PositionState, mark: int): int {
    if p.isLong then mark - p.entryPrice else p.entryPrice - mark
  }

  /** A position wins exactly when its gain reaches one unit; a long wins only above
      its entry price, a short only below. */
  lemma WinsExactly(p: PositionState, mark: int)
    requires p.size >= 0
    ensures Wins(p, mark) <==> p.entryPrice > 0 && p.collateral > 0 && p.size * MoveOf(p, mark) >= p.entryPrice
    ensures Wins(p, mark) ==> if p.isLong then mark > p.entryPrice else mark < p.entryPrice
  {
    if p.entryPrice > 0 {
      TruncDivAtLeast(p.size * MoveOf(p, mark), p.entryPrice, 1);
      if MoveOf(p, mark) <= 0 {
        MulNonNegative(p.size, -MoveOf(p, mark));
        assert p.size * -MoveOf(p, mark) == -(p.size * MoveOf(p, mark));
      }
    }
  }

  /** The score is the profit in basis points of collateral, rounded down, times the
      leverage; the profit is the gain over the entry price, rounded down. */
  lemma ScoreMeans(p: PositionState, mark: int) returns (points: nat)
    requires Wins(p, mark)
    ensures var w := Scored(p, mark);
            && w.position == p
            && w.pnl * p.entryPrice <= p.size * MoveOf(p, mark) < (w.pnl + 1) * p.entryPrice
            && points * p.collateral <= w.pnl * 10_000 < (points + 1) * p.collateral
            && w.score == points * p.leverage
  {
    var w := Scored(p, mark);
    var gain := p.size * MoveOf(p, mark);
    points := TruncDiv(w.pnl * 10_000, p.collateral);
    TruncDivBounds(gain, p.entryPrice);
    TruncDivBounds(w.pnl * 10_000, p.collateral);
    assert (w.pnl + 1) * p.entryPrice == w.pnl * p.entryPrice + p.entryPrice;
    assert (points + 1) * p.collateral == points * p.collateral + p.collateral;
  }

  /** The row shows this position. */
  predicate Shows(row: Row, p: PositionState, mark: int, asset: string) {
    && row.positionId == p.positionId && row.trader == p.trader && row.asset == asset
    && row.isLong == p.isLong && row.size == p.size
    && Wins(p, mark) && row.pnl == Scored(p, mark).pnl && row.score == Scored(p, mark).score
  }

  /** Every row shows a winning position of the input, under its own figures. */
  lemma RowsShowPositions(positions: seq<PositionState>, mark: int, asset: string, i: nat) returns (p: PositionState)
    requires UniqueIds(positions) && i < |Queue(positions, mark, asset)|
    ensures p in positions && Shows(Queue(positions, mark, asset)[i], p, mark, asset)
  {
    var sorted := Sort(Winners(positions, mark));
    SortContents(Winners(positions, mark));
    assert sorted[i] in multiset(sorted);
    assert sorted[i] in Winners(positions, mark);
    WinnersKeepIds(positions, mark);
    p := sorted[i].position;
  }

  // ------------------------------------------------------- independence of order

  /** What one position contributes to the winners. */
  function WonBy(p: PositionState, mark: int): multiset<Winner> {
    if Wins(p, mark) then multiset{Scored(p, mark)} else multiset{}
  }

  lemma LastWinner(positions: seq<PositionState>, mark: int)
    requires positions != []
    ensures multiset(Winners(positions, mark))
         == multiset(Winners(positions[..|positions| - 1], mark)) + WonBy(positions[|positions| - 1], mark)
  {
  }

  lemma {:induction false} WinnersOfConcat(a: seq<PositionState>, b: seq<PositionState>, mark: int)
    ensures multiset(Winners(a + b, mark)) == multiset(Winners(a, mark)) + multiset(Winners(b, mark))
  {
    if b == [] {
      assert a + b == a;
    } else {
      assert (a + b)[..|a + b| - 1] == a + b[..|b| - 1];
      LastWinner(a + b, mark);
      LastWinner(b, mark);
      WinnersOfConcat(a, b[..|b| - 1], mark);
    }
  }

  lemma WinnersWithout(positions: seq<PositionState>, k: nat, mark: int)
    requires k < |positions|
    ensures multiset(Winners(positions, mark))
         == multiset(Winners(positions[..k] + positions[k + 1..], mark)) + WonBy(positions[k], mark)
  {
    var a, b := positions[..k], positions[k + 1..];
    assert positions == positions[..k + 1] + b && positions[..k + 1][..k] == a;
    WinnersOfConcat(positions[..k + 1], b, mark);
    LastWinner(positions[..k + 1], mark);
    WinnersOfConcat(a, b, mark);
  }

  lemma {:induction false} WinnersPermute(a: seq<PositionState>, b: seq<PositionState>, mark: int)
    requires multiset(a) == multiset(b)
    ensures multiset(Winners(a, mark)) == multiset(Winners(b, mark))
  {
    if a == [] {
      assert |multiset(b)| == 0;
    } else {
      var init, last := a[..|a| - 1], a[|a| - 1];
      assert a == init + [last];
      assert last in multiset(b);
      var k :| 0 <= k < |b| && b[k] == last;
      assert b == b[..k] + [last] + b[k + 1..];
      assert multiset(init) == multiset(a) - multiset{last};
      assert multiset(b[..k] + b[k + 1..]) == multiset(b) - multiset{last};
      WinnersPermute(init, b[..k] + b[k + 1..], mark);
      LastWinner(a, mark);
      WinnersWithout(b, k, mark);
    }
  }

  lemma {:induction false} WinnersKeepIds(positions: seq<PositionState>, mark: int)
    requires UniqueIds(positions)
    ensures UniqueWinners(Winners(positions, mark))
    ensures forall w :: w in Winners(positions, mark) ==> w.position in positions && Wins(w.position, mark) && w == Scored(w.position, mark)
  {
    if positions != [] {
      var init, last := positions[..|positions| - 1], positions[|positions| - 1];
      WinnersKeepIds(init, mark);
      assert positions == init + [last];
      forall i | 0 <= i < |Winners(init, mark)|
        ensures Winners(init, mark)[i].position.positionId != last.positionId
      {
        var w := Winners(init, mark)[i];
        assert w.position in init;
        var k :| 0 <= k < |init| && init[k] == w.position;
        assert positions[k].positionId != positions[|positions| - 1].positionId;
      }
    }
  }

  /** The queue depends only on which positions are given, not on their order. */
  lemma QueueIgnoresOrder(a: seq<PositionState>, b: seq<PositionState>, mark: int, asset: string)
    requires UniqueIds(a) && multiset(a) == multiset(b)
    ensures Queue(a, mark, asset) == Queue(b, mark, asset)
  {
    UniqueIdsPermute(a, b);
    WinnersKeepIds(a, mark);
    WinnersKeepIds(b, mark);
    WinnersPermute(a, b, mark);
    SortContents(Winners(a, mark));
    SortContents(Winners(b, mark));
    SortOrders(Winners(a, mark));
    SortOrders(Winners(b, mark));
    OrderIsUnique(Sort(Winners(a, mark)), Sort(Winners(b, mark)));
  }

  lemma {:induction false} UniqueIdsPermute(a: seq<PositionState>, b: seq<PositionState>)
    requires UniqueIds(a) && multiset(a) == multiset(b)
    ensures UniqueIds(b)
  {
    forall i, j | 0 <= i < j < |b|
      ensures b[i].positionId != b[j].positionId
    {
      if b[i] == b[j] {
        assert b == b[..i] + [b[i]] + b[i + 1..j] + [b[j]] + b[j + 1..];
        assert multiset(b)[b[i]] >= 2;
        OnceEach(a, b[i]);
      } else {
        assert b[i] in multiset(a) && b[j] in multiset(a);
        var p :| 0 <= p < |a| && a[p] == b[i];
        var q :| 0 <= q < |a| && a[q] == b[j];
        assert p < q || q < p;
      }
    }
  }

  lemma {:induction false} OnceEach(a: seq<PositionState>, x: PositionState)
    requires UniqueIds(a)
    ensures multiset(a)[x] <= 1
  {
    if a != [] {
      var init, last := a[..|a| - 1], a[|a| - 1];
      OnceEach(init, x);
      assert a == init + [last];
      assert forall k :: 0 <= k < |init| ==> init[k].positionId != last.positionId;
      assert last !in init;
    }
  }

  /** The rows are strictly ordered by score and then id, and ranked 1 to n. */
  lemma QueueIsOrdered(positions: seq<PositionState>, mark: int, asset: string)
    requires UniqueIds(positions)
    ensures var rows := Queue(positions, mark, asset);
            && (forall i :: 0 <= i < |rows| ==> rows[i].rank == i + 1)
            && (forall i, j :: 0 <= i < j < |rows| ==>
                  rows[i].score > rows[j].score
                  || (rows[i].score == rows[j].score && rows[i].positionId < rows[j].positionId))
  {
    WinnersKeepIds(positions, mark);
    SortOrders(Winners(positions, mark));
    var sorted := Sort(Winners(positions, mark));
    var rows := Rows(sorted, asset);
    forall i, j | 0 <= i < j < |rows|
      ensures Before(sorted[i], sorted[j])
    {
    }
  }

  predicate Queued(rows: seq<Row>, id: nat) {
    exists i :: 0 <= i < |rows| && rows[i].positionId == id
  }

  predicate IsWinner(positions: seq<PositionState>, id: nat, mark: int) {
    exists i :: 0 <= i < |positions| && positions[i].positionId == id && Wins(positions[i], mark)
  }

  /** The queue holds exactly the winning positions. */
  lemma QueueHoldsWinners(positions: seq<PositionState>, mark: int, asset: string, id: nat)
    requires UniqueIds(positions)
    ensures Queued(Queue(positions, mark, asset), id) <==> IsWinner(positions, id, mark)
  {
    var winners := Winners(positions, mark);
    var sorted := Sort(winners);
    var rows := Rows(sorted, asset);
    WinnersKeepIds(positions, mark);
    SortContents(winners);
    if Queued(rows, id) {
      var i :| 0 <= i < |rows| && rows[i].positionId == id;
      assert sorted[i] in multiset(winners);
      var k :| 0 <= k < |positions| && positions[k] == sorted[i].position;
      assert IsWinner(positions, id, mark);
    }
    if IsWinner(positions, id, mark) {
      var k :| 0 <= k < |positions| && positions[k].positionId == id && Wins(positions[k], mark);
      WinnerListed(positions, positions[k], mark);
      assert Scored(positions[k], mark) in multiset(sorted);
      var i :| 0 <= i < |sorted| && sorted[i] == Scored(positions[k], mark);
      assert rows[i].positionId == id;
    }
  }

  lemma {:induction false} WinnerListed(positions: seq<PositionState>, p: PositionState, mark: int)
    requires p in positions && Wins(p, mark)
    ensures Scored(p, mark) in Winners(positions, mark)
  {
    if p != positions[|positions| - 1] {
      WinnerListed(positions[..|positions| - 1], p, mark);
    }
  }

  // ------------------------------------------------------------------- quintiles

  function Class(count: nat, q: nat): set<nat> {
    set i | 0 <= i < count && Quintile(i, count) == q
  }

  /** First index of the class after `q` classes. */
  function Boundary(count: nat, q: nat): nat {
    (q * count + 4) / 5
  }

  lemma QuotientIs(a: nat, n: nat, c: nat)
    requires n > 0
    ensures a / n == c <==> c * n <= a < (c + 1) * n
  {
    assert a == n * (a / n) + a % n;
    CancelFactor(a / n, c, n);
    CancelFactor(c, a / n, n);
    CancelFactor(a / n + 1, c, n);
    CancelFactor(c + 1, a / n, n);
    assert (a / n + 1) * n == (a / n) * n + n;
    assert (c + 1) * n == c * n + n;
  }

  lemma QuintileRange(index: nat, count: nat, q: nat)
    requires index < count && 1 <= q <= 5
    ensures 1 <= Quintile(index, count) <= 5
    ensures Quintile(index, count) == q <==> Boundary(count, q - 1) <= index < Boundary(count, q)
  {
    QuotientIs(index * 5, count, index * 5 / count);
    CancelFactor(5, index * 5 / count, count);
    QuotientIs(index * 5, count, q - 1);
    assert q == 1 || q == 2 || q == 3 || q == 4 || q == 5;
  }

  lemma {:induction false} IntervalSize(s: set<nat>, lo: nat, hi: nat)
    requires lo <= hi && forall i :: i in s <==> lo <= i < hi
    ensures |s| == hi - lo
    decreases hi - lo
  {
    if lo == hi {
      assert s == {};
    } else {
      IntervalSize(s - {hi - 1}, lo, hi - 1);
    }
  }

  lemma ClassSize(count: nat, q: nat)
    requires 1 <= q <= 5
    ensures |Class(count, q)| == Boundary(count, q) - Boundary(count, q - 1)
  {
    var lo, hi := Boundary(count, q - 1), Boundary(count, q);
    assert hi <= count && lo <= hi by {
      assert q == 1 || q == 2 || q == 3 || q == 4 || q == 5;
    }
    forall i | 0 <= i < count
      ensures Quintile(i, count) == q <==> lo <= i < hi
    {
      QuintileRange(i, count, q);
    }
    IntervalSize(Class(count, q), lo, hi);
  }

  /** For every number of winners the quintiles lie in 1..5, do not fall as the
      rank grows, and any two of the five classes differ in size by at most one. */
  lemma QuintilesAreBalanced(count: nat, i: nat, j: nat, q: nat, r: nat)
    requires i <= j < count && 1 <= q <= 5 && 1 <= r <= 5
    ensures 1 <= Quintile(i, count) <= Quintile(j, count) <= 5
    ensures |Class(count, q)| <= |Class(count, r)| + 1
  {
    QuintileRange(i, count, 1);
    QuintileRange(j, count, 1);
    QuintileRange(j, count, Quintile(j, count));
    QuintileRange(i, count, Quintile(i, count));
    assert Quintile(i, count) <= Quintile(j, count) by {
      QuotientIs(i * 5, count, i * 5 / count);
      QuotientIs(j * 5, count, j * 5 / count);
      CancelFactor(j * 5 / count + 1, i * 5 / count, count);
    }
    ClassSize(count, q);
    ClassSize(count, r);
    BoundarySteps(count, q);
    BoundarySteps(count, r);
  }

  lemma BoundarySteps(count: nat, q: nat)
    requires 1 <= q <= 5
    ensures count / 5 <= Boundary(count, q) - Boundary(count, q - 1) <= count / 5 + 1
  {
    assert q == 1 || q == 2 || q == 3 || q == 4 || q == 5;
  }
}
