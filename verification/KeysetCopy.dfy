/**
 Table copy by keyset pagination: pages of the source above the last key, written
 in chunks that skip conflicting rows.
 */
module KeysetCopy {
  import opened Wrappers

  const READ_PAGE: nat := 2_000
  const WRITE_CHUNK: nat := 500

  datatype Cell = Num(n: int) | Text(text: string)

  /** Key columns are never null. */
  type Key = seq<Cell>

  datatype Row = Row(key: Key, payload: seq<Option<Cell>>)

  /** How the source orders column values, text by whatever collation it has. */
  type Order = (Cell, Cell) -> bool

  ghost predicate IsStrict(order: Order) {
    (forall a :: !order(a, a)) && (forall a, b :: order(a, b) ==> !order(b, a))
  }

  /** A composite key is compared column by column. */
  predicate Less(a: Key, b: Key, order: Order) {
    if b == [] then false
    else if a == [] then true
    else order(a[0], b[0]) || (a[0] == b[0] && Less(a[1..], b[1..], order))
  }

  /** A source table in key order; unique keys make the order strict. */
  predicate Sorted(rows: seq<Row>, order: Order) {
    forall i, j :: 0 <= i < j < |rows| ==> Less(rows[i].key, rows[j].key, order)
  }

  function Above(rows: seq<Row>, last: Option<Key>, order: Order): seq<Row> {
    if rows == [] then []
    else
      Above(rows[..|rows| - 1], last, order)
      + if last == None || Less(last.value, rows[|rows| - 1].key, order) then [rows[|rows| - 1]] else []
  }

  function Take(rows: seq<Row>, n: nat): seq<Row> {
    if |rows| <= n then rows else rows[..n]
  }

  /** The rows above a key, in order, at most a page of them. */
  function Page(rows: seq<Row>, last: Option<Key>, order: Order): seq<Row> {
    Take(Above(rows, last, order), READ_PAGE)
  }

  /** Which stored rows make an insert violate a unique constraint. */
  type Conflict = (Row, Row) -> bool

  function Insert(dst: seq<Row>, row: Row, conflict: Conflict): seq<Row> {
    if exists r :: r in dst && conflict(r, row) then dst else dst + [row]
  }

  /** Inserts in order, skipping every row that conflicts with one already there. */
  function InsertAll(dst: seq<Row>, rows: seq<Row>, conflict: Conflict): seq<Row> {
    if rows == [] then dst else Insert(InsertAll(dst, rows[..|rows| - 1], conflict), rows[|rows| - 1], conflict)
  }

  class SourceTable {
    const order: Order
    const rows: seq<Row>
    /** Every row handed out so far, in order. */
    var served: seq<Row>

    constructor (order: Order, rows: seq<Row>)
      ensures this.order == order && this.rows == rows && served == []
    {
      this.order := order;
      this.rows := rows;
      served := [];
    }

    method SelectPage(last: Option<Key>) returns (page: seq<Row>)
      modifies this
      ensures page == Page(rows, last, order)
      ensures served == old(served) + page
    {
      page := Page(rows, last, order);
      served := served + page;
    }
  }

  class DestinationTable {
    const conflict: Conflict
    var rows: seq<Row>

    constructor (conflict: Conflict, rows: seq<Row>)
      ensures this.conflict == conflict && this.rows == rows
    {
      this.conflict := conflict;
      this.rows := rows;
    }

    method InsertChunk(chunk: seq<Row>)
      modifies this
      ensures rows == InsertAll(old(rows), chunk, conflict)
    {
      for i := 0 to |chunk|
        invariant rows == InsertAll(old(rows), chunk[..i], conflict)
      {
        assert chunk[..i + 1][..i] == chunk[..i];
        rows := Insert(rows, chunk[i], conflict);
      }
      assert chunk[..|chunk|] == chunk;
    }
  }

  /** Writes a page in chunks. */
  method WriteChunks(dst: DestinationTable, page: seq<Row>)
    modifies dst
    ensures dst.rows == InsertAll(old(dst.rows), page, dst.conflict)
  {
    var i := 0;
    while i < |page|
      invariant i <= |page|
      invariant dst.rows == InsertAll(old(dst.rows), page[..i], dst.conflict)
    {
      var next := if i + WRITE_CHUNK < |page| then i + WRITE_CHUNK else |page|;
      InsertAllConcat(old(dst.rows), page[..i], page[i..next], dst.conflict);
      assert page[..i] + page[i..next] == page[..next];
      dst.InsertChunk(page[i..next]);
      i := next;
    }
    assert page[..|page|] == page;
  }

  /** Reads each source row exactly once and writes all of them, however they fall into pages and chunks. */
  method CopyTable(src: SourceTable, dst: DestinationTable) returns (copied: nat)
    requires IsStrict(src.order) && Sorted(src.rows, src.order)
    modifies src, dst
    ensures src.served == old(src.served) + src.rows
    ensures dst.rows == InsertAll(old(dst.rows), src.rows, dst.conflict)
    ensures copied == |src.rows|
  {
    ghost var before, started := src.served, dst.rows;
    var lastKey: Option<Key> := None;
    copied := 0;
    while true
      invariant copied <= |src.rows|
      invariant lastKey == KeyOfLast(src.rows, copied)
      invariant src.served == before + src.rows[..copied]
      invariant dst.rows == InsertAll(started, src.rows[..copied], dst.conflict)
      decreases |src.rows| - copied
    {
      var page := src.SelectPage(lastKey);
      PageIsNext(src.rows, copied, page, src.order);
      if |page| == 0 {
        break;
      }
      InsertAllConcat(started, src.rows[..copied], page, dst.conflict);
      WriteChunks(dst, page);
      copied := copied + |page|;
      lastKey := Some(page[|page| - 1].key);
      if |page| < READ_PAGE {
        break;
      }
    }
    assert src.rows[..copied] == src.rows;
  }

  // ---------------------------------------------------------------------- paging

  lemma {:induction false} LessIrreflexive(a: Key, order: Order)
    requires IsStrict(order)
    ensures !Less(a, a, order)
  {
    if a != [] {
      LessIrreflexive(a[1..], order);
    }
  }

  lemma {:induction false} LessAsymmetric(a: Key, b: Key, order: Order)
    requires IsStrict(order) && Less(a, b, order)
    ensures !Less(b, a, order)
  {
    if a != [] && a[0] == b[0] {
      LessAsymmetric(a[1..], b[1..], order);
    }
  }

  /** The keys agree on the first `k` columns, and there the first one ends or is ordered before. */
  predicate DecidesAt(a: Key, b: Key, k: nat, order: Order) {
    k <= |a| && k < |b| && a[..k] == b[..k] && (k == |a| || order(a[k], b[k]))
  }

  /** Composite keys are ordered like words in a dictionary. */
  lemma {:induction false} LessIsLexicographic(a: Key, b: Key, order: Order)
    ensures Less(a, b, order) <==> exists k :: DecidesAt(a, b, k, order)
  {
    if a == [] || b == [] {
      assert b != [] ==> DecidesAt(a, b, 0, order);
    } else {
      LessIsLexicographic(a[1..], b[1..], order);
      if Less(a, b, order) {
        if order(a[0], b[0]) {
          assert DecidesAt(a, b, 0, order);
        } else {
          var k: nat :| DecidesAt(a[1..], b[1..], k, order);
          assert a[..k + 1] == [a[0]] + a[1..][..k] && b[..k + 1] == [b[0]] + b[1..][..k];
          assert DecidesAt(a, b, k + 1, order);
        }
      }
      if k: nat :| DecidesAt(a, b, k, order) && k > 0 {
        assert a[0] == a[..k][0] == b[..k][0] == b[0];
        assert a[1..][..k - 1] == a[..k][1..] && b[1..][..k - 1] == b[..k][1..];
        assert DecidesAt(a[1..], b[1..], k - 1, order);
      }
    }
  }

  lemma {:induction false} AboveNothing(rows: seq<Row>, order: Order)
    ensures Above(rows, None, order) == rows
  {
    if rows != [] {
      AboveNothing(rows[..|rows| - 1], order);
    }
  }

  lemma {:induction false} AboveRow(rows: seq<Row>, n: nat, k: nat, order: Order)
    requires IsStrict(order) && Sorted(rows, order) && k < |rows| && n <= |rows|
    ensures Above(rows[..n], Some(rows[k].key), order) == if n <= k + 1 then [] else rows[k + 1..n]
  {
    if n > 0 {
      assert rows[..n][..n - 1] == rows[..n - 1];
      AboveRow(rows, n - 1, k, order);
      if n - 1 < k {
        LessAsymmetric(rows[n - 1].key, rows[k].key, order);
      } else if n - 1 == k {
        LessIrreflexive(rows[k].key, order);
      }
    }
  }

  function KeyOfLast(rows: seq<Row>, read: nat): Option<Key>
    requires read <= |rows|
  {
    if read == 0 then None else Some(rows[read - 1].key)
  }

  /** The page above the last row read starts with the row after it. */
  lemma PageContinues(rows: seq<Row>, read: nat, order: Order)
    requires IsStrict(order) && Sorted(rows, order) && read <= |rows|
    ensures Page(rows, KeyOfLast(rows, read), order) == Take(rows[read..], READ_PAGE)
  {
    if read == 0 {
      AboveNothing(rows, order);
      assert rows[0..] == rows;
    } else {
      AboveRow(rows, |rows|, read - 1, order);
      assert rows[..|rows|] == rows;
    }
  }

  /** Reading one page more extends what has been read, by 2,000 rows or all that are
      left; a short page is the last one. */
  lemma PageIsNext(rows: seq<Row>, read: nat, page: seq<Row>, order: Order)
    requires IsStrict(order) && Sorted(rows, order) && read <= |rows| && page == Page(rows, KeyOfLast(rows, read), order)
    ensures read + |page| <= |rows| && rows[..read] + page == rows[..read + |page|]
    ensures |page| == if |rows| - read < 2_000 then |rows| - read else 2_000
    ensures |page| < READ_PAGE ==> read + |page| == |rows|
    ensures |page| > 0 ==> KeyOfLast(rows, read + |page|) == Some(page[|page| - 1].key)
  {
    PageContinues(rows, read, order);
    assert page == rows[read..read + |page|];
  }

  // ------------------------------------------------------------------- insertion

  lemma {:induction false} InsertAllConcat(dst: seq<Row>, a: seq<Row>, b: seq<Row>, conflict: Conflict)
    ensures InsertAll(dst, a + b, conflict) == InsertAll(InsertAll(dst, a, conflict), b, conflict)
  {
    if b == [] {
      assert a + b == a;
    } else {
      assert (a + b)[..|a + b| - 1] == a + b[..|b| - 1];
      InsertAllConcat(dst, a, b[..|b| - 1], conflict);
    }
  }

  predicate Blocked(dst: seq<Row>, row: Row, conflict: Conflict) {
    exists r :: r in dst && conflict(r, row)
  }

  /** Old rows stay, in place; every copied row is in the result or conflicts with
      a row that is; nothing else was added. */
  lemma {:induction false} DestinationIsUnion(dst: seq<Row>, rows: seq<Row>, conflict: Conflict)
    ensures var result := InsertAll(dst, rows, conflict);
            && dst <= result
            && (forall row :: row in rows ==> row in result || Blocked(result, row, conflict))
            && (forall row :: row in result ==> row in dst || row in rows)
  {
    if rows != [] {
      var init, last := rows[..|rows| - 1], rows[|rows| - 1];
      DestinationIsUnion(dst, init, conflict);
      var before, after := InsertAll(dst, init, conflict), InsertAll(dst, rows, conflict);
      assert before <= after;
      forall row | row in rows
        ensures row in after || Blocked(after, row, conflict)
      {
        if row in init {
          BlockedStays(before, after, row, conflict);
        }
      }
      assert rows == init + [last];
    }
  }

  lemma BlockedStays(before: seq<Row>, after: seq<Row>, row: Row, conflict: Conflict)
    requires before <= after
    ensures Blocked(before, row, conflict) ==> Blocked(after, row, conflict)
    ensures row in before ==> row in after
  {
    if Blocked(before, row, conflict) {
      var r :| r in before && conflict(r, row);
      assert r in after;
    }
  }

  lemma {:induction false} BlockedRowsChangeNothing(dst: seq<Row>, rows: seq<Row>, conflict: Conflict)
    requires forall row :: row in rows ==> Blocked(dst, row, conflict)
    ensures InsertAll(dst, rows, conflict) == dst
  {
    if rows != [] {
      BlockedRowsChangeNothing(dst, rows[..|rows| - 1], conflict);
      assert Blocked(dst, rows[|rows| - 1], conflict);
    }
  }

  /** A run cut short after any number of rows, followed by a full run, ends where
      one full run ends: a row always conflicts with its own copy. */
  lemma RerunReachesSameResult(dst: seq<Row>, rows: seq<Row>, k: nat, conflict: Conflict)
    requires k <= |rows| && forall row :: row in rows ==> conflict(row, row)
    ensures InsertAll(InsertAll(dst, rows[..k], conflict), rows, conflict) == InsertAll(dst, rows, conflict)
  {
    var partial := InsertAll(dst, rows[..k], conflict);
    DestinationIsUnion(dst, rows[..k], conflict);
    forall row | row in rows[..k]
      ensures Blocked(partial, row, conflict)
    {
      if row in partial {
        assert conflict(row, row);
      }
    }
    BlockedRowsChangeNothing(partial, rows[..k], conflict);
    assert rows == rows[..k] + rows[k..];
    InsertAllConcat(partial, rows[..k], rows[k..], conflict);
    InsertAllConcat(dst, rows[..k], rows[k..], conflict);
  }
}
