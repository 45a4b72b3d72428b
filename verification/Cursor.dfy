/** The poll cursor: one shared row, replaced by compare-and-swap. */
module Cursor {
  import opened Wrappers

  /** Resume point of the indexer. The token, when present, is the exact position in the event log. */
  datatype PollCursor = PollCursor(lastLedger: nat, token: Option<nat>, updatedAt: int)

  /** The row and the answer of a conditional write: with nothing expected the
      row must be absent, otherwise it must still hold the expected ledger. */
  function CasWrite(row: Option<PollCursor>, next: PollCursor, expected: Option<nat>): (Option<PollCursor>, bool) {
    match expected
    case None => if row.None? then (Some(next), true) else (row, false)
    case Some(ledger) => if row.Some? && row.value.lastLedger == ledger then (Some(next), true) else (row, false)
  }

  class CursorTable {
    var row: Option<PollCursor>

    constructor ()
      ensures row == None
    {
      row := None;
    }

    method ReadCursor() returns (cursor: Option<PollCursor>)
      ensures cursor == row
    {
      return row;
    }

    method WriteCursor(next: PollCursor, expected: Option<nat>) returns (ok: bool)
      modifies this
      ensures (row, ok) == CasWrite(old(row), next, expected)
    {
      if expected.None? {
        if row.Some? {
          return false;
        }
        row := Some(next);
        return true;
      }
      if row.None? || row.value.lastLedger != expected.value {
        return false;
      }
      row := Some(next);
      return true;
    }
  }
}
