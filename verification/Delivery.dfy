/**
 What becomes of an event: over every run of the interleaved pollers, when it is
 accounted for, when it is fetched again, and how often it is dispatched.
 */
module Delivery {
  import opened Wrappers
  import opened Cursor
  import opened Indexer

  /** A fetch from this cursor starts after the event. */
  predicate Behind(log: seq<Event>, c: PollCursor, i: nat)
    requires i < |log|
  {
    if c.token.Some? then i < c.token.value else log[i].ledger < c.lastLedger
  }

  predicate BehindRow(s: State, i: nat)
    requires i < |s.log|
  {
    s.db.row.Some? && Behind(s.log, s.db.row.value, i)
  }

  /** The run a fetch is answered with reaches back to an event exactly when its
      cursor is not past it; without a cursor, when the cold start's ledger is not. */
  lemma FetchReaches(s: State, a: Action, i: nat)
    requires Sound(s) && a.FetchOk? && Enabled(s, a) && i < |s.log|
    ensures var f := s.pollers[a.who].phase;
            a.from <= i <==> if f.cursor.Some? then !Behind(s.log, f.cursor.value, i) else f.startLedger <= s.log[i].ledger
  {
    assert PhaseSound(s, s.pollers[a.who].phase);
  }

  // ------------------------------------------------------------ below the origin

  /** Everything below the origin is behind the cursor. */
  predicate PastOrigin(s: State, c: PollCursor) {
    && s.db.origin <= c.lastLedger
    && (forall i :: 0 <= i < |s.log| && s.log[i].ledger < s.db.origin ==> Behind(s.log, c, i))
  }

  /** A fetched run starts at its start ledger, or at the token of its cursor. */
  predicate StartSound(s: State, f: Phase)
    requires f.Handling?
  {
    && f.from <= f.to <= |s.log|
    && (f.token.Some? ==> f.token.value == f.to)
    && (if HasToken(f.cursor) then f.from == f.cursor.value.token.value
        else
          && f.startLedger <= s.head
          && forall i :: 0 <= i < |s.log| ==> (i < f.from <==> s.log[i].ledger < f.startLedger))
  }

  predicate PhasePastOrigin(s: State, f: Phase) {
    match f
    case Idle => true
    case Locating => true
    case Fetching(cursor, _) => cursor.Some? ==> s.db.row.Some? && PastOrigin(s, cursor.value)
    case Handling(cursor, _, _, _, _, _, _) =>
      StartSound(s, f) && (cursor.Some? ==> s.db.row.Some? && PastOrigin(s, cursor.value))
    case Clamping(cursor, _, _, _) => cursor.Some? ==> s.db.row.Some? && PastOrigin(s, cursor.value)
  }

  predicate OriginHolds(s: State) {
    && (s.db.row.Some? ==> s.db.origin <= s.head && PastOrigin(s, s.db.row.value))
    && (forall w :: 0 <= w < |s.pollers| ==> PhasePastOrigin(s, s.pollers[w].phase))
  }

  lemma PastOriginGrows(s: State, t: State, c: PollCursor)
    requires Ordered(s) && Ordered(t) && Grows(s, t) && s.db.row.Some? && s.db.origin <= s.head
    requires PastOrigin(s, c)
    ensures PastOrigin(t, c)
  {
    forall i | 0 <= i < |t.log| && t.log[i].ledger < t.db.origin
      ensures Behind(t.log, c, i)
    {
      assert i < |s.log| && t.log[i] == s.log[i];
    }
  }

  lemma PhasePastOriginGrows(s: State, t: State, f: Phase)
    requires Ordered(s) && Ordered(t) && Grows(s, t) && PhasePastOrigin(s, f)
    requires s.db.row.Some? ==> s.db.origin <= s.head
    ensures PhasePastOrigin(t, f)
  {
    if !f.Idle? && !f.Locating? && f.cursor.Some? {
      PastOriginGrows(s, t, f.cursor.value);
    }
    if f.Handling? {
      StartSoundGrows(s, t, f);
    }
  }

  lemma StartSoundGrows(s: State, t: State, f: Phase)
    requires Ordered(s) && Ordered(t) && Grows(s, t) && f.Handling? && StartSound(s, f)
    ensures StartSound(t, f)
  {
    if !HasToken(f.cursor) {
      forall i | 0 <= i < |t.log|
        ensures i < f.from <==> t.log[i].ledger < f.startLedger
      {
        if i < |s.log| {
          assert t.log[i] == s.log[i];
        }
      }
    }
  }

  /** A batch commit leaves everything below the origin behind the new cursor. */
  lemma BatchPastOrigin(s: State, f: Phase, next: PollCursor, origin: nat)
    requires Sound(s) && f.Handling? && PhaseSound(s, f) && PhasePastOrigin(s, f) && f.next == f.to
    requires next.lastLedger == if f.highest == 0 then f.startLedger else f.highest
    requires next.token == if f.token.Some? then f.token else if f.cursor.Some? then f.cursor.value.token else None
    requires origin == if f.cursor.Some? then s.db.origin else f.startLedger
    ensures origin <= next.lastLedger
    ensures forall i :: 0 <= i < |s.log| && s.log[i].ledger < origin ==> Behind(s.log, next, i)
  {
    assert StartSound(s, f) && HighestSound(s, f.cursor, f.from, f.next, f.highest);
    var base := if f.cursor.Some? then f.cursor.value.lastLedger else 0;
    if f.cursor.None? && f.highest > base {
      var j :| f.from <= j < f.next && s.log[j].ledger == f.highest;
      assert !(j < f.from);
    }
    forall i | 0 <= i < |s.log| && s.log[i].ledger < origin
      ensures Behind(s.log, next, i)
    {
      if f.cursor.Some? {
        assert Behind(s.log, f.cursor.value, i);
      }
    }
  }

  lemma ClampPastOrigin(s: State, f: Phase, next: PollCursor, origin: nat)
    requires f.Clamping? && PhasePastOrigin(s, f)
    requires next.lastLedger == f.oldest && next.token == None
    requires origin == if f.cursor.Some? then s.db.origin else Min(f.startLedger, f.oldest)
    requires f.cursor.Some? ==> f.oldest >= f.cursor.value.lastLedger
    ensures origin <= next.lastLedger
    ensures forall i :: 0 <= i < |s.log| && s.log[i].ledger < origin ==> Behind(s.log, next, i)
  {
  }

  lemma RowPastOrigin(s: State, a: Action)
    requires Sound(s) && OriginHolds(s) && Enabled(s, a) && NoRewind(Step(s, a).db)
    ensures var t := Step(s, a); t.db.row.Some? ==> t.db.origin <= t.head && PastOrigin(t, t.db.row.value)
  {
    var t := Step(s, a);
    StepGrows(s, a);
    if t.db.row == s.db.row {
      if s.db.row.Some? {
        PastOriginGrows(s, t, s.db.row.value);
      }
    } else {
      RowWritten(s, a);
    }
  }

  lemma RowWritten(s: State, a: Action)
    requires Sound(s) && OriginHolds(s) && Enabled(s, a) && NoRewind(Step(s, a).db)
    requires Step(s, a).db.row != s.db.row
    ensures var t := Step(s, a); t.db.row.Some? && t.db.origin <= t.head && PastOrigin(t, t.db.row.value)
  {
    var t := Step(s, a);
    RowChangesByCommit(s, a);
    var f := s.pollers[a.who].phase;
    assert PhaseSound(s, f) && PhasePastOrigin(s, f);
    assert MovesForward(t.db.commits[|s.db.commits|]);
    if a.CommitClamp? {
      ClampPastOrigin(s, f, t.db.row.value, t.db.origin);
    } else if f.to > f.from || f.cursor.None? {
      BatchPastOrigin(s, f, t.db.row.value, t.db.origin);
    } else {
      assert PastOrigin(s, f.cursor.value);
      assert t.db.row.value.token == f.cursor.value.token && t.db.row.value.lastLedger == f.cursor.value.lastLedger;
    }
  }

  lemma StepKeepsOrigin(s: State, a: Action)
    requires Sound(s) && OriginHolds(s) && Enabled(s, a) && NoRewind(Step(s, a).db)
    ensures OriginHolds(Step(s, a))
  {
    var t := Step(s, a);
    StepGrows(s, a);
    RowPastOrigin(s, a);
    forall w | 0 <= w < |t.pollers|
      ensures PhasePastOrigin(t, t.pollers[w].phase)
    {
      assert PhaseSound(s, s.pollers[w].phase) && PhasePastOrigin(s, s.pollers[w].phase);
      PhasePastOriginGrows(s, t, s.pollers[w].phase);
      if !a.CloseLedger? && a.who == w {
        OwnPhasePastOrigin(s, a);
      }
    }
  }

  lemma OwnPhasePastOrigin(s: State, a: Action)
    requires Sound(s) && OriginHolds(s) && Enabled(s, a) && !a.CloseLedger?
    requires PhasePastOrigin(Step(s, a), s.pollers[a.who].phase)
    ensures PhasePastOrigin(Step(s, a), Step(s, a).pollers[a.who].phase)
  {
    match a {
      case FetchOk(_, _, _, _) => FetchStarts(s, a);
      case Handle(_, _) => HandlingStays(s, a);
      case Begin(_) => BeginStarts(s, a);
      case _ => OtherPhases(s, a);
    }
  }

  lemma BeginStarts(s: State, a: Action)
    requires OriginHolds(s) && a.Begin? && Enabled(s, a)
    ensures PhasePastOrigin(Step(s, a), Step(s, a).pollers[a.who].phase)
  {
  }

  lemma HandlingStays(s: State, a: Action)
    requires a.Handle? && Enabled(s, a)
    requires PhasePastOrigin(Step(s, a), s.pollers[a.who].phase)
    ensures PhasePastOrigin(Step(s, a), Step(s, a).pollers[a.who].phase)
  {
  }

  lemma OtherPhases(s: State, a: Action)
    requires !a.CloseLedger? && !a.FetchOk? && !a.Handle? && !a.Begin? && Enabled(s, a)
    requires PhasePastOrigin(Step(s, a), s.pollers[a.who].phase)
    ensures PhasePastOrigin(Step(s, a), Step(s, a).pollers[a.who].phase)
  {
  }

  lemma FetchStarts(s: State, a: Action)
    requires Sound(s) && a.FetchOk? && Enabled(s, a)
    requires PhasePastOrigin(Step(s, a), s.pollers[a.who].phase)
    ensures PhasePastOrigin(Step(s, a), Step(s, a).pollers[a.who].phase)
  {
    assert PhaseSound(s, s.pollers[a.who].phase);
  }

  lemma NoRewindBefore(s: State, acts: seq<Action>)
    requires Legal(s, acts) && acts != [] && NoRewind(After(s, acts).db)
    ensures NoRewind(After(s, acts[..|acts| - 1]).db)
  {
    var t, u := After(s, acts[..|acts| - 1]), After(s, acts);
    RowChangesByCommit(t, acts[|acts| - 1]);
    forall k | 0 <= k < |t.db.commits|
      ensures MovesForward(t.db.commits[k])
    {
      assert u.db.commits[..|t.db.commits|][k] == u.db.commits[k];
      assert MovesForward(u.db.commits[k]);
    }
  }

  lemma {:induction false} OriginIsPassed(s: State, acts: seq<Action>)
    requires Initial(s) && Legal(s, acts) && NoRewind(After(s, acts).db)
    ensures OriginHolds(After(s, acts))
  {
    if acts == [] {
      forall w | 0 <= w < |s.pollers|
        ensures PhasePastOrigin(s, s.pollers[w].phase)
      {
        assert s.pollers[w] in s.pollers;
      }
    } else {
      NoRewindBefore(s, acts);
      OriginIsPassed(s, acts[..|acts| - 1]);
      RunsAreSound(s, acts[..|acts| - 1]);
      StepKeepsOrigin(After(s, acts[..|acts| - 1]), acts[|acts| - 1]);
    }
  }

  // -------------------------------------------------------------- no silent skip

  function AskedNext(asked: Option<nat>, a: Action): Option<nat> {
    if !a.ColdStart? then asked
    else
      var start: nat := Max(1, a.latest - a.coldStartLedgers);
      Some(if asked.None? then start else Min(asked.value, start))
  }

  /** The lowest ledger a cold start has asked for. */
  function AskedFrom(acts: seq<Action>): Option<nat> {
    if acts == [] then None else AskedNext(AskedFrom(acts[..|acts| - 1]), acts[|acts| - 1])
  }

  /** Under every interleaving, an event from the first ledger any poller asked for
      that the committed cursor has passed was dispatched, dead-lettered at decode,
      passed over as an unknown topic, or lies in a recorded gap; the one exception
      are the ledgers below the origin, when the polls that asked for them failed
      and a later cold start, asking further on, was the first to commit. */
  lemma NoSilentSkip(s: State, acts: seq<Action>, i: nat)
    requires Initial(s) && Legal(s, acts)
    requires var t := After(s, acts);
             && t.db.row.Some? && i < |t.log| && Passed(t, t.db.row.value, i)
             && (AskedFrom(acts).Some? ==> t.log[i].ledger >= AskedFrom(acts).value)
    ensures AskedFrom(acts).Some?
    ensures var t := After(s, acts);
            Handled(t, i) || AskedFrom(acts).value <= t.log[i].ledger < t.db.origin
    ensures After(s, acts).db.origin <= AskedFrom(acts).value ==> Handled(After(s, acts), i)
  {
    RunsAreSound(s, acts);
    SomebodyAsked(s, acts);
  }

  /** Nobody is past locating without a cursor, and no row exists, before a cold start has asked. */
  predicate AskedFirst(s: State, asked: Option<nat>) {
    asked.None? ==>
      && s.db.row.None?
      && forall w :: 0 <= w < |s.pollers| ==> s.pollers[w].phase.Idle? || s.pollers[w].phase.Locating?
  }

  lemma {:induction false} SomebodyAsked(s: State, acts: seq<Action>)
    requires Initial(s) && Legal(s, acts)
    ensures AskedFirst(After(s, acts), AskedFrom(acts))
  {
    if acts == [] {
      assert forall w :: 0 <= w < |s.pollers| ==> s.pollers[w] in s.pollers;
    } else {
      SomebodyAsked(s, acts[..|acts| - 1]);
      AskedStep(After(s, acts[..|acts| - 1]), acts[|acts| - 1], AskedFrom(acts[..|acts| - 1]));
    }
  }

  lemma AskedStep(s: State, a: Action, asked: Option<nat>)
    requires Enabled(s, a) && AskedFirst(s, asked)
    ensures AskedFirst(Step(s, a), AskedNext(asked, a))
  {
  }

  /** The exception is exact: without a retention rewind, an event that is not
      accounted for has been skipped for good if and only if it lies below the
      origin. */
  lemma SkippedExactly(s: State, acts: seq<Action>, i: nat)
    requires Initial(s) && Legal(s, acts) && NoRewind(After(s, acts).db)
    requires var t := After(s, acts); t.db.row.Some? && i < |t.log| && !Handled(t, i)
    ensures var t := After(s, acts); BehindRow(t, i) <==> t.log[i].ledger < t.db.origin
  {
    var t := After(s, acts);
    RunsAreSound(s, acts);
    OriginIsPassed(s, acts);
    if BehindRow(t, i) {
      assert Passed(t, t.db.row.value, i);
    }
  }

  /** A clamp records exactly the ledgers from the one it asked for up to where it
      resumes, and resumes at the oldest ledger without a token. */
  lemma ClampRecordsExactly(s: State, who: nat, now: int, l: nat)
    requires Sound(s) && Enabled(s, RecordGap(who)) && s.pollers[who].phase.cursor == s.db.row
    ensures var f := s.pollers[who].phase;
            var t := Step(s, RecordGap(who));
            && (InGap(t.db, l) <==> InGap(s.db, l) || f.startLedger <= l < f.oldest)
            && Enabled(t, CommitClamp(who, now))
            && var u := Step(t, CommitClamp(who, now));
               u.db.row == Some(PollCursor(f.oldest, None, now)) && u.db.gaps == t.db.gaps
  {
    var f := s.pollers[who].phase;
    var t := Step(s, RecordGap(who));
    if f.oldest > f.startLedger {
      GapsGrow(s.db, Gap(f.startLedger, f.oldest - 1), l);
      if InGap(t.db, l) && !(f.startLedger <= l < f.oldest) {
        var k :| 0 <= k < |t.db.gaps| && t.db.gaps[k].from <= l <= t.db.gaps[k].to;
        assert k < |s.db.gaps| && s.db.gaps[k] == t.db.gaps[k];
      }
    }
  }

  /** A dispatch that throws ends the poll without touching the cursor row. */
  lemma FailedDispatchLeavesRow(s: State, a: Action)
    requires a.Handle? && Enabled(s, a) && !a.fate.Returns? && s.log[s.pollers[a.who].phase.next].kind == Known
    ensures var t := Step(s, a);
            && t.db.row == s.db.row && t.db.commits == s.db.commits && t.db.origin == s.db.origin
            && t.db.dispatched == s.db.dispatched
            && s.pollers[a.who].phase.next in t.db.failed
            && t.pollers[a.who] == s.pollers[a.who].(phase := Idle)
  {
  }

  /** What was not accounted for, a failed dispatch above all, is fetched again by
      every poll that starts from the current row exactly when: on an empty row,
      the cold start asks for its ledger or an earlier one; on a committed row,
      without a retention rewind, it lies at or above the origin. */
  lemma UnhandledIsFetchedAgain(s: State, acts: seq<Action>, a: Action, i: nat)
    requires Initial(s) && Legal(s, acts)
    requires var t := After(s, acts);
             && a.FetchOk? && Enabled(t, a) && t.pollers[a.who].phase.cursor == t.db.row
             && i < |t.log| && !Handled(t, i)
    ensures var t := After(s, acts);
            if t.db.row.None? then a.from <= i <==> t.pollers[a.who].phase.startLedger <= t.log[i].ledger
            else
              && (t.log[i].ledger >= t.db.origin ==> a.from <= i)
              && (NoRewind(t.db) ==> (a.from <= i <==> t.log[i].ledger >= t.db.origin))
  {
    var t := After(s, acts);
    RunsAreSound(s, acts);
    FetchReaches(t, a, i);
    if t.db.row.Some? {
      if NoRewind(t.db) {
        SkippedExactly(s, acts, i);
      }
      assert Behind(t.log, t.db.row.value, i) ==> Passed(t, t.db.row.value, i);
    }
  }
}
