/**
 The poller object: one call of `PollOnce` with nobody else on the database, step
 by step as the program takes them, is a run of the interleaved machine.
 */
module Poller {
  import opened Wrappers
  import opened Cursor
  import opened Indexer

  /** What the outside world answers during one poll. */
  datatype Answers = Answers(latest: nat, coldStartLedgers: nat, fetch: Fetch, now: int)

  /** A run of the log with the fate of each dispatch, a retention error, or any other failure. */
  datatype Fetch =
    | Ran(from: nat, fates: seq<Fate>, hasToken: bool)
    | TooOld(oldest: Option<nat>)
    | Unreachable

  /** The cursor the poll starts from and the ledger it asks for. */
  function StartLedger(row: Option<PollCursor>, a: Answers): nat {
    if row.None? then Max(1, a.latest - a.coldStartLedgers) else row.value.lastLedger
  }

  predicate Admissible(s: State, a: Answers) {
    && a.latest <= s.head
    && (a.fetch.Ran? ==>
          && a.fetch.from + |a.fetch.fates| <= |s.log|
          && AnswersFrom(s, s.db.row, StartLedger(s.db.row, a), a.fetch.from))
  }

  /** One more event, unless the batch has already failed. */
  function HandleMore(before: (Db, Indexer.Poller), log: seq<Event>, index: nat, fate: Fate): (Db, Indexer.Poller)
    requires index < |log|
  {
    if before.1.phase.Handling? then HandleEvent(before.0, before.1, index, log[index], fate) else before
  }

  /** The first `k` events of a batch, in order, stopping at a failing dispatch. */
  function HandleAll(db: Db, p: Indexer.Poller, log: seq<Event>, from: nat, fates: seq<Fate>, k: nat): (Db, Indexer.Poller)
    requires k <= |fates| && from + |fates| <= |log|
  {
    if k == 0 then (db, p)
    else HandleMore(HandleAll(db, p, log, from, fates, k - 1), log, from + k - 1, fates[k - 1])
  }

  /** The handling steps that takes. */
  function HandleActs(db: Db, p: Indexer.Poller, log: seq<Event>, from: nat, fates: seq<Fate>, k: nat): seq<Action>
    requires k <= |fates| && from + |fates| <= |log|
  {
    if k == 0 then []
    else
      HandleActs(db, p, log, from, fates, k - 1)
      + if HandleAll(db, p, log, from, fates, k - 1).1.phase.Handling? then [Handle(0, fates[k - 1])] else []
  }

  function Fetched(p: Indexer.Poller, row: Option<PollCursor>, a: Answers): Indexer.Poller
    requires a.fetch.Ran?
  {
    var to := a.fetch.from + |a.fetch.fates|;
    p.(phase := Handling(row, StartLedger(row, a), a.fetch.from, to, if a.fetch.hasToken then Some(to) else None,
                         a.fetch.from, if row.Some? then row.value.lastLedger else 0))
  }

  function ClampResult(db: Db, p: Indexer.Poller, cursor: Option<PollCursor>, start: nat, oldest: nat, now: int): (Db, Indexer.Poller) {
    var recorded := if oldest > start then db.(gaps := db.gaps + [Gap(start, oldest - 1)]) else db;
    Indexer.CommitCursor(recorded, p, 0, Clamp, PollCursor(oldest, None, now), Expected(cursor), Min(start, oldest))
  }

  /** The database and the poller after one undisturbed poll. */
  function PollResult(db: Db, p: Indexer.Poller, log: seq<Event>, a: Answers): (Db, Indexer.Poller)
    requires a.fetch.Ran? ==> a.fetch.from + |a.fetch.fates| <= |log|
  {
    match a.fetch
    case Unreachable => (db, p)
    case TooOld(None) => (db, p)
    case TooOld(Some(oldest)) => ClampResult(db, p, db.row, StartLedger(db.row, a), oldest, a.now)
    case Ran(from, fates, _) =>
      var (d, q) := HandleAll(db, Fetched(p, db.row, a), log, from, fates, |fates|);
      if q.phase.Handling? then FinishBatch(d, q, 0, a.now) else (d, q)
  }

  function LocateActs(row: Option<PollCursor>, a: Answers): seq<Action> {
    if row.None? then [Begin(0), ColdStart(0, a.latest, a.coldStartLedgers)] else [Begin(0)]
  }

  /** The steps of one poll. */
  function Script(s: State, a: Answers): seq<Action>
    requires |s.pollers| == 1 && Admissible(s, a)
  {
    LocateActs(s.db.row, a) +
    match a.fetch
    case Ran(from, fates, hasToken) =>
      var p := Fetched(s.pollers[0], s.db.row, a);
      [FetchOk(0, from, from + |fates|, hasToken)]
      + HandleActs(s.db, p, s.log, from, fates, |fates|)
      + if HandleAll(s.db, p, s.log, from, fates, |fates|).1.phase.Handling? then [CommitBatch(0, a.now)] else []
    case TooOld(None) => [FetchTooOld(0, None)]
    case TooOld(Some(oldest)) => [FetchTooOld(0, Some(oldest)), RecordGap(0), CommitClamp(0, a.now)]
    case Unreachable => [Throw(0)]
  }

  class Database {
    const cursor: CursorTable
    var gaps: seq<Gap>
    var deadLetters: set<nat>
    var dispatched: multiset<nat>
    var archived: set<nat>
    var projected: multiset<nat>
    var failed: set<nat>
    var skipped: set<nat>
    var commits: seq<Commit>
    var origin: nat

    constructor ()
      ensures fresh(cursor) && cursor.row == None
      ensures gaps == [] && deadLetters == {} && dispatched == multiset{} && archived == {} && projected == multiset{} && failed == {} && skipped == {} && commits == [] && origin == 0
    {
      cursor := new CursorTable();
      gaps, deadLetters, failed, skipped, commits, origin := [], {}, {}, {}, [], 0;
      dispatched, archived, projected := multiset{}, {}, multiset{};
    }

    function Tables(): Db
      reads this, cursor
    {
      Db(cursor.row, gaps, deadLetters, dispatched, Archive(archived, projected), failed, skipped, commits, origin)
    }

    /** A handler: one transaction that archives the event, unless it is a
        duplicate, and projects it. A handler that throws may keep the archive row. */
    method Dispatch(index: nat, fate: Fate) returns (ok: bool)
      modifies this
      ensures ok == fate.Returns?
      ensures Tables() == old(Tables()).(archive := Delivered(old(Tables()).archive, index, fate))
    {
      if (fate.Returns? || fate.ThrowsLate?) && index !in archived {
        archived := archived + {index};
        projected := projected + multiset{index};
      }
      if fate.ThrowsArchived? {
        archived := archived + {index};
      }
      ok := fate.Returns?;
    }
  }

  class IndexerPoller {
    const db: Database
    var stopped: bool
    var fatal: bool
    var lastLedger: Option<nat>

    constructor (db: Database)
      ensures this.db == db && Self(Idle) == Indexer.Poller(Idle, false, false, None)
    {
      this.db := db;
      stopped, fatal, lastLedger := false, false, None;
    }

    function Self(phase: Phase): Indexer.Poller
      reads this
    {
      Indexer.Poller(phase, stopped, fatal, lastLedger)
    }

    method Stop()
      modifies this
      ensures Self(Idle) == old(Self(Idle)).(stopped := true)
    {
      stopped := true;
    }

    method CommitCursor(kind: CommitKind, next: PollCursor, expected: Option<nat>, start: nat) returns (ok: bool)
      modifies this, db, db.cursor
      ensures (db.Tables(), Self(Idle)) ==
              Indexer.CommitCursor(old(db.Tables()), old(Self(Idle)), 0, kind, next, expected, start)
      ensures db.dispatched == old(db.dispatched)
    {
      ok := db.cursor.WriteCursor(next, expected);
      if !ok {
        fatal := true;
        Stop();
        return;
      }
      db.commits := db.commits + [Commit(0, kind, expected, next.lastLedger)];
      if expected.None? {
        db.origin := start;
      }
      lastLedger := Some(next.lastLedger);
    }

    method ClampToRetention(cursor: Option<PollCursor>, startLedger: nat, oldest: nat, now: int)
      modifies this, db, db.cursor
      ensures (db.Tables(), Self(Idle)) == ClampResult(old(db.Tables()), old(Self(Idle)), cursor, startLedger, oldest, now)
      ensures db.dispatched == old(db.dispatched)
    {
      var to := oldest - 1;
      if to >= startLedger {
        db.gaps := db.gaps + [Gap(startLedger, to)];
      }
      var _ := CommitCursor(Clamp, PollCursor(oldest, None, now), Expected(cursor), Min(startLedger, oldest));
    }

    /** The batch loop: dispatch, dead-letter or pass over each event, up to the
        first failing dispatch. */
    method HandleBatch(log: seq<Event>, f: Phase, fates: seq<Fate>) returns (completed: bool, processed: nat, highest: nat)
      requires f.Handling? && f.next == f.from && f.from + |fates| <= |log|
      modifies db
      ensures (db.Tables(), Self(if completed then f.(next := f.from + |fates|, highest := highest) else Idle)) ==
              HandleAll(old(db.Tables()), Self(f), log, f.from, fates, |fates|)
      ensures processed == |db.dispatched| - |old(db.dispatched)|
    {
      processed, highest := 0, f.highest;
      ghost var trace := [(db.Tables(), Self(f))];
      for k := 0 to |fates|
        invariant processed == |db.dispatched| - |old(db.dispatched)|
        invariant |trace| == k + 1 && trace[0] == (old(db.Tables()), Self(f))
        invariant trace[k] == (db.Tables(), Self(f.(next := f.from + k, highest := highest)))
        invariant IsTrace(log, f.from, fates, trace)
      {
        ghost var before := trace[k];
        var ok, counted, highest' := HandleNext(log, f.(next := f.from + k, highest := highest), fates[k]);
        ghost var after := (db.Tables(), Self(if ok then f.(next := f.from + k + 1, highest := highest') else Idle));
        ExtendTrace(log, f.from, fates, trace, after);
        trace := trace + [after];
        if !ok {
          TraceBreaksOff(log, f.from, fates, trace);
          return false, processed, highest;
        }
        if counted {
          processed := processed + 1;
        }
        highest := highest';
      }
      TraceEnds(log, f.from, fates, trace);
      completed := true;
    }

    /** The body of that loop for one event. */
    method HandleNext(log: seq<Event>, f: Phase, fate: Fate) returns (ok: bool, counted: bool, highest: nat)
      requires f.Handling? && f.next < |log|
      modifies db
      ensures (db.Tables(), Self(if ok then f.(next := f.next + 1, highest := highest) else Idle)) ==
              HandleMore((old(db.Tables()), Self(f)), log, f.next, fate)
      ensures |db.dispatched| == |old(db.dispatched)| + if counted then 1 else 0
      ensures !ok ==> !counted
    {
      ok, counted, highest := true, false, f.highest;
      var event := log[f.next];
      match event.kind {
        case Undecodable =>
          db.deadLetters := db.deadLetters + {f.next};
          highest := Max(highest, event.ledger);
        case UnknownTopic =>
          db.skipped := db.skipped + {f.next};
        case Known =>
          ok := db.Dispatch(f.next, fate);
          if !ok {
            db.failed := db.failed + {f.next};
            return;
          }
          db.dispatched := db.dispatched + multiset{f.next};
          counted := true;
          highest := Max(highest, event.ledger);
      }
    }

    /** What a batch writes at its end. */
    method FinishPoll(f: Phase, now: int)
      requires f.Handling?
      modifies this, db, db.cursor
      ensures (db.Tables(), Self(Idle)) == FinishBatch(old(db.Tables()), old(Self(f)), 0, now)
      ensures db.dispatched == old(db.dispatched)
    {
      if f.to > f.from || f.cursor.None? {
        var next := PollCursor(
          if f.highest == 0 then f.startLedger else f.highest,
          if f.token.Some? then f.token else if f.cursor.Some? then f.cursor.value.token else None,
          now);
        var _ := CommitCursor(Batch, next, Expected(f.cursor), f.startLedger);
      } else if now - f.cursor.value.updatedAt >= HEARTBEAT_EVERY_MS {
        var _ := CommitCursor(Heartbeat, f.cursor.value.(updatedAt := now), Expected(f.cursor), f.startLedger);
      }
    }

    /** One poll with nobody else on the database. A thrown error leaves what was
        already written and commits nothing. */
    method PollOnce(log: seq<Event>, a: Answers) returns (processed: nat)
      requires a.fetch.Ran? ==> a.fetch.from + |a.fetch.fates| <= |log|
      modifies this, db, db.cursor
      ensures (db.Tables(), Self(Idle)) == PollResult(old(db.Tables()), old(Self(Idle)), log, a)
      ensures processed == |db.dispatched| - |old(db.dispatched)|
    {
      processed := 0;
      var cursor := db.cursor.ReadCursor();
      var startLedger := StartLedger(cursor, a);
      match a.fetch {
        case Unreachable =>
        case TooOld(None) =>
        case TooOld(Some(oldest)) =>
          ClampToRetention(cursor, startLedger, oldest, a.now);
        case Ran(from, fates, hasToken) =>
          var to := from + |fates|;
          var base := if cursor.Some? then cursor.value.lastLedger else 0;
          var f := Handling(cursor, startLedger, from, to, if hasToken then Some(to) else None, from, base);
          var completed, highest;
          completed, processed, highest := HandleBatch(log, f, fates);
          if completed {
            FinishPoll(f.(next := to, highest := highest), a.now);
          }
      }
    }

    /** The poll loop, cut off when the outside world's answers end. */
    method Loop(log: seq<Event>, rounds: seq<Round>)
      requires InRange(log, rounds)
      modifies this, db, db.cursor
      ensures (db.Tables(), Self(Idle)) == LoopResult(old(db.Tables()), old(Self(Idle)), log, rounds)
    {
      var i, current := 0, log;
      while !stopped && i < |rounds|
        invariant i <= |rounds| && InRange(current, rounds[i..])
        invariant LoopResult(db.Tables(), Self(Idle), current, rounds[i..])
               == LoopResult(old(db.Tables()), old(Self(Idle)), log, rounds)
      {
        assert rounds[i..][1..] == rounds[i + 1..];
        current := Grown(current, rounds[i].closed);
        var _ := PollOnce(current, rounds[i].answers);
        i := i + 1;
      }
    }
  }

  /** The ledgers that close before a poll fetches, and what that poll is answered. */
  datatype Round = Round(closed: seq<seq<Event>>, answers: Answers)

  function Grown(log: seq<Event>, closed: seq<seq<Event>>): seq<Event> {
    if closed == [] then log else Grown(log, closed[..|closed| - 1]) + closed[|closed| - 1]
  }

  predicate InRange(log: seq<Event>, rounds: seq<Round>)
    decreases |rounds|
  {
    rounds != [] ==>
      var current := Grown(log, rounds[0].closed);
      var a := rounds[0].answers;
      (a.fetch.Ran? ==> a.fetch.from + |a.fetch.fates| <= |current|) && InRange(current, rounds[1..])
  }

  /** Polls until stopped, or until the answers run out. */
  function LoopResult(db: Db, p: Indexer.Poller, log: seq<Event>, rounds: seq<Round>): (Db, Indexer.Poller)
    requires InRange(log, rounds)
    decreases |rounds|
  {
    if rounds == [] || p.stopped then (db, p)
    else
      var current := Grown(log, rounds[0].closed);
      var (d, q) := PollResult(db, p, current, rounds[0].answers);
      LoopResult(d, q.(phase := Idle), current, rounds[1..])
  }

  /** The states of a batch, one after each event. */
  predicate IsTrace(log: seq<Event>, from: nat, fates: seq<Fate>, trace: seq<(Db, Indexer.Poller)>)
    requires 0 < |trace| <= |fates| + 1 && from + |fates| <= |log|
  {
    forall j :: 0 <= j < |trace| - 1 ==> IsStep(log, from, fates, trace, j)
  }

  predicate IsStep(log: seq<Event>, from: nat, fates: seq<Fate>, trace: seq<(Db, Indexer.Poller)>, j: nat)
    requires j < |trace| - 1 <= |fates| && from + |fates| <= |log|
  {
    trace[j + 1] == HandleMore(trace[j], log, from + j, fates[j])
  }

  lemma ExtendTrace(log: seq<Event>, from: nat, fates: seq<Fate>, trace: seq<(Db, Indexer.Poller)>, after: (Db, Indexer.Poller))
    requires 0 < |trace| <= |fates| && from + |fates| <= |log| && IsTrace(log, from, fates, trace)
    requires after == HandleMore(trace[|trace| - 1], log, from + |trace| - 1, fates[|trace| - 1])
    ensures IsTrace(log, from, fates, trace + [after])
  {
    forall j | 0 <= j < |trace|
      ensures IsStep(log, from, fates, trace + [after], j)
    {
      if j < |trace| - 1 {
        assert IsStep(log, from, fates, trace, j);
      }
    }
  }

  lemma {:induction false} TraceEnds(log: seq<Event>, from: nat, fates: seq<Fate>, trace: seq<(Db, Indexer.Poller)>)
    requires 0 < |trace| <= |fates| + 1 && from + |fates| <= |log| && IsTrace(log, from, fates, trace)
    ensures trace[|trace| - 1] == HandleAll(trace[0].0, trace[0].1, log, from, fates, |trace| - 1)
  {
    if |trace| > 1 {
      var init := trace[..|trace| - 1];
      forall j | 0 <= j < |init| - 1
        ensures IsStep(log, from, fates, init, j)
      {
        assert IsStep(log, from, fates, trace, j);
      }
      TraceEnds(log, from, fates, init);
      assert IsStep(log, from, fates, trace, |trace| - 2);
      NextAll(trace[0].0, trace[0].1, log, from, fates, |trace| - 1);
    }
  }

  lemma TraceBreaksOff(log: seq<Event>, from: nat, fates: seq<Fate>, trace: seq<(Db, Indexer.Poller)>)
    requires 0 < |trace| <= |fates| + 1 && from + |fates| <= |log| && IsTrace(log, from, fates, trace)
    requires !trace[|trace| - 1].1.phase.Handling?
    ensures trace[|trace| - 1] == HandleAll(trace[0].0, trace[0].1, log, from, fates, |fates|)
  {
    TraceEnds(log, from, fates, trace);
    IdleToTheEnd(trace[0].0, trace[0].1, log, from, fates, |trace| - 1);
  }

  lemma {:induction false} IdleToTheEnd(db: Db, p: Indexer.Poller, log: seq<Event>, from: nat, fates: seq<Fate>, k: nat)
    requires k <= |fates| && from + |fates| <= |log|
    requires !HandleAll(db, p, log, from, fates, k).1.phase.Handling?
    ensures HandleAll(db, p, log, from, fates, |fates|) == HandleAll(db, p, log, from, fates, k)
    decreases |fates| - k
  {
    if k < |fates| {
      IdleToTheEnd(db, p, log, from, fates, k + 1);
    }
  }

  // ------------------------------------------------------- a poll is a run

  /** The actions lead from `s` to `t`. */
  predicate Leads(s: State, acts: seq<Action>, t: State) {
    Legal(s, acts) && After(s, acts) == t
  }

  lemma LeadsOn(s: State, acts: seq<Action>, t: State, a: Action, u: State)
    requires Leads(s, acts, t) && Enabled(t, a) && Step(t, a) == u
    ensures Leads(s, acts + [a], u)
  {
    Extends(s, acts, a);
  }

  lemma BeginStep(s: State)
    requires |s.pollers| == 1 && s.pollers[0].phase.Idle? && !s.pollers[0].stopped
    ensures Enabled(s, Begin(0))
    ensures Step(s, Begin(0)) == s.(pollers := [s.pollers[0].(phase :=
              if s.db.row.None? then Locating else Fetching(s.db.row, s.db.row.value.lastLedger))])
  {
  }

  lemma Located(s: State, a: Answers)
    requires |s.pollers| == 1 && s.pollers[0].phase.Idle? && !s.pollers[0].stopped && Admissible(s, a)
    ensures Leads(s, LocateActs(s.db.row, a),
                  s.(pollers := [s.pollers[0].(phase := Fetching(s.db.row, StartLedger(s.db.row, a)))]))
  {
    BeginStep(s);
    assert Leads(s, [], s);
    LeadsOn(s, [], s, Begin(0), Step(s, Begin(0)));
    assert [] + [Begin(0)] == [Begin(0)];
    if s.db.row.None? {
      var t := Step(s, Begin(0));
      LeadsOn(s, [Begin(0)], t, ColdStart(0, a.latest, a.coldStartLedgers), Step(t, ColdStart(0, a.latest, a.coldStartLedgers)));
      assert [Begin(0)] + [ColdStart(0, a.latest, a.coldStartLedgers)] == LocateActs(s.db.row, a);
    }
  }

  lemma TooOldStep(t: State, oldest: nat)
    requires |t.pollers| == 1 && t.pollers[0].phase.Fetching?
    ensures Enabled(t, FetchTooOld(0, Some(oldest)))
    ensures var p := t.pollers[0];
            Step(t, FetchTooOld(0, Some(oldest))) ==
            t.(pollers := [p.(phase := Clamping(p.phase.cursor, p.phase.startLedger, oldest, false))])
  {
  }

  lemma GapStep(t: State)
    requires |t.pollers| == 1 && t.pollers[0].phase.Clamping? && !t.pollers[0].phase.recorded
    ensures Enabled(t, RecordGap(0))
    ensures var p := t.pollers[0];
            var c := p.phase;
            var db := if c.oldest > c.startLedger then t.db.(gaps := t.db.gaps + [Gap(c.startLedger, c.oldest - 1)]) else t.db;
            Step(t, RecordGap(0)) == t.(db := db, pollers := [p.(phase := c.(recorded := true))])
  {
  }

  lemma ClampStep(t: State, now: int)
    requires |t.pollers| == 1 && t.pollers[0].phase.Clamping? && t.pollers[0].phase.recorded
    ensures Enabled(t, CommitClamp(0, now))
    ensures var p := t.pollers[0];
            var f := p.phase;
            var (db, q) := Indexer.CommitCursor(t.db, p.(phase := Idle), 0, Clamp, PollCursor(f.oldest, None, now),
                                                Expected(f.cursor), Min(f.startLedger, f.oldest));
            Step(t, CommitClamp(0, now)) == t.(db := db, pollers := [q])
  {
  }

  lemma ClampLeads(s: State, acts: seq<Action>, t: State, oldest: nat, now: int)
    requires Leads(s, acts, t) && |t.pollers| == 1 && t.pollers[0].phase.Fetching?
    ensures var p := t.pollers[0];
            var (db, q) := ClampResult(t.db, p.(phase := Idle), p.phase.cursor, p.phase.startLedger, oldest, now);
            Leads(s, acts + [FetchTooOld(0, Some(oldest)), RecordGap(0), CommitClamp(0, now)],
                  t.(db := db, pollers := [q]))
  {
    TooOldStep(t, oldest);
    var t1 := Step(t, FetchTooOld(0, Some(oldest)));
    LeadsOn(s, acts, t, FetchTooOld(0, Some(oldest)), t1);
    var a1 := acts + [FetchTooOld(0, Some(oldest))];
    GapStep(t1);
    var t2 := Step(t1, RecordGap(0));
    LeadsOn(s, a1, t1, RecordGap(0), t2);
    var a2 := a1 + [RecordGap(0)];
    ClampStep(t2, now);
    LeadsOn(s, a2, t2, CommitClamp(0, now), Step(t2, CommitClamp(0, now)));
    assert a2 + [CommitClamp(0, now)] == acts + [FetchTooOld(0, Some(oldest)), RecordGap(0), CommitClamp(0, now)];
  }

  lemma HandleStep(t: State, fate: Fate)
    requires |t.pollers| == 1 && t.pollers[0].phase.Handling?
    requires t.pollers[0].phase.next < t.pollers[0].phase.to <= |t.log|
    ensures Enabled(t, Handle(0, fate))
    ensures var p := t.pollers[0];
            var (db, q) := HandleEvent(t.db, p, p.phase.next, t.log[p.phase.next], fate);
            && Step(t, Handle(0, fate)) == t.(db := db, pollers := [q])
            && (q.phase.Handling? ==> q.phase == p.phase.(next := p.phase.next + 1, highest := q.phase.highest))
  {
  }

  lemma HandleNext(s: State, acts: seq<Action>, t: State, fate: Fate)
    requires Leads(s, acts, t)
    requires |t.pollers| == 1 && t.pollers[0].phase.Handling?
    requires t.pollers[0].phase.next < t.pollers[0].phase.to <= |t.log|
    ensures var p := t.pollers[0];
            var (db, q) := HandleEvent(t.db, p, p.phase.next, t.log[p.phase.next], fate);
            && Leads(s, acts + [Handle(0, fate)], t.(db := db, pollers := [q]))
            && (q.phase.Handling? ==> q.phase == p.phase.(next := p.phase.next + 1, highest := q.phase.highest))
  {
    HandleStep(t, fate);
    LeadsOn(s, acts, t, Handle(0, fate), Step(t, Handle(0, fate)));
  }

  /** The acts take the fetched state as far as the `k`-th event of its batch. */
  predicate HandledTo(t: State, k: nat, acts: seq<Action>, after: (Db, Indexer.Poller)) {
    && |t.pollers| == 1 && t.pollers[0].phase.Handling?
    && Leads(t, acts, t.(db := after.0, pollers := [after.1]))
    && var f := t.pollers[0].phase;
       (after.1.phase.Handling? ==> after.1.phase == f.(next := f.from + k, highest := after.1.phase.highest))
  }

  lemma {:induction false} HandleLeads(t: State, fates: seq<Fate>, k: nat)
    requires |t.pollers| == 1 && t.pollers[0].phase.Handling?
    requires var f := t.pollers[0].phase; f.next == f.from && f.to == f.from + |fates| <= |t.log|
    requires k <= |fates|
    ensures var p := t.pollers[0];
            HandledTo(t, k, HandleActs(t.db, p, t.log, p.phase.from, fates, k), HandleAll(t.db, p, t.log, p.phase.from, fates, k))
  {
    var p := t.pollers[0];
    var from := p.phase.from;
    if k == 0 {
      assert t.(db := t.db, pollers := [p]) == t;
    } else {
      HandleLeads(t, fates, k - 1);
      OneMoreHandled(t, k - 1, HandleActs(t.db, p, t.log, from, fates, k - 1), HandleAll(t.db, p, t.log, from, fates, k - 1), fates[k - 1]);
      NextActs(t.db, p, t.log, from, fates, k);
      NextAll(t.db, p, t.log, from, fates, k);
    }
  }

  lemma NextActs(db: Db, p: Indexer.Poller, log: seq<Event>, from: nat, fates: seq<Fate>, k: nat)
    requires 0 < k <= |fates| && from + |fates| <= |log|
    ensures HandleActs(db, p, log, from, fates, k)
         == OneMoreAct(HandleActs(db, p, log, from, fates, k - 1), HandleAll(db, p, log, from, fates, k - 1).1, fates[k - 1])
  {
  }

  lemma NextAll(db: Db, p: Indexer.Poller, log: seq<Event>, from: nat, fates: seq<Fate>, k: nat)
    requires 0 < k <= |fates| && from + |fates| <= |log|
    ensures HandleAll(db, p, log, from, fates, k) == HandleMore(HandleAll(db, p, log, from, fates, k - 1), log, from + k - 1, fates[k - 1])
  {
  }

  function OneMoreAct(acts: seq<Action>, q: Indexer.Poller, fate: Fate): seq<Action> {
    if q.phase.Handling? then acts + [Handle(0, fate)] else acts
  }

  lemma OneMoreHandled(t: State, k: nat, acts: seq<Action>, before: (Db, Indexer.Poller), fate: Fate)
    requires HandledTo(t, k, acts, before)
    requires var f := t.pollers[0].phase; f.from + k < f.to <= |t.log|
    ensures HandledTo(t, k + 1, OneMoreAct(acts, before.1, fate), HandleMore(before, t.log, t.pollers[0].phase.from + k, fate))
  {
    if before.1.phase.Handling? {
      HandleNext(t, acts, t.(db := before.0, pollers := [before.1]), fate);
    }
  }

  /** Runs follow one another. */
  lemma {:induction false} LeadsThrough(s: State, acts: seq<Action>, t: State, more: seq<Action>, u: State)
    requires Leads(s, acts, t) && Leads(t, more, u)
    ensures Leads(s, acts + more, u)
  {
    if more == [] {
      assert acts + more == acts;
    } else {
      var init, last := more[..|more| - 1], more[|more| - 1];
      LeadsThrough(s, acts, t, init, After(t, init));
      LeadsOn(s, acts + init, After(t, init), last, u);
      assert acts + init + [last] == acts + more;
    }
  }

  lemma FetchStep(t: State, a: Answers)
    requires |t.pollers| == 1 && t.pollers[0].phase == Fetching(t.db.row, StartLedger(t.db.row, a))
    requires a.fetch.Ran? && Admissible(t, a)
    ensures var act := FetchOk(0, a.fetch.from, a.fetch.from + |a.fetch.fates|, a.fetch.hasToken);
            Enabled(t, act) && Step(t, act) == t.(pollers := [Fetched(t.pollers[0], t.db.row, a)])
  {
  }

  lemma FetchLeads(s: State, acts: seq<Action>, t: State, a: Answers)
    requires Leads(s, acts, t)
    requires |t.pollers| == 1 && t.pollers[0].phase == Fetching(t.db.row, StartLedger(t.db.row, a))
    requires a.fetch.Ran? && Admissible(t, a)
    ensures Leads(s, acts + [FetchOk(0, a.fetch.from, a.fetch.from + |a.fetch.fates|, a.fetch.hasToken)],
                  t.(pollers := [Fetched(t.pollers[0], t.db.row, a)]))
  {
    FetchStep(t, a);
    LeadsOn(s, acts, t, FetchOk(0, a.fetch.from, a.fetch.from + |a.fetch.fates|, a.fetch.hasToken),
            t.(pollers := [Fetched(t.pollers[0], t.db.row, a)]));
  }

  lemma FinishStep(t: State, now: int)
    requires |t.pollers| == 1 && t.pollers[0].phase.Handling? && t.pollers[0].phase.next == t.pollers[0].phase.to
    ensures Enabled(t, CommitBatch(0, now))
    ensures var (db, q) := FinishBatch(t.db, t.pollers[0], 0, now);
            Step(t, CommitBatch(0, now)) == t.(db := db, pollers := [q])
  {
  }

  lemma BatchLeads(s: State, acts: seq<Action>, t: State, a: Answers)
    requires Leads(s, acts, t)
    requires |t.pollers| == 1 && t.pollers[0].phase == Fetching(t.db.row, StartLedger(t.db.row, a))
    requires a.fetch.Ran? && Admissible(t, a)
    ensures var p := Fetched(t.pollers[0], t.db.row, a);
            var n := |a.fetch.fates|;
            var (d, q) := HandleAll(t.db, p, t.log, a.fetch.from, a.fetch.fates, n);
            var (db, r) := if q.phase.Handling? then FinishBatch(d, q, 0, a.now) else (d, q);
            Leads(s, acts + ([FetchOk(0, a.fetch.from, a.fetch.from + n, a.fetch.hasToken)]
                             + HandleActs(t.db, p, t.log, a.fetch.from, a.fetch.fates, n)
                             + if q.phase.Handling? then [CommitBatch(0, a.now)] else []),
                  t.(db := db, pollers := [r]))
  {
    var from, fates, n := a.fetch.from, a.fetch.fates, |a.fetch.fates|;
    var p := Fetched(t.pollers[0], t.db.row, a);
    var fetch := FetchOk(0, from, from + n, a.fetch.hasToken);
    var t1 := t.(pollers := [p]);
    FetchLeads(s, acts, t, a);
    var handles := HandleActs(t.db, p, t.log, from, fates, n);
    var (d, q) := HandleAll(t.db, p, t.log, from, fates, n);
    HandleLeads(t1, fates, n);
    HandledLeads(s, acts + [fetch], t1, handles, d, q, a.now);
    Regroup(acts, [fetch], handles, if q.phase.Handling? then [CommitBatch(0, a.now)] else []);
  }

  lemma Regroup(a: seq<Action>, b: seq<Action>, c: seq<Action>, d: seq<Action>)
    ensures a + b + c + d == a + (b + c + d)
  {
  }

  lemma HandledLeads(s: State, acts: seq<Action>, t: State, handles: seq<Action>, d: Db, q: Indexer.Poller, now: int)
    requires Leads(s, acts, t) && Leads(t, handles, t.(db := d, pollers := [q]))
    requires q.phase.Handling? ==> q.phase.next == q.phase.to
    ensures var (db, r) := if q.phase.Handling? then FinishBatch(d, q, 0, now) else (d, q);
            Leads(s, acts + handles + if q.phase.Handling? then [CommitBatch(0, now)] else [], t.(db := db, pollers := [r]))
  {
    var t2 := t.(db := d, pollers := [q]);
    LeadsThrough(s, acts, t, handles, t2);
    FinishLeads(s, acts + handles, t2, now);
  }

  lemma FinishLeads(s: State, acts: seq<Action>, t: State, now: int)
    requires Leads(s, acts, t) && |t.pollers| == 1
    requires t.pollers[0].phase.Handling? ==> t.pollers[0].phase.next == t.pollers[0].phase.to
    ensures var q := t.pollers[0];
            var (db, r) := if q.phase.Handling? then FinishBatch(t.db, q, 0, now) else (t.db, q);
            Leads(s, acts + if q.phase.Handling? then [CommitBatch(0, now)] else [], t.(db := db, pollers := [r]))
  {
    if t.pollers[0].phase.Handling? {
      FinishStep(t, now);
      LeadsOn(s, acts, t, CommitBatch(0, now), Step(t, CommitBatch(0, now)));
    } else {
      assert acts + [] == acts;
      assert t.(db := t.db, pollers := [t.pollers[0]]) == t;
    }
  }

  /** The sequential poll, as the method performs it, is a run of the interleaved
      machine: what holds over all runs holds for it. */
  lemma PollIsRun(s: State, a: Answers)
    requires |s.pollers| == 1 && s.pollers[0].phase.Idle? && !s.pollers[0].stopped && Admissible(s, a)
    ensures var (db, p) := PollResult(s.db, s.pollers[0], s.log, a);
            Leads(s, Script(s, a), s.(db := db, pollers := [p.(phase := Idle)]))
  {
    Located(s, a);
    var acts := LocateActs(s.db.row, a);
    var t := s.(pollers := [s.pollers[0].(phase := Fetching(s.db.row, StartLedger(s.db.row, a)))]);
    var idle := s.(pollers := [s.pollers[0]]);
    match a.fetch {
      case Unreachable =>
        FailStep(t, Throw(0));
        LeadsOn(s, acts, t, Throw(0), idle);
      case TooOld(None) =>
        FailStep(t, FetchTooOld(0, None));
        LeadsOn(s, acts, t, FetchTooOld(0, None), idle);
      case TooOld(Some(oldest)) =>
        ClampLeads(s, acts, t, oldest, a.now);
      case Ran(_, _, _) =>
        BatchLeads(s, acts, t, a);
        EndsIdle(s, a);
    }
  }

  lemma FailStep(t: State, a: Action)
    requires |t.pollers| == 1 && t.pollers[0].phase.Fetching? && (a == Throw(0) || a == FetchTooOld(0, None))
    ensures Enabled(t, a) && Step(t, a) == t.(pollers := [t.pollers[0].(phase := Idle)])
  {
  }

  lemma EndsIdle(s: State, a: Answers)
    requires a.fetch.Ran? && a.fetch.from + |a.fetch.fates| <= |s.log| && |s.pollers| == 1
    ensures PollResult(s.db, s.pollers[0], s.log, a).1.phase.Idle?
  {
    HandlesOrIdles(s.db, Fetched(s.pollers[0], s.db.row, a), s.log, a.fetch.from, a.fetch.fates, |a.fetch.fates|);
  }

  lemma {:induction false} HandlesOrIdles(db: Db, p: Indexer.Poller, log: seq<Event>, from: nat, fates: seq<Fate>, k: nat)
    requires k <= |fates| && from + |fates| <= |log| && p.phase.Handling?
    ensures var q := HandleAll(db, p, log, from, fates, k).1; q.phase.Handling? || q.phase.Idle?
  {
    if k > 0 {
      HandlesOrIdles(db, p, log, from, fates, k - 1);
    }
  }

  // ------------------------------------------------------- the loop is a run

  /** The chain after the given ledgers have closed. */
  function Closed(s: State, closed: seq<seq<Event>>): State {
    s.(log := Grown(s.log, closed), head := s.head + |closed|)
  }

  predicate InOrder(head: nat, closed: seq<seq<Event>>) {
    forall k, e :: 0 <= k < |closed| && e in closed[k] ==> e.ledger == head + k + 1
  }

  lemma {:induction false} ClosingReaches(s: State, closed: seq<seq<Event>>)
    requires InOrder(s.head, closed)
    ensures Reaches(s, Closed(s, closed))
  {
    if closed == [] {
      ReachesSelf(s);
      assert Closed(s, closed) == s;
    } else {
      var init, last := closed[..|closed| - 1], closed[|closed| - 1];
      ClosingReaches(s, init);
      var t := ReachesNext(s, Closed(s, init), CloseLedger(last));
      assert t == Closed(s, closed);
    }
  }

  /** The ledgers close in order, and each answer fits the state its poll starts in. */
  predicate LoopAdmissible(s: State, rounds: seq<Round>)
    requires |s.pollers| == 1
    decreases |rounds|
  {
    rounds != [] && !s.pollers[0].stopped ==>
      var r := rounds[0];
      var t := Closed(s, r.closed);
      InOrder(s.head, r.closed) && Admissible(t, r.answers) && LoopAdmissible(AfterPoll(t, r.answers), rounds[1..])
  }

  function AfterPoll(s: State, a: Answers): (t: State)
    requires |s.pollers| == 1 && Admissible(s, a)
    ensures |t.pollers| == 1 && t.log == s.log && t.pollers[0].phase.Idle?
  {
    var (db, p) := PollResult(s.db, s.pollers[0], s.log, a);
    s.(db := db, pollers := [p.(phase := Idle)])
  }

  function LoopEnd(s: State, rounds: seq<Round>): State
    requires |s.pollers| == 1 && LoopAdmissible(s, rounds)
    decreases |rounds|
  {
    if rounds == [] || s.pollers[0].stopped then s
    else LoopEnd(AfterPoll(Closed(s, rounds[0].closed), rounds[0].answers), rounds[1..])
  }

  /** The whole loop, with the chain growing between its polls, is a run of the
      interleaved machine and ends where the method does. */
  lemma {:induction false} LoopIsRun(s: State, rounds: seq<Round>)
    requires |s.pollers| == 1 && s.pollers[0].phase.Idle? && LoopAdmissible(s, rounds) && InRange(s.log, rounds)
    ensures var t := LoopEnd(s, rounds);
            Reaches(s, t) && |t.pollers| == 1 && (t.db, t.pollers[0]) == LoopResult(s.db, s.pollers[0], s.log, rounds)
    decreases |rounds|
  {
    if rounds == [] || s.pollers[0].stopped {
      ReachesSelf(s);
    } else {
      var c, a := Closed(s, rounds[0].closed), rounds[0].answers;
      ClosingReaches(s, rounds[0].closed);
      LoopIsRun(AfterPoll(c, a), rounds[1..]);
      PollReaches(c, a);
      ReachesThrough(c, AfterPoll(c, a), LoopEnd(s, rounds));
      ReachesThrough(s, c, LoopEnd(s, rounds));
    }
  }

  lemma PollReaches(s: State, a: Answers)
    requires |s.pollers| == 1 && s.pollers[0].phase.Idle? && !s.pollers[0].stopped && Admissible(s, a)
    ensures Reaches(s, AfterPoll(s, a))
  {
    PollIsRun(s, a);
  }

  lemma ReachesThrough(s: State, t: State, u: State)
    requires Reaches(s, t) && Reaches(t, u)
    ensures Reaches(s, u)
  {
    var acts :| Legal(s, acts) && After(s, acts) == t;
    var more :| Legal(t, more) && After(t, more) == u;
    LeadsThrough(s, acts, t, more, u);
  }
}
