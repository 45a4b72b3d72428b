/**
 The event indexer as interleaved steps of any number of pollers over one
 database and one growing on-chain event log.
 */
module Indexer {
  import opened Wrappers
  import opened Cursor

  const HEARTBEAT_EVERY_MS: int := 30_000

  datatype Kind = Undecodable | UnknownTopic | Known

  datatype Event = Event(ledger: nat, kind: Kind)

  datatype Gap = Gap(from: nat, to: nat)

  datatype CommitKind = Batch | Heartbeat | Clamp

  /** A cursor write that landed. */
  datatype Commit = Commit(who: nat, kind: CommitKind, expected: Option<nat>, ledger: nat)

  /** How one dispatch of an event ends: its handler returns, or it throws before
      anything is written, after its rollback has kept the archive row, or after its
      transaction has committed. */
  datatype Fate = Returns | ThrowsEarly | ThrowsArchived | ThrowsLate

  /** The raw-event table, whose ids guard against duplicates, and the projections. */
  datatype Archive = Archive(archived: set<nat>, projected: multiset<nat>)

  /** The shared database. Events are named by their index in the log. `dispatched`
      counts the dispatches that returned, `failed` holds the events dead-lettered
      because a dispatch threw, `skipped` the unrecognised topics passed over,
      `commits` the history of the cursor row and `origin` the lowest ledger the
      first one accounts for. */
  datatype Db = Db(
    row: Option<PollCursor>,
    gaps: seq<Gap>,
    deadLetters: set<nat>,
    dispatched: multiset<nat>,
    archive: Archive,
    failed: set<nat>,
    skipped: set<nat>,
    commits: seq<Commit>,
    origin: nat)

  /** Where one poller stands inside a poll. */
  datatype Phase =
    | Idle
    | Locating
    | Fetching(cursor: Option<PollCursor>, startLedger: nat)
    | Handling(cursor: Option<PollCursor>, startLedger: nat, from: nat, to: nat, token: Option<nat>, next: nat, highest: nat)
    | Clamping(cursor: Option<PollCursor>, startLedger: nat, oldest: nat, recorded: bool)

  datatype Poller = Poller(phase: Phase, stopped: bool, fatal: bool, lastLedger: Option<nat>)

  datatype State = State(log: seq<Event>, head: nat, db: Db, pollers: seq<Poller>)

  datatype Action =
    | CloseLedger(events: seq<Event>)
    | Begin(who: nat)
    | ColdStart(who: nat, latest: nat, coldStartLedgers: nat)
    | FetchOk(who: nat, from: nat, to: nat, hasToken: bool)
    | FetchTooOld(who: nat, oldest: Option<nat>)
    | Handle(who: nat, fate: Fate)
    | CommitBatch(who: nat, now: int)
    | RecordGap(who: nat)
    | CommitClamp(who: nat, now: int)
    | Throw(who: nat)
    | Stop(who: nat)

  // ---------------------------------------------------------------- transitions

  function Max(a: int, b: int): int {
    if a < b then b else a
  }

  function Min(a: int, b: int): int {
    if a < b then a else b
  }

  function Expected(cursor: Option<PollCursor>): Option<nat> {
    match cursor
    case None => None
    case Some(c) => Some(c.lastLedger)
  }

  function HasToken(cursor: Option<PollCursor>): bool {
    cursor.Some? && cursor.value.token.Some?
  }

  /** `from` is the position of the first event at or after `ledger`. */
  predicate StartsAt(log: seq<Event>, from: nat, ledger: nat) {
    && from <= |log|
    && (forall i :: 0 <= i < from ==> log[i].ledger < ledger)
    && (forall i :: from <= i < |log| ==> log[i].ledger >= ledger)
  }

  /** The RPC answers with a run of the log: from the token when there is one,
      otherwise from the start ledger, which must not lie ahead of the chain. */
  predicate AnswersFrom(s: State, cursor: Option<PollCursor>, startLedger: nat, from: nat) {
    if HasToken(cursor) then from == cursor.value.token.value
    else startLedger <= s.head && StartsAt(s.log, from, startLedger)
  }

  predicate Enabled(s: State, a: Action) {
    match a
    case CloseLedger(events) => forall e :: e in events ==> e.ledger == s.head + 1
    case _ =>
      && a.who < |s.pollers|
      && var p := s.pollers[a.who];
         match a
         case Begin(_) => p.phase.Idle? && !p.stopped
         case ColdStart(_, latest, _) => p.phase.Locating? && latest <= s.head
         case FetchOk(_, from, to, _) =>
           p.phase.Fetching? && from <= to <= |s.log| && AnswersFrom(s, p.phase.cursor, p.phase.startLedger, from)
         case FetchTooOld(_, _) => p.phase.Fetching?
         case Handle(_, _) => p.phase.Handling? && p.phase.next < p.phase.to <= |s.log|
         case CommitBatch(_, _) => p.phase.Handling? && p.phase.next == p.phase.to
         case RecordGap(_) => p.phase.Clamping? && !p.phase.recorded
         case CommitClamp(_, _) => p.phase.Clamping? && p.phase.recorded
         case Throw(_) => !p.phase.Idle?
         case _ => true
  }

  /** A conditional write by a poller: on a hit it remembers the ledger, on a
      miss it goes fatal and stops. */
  function CommitCursor(db: Db, p: Poller, who: nat, kind: CommitKind, next: PollCursor, expected: Option<nat>, start: nat): (Db, Poller) {
    var (row, ok) := CasWrite(db.row, next, expected);
    if ok then
      (db.(row := row,
           commits := db.commits + [Commit(who, kind, expected, next.lastLedger)],
           origin := if expected.None? then start else db.origin),
       p.(phase := Idle, lastLedger := Some(next.lastLedger)))
    else
      (db, p.(phase := Idle, fatal := true, stopped := true))
  }

  /** One transaction archives the event and updates the projections; an event
      that is archived already is left alone. */
  function Projected(ar: Archive, index: nat): Archive {
    if index in ar.archived then ar
    else Archive(ar.archived + {index}, ar.projected + multiset{index})
  }

  function Delivered(ar: Archive, index: nat, fate: Fate): Archive {
    match fate
    case Returns => Projected(ar, index)
    case ThrowsEarly => ar
    case ThrowsArchived => ar.(archived := ar.archived + {index})
    case ThrowsLate => Projected(ar, index)
  }

  /** One event of the fetched batch. */
  function HandleEvent(db: Db, p: Poller, index: nat, event: Event, fate: Fate): (Db, Poller)
    requires p.phase.Handling?
  {
    var seen := p.(phase := p.phase.(next := index + 1));
    var counted := seen.(phase := seen.phase.(highest := Max(p.phase.highest, event.ledger)));
    match event.kind
    case Undecodable => (db.(deadLetters := db.deadLetters + {index}), counted)
    case UnknownTopic => (db.(skipped := db.skipped + {index}), seen)
    case Known =>
      var tried := db.(archive := Delivered(db.archive, index, fate));
      if fate.Returns? then (tried.(dispatched := db.dispatched + multiset{index}), counted)
      else (tried.(failed := db.failed + {index}), p.(phase := Idle))
  }

  /** The end of a batch: commit when it carried events or the row is new,
      refresh the timestamp of a stale row, otherwise leave the row alone. */
  function FinishBatch(db: Db, p: Poller, who: nat, now: int): (Db, Poller)
    requires p.phase.Handling?
  {
    var h := p.phase;
    if h.to > h.from || h.cursor.None? then
      var next := PollCursor(
        if h.highest == 0 then h.startLedger else h.highest,
        if h.token.Some? then h.token else if h.cursor.Some? then h.cursor.value.token else None,
        now);
      CommitCursor(db, p, who, Batch, next, Expected(h.cursor), h.startLedger)
    else if now - h.cursor.value.updatedAt >= HEARTBEAT_EVERY_MS then
      CommitCursor(db, p, who, Heartbeat, h.cursor.value.(updatedAt := now), Expected(h.cursor), h.startLedger)
    else
      (db, p.(phase := Idle))
  }

  function Update(s: State, who: nat, dp: (Db, Poller)): State
    requires who < |s.pollers|
  {
    s.(db := dp.0, pollers := s.pollers[who := dp.1])
  }

  function Step(s: State, a: Action): State
    requires Enabled(s, a)
  {
    match a
    case CloseLedger(events) => s.(log := s.log + events, head := s.head + 1)
    case Begin(who) =>
      var p := s.pollers[who];
      Update(s, who, (s.db, p.(phase := if s.db.row.None? then Locating else Fetching(s.db.row, s.db.row.value.lastLedger))))
    case ColdStart(who, latest, cold) =>
      Update(s, who, (s.db, s.pollers[who].(phase := Fetching(None, Max(1, latest - cold)))))
    case FetchOk(who, from, to, hasToken) =>
      var p := s.pollers[who];
      var f := p.phase;
      var highest := if f.cursor.Some? then f.cursor.value.lastLedger else 0;
      Update(s, who, (s.db, p.(phase :=
        Handling(f.cursor, f.startLedger, from, to, if hasToken then Some(to) else None, from, highest))))
    case FetchTooOld(who, oldest) =>
      var p := s.pollers[who];
      Update(s, who, (s.db, p.(phase :=
        if oldest.None? then Idle else Clamping(p.phase.cursor, p.phase.startLedger, oldest.value, false))))
    case Handle(who, fate) =>
      var p := s.pollers[who];
      Update(s, who, HandleEvent(s.db, p, p.phase.next, s.log[p.phase.next], fate))
    case CommitBatch(who, now) =>
      Update(s, who, FinishBatch(s.db, s.pollers[who], who, now))
    case RecordGap(who) =>
      var p := s.pollers[who];
      var c := p.phase;
      var db := if c.oldest > c.startLedger then s.db.(gaps := s.db.gaps + [Gap(c.startLedger, c.oldest - 1)]) else s.db;
      Update(s, who, (db, p.(phase := c.(recorded := true))))
    case CommitClamp(who, now) =>
      var p := s.pollers[who];
      var c := p.phase;
      Update(s, who, CommitCursor(s.db, p, who, Clamp, PollCursor(c.oldest, None, now), Expected(c.cursor), Min(c.startLedger, c.oldest)))
    case Throw(who) => Update(s, who, (s.db, s.pollers[who].(phase := Idle)))
    case Stop(who) => Update(s, who, (s.db, s.pollers[who].(stopped := true)))
  }

  // ----------------------------------------------------------------------- runs

  const EMPTY_DB := Db(None, [], {}, multiset{}, Archive({}, multiset{}), {}, {}, [], 0)

  /** An empty database, a chain that has closed at least one ledger, pollers about to start. */
  predicate Initial(s: State) {
    && s.db == EMPTY_DB
    && s.head >= 1
    && Ordered(s)
    && (forall p :: p in s.pollers ==> p == Poller(Idle, false, false, None))
  }

  /** The log is in ledger order and reaches no further than the chain's head. */
  predicate Ordered(s: State) {
    && (forall i :: 0 <= i < |s.log| ==> 1 <= s.log[i].ledger <= s.head)
    && (forall i, j :: 0 <= i < j < |s.log| ==> s.log[i].ledger <= s.log[j].ledger)
  }

  predicate Legal(s: State, acts: seq<Action>)
    decreases |acts|, 0
  {
    acts != [] ==> Legal(s, acts[..|acts| - 1]) && Enabled(After(s, acts[..|acts| - 1]), acts[|acts| - 1])
  }

  function After(s: State, acts: seq<Action>): State
    requires Legal(s, acts)
    decreases |acts|, 1
  {
    if acts == [] then s else Step(After(s, acts[..|acts| - 1]), acts[|acts| - 1])
  }

  // ------------------------------------------------------------- no silent skip

  predicate InGap(db: Db, ledger: nat) {
    exists k :: 0 <= k < |db.gaps| && db.gaps[k].from <= ledger <= db.gaps[k].to
  }

  /** The event was dispatched, dead-lettered at decode, passed over as an
      unknown topic, or lies in a recorded gap. */
  predicate Handled(s: State, i: nat)
    requires i < |s.log|
  {
    i in s.db.dispatched || i in s.db.deadLetters || i in s.db.skipped || InGap(s.db, s.log[i].ledger)
  }

  /** The cursor has moved past the event, by ledger or by token. */
  predicate Passed(s: State, c: PollCursor, i: nat)
    requires i < |s.log|
  {
    s.log[i].ledger < c.lastLedger || (c.token.Some? && i < c.token.value)
  }

  /** Everything from the origin that the cursor has passed is handled, and so is
      every ledger it has passed that is still to come. */
  predicate Covers(s: State, origin: nat, c: PollCursor) {
    && (c.token.Some? ==> c.token.value <= |s.log|)
    && (forall i :: 0 <= i < |s.log| && s.log[i].ledger >= origin && Passed(s, c, i) ==> Handled(s, i))
    && (forall l: nat :: s.head < l < c.lastLedger && l >= origin ==> InGap(s.db, l))
  }

  /** What a poller may rely on in the middle of a poll. */
  predicate PhaseSound(s: State, f: Phase) {
    match f
    case Idle => true
    case Locating => true
    case Fetching(cursor, start) => CursorSound(s, cursor, start)
    case Handling(cursor, start, from, to, token, next, highest) =>
      && CursorSound(s, cursor, start)
      && from <= next <= to <= |s.log|
      && (token.Some? ==> token.value == to)
      && (if HasToken(cursor) then from == cursor.value.token.value
          else forall i :: 0 <= i < from ==> s.log[i].ledger < start)
      && (forall i :: from <= i < next ==> Handled(s, i))
      && HighestSound(s, cursor, from, next, highest)
    case Clamping(cursor, start, oldest, recorded) =>
      && CursorSound(s, cursor, start)
      && (recorded ==> forall l: nat :: start <= l < oldest ==> InGap(s.db, l))
  }

  predicate CursorSound(s: State, cursor: Option<PollCursor>, start: nat) {
    match cursor
    case None => start <= s.head
    case Some(c) => s.db.row.Some? && start == c.lastLedger && Covers(s, s.db.origin, c)
  }

  /** The running maximum is the cursor's ledger or that of a handled event. */
  predicate HighestSound(s: State, cursor: Option<PollCursor>, from: nat, next: nat, highest: nat)
    requires from <= next <= |s.log|
  {
    var base := if cursor.Some? then cursor.value.lastLedger else 0;
    highest >= base && (highest > base ==> exists j :: from <= j < next && s.log[j].ledger == highest)
  }

  predicate Sound(s: State) {
    && Ordered(s)
    && s.head >= 1
    && (s.db.row.Some? ==> Covers(s, s.db.origin, s.db.row.value))
    && (forall w :: 0 <= w < |s.pollers| ==> PhaseSound(s, s.pollers[w].phase))
  }

  /** The log and the record of handled events only grow, and the origin is fixed once set. */
  ghost predicate Grows(s: State, t: State) {
    && |s.log| <= |t.log| && s.log == t.log[..|s.log|]
    && s.head <= t.head
    && (forall i :: |s.log| <= i < |t.log| ==> s.head < t.log[i].ledger)
    && (forall l: nat :: InGap(s.db, l) ==> InGap(t.db, l))
    && (forall i :: 0 <= i < |s.log| && Handled(s, i) ==> Handled(t, i))
    && (s.db.row.Some? ==> t.db.row.Some? && t.db.origin == s.db.origin)
  }

  lemma GapsGrow(db: Db, gap: Gap, l: nat)
    ensures InGap(db, l) || gap.from <= l <= gap.to ==> InGap(db.(gaps := db.gaps + [gap]), l)
  {
    var db' := db.(gaps := db.gaps + [gap]);
    if InGap(db, l) {
      var k :| 0 <= k < |db.gaps| && db.gaps[k].from <= l <= db.gaps[k].to;
      assert db'.gaps[k] == db.gaps[k];
    } else if gap.from <= l <= gap.to {
      assert db'.gaps[|db.gaps|] == gap;
    }
  }

  lemma StepGrows(s: State, a: Action)
    requires Ordered(s) && Enabled(s, a)
    ensures Grows(s, Step(s, a)) && Ordered(Step(s, a))
  {
    var t := Step(s, a);
    if a.RecordGap? {
      var c := s.pollers[a.who].phase;
      forall l: nat | InGap(s.db, l)
        ensures InGap(t.db, l)
      {
        GapsGrow(s.db, Gap(c.startLedger, if c.oldest > 0 then c.oldest - 1 else 0), l);
      }
    } else {
      assert t.db.gaps == s.db.gaps;
      if a.CloseLedger? {
        assert t.log[..|s.log|] == s.log;
      }
    }
  }

  lemma CoversGrows(s: State, t: State, origin: nat, c: PollCursor)
    requires Ordered(s) && Grows(s, t) && Covers(s, origin, c)
    ensures Covers(t, origin, c)
  {
    forall i | 0 <= i < |t.log| && t.log[i].ledger >= origin && Passed(t, c, i)
      ensures Handled(t, i)
    {
      if i < |s.log| {
        assert Passed(s, c, i);
      } else {
        assert InGap(s.db, t.log[i].ledger);
      }
    }
  }

  lemma PhaseGrows(s: State, t: State, f: Phase)
    requires Ordered(s) && Grows(s, t) && PhaseSound(s, f)
    ensures PhaseSound(t, f)
  {
    if !f.Idle? && !f.Locating? && f.cursor.Some? {
      CoversGrows(s, t, s.db.origin, f.cursor.value);
    }
    if f.Handling? {
      assert forall i :: 0 <= i < |s.log| ==> t.log[i] == s.log[i];
      assert HighestSound(s, f.cursor, f.from, f.next, f.highest);
      var base := if f.cursor.Some? then f.cursor.value.lastLedger else 0;
      if f.highest > base {
        var j :| f.from <= j < f.next && s.log[j].ledger == f.highest;
        assert t.log[j].ledger == f.highest;
      }
    }
  }

  /** A batch commit moves the cursor only past handled events. */
  lemma BatchCommitCovers(s: State, f: Phase, next: PollCursor)
    requires Ordered(s) && f.Handling? && PhaseSound(s, f) && f.next == f.to
    requires next.lastLedger == if f.highest == 0 then f.startLedger else f.highest
    requires next.token == if f.token.Some? then f.token else if f.cursor.Some? then f.cursor.value.token else None
    ensures Covers(s, if f.cursor.Some? then s.db.origin else f.startLedger, next)
    ensures f.cursor.Some? ==> next.lastLedger >= f.cursor.value.lastLedger
  {
    var origin := if f.cursor.Some? then s.db.origin else f.startLedger;
    var base := if f.cursor.Some? then f.cursor.value.lastLedger else 0;
    assert HighestSound(s, f.cursor, f.from, f.next, f.highest);
    forall i | 0 <= i < |s.log| && s.log[i].ledger >= origin && Passed(s, next, i)
      ensures Handled(s, i)
    {
      if f.cursor.Some? && Passed(s, f.cursor.value, i) {
      } else {
        if s.log[i].ledger < next.lastLedger {
          var j :| f.from <= j < f.next && s.log[j].ledger == f.highest;
          assert i < j;
        }
        assert f.from <= i < f.to;
      }
    }
    if f.highest > base {
      var j :| f.from <= j < f.next && s.log[j].ledger == f.highest;
      assert next.lastLedger <= s.head;
    }
  }

  lemma ClampCommitCovers(s: State, f: Phase, next: PollCursor)
    requires Ordered(s) && f.Clamping? && f.recorded && PhaseSound(s, f)
    requires next.lastLedger == f.oldest && next.token == None
    ensures Covers(s, if f.cursor.Some? then s.db.origin else Min(f.startLedger, f.oldest), next)
  {
    var origin := if f.cursor.Some? then s.db.origin else Min(f.startLedger, f.oldest);
    forall i | 0 <= i < |s.log| && s.log[i].ledger >= origin && Passed(s, next, i)
      ensures Handled(s, i)
    {
      if s.log[i].ledger < f.startLedger {
        assert Passed(s, f.cursor.value, i);
      }
    }
  }

  /** The row written by a step covers everything it passed. */
  lemma RowStaysCovered(s: State, a: Action)
    requires Sound(s) && Enabled(s, a)
    ensures var t := Step(s, a); t.db.row.Some? ==> Covers(t, t.db.origin, t.db.row.value)
  {
    var t := Step(s, a);
    StepGrows(s, a);
    if t.db.row == s.db.row {
      if s.db.row.Some? {
        CoversGrows(s, t, s.db.origin, s.db.row.value);
      }
    } else {
      var f := s.pollers[a.who].phase;
      assert PhaseSound(s, f);
      var origin := if f.cursor.Some? then s.db.origin
                    else if a.CommitClamp? then Min(f.startLedger, f.oldest) else f.startLedger;
      if a.CommitClamp? {
        ClampCommitCovers(s, f, t.db.row.value);
      } else if f.to > f.from || f.cursor.None? {
        BatchCommitCovers(s, f, t.db.row.value);
      } else {
        assert Covers(s, origin, f.cursor.value);
        assert forall i :: 0 <= i < |s.log| && Passed(s, t.db.row.value, i) ==> Passed(s, f.cursor.value, i);
      }
      assert Covers(s, origin, t.db.row.value);
      CoversGrows(s, t, origin, t.db.row.value);
      assert t.db.origin == origin;
    }
  }

  /** The phase a step leaves its own poller in is sound. */
  lemma OwnPhaseSound(s: State, a: Action)
    requires Sound(s) && Enabled(s, a) && !a.CloseLedger?
    ensures PhaseSound(Step(s, a), Step(s, a).pollers[a.who].phase)
  {
    var t := Step(s, a);
    var f := s.pollers[a.who].phase;
    assert PhaseSound(s, f);
    StepGrows(s, a);
    PhaseGrows(s, t, f);
    match a {
      case Begin(_) => BeginSound(s, t, a.who);
      case FetchOk(_, _, _, _) => FetchSound(s, a);
      case Handle(_, _) => HandleSound(s, t, a.who, a.fate);
      case RecordGap(_) => GapSound(s, t, a.who);
      case CommitBatch(_, _) =>
      case CommitClamp(_, _) =>
      case Throw(_) =>
      case Stop(_) =>
      case ColdStart(_, _, _) =>
      case FetchTooOld(_, _) =>
    }
  }

  lemma BeginSound(s: State, t: State, who: nat)
    requires Sound(s) && Enabled(s, Begin(who)) && t == Step(s, Begin(who)) && Grows(s, t)
    ensures PhaseSound(t, t.pollers[who].phase)
  {
    if s.db.row.Some? {
      CoversGrows(s, t, s.db.origin, s.db.row.value);
    }
  }

  lemma FetchSound(s: State, a: Action)
    requires Sound(s) && a.FetchOk? && Enabled(s, a)
    requires PhaseSound(Step(s, a), s.pollers[a.who].phase)
    ensures PhaseSound(Step(s, a), Step(s, a).pollers[a.who].phase)
  {
    var t := Step(s, a);
    var g := t.pollers[a.who].phase;
    assert t.log == s.log;
    assert HighestSound(t, g.cursor, g.from, g.next, g.highest);
  }

  lemma HandleSound(s: State, t: State, who: nat, fate: Fate)
    requires Sound(s) && Enabled(s, Handle(who, fate)) && t == Step(s, Handle(who, fate)) && Grows(s, t)
    requires PhaseSound(t, s.pollers[who].phase)
    ensures PhaseSound(t, t.pollers[who].phase)
  {
    var f, g := s.pollers[who].phase, t.pollers[who].phase;
    if g.Handling? {
      EventIsHandled(s, t, who, fate);
      HandlingAdvances(t, f, g);
    }
  }

  lemma EventIsHandled(s: State, t: State, who: nat, fate: Fate)
    requires Enabled(s, Handle(who, fate)) && t == Step(s, Handle(who, fate))
    requires t.pollers[who].phase.Handling?
    ensures t.log == s.log
    ensures var f, g := s.pollers[who].phase, t.pollers[who].phase;
            && g == f.(next := f.next + 1, highest := g.highest)
            && Handled(t, f.next)
            && (g.highest == f.highest || g.highest == Max(f.highest, t.log[f.next].ledger))
  {
    var i := s.pollers[who].phase.next;
    match s.log[i].kind {
      case Undecodable => assert i in t.db.deadLetters;
      case UnknownTopic => assert i in t.db.skipped;
      case Known => assert i in t.db.dispatched;
    }
  }

  lemma HandlingAdvances(t: State, f: Phase, g: Phase)
    requires f.Handling? && g.Handling? && PhaseSound(t, f) && f.next < f.to
    requires g == f.(next := f.next + 1, highest := g.highest)
    requires Handled(t, f.next)
    requires g.highest == f.highest || g.highest == Max(f.highest, t.log[f.next].ledger)
    ensures PhaseSound(t, g)
  {
    assert HighestSound(t, f.cursor, f.from, f.next, f.highest);
    var base := if f.cursor.Some? then f.cursor.value.lastLedger else 0;
    if g.highest > base {
      if g.highest > f.highest {
        assert t.log[f.next].ledger == g.highest;
      } else {
        var j :| f.from <= j < f.next && t.log[j].ledger == f.highest;
        assert f.from <= j < g.next && t.log[j].ledger == g.highest;
      }
    }
    assert HighestSound(t, g.cursor, g.from, g.next, g.highest);
  }

  lemma GapSound(s: State, t: State, who: nat)
    requires Sound(s) && Enabled(s, RecordGap(who)) && t == Step(s, RecordGap(who)) && Grows(s, t)
    requires PhaseSound(t, s.pollers[who].phase)
    ensures PhaseSound(t, t.pollers[who].phase)
  {
    var f := s.pollers[who].phase;
    forall l: nat | f.startLedger <= l < f.oldest
      ensures InGap(t.db, l)
    {
      GapsGrow(s.db, Gap(f.startLedger, f.oldest - 1), l);
    }
  }

  lemma StepKeepsSound(s: State, a: Action)
    requires Sound(s) && Enabled(s, a)
    ensures Sound(Step(s, a))
  {
    var t := Step(s, a);
    StepGrows(s, a);
    RowStaysCovered(s, a);
    forall w | 0 <= w < |t.pollers|
      ensures PhaseSound(t, t.pollers[w].phase)
    {
      if !a.CloseLedger? && a.who == w {
        OwnPhaseSound(s, a);
      } else {
        assert PhaseSound(s, s.pollers[w].phase);
        PhaseGrows(s, t, s.pollers[w].phase);
      }
    }
  }

  lemma {:induction false} RunsAreSound(s: State, acts: seq<Action>)
    requires Initial(s) && Legal(s, acts)
    ensures Sound(After(s, acts))
  {
    if acts != [] {
      RunsAreSound(s, acts[..|acts| - 1]);
      StepKeepsSound(After(s, acts[..|acts| - 1]), acts[|acts| - 1]);
    } else {
      forall w | 0 <= w < |s.pollers|
        ensures PhaseSound(s, s.pollers[w].phase)
      {
        assert s.pollers[w] in s.pollers;
      }
    }
  }

  // -------------------------------------------------------- compare and swap

  predicate MovesForward(c: Commit) {
    c.expected.Some? ==> c.ledger >= c.expected.value
  }

  /** The history of the row is one chain: the first write found no row, every
      later one replaced the ledger its predecessor wrote. Batch writes never
      lower the ledger, heartbeats keep it. */
  predicate Chain(db: Db) {
    && (db.row.None? <==> db.commits == [])
    && (db.row.Some? ==> db.row.value.lastLedger == db.commits[|db.commits| - 1].ledger)
    && (forall k :: 0 <= k < |db.commits| ==> Linked(db.commits, k))
  }

  predicate Linked(commits: seq<Commit>, k: nat)
    requires k < |commits|
  {
    var c := commits[k];
    && c.expected == (if k == 0 then None else Some(commits[k - 1].ledger))
    && (c.kind != Clamp ==> MovesForward(c))
    && (c.kind == Heartbeat ==> c.expected == Some(c.ledger))
  }

  /** A step either leaves the row alone or is a commit that replaces the ledger the poller read. */
  lemma RowChangesByCommit(s: State, a: Action)
    requires Enabled(s, a)
    ensures var t := Step(s, a);
            || (t.db.row == s.db.row && t.db.commits == s.db.commits)
            || (&& (a.CommitBatch? || a.CommitClamp?)
                && t.db.row.Some?
                && |t.db.commits| == |s.db.commits| + 1
                && t.db.commits[..|s.db.commits|] == s.db.commits
                && var c := t.db.commits[|s.db.commits|];
                   && c.who == a.who
                   && c.ledger == t.db.row.value.lastLedger
                   && c.expected == Expected(s.db.row) == Expected(s.pollers[a.who].phase.cursor)
                   && (a.CommitClamp? ==> c.kind == Clamp)
                   && (a.CommitBatch? ==> c.kind != Clamp)
                   && (c.kind == Heartbeat ==> c.expected == Some(c.ledger)))
  {
  }

  lemma StepKeepsChain(s: State, a: Action)
    requires Sound(s) && Chain(s.db) && Enabled(s, a)
    ensures Chain(Step(s, a).db)
  {
    var t := Step(s, a);
    RowChangesByCommit(s, a);
    if t.db.commits != s.db.commits {
      var f := s.pollers[a.who].phase;
      assert PhaseSound(s, f);
      var n := |s.db.commits|;
      if a.CommitBatch? && (f.to > f.from || f.cursor.None?) {
        BatchCommitCovers(s, f, t.db.row.value);
      }
      forall k | 0 <= k < n
        ensures t.db.commits[k] == s.db.commits[k]
      {
        assert t.db.commits[..n][k] == t.db.commits[k];
      }
      ChainExtends(s.db, t.db);
    }
  }

  lemma ChainExtends(before: Db, after: Db)
    requires Chain(before) && after.row.Some?
    requires |after.commits| == |before.commits| + 1
    requires forall k :: 0 <= k < |before.commits| ==> after.commits[k] == before.commits[k]
    requires var c := after.commits[|before.commits|];
             && c.ledger == after.row.value.lastLedger
             && c.expected == Expected(before.row)
             && (c.kind != Clamp ==> MovesForward(c))
             && (c.kind == Heartbeat ==> c.expected == Some(c.ledger))
    ensures Chain(after)
  {
    forall k | 0 <= k < |after.commits|
      ensures Linked(after.commits, k)
    {
      if k < |before.commits| {
        assert Linked(before.commits, k);
        assert k > 0 ==> after.commits[k - 1] == before.commits[k - 1];
      } else {
        assert k > 0 ==> after.commits[k - 1] == before.commits[k - 1];
      }
    }
  }

  /** Over every run the commits form a chain: each replaced exactly the ledger
      its poller had read, and of racing first inserts only the first landed. */
  lemma {:induction false} CommitsFormChain(s: State, acts: seq<Action>)
    requires Initial(s) && Legal(s, acts)
    ensures Chain(After(s, acts).db)
  {
    if acts != [] {
      CommitsFormChain(s, acts[..|acts| - 1]);
      RunsAreSound(s, acts[..|acts| - 1]);
      StepKeepsChain(After(s, acts[..|acts| - 1]), acts[|acts| - 1]);
    }
  }

  /** No retention clamp in the run lowered the ledger. */
  predicate NoRewind(db: Db) {
    forall k :: 0 <= k < |db.commits| ==> MovesForward(db.commits[k])
  }

  lemma {:induction false} LedgersRise(db: Db, i: nat, j: nat)
    requires Chain(db) && NoRewind(db) && i <= j < |db.commits|
    ensures db.commits[i].ledger <= db.commits[j].ledger
  {
    if i < j {
      LedgersRise(db, i, j - 1);
      assert MovesForward(db.commits[j]) && Linked(db.commits, j);
    }
  }

  /** A second commit from the same ledger lands exactly when nothing committed
      in between moved the ledger. */
  lemma SameLedgerAgain(s: State, acts: seq<Action>, i: nat, j: nat)
    requires Initial(s) && Legal(s, acts) && NoRewind(After(s, acts).db)
    requires i < j < |After(s, acts).db.commits|
    ensures var commits := After(s, acts).db.commits;
            commits[j].expected == commits[i].expected <==>
            (commits[i].expected.Some? && forall k :: i <= k < j ==> commits[k].ledger == commits[i].expected.value)
  {
    var db := After(s, acts).db;
    CommitsFormChain(s, acts);
    assert MovesForward(db.commits[i]) && Linked(db.commits, i) && Linked(db.commits, j);
    forall k | i <= k < j
      ensures db.commits[i].ledger <= db.commits[k].ledger <= db.commits[j - 1].ledger
    {
      LedgersRise(db, i, k);
      LedgersRise(db, k, j - 1);
    }
  }

  /** Hence two commits that both advance from the same ledger never both succeed. */
  lemma OneAdvancePerLedger(s: State, acts: seq<Action>, i: nat, j: nat)
    requires Initial(s) && Legal(s, acts) && NoRewind(After(s, acts).db)
    requires i < j < |After(s, acts).db.commits|
    requires var c := After(s, acts).db.commits[i]; c.expected.None? || c.ledger > c.expected.value
    ensures After(s, acts).db.commits[j].expected != After(s, acts).db.commits[i].expected
  {
    SameLedgerAgain(s, acts, i, j);
  }

  /** A poller that lost a race has stopped between polls. */
  predicate LosersIdle(s: State) {
    forall w :: 0 <= w < |s.pollers| && s.pollers[w].fatal ==> s.pollers[w].stopped && s.pollers[w].phase.Idle?
  }

  /** A stopped poller between polls takes no step but being stopped again. */
  lemma StoppedIsInert(s: State, a: Action, who: nat)
    requires Enabled(s, a) && who < |s.pollers| && s.pollers[who].stopped && s.pollers[who].phase.Idle?
    ensures var t := Step(s, a);
            && who < |t.pollers|
            && t.pollers[who] == s.pollers[who]
            && (t.db.commits != s.db.commits ==> a.who != who)
  {
    RowChangesByCommit(s, a);
  }

  lemma LoserStopsAtOnce(s: State, a: Action, who: nat)
    requires Enabled(s, a) && who < |s.pollers| && !s.pollers[who].fatal
    ensures var p := Step(s, a).pollers[who]; p.fatal ==> p.stopped && p.phase.Idle?
  {
  }

  lemma {:induction false} LosersStayIdle(s: State, acts: seq<Action>)
    requires Initial(s) && Legal(s, acts)
    ensures LosersIdle(After(s, acts))
  {
    if acts != [] {
      var t, a := After(s, acts[..|acts| - 1]), acts[|acts| - 1];
      LosersStayIdle(s, acts[..|acts| - 1]);
      forall w | 0 <= w < |Step(t, a).pollers| && Step(t, a).pollers[w].fatal
        ensures Step(t, a).pollers[w].stopped && Step(t, a).pollers[w].phase.Idle?
      {
        if t.pollers[w].fatal {
          StoppedIsInert(t, a, w);
        } else {
          LoserStopsAtOnce(t, a, w);
        }
      }
    } else {
      assert forall w :: 0 <= w < |s.pollers| ==> s.pollers[w] in s.pollers;
    }
  }

  /** How many of the commits a poller made. */
  function CommitsBy(commits: seq<Commit>, who: nat): nat {
    if commits == [] then 0
    else CommitsBy(commits[..|commits| - 1], who) + if commits[|commits| - 1].who == who then 1 else 0
  }

  /** A loser takes no further poll: from the moment it is fatal, no continuation
      of the run changes it or lets it write the row. */
  lemma {:induction false} LoserTakesNoFurtherPoll(s: State, acts: seq<Action>, more: seq<Action>, who: nat)
    requires Initial(s) && Legal(s, acts) && Legal(After(s, acts), more)
    requires who < |After(s, acts).pollers| && After(s, acts).pollers[who].fatal
    ensures var t := After(s, acts);
            var u := After(t, more);
            && who < |u.pollers|
            && u.pollers[who] == t.pollers[who]
            && CommitsBy(u.db.commits, who) == CommitsBy(t.db.commits, who)
  {
    LosersStayIdle(s, acts);
    if more != [] {
      var u, a := After(After(s, acts), more[..|more| - 1]), more[|more| - 1];
      LoserTakesNoFurtherPoll(s, acts, more[..|more| - 1], who);
      StoppedIsInert(u, a, who);
      RowChangesByCommit(u, a);
      var v := Step(u, a);
      if v.db.commits != u.db.commits {
        assert v.db.commits[..|v.db.commits| - 1] == u.db.commits;
      }
    }
  }

  // -------------------------------------------------- what the swap does not stop

  lemma Extends(s: State, acts: seq<Action>, a: Action)
    requires Legal(s, acts) && Enabled(After(s, acts), a)
    ensures Legal(s, acts + [a]) && After(s, acts + [a]) == Step(After(s, acts), a)
  {
    assert (acts + [a])[..|acts|] == acts;
  }

  /** Some run leads from `s` to `t`. */
  ghost predicate Reaches(s: State, t: State) {
    exists acts :: Legal(s, acts) && After(s, acts) == t
  }

  lemma ReachesSelf(s: State)
    ensures Reaches(s, s)
  {
    assert Legal(s, []) && After(s, []) == s;
  }

  lemma ReachesNext(s: State, t: State, a: Action) returns (u: State)
    requires Reaches(s, t) && Enabled(t, a)
    ensures u == Step(t, a) && Reaches(s, u)
  {
    var acts :| Legal(s, acts) && After(s, acts) == t;
    Extends(s, acts, a);
    u := Step(t, a);
  }
}
