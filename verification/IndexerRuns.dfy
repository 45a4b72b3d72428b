/** Concrete runs of the indexer in which what one might expect of it fails. */
module IndexerRuns {
  import opened Wrappers
  import opened Cursor
  import opened Indexer
  import opened Delivery

  /** Some run in which cold starts asked from `asked` on leads from `s` to `t`. */
  ghost predicate ReachesAsking(s: State, t: State, asked: Option<nat>) {
    exists acts :: Legal(s, acts) && After(s, acts) == t && AskedFrom(acts) == asked
  }

  lemma Next(s: State, t: State, asked: Option<nat>, a: Action) returns (u: State)
    requires ReachesAsking(s, t, asked) && Enabled(t, a)
    ensures u == Step(t, a) && ReachesAsking(s, u, AskedNext(asked, a))
  {
    var acts :| Legal(s, acts) && After(s, acts) == t && AskedFrom(acts) == asked;
    Extends(s, acts, a);
    assert (acts + [a])[..|acts|] == acts;
    u := Step(t, a);
  }

  const ONE := Event(1, Known)

  /** One poller, one event, the whole chain so far in ledger 1. */
  const ALONE := State([ONE], 1, EMPTY_DB, [Poller(Idle, false, false, None)])

  lemma Start()
    ensures Initial(ALONE) && ReachesAsking(ALONE, ALONE, None)
  {
    assert Legal(ALONE, []) && After(ALONE, []) == ALONE && AskedFrom([]) == None;
  }

  /** The single poller has fetched that event. */
  function FetchedOne(db: Db): State {
    State([ONE], 1, db, [Poller(FIRST_PAGE, false, false, None)])
  }

  lemma FetchOne(s: State, db: Db, asked: Option<nat>)
    requires db.row.None? && asked in {None, Some(1)}
    requires ReachesAsking(s, State([ONE], 1, db, [Poller(Idle, false, false, None)]), asked)
    ensures ReachesAsking(s, FetchedOne(db), Some(1))
  {
    var t := Next(s, State([ONE], 1, db, [Poller(Idle, false, false, None)]), asked, Begin(0));
    t := Next(s, t, asked, ColdStart(0, 1, 0));
    assert StartsAt([ONE], 0, 1);
    t := Next(s, t, Some(1), FetchOk(0, 0, 1, true));
  }

  // ------------------------------------------------------------ a skipped event

  /** A failing first poll can lose its events: the dispatch of the one event in
      ledger 1 fails, a ledger closes, and the next poll starts cold from ledger 2
      and commits there. Nothing accounts for the event, and the cursor is past it. */
  lemma ColdStartCanSkip() returns (t: State)
    ensures Initial(ALONE) && ReachesAsking(ALONE, t, Some(1))
    ensures |t.log| == 1 && !Handled(t, 0) && BehindRow(t, 0)
    ensures t.db.origin == 2 && t.db.gaps == [] && t.db.failed == {0}
  {
    Start();
    FetchOne(ALONE, EMPTY_DB, None);
    t := Next(ALONE, FetchedOne(EMPTY_DB), Some(1), Handle(0, ThrowsEarly));
    t := Next(ALONE, t, Some(1), CloseLedger([]));
    t := SecondColdStart(t);
  }

  const FAILED_DB := EMPTY_DB.(failed := {0})

  lemma SecondColdStart(t: State) returns (u: State)
    requires t == State([ONE], 2, FAILED_DB, [Poller(Idle, false, false, None)])
    requires ReachesAsking(ALONE, t, Some(1))
    ensures ReachesAsking(ALONE, u, Some(1))
    ensures u == State([ONE], 2, FAILED_DB.(row := Some(PollCursor(2, Some(1), 0)), commits := [Commit(0, Batch, None, 2)], origin := 2),
                       [Poller(Idle, false, false, Some(2))])
  {
    u := Next(ALONE, t, Some(1), Begin(0));
    u := Next(ALONE, u, Some(1), ColdStart(0, 2, 0));
    assert StartsAt([ONE], 1, 2);
    u := Next(ALONE, u, Some(1), FetchOk(0, 1, 1, true));
    u := Next(ALONE, u, Some(1), CommitBatch(0, 0));
  }

  /** A failed dispatch that keeps the archive row loses the event to the projections:
      the retry returns without projecting it, and the poll commits past it. */
  lemma RetryProjectsNothing() returns (t: State)
    ensures Initial(ALONE) && ReachesAsking(ALONE, t, Some(1))
    ensures |t.log| == 1 && BehindRow(t, 0) && t.db.dispatched == multiset{0}
    ensures t.db.archive == Archive({0}, multiset{}) && t.db.failed == {0}
  {
    Start();
    FetchOne(ALONE, EMPTY_DB, None);
    t := Next(ALONE, FetchedOne(EMPTY_DB), Some(1), Handle(0, ThrowsArchived));
    FetchOne(ALONE, KEPT_DB, Some(1));
    t := Next(ALONE, FetchedOne(KEPT_DB), Some(1), Handle(0, Returns));
    t := Next(ALONE, t, Some(1), CommitBatch(0, 0));
  }

  const KEPT_DB := EMPTY_DB.(archive := Archive({0}, multiset{}), failed := {0})

  // ----------------------------------------------------------- events dispatched twice

  /** One poller, no race and no commit: it dispatches the event, throws before it
      commits, and dispatches the event again on the next poll. The archive lets the
      second dispatch project nothing. */
  lemma ThrowDispatchesTwice() returns (t: State)
    ensures Initial(ALONE) && ReachesAsking(ALONE, t, Some(1))
    ensures t.db == EMPTY_DB.(dispatched := multiset{0, 0}, archive := Archive({0}, multiset{0}))
  {
    Start();
    FetchOne(ALONE, EMPTY_DB, None);
    t := Next(ALONE, FetchedOne(EMPTY_DB), Some(1), Handle(0, Returns));
    t := Next(ALONE, t, Some(1), Throw(0));
    FetchOne(ALONE, EMPTY_DB.(dispatched := multiset{0}, archive := Archive({0}, multiset{0})), Some(1));
    t := Next(ALONE, FetchedOne(EMPTY_DB.(dispatched := multiset{0}, archive := Archive({0}, multiset{0}))), Some(1), Handle(0, Returns));
  }

  /** Two pollers race on the first event: one commit, the loser stops, and the
      event has been dispatched twice by then, and projected once. */
  lemma RaceDispatchesTwice() returns (s: State, t: State)
    ensures Initial(s) && Reaches(s, t)
    ensures t.db.dispatched[0] == 2 && t.db.archive == Archive({0}, multiset{0}) && |t.db.commits| == 1
    ensures |t.pollers| == 2 && t.pollers[1].fatal && t.pollers[1].stopped
  {
    s, t := FirstFetch();
    t := ReachesNext(s, t, Begin(1));
    t := ReachesNext(s, t, ColdStart(1, 1, 0));
    assert StartsAt(TWO_EVENTS, 0, 1);
    t := ReachesNext(s, t, FetchOk(1, 0, 1, true));
    t := BothDispatch(s, t);
  }

  const FIRST_PAGE := Handling(None, 1, 0, 1, Some(1), 0, 0)

  lemma BothDispatch(s: State, t: State) returns (u: State)
    requires Reaches(s, t)
    requires t == State(TWO_EVENTS, 1, EMPTY_DB, [Poller(FIRST_PAGE, false, false, None), Poller(FIRST_PAGE, false, false, None)])
    ensures Reaches(s, u)
    ensures u.db.dispatched[0] == 2 && u.db.archive == Archive({0}, multiset{0}) && |u.db.commits| == 1
    ensures |u.pollers| == 2 && u.pollers[1].fatal && u.pollers[1].stopped
  {
    u := ReachesNext(s, t, Handle(0, Returns));
    u := ReachesNext(s, u, Handle(1, Returns));
    u := ReachesNext(s, u, CommitBatch(0, 0));
    u := ReachesNext(s, u, CommitBatch(1, 0));
  }

  /** The swap compares ledgers, not tokens, and comes after the dispatches: two
      pollers that resume inside one ledger both dispatch its next event and both
      commit, and neither stops. The event is projected once. */
  lemma BothCommitDispatchTwice() returns (s: State, t: State)
    ensures Initial(s) && Reaches(s, t)
    ensures t.db.dispatched[1] == 2 && t.db.archive.projected[1] == 1
    ensures |t.db.commits| == 3 && t.db.commits[2].expected == t.db.commits[1].expected
    ensures t.pollers == [Poller(Idle, false, false, Some(1)), Poller(Idle, false, false, Some(1))]
  {
    s, t := FirstPage();
    t := BothFetch(s, t);
    t := BothDispatchNext(s, t);
    t := FirstCommits(s, t);
    t := ReachesNext(s, t, CommitBatch(1, 0));
  }

  lemma FirstCommits(s: State, t: State) returns (u: State)
    requires Reaches(s, t) && t == PageState(multiset{0, 1, 1}, SECOND_PAGE.(next := 2), SECOND_PAGE.(next := 2))
    ensures Reaches(s, u)
    ensures u == State(TWO_EVENTS, 1,
                       Db(Some(PollCursor(1, Some(2), 0)), [], {}, multiset{0, 1, 1}, Once(multiset{0, 1, 1}), {}, {}, [Commit(0, Batch, None, 1), Commit(0, Batch, Some(1), 1)], 1),
                       [Poller(Idle, false, false, Some(1)), Poller(SECOND_PAGE.(next := 2), false, false, None)])
  {
    u := ReachesNext(s, t, CommitBatch(0, 0));
  }

  const TWO_EVENTS := [Event(1, Known), Event(1, Known)]
  const ROW := PollCursor(1, Some(1), 0)
  const SECOND_PAGE := Handling(Some(ROW), 1, 1, 2, Some(2), 1, 1)

  /** The archive when each of these was projected once. */
  function Once(dispatched: multiset<nat>): Archive {
    var ids := set i | i in dispatched;
    Archive(ids, multiset(ids))
  }

  /** One event dispatched, the row committed inside ledger 1. */
  function PageState(dispatched: multiset<nat>, first: Phase, second: Phase): State {
    State(TWO_EVENTS, 1, Db(Some(ROW), [], {}, dispatched, Once(dispatched), {}, {}, [Commit(0, Batch, None, 1)], 1),
          [Poller(first, false, false, Some(1)), Poller(second, false, false, None)])
  }

  /** One poller takes a first page that ends inside ledger 1. */
  lemma FirstPage() returns (s: State, t: State)
    ensures Initial(s) && Reaches(s, t)
    ensures t == PageState(multiset{0}, Idle, Idle)
  {
    s, t := FirstFetch();
    t := ReachesNext(s, t, Handle(0, Returns));
    t := ReachesNext(s, t, CommitBatch(0, 0));
  }

  lemma FirstFetch() returns (s: State, t: State)
    ensures Initial(s) && Reaches(s, t)
    ensures t == State(TWO_EVENTS, 1, EMPTY_DB,
                       [Poller(Handling(None, 1, 0, 1, Some(1), 0, 0), false, false, None), Poller(Idle, false, false, None)])
  {
    s := State(TWO_EVENTS, 1, EMPTY_DB, [Poller(Idle, false, false, None), Poller(Idle, false, false, None)]);
    ReachesSelf(s);
    t := ReachesNext(s, s, Begin(0));
    t := ReachesNext(s, t, ColdStart(0, 1, 0));
    assert StartsAt(TWO_EVENTS, 0, 1);
    t := ReachesNext(s, t, FetchOk(0, 0, 1, true));
  }

  lemma BothFetch(s: State, t: State) returns (u: State)
    requires Reaches(s, t) && t == PageState(multiset{0}, Idle, Idle)
    ensures Reaches(s, u) && u == PageState(multiset{0}, SECOND_PAGE, SECOND_PAGE)
  {
    u := ReachesNext(s, t, Begin(0));
    u := ReachesNext(s, u, Begin(1));
    u := ReachesNext(s, u, FetchOk(0, 1, 2, true));
    u := ReachesNext(s, u, FetchOk(1, 1, 2, true));
  }

  lemma BothDispatchNext(s: State, t: State) returns (u: State)
    requires Reaches(s, t) && t == PageState(multiset{0}, SECOND_PAGE, SECOND_PAGE)
    ensures Reaches(s, u)
    ensures u == PageState(multiset{0, 1, 1}, SECOND_PAGE.(next := 2), SECOND_PAGE.(next := 2))
  {
    u := ReachesNext(s, t, Handle(0, Returns));
    u := ReachesNext(s, u, Handle(1, Returns));
  }
}
