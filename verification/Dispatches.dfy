/**
 How often an event is dispatched: at most once as long as polls do not overlap and
 none that dispatched something ends without committing past it.
 */
module Dispatches {
  import opened Wrappers
  import opened Cursor
  import opened Indexer
  import opened Delivery

  /** A poll in the middle of a batch has dispatched something. */
  predicate HasDispatched(s: State, f: Phase)
    requires f.Handling? && f.next <= |s.log|
  {
    exists j :: f.from <= j < f.next && s.log[j].kind == Known
  }

  /** The poll of `who` may end here without a commit. */
  predicate MayEnd(s: State, who: nat)
    requires who < |s.pollers|
  {
    var f := s.pollers[who].phase;
    f.Handling? && f.next <= |s.log| ==> !HasDispatched(s, f)
  }

  /** An orderly step: a poll begins only when no other is under way, its answer
      carries a resume token, it neither throws nor fails on a dispatch after it has
      dispatched something, and a retention clamp resumes above every event already
      dispatched. */
  predicate Orderly(s: State, a: Action)
    requires Enabled(s, a)
  {
    match a
    case Begin(who) => forall w :: 0 <= w < |s.pollers| ==> s.pollers[w].phase.Idle?
    case FetchOk(_, from, to, hasToken) => hasToken || from == to
    case Handle(who, fate) => fate.Returns? || s.log[s.pollers[who].phase.next].kind != Known || MayEnd(s, who)
    case Throw(who) => MayEnd(s, who)
    case CommitClamp(who, _) =>
      forall j :: j in s.db.dispatched && j < |s.log| ==> s.log[j].ledger < s.pollers[who].phase.oldest
    case _ => true
  }

  predicate OrderlyRun(s: State, acts: seq<Action>)
    requires Legal(s, acts)
    decreases |acts|
  {
    acts != [] ==> OrderlyRun(s, acts[..|acts| - 1]) && Orderly(After(s, acts[..|acts| - 1]), acts[|acts| - 1])
  }

  // ------------------------------------------------------------- one poll at a time

  /** At most one poll is under way, and it works from the current row. */
  predicate Alone(s: State) {
    && (forall v, w :: 0 <= v < w < |s.pollers| ==> s.pollers[v].phase.Idle? || s.pollers[w].phase.Idle?)
    && (forall w :: 0 <= w < |s.pollers| ==> FromRow(s, s.pollers[w].phase))
  }

  predicate FromRow(s: State, f: Phase) {
    match f
    case Idle => true
    case Locating => s.db.row.None?
    case Fetching(cursor, start) => cursor == s.db.row
    case Handling(cursor, _, _, _, _, _, _) =>
      && cursor == s.db.row
      && StartSound(s, f) && f.from <= f.next <= f.to
      && (f.token.Some? || f.from == f.to)
      && DispatchedSoFar(s, f)
    case Clamping(cursor, _, _, _) => cursor == s.db.row
  }

  /** Every known event the poll is past has been dispatched. */
  predicate DispatchedSoFar(s: State, f: Phase)
    requires f.Handling? && f.next <= |s.log|
  {
    forall j :: f.from <= j < f.next && s.log[j].kind == Known ==> j in s.db.dispatched
  }

  lemma FromRowGrows(s: State, t: State, f: Phase)
    requires Ordered(s) && Ordered(t) && Grows(s, t) && t.db == s.db && FromRow(s, f)
    ensures FromRow(t, f)
  {
    if f.Handling? {
      StartSoundGrows(s, t, f);
      forall j | f.from <= j < f.next && t.log[j].kind == Known
        ensures j in t.db.dispatched
      {
        assert t.log[j] == s.log[j];
      }
    }
  }

  lemma OwnFromRow(s: State, a: Action)
    requires Sound(s) && !a.CloseLedger? && Enabled(s, a) && Orderly(s, a) && FromRow(s, s.pollers[a.who].phase)
    ensures FromRow(Step(s, a), Step(s, a).pollers[a.who].phase)
  {
    match a {
      case FetchOk(_, _, _, _) =>
        assert PhaseSound(s, s.pollers[a.who].phase);
        FetchFromRow(s, a);
      case Handle(_, _) => HandleFromRow(s, a);
      case _ => OtherFromRow(s, a);
    }
  }

  lemma FetchFromRow(s: State, a: Action)
    requires Sound(s) && a.FetchOk? && Enabled(s, a) && Orderly(s, a) && FromRow(s, s.pollers[a.who].phase)
    ensures FromRow(Step(s, a), Step(s, a).pollers[a.who].phase)
  {
  }

  lemma HandleFromRow(s: State, a: Action)
    requires a.Handle? && Enabled(s, a) && FromRow(s, s.pollers[a.who].phase)
    ensures FromRow(Step(s, a), Step(s, a).pollers[a.who].phase)
  {
    var t := Step(s, a);
    var f, g := s.pollers[a.who].phase, t.pollers[a.who].phase;
    if g.Handling? {
      forall j | g.from <= j < g.next && t.log[j].kind == Known
        ensures j in t.db.dispatched
      {
        if j < f.next {
          assert j in s.db.dispatched;
        }
      }
    }
  }

  lemma OtherFromRow(s: State, a: Action)
    requires !a.CloseLedger? && !a.FetchOk? && !a.Handle? && Enabled(s, a) && FromRow(s, s.pollers[a.who].phase)
    ensures FromRow(Step(s, a), Step(s, a).pollers[a.who].phase)
  {
  }

  lemma AloneStep(s: State, a: Action)
    requires Sound(s) && Alone(s) && Enabled(s, a) && Orderly(s, a)
    ensures Alone(Step(s, a))
  {
    var t := Step(s, a);
    StepGrows(s, a);
    if a.CloseLedger? {
      forall w | 0 <= w < |t.pollers|
        ensures FromRow(t, t.pollers[w].phase)
      {
        assert FromRow(s, s.pollers[w].phase);
        FromRowGrows(s, t, s.pollers[w].phase);
      }
    } else {
      assert FromRow(s, s.pollers[a.who].phase);
      OwnFromRow(s, a);
      forall w | 0 <= w < |t.pollers| && w != a.who
        ensures FromRow(t, t.pollers[w].phase)
        ensures t.pollers[w].phase.Idle? || t.pollers[a.who].phase.Idle?
      {
        OtherPoller(s, a, w);
      }
    }
  }

  lemma OtherPoller(s: State, a: Action, w: nat)
    requires Alone(s) && !a.CloseLedger? && Enabled(s, a) && Orderly(s, a) && w < |s.pollers| && w != a.who
    ensures var t := Step(s, a);
            && w < |t.pollers| && t.pollers[w] == s.pollers[w]
            && (t.pollers[w].phase.Idle? || t.pollers[a.who].phase.Idle?)
            && FromRow(t, t.pollers[w].phase)
  {
    assert s.pollers[w].phase.Idle? || s.pollers[a.who].phase.Idle?;
    assert FromRow(s, s.pollers[w].phase);
    if !s.pollers[w].phase.Idle? {
      assert a.Stop?;
      assert Step(s, a).db == s.db && Step(s, a).log == s.log && Step(s, a).head == s.head;
    }
  }

  // ----------------------------------------------------------- done with an event

  /** The poll under way is past the event. */
  predicate InHand(s: State, j: nat) {
    exists w :: 0 <= w < |s.pollers| && HasPassed(s.pollers[w].phase, j)
  }

  predicate HasPassed(f: Phase, j: nat) {
    f.Handling? && f.from <= j < f.next
  }

  /** A dispatched event that no orderly continuation dispatches again. */
  predicate DoneWith(s: State, j: nat)
    requires j < |s.log|
  {
    BehindRow(s, j) || InHand(s, j)
  }

  lemma OnlyHand(s: State, w: nat, j: nat)
    requires Alone(s) && w < |s.pollers| && !s.pollers[w].phase.Idle? && InHand(s, j)
    ensures HasPassed(s.pollers[w].phase, j)
  {
    var v :| 0 <= v < |s.pollers| && HasPassed(s.pollers[v].phase, j);
    assert v < w || w < v || v == w;
  }

  lemma BehindIsBefore(s: State, f: Phase, j: nat)
    requires Sound(s) && f.Handling? && PhaseSound(s, f) && FromRow(s, f) && j < |s.log|
    ensures BehindRow(s, j) ==> j < f.from
    ensures s.db.row.Some? && j < f.from ==> BehindRow(s, j)
  {
  }

  /** An orderly step neither dispatches such an event again nor loses track of it. */
  lemma DoneStep(s: State, a: Action, j: nat)
    requires Sound(s) && Alone(s) && Enabled(s, a) && Orderly(s, a)
    requires j < |s.log| && s.log[j].kind == Known && j in s.db.dispatched && DoneWith(s, j)
    ensures var t := Step(s, a);
            && j < |t.log| && t.log[j] == s.log[j]
            && DoneWith(t, j) && t.db.dispatched[j] == s.db.dispatched[j]
  {
    StepGrows(s, a);
    if a.CloseLedger? {
      StaysInHand(s, a, j);
    } else {
      assert FromRow(s, s.pollers[a.who].phase) && PhaseSound(s, s.pollers[a.who].phase);
      if InHand(s, j) && !s.pollers[a.who].phase.Idle? {
        OnlyHand(s, a.who, j);
      }
      match a {
        case Handle(_, _) => DoneHandle(s, a, j);
        case CommitBatch(_, _) => DoneBatch(s, a, j);
        case CommitClamp(_, _) =>
        case Throw(_) =>
        case _ => StaysInHand(s, a, j);
      }
    }
  }

  /** Steps that leave row and batches alone. */
  lemma StaysInHand(s: State, a: Action, j: nat)
    requires a.CloseLedger? || a.Begin? || a.ColdStart? || a.FetchOk? || a.FetchTooOld? || a.RecordGap? || a.Stop?
    requires Enabled(s, a) && j < |s.log| && DoneWith(s, j)
    ensures var t := Step(s, a);
            && j < |t.log| && t.log[j] == s.log[j] && t.db.dispatched == s.db.dispatched && DoneWith(t, j)
  {
    var t := Step(s, a);
    if InHand(s, j) {
      var w :| 0 <= w < |s.pollers| && HasPassed(s.pollers[w].phase, j);
      assert HasPassed(t.pollers[w].phase, j);
    }
  }

  lemma DoneHandle(s: State, a: Action, j: nat)
    requires Sound(s) && a.Handle? && Enabled(s, a) && Orderly(s, a)
    requires FromRow(s, s.pollers[a.who].phase) && PhaseSound(s, s.pollers[a.who].phase)
    requires j < |s.log| && s.log[j].kind == Known && j in s.db.dispatched
    requires BehindRow(s, j) || HasPassed(s.pollers[a.who].phase, j)
    ensures var t := Step(s, a); t.log == s.log && DoneWith(t, j) && t.db.dispatched[j] == s.db.dispatched[j]
  {
    var t := Step(s, a);
    var f, g := s.pollers[a.who].phase, t.pollers[a.who].phase;
    BehindIsBefore(s, f, j);
    if HasPassed(f, j) {
      assert HasDispatched(s, f);
      assert HasPassed(g, j);
    }
  }

  lemma DoneBatch(s: State, a: Action, j: nat)
    requires Sound(s) && a.CommitBatch? && Enabled(s, a)
    requires FromRow(s, s.pollers[a.who].phase) && PhaseSound(s, s.pollers[a.who].phase)
    requires j < |s.log| && (BehindRow(s, j) || HasPassed(s.pollers[a.who].phase, j))
    ensures var t := Step(s, a); t.log == s.log && BehindRow(t, j) && t.db.dispatched == s.db.dispatched
  {
    BehindIsBefore(s, s.pollers[a.who].phase, j);
  }

  // ---------------------------------------------------------------- at most once

  /** Every dispatched event is known, was dispatched once, and is done with. */
  predicate Once(s: State) {
    forall j :: j in s.db.dispatched ==> j < |s.log| && s.log[j].kind == Known && s.db.dispatched[j] == 1 && DoneWith(s, j)
  }

  lemma OnceStep(s: State, a: Action)
    requires Sound(s) && Alone(s) && Once(s) && Enabled(s, a) && Orderly(s, a)
    ensures Once(Step(s, a))
  {
    var t := Step(s, a);
    forall j | j in t.db.dispatched
      ensures j < |t.log| && t.log[j].kind == Known && t.db.dispatched[j] == 1 && DoneWith(t, j)
    {
      if j in s.db.dispatched {
        DoneStep(s, a, j);
      } else {
        NewlyDispatched(s, a, j);
      }
    }
  }

  lemma NewlyDispatched(s: State, a: Action, j: nat)
    requires Enabled(s, a) && j !in s.db.dispatched && j in Step(s, a).db.dispatched
    ensures var t := Step(s, a); j < |t.log| && t.log[j].kind == Known && t.db.dispatched[j] == 1
    ensures a.Handle? && FromRow(s, s.pollers[a.who].phase) ==> InHand(Step(s, a), j)
    ensures a.Handle?
  {
    if a.Handle? && FromRow(s, s.pollers[a.who].phase) {
      assert HasPassed(Step(s, a).pollers[a.who].phase, j);
    }
  }

  lemma {:induction false} OrderlyRunsHold(s: State, acts: seq<Action>)
    requires Initial(s) && Legal(s, acts) && OrderlyRun(s, acts)
    ensures Alone(After(s, acts)) && Once(After(s, acts))
  {
    if acts == [] {
      assert forall w :: 0 <= w < |s.pollers| ==> s.pollers[w] in s.pollers;
    } else {
      var t, a := After(s, acts[..|acts| - 1]), acts[|acts| - 1];
      OrderlyRunsHold(s, acts[..|acts| - 1]);
      RunsAreSound(s, acts[..|acts| - 1]);
      AloneStep(t, a);
      if a.Handle? {
        assert FromRow(t, t.pollers[a.who].phase);
      }
      OnceStep(t, a);
    }
  }

  /** Orderly runs dispatch every event at most once. */
  lemma DispatchedAtMostOnce(s: State, acts: seq<Action>, i: nat)
    requires Initial(s) && Legal(s, acts) && OrderlyRun(s, acts)
    ensures After(s, acts).db.dispatched[i] <= 1
  {
    OrderlyRunsHold(s, acts);
  }

  // ------------------------------------------------------- dispatched again, exactly

  /** No poll is under way and some poller has not stopped. */
  predicate Quiet(s: State) {
    && (forall w :: 0 <= w < |s.pollers| ==> s.pollers[w].phase.Idle?)
    && (exists w :: 0 <= w < |s.pollers| && !s.pollers[w].stopped)
  }

  /** Some orderly continuation dispatches the event once more. */
  ghost predicate Again(s: State, i: nat) {
    exists more :: Legal(s, more) && OrderlyRun(s, more) && After(s, more).db.dispatched[i] > s.db.dispatched[i]
  }

  /** Dispatched events are known events of the log. */
  predicate DispatchedKnown(s: State) {
    forall j :: j in s.db.dispatched ==> j < |s.log| && s.log[j].kind == Known
  }

  lemma DispatchedKnownStep(s: State, a: Action)
    requires DispatchedKnown(s) && Enabled(s, a)
    ensures DispatchedKnown(Step(s, a))
  {
    var t := Step(s, a);
    forall j | j in t.db.dispatched
      ensures j < |t.log| && t.log[j].kind == Known
    {
      if j !in s.db.dispatched {
        NewlyDispatched(s, a, j);
      }
    }
  }

  lemma {:induction false} RunsDispatchKnown(s: State, acts: seq<Action>)
    requires Initial(s) && Legal(s, acts)
    ensures DispatchedKnown(After(s, acts))
  {
    if acts != [] {
      RunsDispatchKnown(s, acts[..|acts| - 1]);
      DispatchedKnownStep(After(s, acts[..|acts| - 1]), acts[|acts| - 1]);
    }
  }

  /** Behind the row once, behind it for good. */
  lemma {:induction false} NeverAgain(s: State, more: seq<Action>, i: nat)
    requires Sound(s) && Alone(s) && Legal(s, more) && OrderlyRun(s, more)
    requires i < |s.log| && s.log[i].kind == Known && i in s.db.dispatched && DoneWith(s, i)
    ensures var t := After(s, more);
            && Sound(t) && Alone(t)
            && i < |t.log| && t.log[i] == s.log[i] && DoneWith(t, i) && t.db.dispatched[i] == s.db.dispatched[i]
  {
    if more != [] {
      var t, a := After(s, more[..|more| - 1]), more[|more| - 1];
      NeverAgain(s, more[..|more| - 1], i);
      StepKeepsSound(t, a);
      AloneStep(t, a);
      DoneStep(t, a, i);
    }
  }

  /** An orderly run from `s` to `t`. */
  ghost predicate Leads(s: State, t: State) {
    exists more :: Legal(s, more) && OrderlyRun(s, more) && After(s, more) == t
  }

  lemma LeadsNowhere(s: State)
    ensures Leads(s, s)
  {
    assert Legal(s, []) && OrderlyRun(s, []) && After(s, []) == s;
  }

  lemma LeadsOn(s: State, t: State, a: Action) returns (u: State)
    requires Leads(s, t) && Enabled(t, a) && Orderly(t, a)
    ensures u == Step(t, a) && Leads(s, u)
  {
    var more :| Legal(s, more) && OrderlyRun(s, more) && After(s, more) == t;
    Extends(s, more, a);
    assert (more + [a])[..|more|] == more;
    assert OrderlyRun(s, more + [a]);
    u := Step(t, a);
  }

  /** The position of the first event at or after a ledger. */
  lemma FirstAt(s: State, ledger: nat) returns (from: nat)
    requires Ordered(s)
    ensures StartsAt(s.log, from, ledger)
  {
    from := 0;
    while from < |s.log| && s.log[from].ledger < ledger
      invariant from <= |s.log|
      invariant forall i :: 0 <= i < from ==> s.log[i].ledger < ledger
    {
      from := from + 1;
    }
  }

  /** A poll that finds the row short of the event reaches back to it. */
  lemma FetchBack(s: State, w: nat, i: nat) returns (t: State)
    requires Sound(s) && Quiet(s) && w < |s.pollers| && !s.pollers[w].stopped
    requires i < |s.log| && !BehindRow(s, i)
    ensures Leads(s, t) && t.log == s.log && t.db == s.db && w < |t.pollers|
    ensures var f := t.pollers[w].phase; f.Handling? && f.next == f.from <= i && f.to == i + 1
  {
    LeadsNowhere(s);
    t := LeadsOn(s, s, Begin(w));
    if s.db.row.None? {
      t := LeadsOn(s, t, ColdStart(w, 1, 0));
    }
    var from := WhereToFetch(s, t.pollers[w].phase, i);
    t := LeadsOn(s, t, FetchOk(w, from, i + 1, true));
  }

  lemma WhereToFetch(s: State, f: Phase, i: nat) returns (from: nat)
    requires Sound(s) && i < |s.log| && !BehindRow(s, i)
    requires if s.db.row.None? then f == Fetching(None, 1) else f == Fetching(s.db.row, s.db.row.value.lastLedger)
    ensures from <= i && AnswersFrom(s, f.cursor, f.startLedger, from)
  {
    if HasToken(f.cursor) {
      from := f.cursor.value.token.value;
    } else {
      from := FirstAt(s, f.startLedger);
      assert s.log[i].ledger >= f.startLedger;
    }
  }

  /** And takes its batch up to the event. */
  lemma {:induction false} HandleUpTo(s: State, t: State, w: nat, i: nat) returns (u: State)
    requires Leads(s, t) && w < |t.pollers| && i < |t.log|
    requires var f := t.pollers[w].phase; f.Handling? && f.next <= i < f.to <= |t.log|
    ensures Leads(s, u) && u.log == t.log && w < |u.pollers|
    ensures var f := u.pollers[w].phase; f.Handling? && f.next == i < f.to <= |u.log|
    ensures u.db.dispatched[i] >= t.db.dispatched[i]
    decreases i - t.pollers[w].phase.next
  {
    u := t;
    if t.pollers[w].phase.next < i {
      u := LeadsOn(s, t, Handle(w, Returns));
      u := HandleUpTo(s, u, w, i);
    }
  }

  lemma DispatchAgain(s: State, w: nat, i: nat)
    requires Sound(s) && Quiet(s) && w < |s.pollers| && !s.pollers[w].stopped
    requires i < |s.log| && s.log[i].kind == Known && !BehindRow(s, i)
    ensures Again(s, i)
  {
    var t := FetchBack(s, w, i);
    t := HandleUpTo(s, t, w, i);
    t := LeadsOn(s, t, Handle(w, Returns));
    var more :| Legal(s, more) && OrderlyRun(s, more) && After(s, more) == t;
  }

  /** Whatever happened before: between polls, an event that was dispatched can be
      dispatched again by an orderly continuation if and only if the row's cursor is
      not past it. */
  lemma AgainExactly(s: State, acts: seq<Action>, i: nat)
    requires Initial(s) && Legal(s, acts) && Quiet(After(s, acts)) && i in After(s, acts).db.dispatched
    ensures var t := After(s, acts); i < |t.log| && (Again(t, i) <==> !BehindRow(t, i))
  {
    var t := After(s, acts);
    RunsAreSound(s, acts);
    RunsDispatchKnown(s, acts);
    if BehindRow(t, i) {
      forall more | Legal(t, more) && OrderlyRun(t, more)
        ensures After(t, more).db.dispatched[i] == t.db.dispatched[i]
      {
        NeverAgain(t, more, i);
      }
    } else {
      var w :| 0 <= w < |t.pollers| && !t.pollers[w].stopped;
      DispatchAgain(t, w, i);
    }
  }

  // ------------------------------------------------------------- how a poll may end

  /** Ends a poll without its batch commit. */
  predicate Breaks(s: State, a: Action)
    requires Enabled(s, a)
  {
    a.Throw? || a.CommitClamp?
    || (a.Handle? && !a.fate.Returns? && s.log[s.pollers[a.who].phase.next].kind == Known)
  }

  /** After an orderly run, a poll that breaks off leaves an event that will be
      dispatched again if and only if breaking off there was not orderly: it had
      dispatched something, or the clamp goes back to a dispatched event. */
  lemma BreakingOffExactly(s: State, acts: seq<Action>, a: Action)
    requires Initial(s) && Legal(s, acts) && OrderlyRun(s, acts)
    requires Enabled(After(s, acts), a) && Breaks(After(s, acts), a) && Quiet(Step(After(s, acts), a))
    ensures var u := Step(After(s, acts), a);
            (exists i :: i in u.db.dispatched && Again(u, i)) <==> !Orderly(After(s, acts), a)
  {
    var t := After(s, acts);
    var u := Step(t, a);
    Extends(s, acts, a);
    OrderlyRunsHold(s, acts);
    RunsAreSound(s, acts);
    forall i | i in u.db.dispatched
      ensures i < |u.log| && (Again(u, i) <==> !BehindRow(u, i))
    {
      AgainExactly(s, acts + [a], i);
    }
    if Orderly(t, a) {
      OrderlyEnd(t, a);
    } else {
      var i := DisorderlyEnd(t, a);
      assert Again(u, i);
    }
  }

  lemma OrderlyEnd(t: State, a: Action)
    requires Sound(t) && Alone(t) && Once(t) && Enabled(t, a) && Breaks(t, a) && Quiet(Step(t, a)) && Orderly(t, a)
    ensures var u := Step(t, a); forall i :: i in u.db.dispatched ==> i < |u.log| && BehindRow(u, i)
  {
    var u := Step(t, a);
    OnceStep(t, a);
    forall i | i in u.db.dispatched
      ensures i < |u.log| && BehindRow(u, i)
    {
      assert DoneWith(u, i);
    }
  }

  lemma DisorderlyEnd(t: State, a: Action) returns (i: nat)
    requires Sound(t) && Alone(t) && Enabled(t, a) && Breaks(t, a) && !Orderly(t, a)
    requires DispatchedKnown(t)
    ensures var u := Step(t, a); i in u.db.dispatched && i < |u.log| && !BehindRow(u, i)
  {
    var f := t.pollers[a.who].phase;
    assert FromRow(t, f) && PhaseSound(t, f);
    if a.CommitClamp? {
      i :| i in t.db.dispatched && i < |t.log| && t.log[i].ledger >= f.oldest;
    } else {
      i :| f.from <= i < f.next && t.log[i].kind == Known;
      BehindIsBefore(t, f, i);
    }
  }
}
