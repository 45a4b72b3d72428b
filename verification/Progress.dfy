/**
 How the cursor moves: the ledger a batch commits is the highest of its counted
 events, and the row never falls behind what it has passed.
 */
module Progress {
  import opened Wrappers
  import opened Cursor
  import opened Indexer
  import opened Delivery

  /** Dispatched and dead-lettered events move the ledger, unknown topics do not. */
  predicate Counts(log: seq<Event>, i: nat)
    requires i < |log|
  {
    log[i].kind != UnknownTopic
  }

  /** The highest ledger of the counted events in a stretch of the log, at least `base`. */
  function HighestIn(log: seq<Event>, from: nat, next: nat, base: nat): nat
    requires from <= next <= |log|
  {
    if from == next then base
    else
      var before := HighestIn(log, from, next - 1, base);
      if Counts(log, next - 1) then Max(before, log[next - 1].ledger) else before
  }

  predicate CountedIn(log: seq<Event>, from: nat, next: nat)
    requires from <= next <= |log|
  {
    exists i :: from <= i < next && Counts(log, i)
  }

  /** `ledger` is the ledger of a counted event in the stretch. */
  predicate Attained(log: seq<Event>, from: nat, next: nat, ledger: nat)
    requires from <= next <= |log|
  {
    exists i :: from <= i < next && Counts(log, i) && log[i].ledger == ledger
  }

  lemma {:induction false} HighestIsMaximum(log: seq<Event>, from: nat, next: nat, base: nat)
    requires from <= next <= |log|
    ensures var h := HighestIn(log, from, next, base);
            && base <= h
            && (forall i :: from <= i < next && Counts(log, i) ==> log[i].ledger <= h)
            && (h == base || Attained(log, from, next, h))
  {
    if from < next {
      HighestIsMaximum(log, from, next - 1, base);
      var before, h := HighestIn(log, from, next - 1, base), HighestIn(log, from, next, base);
      if h != base {
        if h == before {
          var i :| from <= i < next - 1 && Counts(log, i) && log[i].ledger == before;
          assert from <= i < next && Counts(log, i) && log[i].ledger == h;
        } else {
          assert from <= next - 1 < next && Counts(log, next - 1) && log[next - 1].ledger == h;
        }
      }
    }
  }

  lemma {:induction false} HighestStays(log: seq<Event>, log': seq<Event>, from: nat, next: nat, base: nat)
    requires from <= next <= |log| <= |log'| && log == log'[..|log|]
    ensures HighestIn(log', from, next, base) == HighestIn(log, from, next, base)
  {
    if from < next {
      HighestStays(log, log', from, next - 1, base);
      assert log'[next - 1] == log[next - 1];
    }
  }

  // ------------------------------------------------------------------- invariant

  /** No counted event before the token lies above the cursor's ledger. */
  predicate Leads(log: seq<Event>, c: PollCursor) {
    c.token.Some? ==>
      c.token.value <= |log| && forall i :: 0 <= i < c.token.value && Counts(log, i) ==> log[i].ledger <= c.lastLedger
  }

  function Base(f: Phase): nat
    requires f.Handling?
  {
    if f.cursor.Some? then f.cursor.value.lastLedger else 0
  }

  predicate PhaseLeads(s: State, f: Phase) {
    && (!f.Idle? && !f.Locating? && f.cursor.Some? ==>
          Leads(s.log, f.cursor.value) && f.startLedger == f.cursor.value.lastLedger)
    && (f.Handling? ==>
          && StartSound(s, f) && f.from <= f.next <= f.to
          && f.highest == HighestIn(s.log, f.from, f.next, Base(f)))
  }

  predicate RowLeads(s: State) {
    && (s.db.row.Some? ==> Leads(s.log, s.db.row.value))
    && (forall w :: 0 <= w < |s.pollers| ==> PhaseLeads(s, s.pollers[w].phase))
  }

  lemma LeadsGrows(s: State, t: State, c: PollCursor)
    requires Grows(s, t) && Leads(s.log, c)
    ensures Leads(t.log, c)
  {
  }

  lemma PhaseLeadsGrows(s: State, t: State, f: Phase)
    requires Ordered(s) && Ordered(t) && Grows(s, t) && PhaseLeads(s, f)
    ensures PhaseLeads(t, f)
  {
    if !f.Idle? && !f.Locating? && f.cursor.Some? {
      LeadsGrows(s, t, f.cursor.value);
    }
    if f.Handling? {
      StartSoundGrows(s, t, f);
      HighestStays(s.log, t.log, f.from, f.next, Base(f));
    }
  }

  /** What a batch writes is the maximum of the cursor's ledger and its counted events. */
  lemma BatchWrites(s: State, f: Phase, next: PollCursor)
    requires Ordered(s) && f.Handling? && PhaseLeads(s, f) && f.next == f.to
    requires next.lastLedger == if f.highest == 0 then f.startLedger else f.highest
    requires next.token == if f.token.Some? then f.token else if f.cursor.Some? then f.cursor.value.token else None
    ensures f.cursor.Some? ==> next.lastLedger >= f.cursor.value.lastLedger
    ensures forall i :: f.from <= i < f.to && Counts(s.log, i) ==> s.log[i].ledger <= next.lastLedger
    ensures if f.cursor.Some? then next.lastLedger == f.cursor.value.lastLedger || Attained(s.log, f.from, f.to, next.lastLedger)
            else if CountedIn(s.log, f.from, f.to) then Attained(s.log, f.from, f.to, next.lastLedger)
            else next.lastLedger == f.startLedger
    ensures Leads(s.log, next)
  {
    HighestIsMaximum(s.log, f.from, f.to, Base(f));
    if f.cursor.None? && CountedIn(s.log, f.from, f.to) {
      var i :| f.from <= i < f.to && Counts(s.log, i);
      assert s.log[i].ledger <= f.highest;
    }
    if f.cursor.None? && Attained(s.log, f.from, f.to, f.highest) {
      var i :| f.from <= i < f.to && Counts(s.log, i) && s.log[i].ledger == f.highest;
      assert !(i < f.from);
    }
    if f.token.Some? {
      forall i | 0 <= i < f.to && Counts(s.log, i)
        ensures s.log[i].ledger <= next.lastLedger
      {
        if i < f.from {
          assert HasToken(f.cursor) || s.log[i].ledger < f.startLedger;
        }
      }
    }
  }

  lemma RowStaysLed(s: State, a: Action)
    requires Ordered(s) && RowLeads(s) && Enabled(s, a)
    ensures var t := Step(s, a); t.db.row.Some? ==> Leads(t.log, t.db.row.value)
  {
    var t := Step(s, a);
    StepGrows(s, a);
    if t.db.row == s.db.row {
      if s.db.row.Some? {
        LeadsGrows(s, t, s.db.row.value);
      }
    } else {
      RowChangesByCommit(s, a);
      var f := s.pollers[a.who].phase;
      assert PhaseLeads(s, f);
      if a.CommitBatch? && (f.to > f.from || f.cursor.None?) {
        BatchWrites(s, f, t.db.row.value);
      }
    }
  }

  lemma OwnPhaseLeads(s: State, a: Action)
    requires Sound(s) && RowLeads(s) && Enabled(s, a) && !a.CloseLedger?
    requires PhaseLeads(Step(s, a), s.pollers[a.who].phase)
    ensures PhaseLeads(Step(s, a), Step(s, a).pollers[a.who].phase)
  {
    match a {
      case FetchOk(_, _, _, _) => FetchLeads(s, a);
      case Handle(_, _) => HandleLeads(s, a);
      case Begin(_) => BeginLeads(s, a);
      case _ => OthersLead(s, a);
    }
  }

  lemma BeginLeads(s: State, a: Action)
    requires RowLeads(s) && a.Begin? && Enabled(s, a)
    ensures PhaseLeads(Step(s, a), Step(s, a).pollers[a.who].phase)
  {
  }

  lemma FetchLeads(s: State, a: Action)
    requires Sound(s) && a.FetchOk? && Enabled(s, a)
    requires PhaseLeads(Step(s, a), s.pollers[a.who].phase)
    ensures PhaseLeads(Step(s, a), Step(s, a).pollers[a.who].phase)
  {
    assert PhaseSound(s, s.pollers[a.who].phase);
  }

  lemma HandleLeads(s: State, a: Action)
    requires a.Handle? && Enabled(s, a)
    requires PhaseLeads(Step(s, a), s.pollers[a.who].phase)
    ensures PhaseLeads(Step(s, a), Step(s, a).pollers[a.who].phase)
  {
  }

  lemma OthersLead(s: State, a: Action)
    requires !a.CloseLedger? && !a.FetchOk? && !a.Handle? && !a.Begin? && Enabled(s, a)
    requires PhaseLeads(Step(s, a), s.pollers[a.who].phase)
    ensures PhaseLeads(Step(s, a), Step(s, a).pollers[a.who].phase)
  {
  }

  lemma StepKeepsLead(s: State, a: Action)
    requires Sound(s) && RowLeads(s) && Enabled(s, a)
    ensures RowLeads(Step(s, a))
  {
    var t := Step(s, a);
    StepGrows(s, a);
    RowStaysLed(s, a);
    forall w | 0 <= w < |t.pollers|
      ensures PhaseLeads(t, t.pollers[w].phase)
    {
      assert PhaseLeads(s, s.pollers[w].phase);
      PhaseLeadsGrows(s, t, s.pollers[w].phase);
      if !a.CloseLedger? && a.who == w {
        OwnPhaseLeads(s, a);
      }
    }
  }

  lemma {:induction false} RunsLead(s: State, acts: seq<Action>)
    requires Initial(s) && Legal(s, acts)
    ensures RowLeads(After(s, acts))
  {
    if acts == [] {
      forall w | 0 <= w < |s.pollers|
        ensures PhaseLeads(s, s.pollers[w].phase)
      {
        assert s.pollers[w] in s.pollers;
      }
    } else {
      RunsLead(s, acts[..|acts| - 1]);
      RunsAreSound(s, acts[..|acts| - 1]);
      StepKeepsLead(After(s, acts[..|acts| - 1]), acts[|acts| - 1]);
    }
  }

  // -------------------------------------------------------------- main statements

  /** The ledger a batch commits is the maximum of the ledger its cursor held and of
      its dispatched and dead-lettered events; on an empty row with nothing counted
      it is the start ledger. */
  lemma CommitsHighestLedger(s: State, acts: seq<Action>, a: Action)
    requires Initial(s) && Legal(s, acts) && a.CommitBatch? && Enabled(After(s, acts), a)
    requires var t := After(s, acts);
             var f := t.pollers[a.who].phase;
             Step(t, a).db.commits != t.db.commits && (f.to > f.from || f.cursor.None?)
    ensures var t := After(s, acts);
            var f := t.pollers[a.who].phase;
            var row := Step(t, a).db.row;
            && f.from <= f.to <= |t.log| && row.Some?
            && (forall i :: f.from <= i < f.to && Counts(t.log, i) ==> t.log[i].ledger <= row.value.lastLedger)
            && (f.cursor.Some? ==>
                  && row.value.lastLedger >= f.cursor.value.lastLedger
                  && (row.value.lastLedger == f.cursor.value.lastLedger || Attained(t.log, f.from, f.to, row.value.lastLedger)))
            && (f.cursor.None? ==>
                  if CountedIn(t.log, f.from, f.to) then Attained(t.log, f.from, f.to, row.value.lastLedger)
                  else row.value.lastLedger == f.startLedger)
  {
    var t := After(s, acts);
    RunsLead(s, acts);
    RunsAreSound(s, acts);
    var f := t.pollers[a.who].phase;
    assert PhaseLeads(t, f);
    BatchWrites(t, f, Step(t, a).db.row.value);
  }

  /** The row keeps up: in every run, every counted event its cursor is past lies at
      or below its ledger. */
  lemma RowKeepsUp(s: State, acts: seq<Action>, i: nat)
    requires Initial(s) && Legal(s, acts)
    requires var t := After(s, acts); i < |t.log| && BehindRow(t, i) && Counts(t.log, i)
    ensures After(s, acts).log[i].ledger <= After(s, acts).db.row.value.lastLedger
  {
    RunsLead(s, acts);
  }

  /** After every completed poll whose write lands, or that needed none, the row is
      younger than the heartbeat interval; a quiet poll moves nothing but its time. */
  lemma FreshAfterPoll(s: State, acts: seq<Action>, a: Action)
    requires Initial(s) && Legal(s, acts) && a.CommitBatch? && Enabled(After(s, acts), a)
    requires var t := After(s, acts);
             t.pollers[a.who].phase.cursor == t.db.row
    ensures var t := After(s, acts);
            var f := t.pollers[a.who].phase;
            var row := Step(t, a).db.row;
            && row.Some?
            && a.now - row.value.updatedAt < 30_000
            && (f.from == f.to && f.cursor.Some? ==>
                  && row.value.lastLedger == f.cursor.value.lastLedger && row.value.token == f.cursor.value.token
                  && (a.now - f.cursor.value.updatedAt < 30_000 ==> row == t.db.row))
  {
    RunsLead(s, acts);
    assert PhaseLeads(After(s, acts), After(s, acts).pollers[a.who].phase);
  }

  // ----------------------------------------------------------------------- stopping

  lemma StaysStopped(s: State, a: Action, who: nat)
    requires Enabled(s, a) && who < |s.pollers| && s.pollers[who].stopped
    ensures a != Begin(who)
    ensures who < |Step(s, a).pollers| && Step(s, a).pollers[who].stopped
  {
  }

  /** Once asked to stop a poller begins no further poll, whatever the run goes on with. */
  lemma {:induction false} StopIsFinal(s: State, who: nat, more: seq<Action>)
    requires who < |s.pollers| && Legal(Step(s, Stop(who)), more)
    ensures var t := After(Step(s, Stop(who)), more); who < |t.pollers| && t.pollers[who].stopped
    ensures forall i :: 0 <= i < |more| ==> more[i] != Begin(who)
  {
    if more != [] {
      var init, last := more[..|more| - 1], more[|more| - 1];
      StopIsFinal(s, who, init);
      StaysStopped(After(Step(s, Stop(who)), init), last, who);
      assert forall i :: 0 <= i < |init| ==> init[i] == more[i];
    }
  }
}
