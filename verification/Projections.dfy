/**
 How often an event reaches the projections: the archive of raw events guards every
 handler, so a repeated dispatch applies nothing, and so does the retry of one that
 failed after its archive row was kept.
 */
module Projections {
  import opened Wrappers
  import opened Cursor
  import opened Indexer

  /** Whatever is projected was projected once and is archived; whatever was
      dispatched is archived; dead letters at decode and skipped events are of their
      kinds. */
  predicate ArchiveSound(s: State) {
    && Guarded(s.db.archive)
    && (forall i :: i in s.db.archive.archived ==> OfKind(s, i, Known))
    && (forall i :: i in s.db.dispatched ==> i in s.db.archive.archived)
    && (forall i :: i in s.db.deadLetters ==> OfKind(s, i, Undecodable))
    && (forall i :: i in s.db.skipped ==> OfKind(s, i, UnknownTopic))
  }

  predicate Guarded(ar: Archive) {
    forall i :: i in ar.projected ==> ar.projected[i] == 1 && i in ar.archived
  }

  predicate OfKind(s: State, i: nat, kind: Kind) {
    i < |s.log| && s.log[i].kind == kind
  }

  lemma StepKeepsArchive(s: State, a: Action)
    requires ArchiveSound(s) && Enabled(s, a)
    ensures ArchiveSound(Step(s, a))
  {
    if a.Handle? {
      HandleKeepsArchive(s, a);
    } else {
      OthersLeaveArchive(s, a);
      var t := Step(s, a);
      assert forall i, kind :: OfKind(s, i, kind) ==> OfKind(t, i, kind);
    }
  }

  lemma OthersLeaveArchive(s: State, a: Action)
    requires !a.Handle? && Enabled(s, a)
    ensures var t := Step(s, a);
            && t.db.archive == s.db.archive && t.db.dispatched == s.db.dispatched
            && t.db.deadLetters == s.db.deadLetters && t.db.skipped == s.db.skipped
            && s.log <= t.log
  {
  }

  lemma HandleKeepsArchive(s: State, a: Action)
    requires ArchiveSound(s) && a.Handle? && Enabled(s, a)
    ensures ArchiveSound(Step(s, a))
  {
    var t := Step(s, a);
    var i := s.pollers[a.who].phase.next;
    HandleWrites(s, a);
    assert forall j, kind :: OfKind(s, j, kind) ==> OfKind(t, j, kind);
    match s.log[i].kind {
      case Known =>
        DeliveredKeeps(s.db.archive, i, a.fate);
        assert OfKind(t, i, Known);
      case Undecodable => assert OfKind(t, i, Undecodable);
      case UnknownTopic => assert OfKind(t, i, UnknownTopic);
    }
  }

  lemma HandleWrites(s: State, a: Action)
    requires a.Handle? && Enabled(s, a)
    ensures var t := Step(s, a);
            var i := s.pollers[a.who].phase.next;
            var kind := s.log[i].kind;
            && t.log == s.log
            && t.db.archive == (if kind == Known then Delivered(s.db.archive, i, a.fate) else s.db.archive)
            && t.db.dispatched == (if kind == Known && a.fate.Returns? then s.db.dispatched + multiset{i} else s.db.dispatched)
            && t.db.deadLetters == (if kind == Undecodable then s.db.deadLetters + {i} else s.db.deadLetters)
            && t.db.skipped == (if kind == UnknownTopic then s.db.skipped + {i} else s.db.skipped)
  {
  }

  lemma DeliveredKeeps(ar: Archive, i: nat, fate: Fate)
    requires Guarded(ar)
    ensures var after := Delivered(ar, i, fate);
            && Guarded(after)
            && ar.archived <= after.archived <= ar.archived + {i}
            && (fate.Returns? ==> i in after.archived)
  {
  }

  lemma {:induction false} ArchiveHolds(s: State, acts: seq<Action>)
    requires Initial(s) && Legal(s, acts)
    ensures ArchiveSound(After(s, acts))
  {
    if acts != [] {
      ArchiveHolds(s, acts[..|acts| - 1]);
      StepKeepsArchive(After(s, acts[..|acts| - 1]), acts[|acts| - 1]);
    }
  }

  /** No double apply: over every run and every interleaving of pollers each event is
      projected at most once, however often it is dispatched. */
  lemma ProjectedAtMostOnce(s: State, acts: seq<Action>, i: nat)
    requires Initial(s) && Legal(s, acts)
    ensures After(s, acts).db.archive.projected[i] <= 1
  {
    ArchiveHolds(s, acts);
  }

  // ------------------------------------------------------------ never projected

  /** The step fails on the event and is the first to archive it. */
  predicate KeepsUnprojected(s: State, a: Action, i: nat)
    requires Enabled(s, a)
  {
    && a.Handle? && a.fate.ThrowsArchived?
    && s.pollers[a.who].phase.next == i && OfKind(s, i, Known)
    && i !in s.db.archive.archived
  }

  /** Some step of the run did so. */
  predicate KeptUnprojected(s: State, acts: seq<Action>, i: nat)
    requires Legal(s, acts)
    decreases |acts|
  {
    acts != [] &&
      var init, last := acts[..|acts| - 1], acts[|acts| - 1];
      (KeptUnprojected(s, init, i) || KeepsUnprojected(After(s, init), last, i))
  }

  predicate LeftOut(s: State, i: nat) {
    i in s.db.archive.archived && i !in s.db.archive.projected
  }

  lemma LeftOutStep(s: State, a: Action, i: nat)
    requires ArchiveSound(s) && Enabled(s, a)
    ensures LeftOut(Step(s, a), i) <==> LeftOut(s, i) || KeepsUnprojected(s, a, i)
  {
    if a.Handle? {
      HandleWrites(s, a);
    } else {
      OthersLeaveArchive(s, a);
    }
  }

  lemma {:induction false} LeftOutExactly(s: State, acts: seq<Action>, i: nat)
    requires Initial(s) && Legal(s, acts)
    ensures LeftOut(After(s, acts), i) <==> KeptUnprojected(s, acts, i)
  {
    if acts != [] {
      LeftOutExactly(s, acts[..|acts| - 1], i);
      ArchiveHolds(s, acts[..|acts| - 1]);
      LeftOutStep(After(s, acts[..|acts| - 1]), acts[|acts| - 1], i);
    }
  }

  /** The step dispatches the event and leaves it archived: every end of a dispatch but
      an early throw does. */
  predicate Archives(s: State, a: Action, i: nat)
    requires Enabled(s, a)
  {
    a.Handle? && !a.fate.ThrowsEarly? && s.pollers[a.who].phase.next == i && OfKind(s, i, Known)
  }

  /** Some step of the run did so. */
  predicate HasArchived(s: State, acts: seq<Action>, i: nat)
    requires Legal(s, acts)
    decreases |acts|
  {
    acts != [] &&
      var init, last := acts[..|acts| - 1], acts[|acts| - 1];
      (HasArchived(s, init, i) || Archives(After(s, init), last, i))
  }

  lemma ArchivesStep(s: State, a: Action, i: nat)
    requires Enabled(s, a)
    ensures i in Step(s, a).db.archive.archived <==> i in s.db.archive.archived || Archives(s, a, i)
  {
    if a.Handle? {
      HandleWrites(s, a);
    } else {
      OthersLeaveArchive(s, a);
    }
  }

  lemma {:induction false} ArchivedExactly(s: State, acts: seq<Action>, i: nat)
    requires Initial(s) && Legal(s, acts)
    ensures i in After(s, acts).db.archive.archived <==> HasArchived(s, acts, i)
  {
    if acts != [] {
      ArchivedExactly(s, acts[..|acts| - 1], i);
      ArchivesStep(After(s, acts[..|acts| - 1]), acts[|acts| - 1], i);
    }
  }

  /** Read from the dispatches alone: an event is projected, once, exactly when some
      dispatch of it got past an early throw and the first one to archive it did not
      fail in between. A throw after the transaction has committed projects as well. */
  lemma ProjectedReadFromRun(s: State, acts: seq<Action>, i: nat)
    requires Initial(s) && Legal(s, acts)
    ensures After(s, acts).db.archive.projected[i] == if HasArchived(s, acts, i) && !KeptUnprojected(s, acts, i) then 1 else 0
  {
    ArchiveHolds(s, acts);
    ArchivedExactly(s, acts, i);
    LeftOutExactly(s, acts, i);
  }

  /** Exactly once: a known event that the committed cursor has passed, at or above
      the origin and in no gap, has been projected exactly once, unless the dispatch
      that first archived it failed; then it has not been projected at all. */
  lemma ProjectedExactlyOnce(s: State, acts: seq<Action>, i: nat)
    requires Initial(s) && Legal(s, acts)
    requires var t := After(s, acts);
             && t.db.row.Some? && OfKind(t, i, Known) && Passed(t, t.db.row.value, i)
             && t.log[i].ledger >= t.db.origin && !InGap(t.db, t.log[i].ledger)
    ensures After(s, acts).db.archive.projected[i] == if KeptUnprojected(s, acts, i) then 0 else 1
  {
    var t := After(s, acts);
    RunsAreSound(s, acts);
    ArchiveHolds(s, acts);
    LeftOutExactly(s, acts, i);
    assert Handled(t, i);
    assert i in t.db.dispatched;
  }

  /** And it stays so: no continuation projects what was once left out. */
  lemma {:induction false} LeftOutForGood(s: State, acts: seq<Action>, more: seq<Action>, i: nat)
    requires Initial(s) && Legal(s, acts) && KeptUnprojected(s, acts, i)
    requires Legal(After(s, acts), more)
    ensures ArchiveSound(After(After(s, acts), more))
    ensures After(After(s, acts), more).db.archive.projected[i] == 0
    ensures i in After(After(s, acts), more).db.archive.archived
  {
    var t := After(s, acts);
    if more == [] {
      LeftOutExactly(s, acts, i);
      ArchiveHolds(s, acts);
    } else {
      LeftOutForGood(s, acts, more[..|more| - 1], i);
      LeftOutStep(After(t, more[..|more| - 1]), more[|more| - 1], i);
      StepKeepsArchive(After(t, more[..|more| - 1]), more[|more| - 1]);
      assert LeftOut(After(t, more), i);
    }
  }
}
