/** The two-tier pause: a full freeze lapses into halt-open after 72 hours. */
module Pause {

  const FULL_FREEZE_MAX_SECS: nat := 259_200
  const U64_MAX: nat := 0xFFFF_FFFF_FFFF_FFFF

  /** Stored mode (0 live, 1 halt-open, 2 full freeze) and when it was set. */
  datatype PauseState = PauseState(mode: nat, since: nat)

  function SaturatingAdd(a: nat, b: nat): nat {
    if a + b > U64_MAX then U64_MAX else a + b
  }

  predicate Lapsed(p: PauseState, now: nat) {
    p.mode == 2 && now >= SaturatingAdd(p.since, FULL_FREEZE_MAX_SECS)
  }

  /** The mode a reader sees. */
  function ModeView(p: PauseState, now: nat): nat {
    if Lapsed(p, now) then 1 else p.mode
  }

  /** A gated call: it reads the mode, and its writes survive only if the whole call succeeds. */
  datatype Gate = Increase | Reduce

  datatype Call = Call(now: nat, gate: Gate, succeeds: bool)

  predicate Admits(p: PauseState, c: Call) {
    match c.gate
    case Increase => ModeView(p, c.now) == 0
    case Reduce => ModeView(p, c.now) <= 1
  }

  function Degraded(p: PauseState, now: nat): PauseState {
    if Lapsed(p, now) then PauseState(1, p.since) else p
  }

  function AfterCall(p: PauseState, c: Call): PauseState {
    if Admits(p, c) && c.succeeds then Degraded(p, c.now) else p
  }

  function AfterCalls(p: PauseState, calls: seq<Call>): PauseState {
    if calls == [] then p else AfterCall(AfterCalls(p, calls[..|calls| - 1]), calls[|calls| - 1])
  }

  class PauseCell {
    var mode: nat
    var since: nat

    constructor ()
      ensures State() == PauseState(0, 0)
    {
      mode, since := 0, 0;
    }

    function State(): PauseState
      reads this
    {
      PauseState(mode, since)
    }

    method SetPauseState(mode: nat, since: nat)
      modifies this
      ensures State() == PauseState(mode, since)
    {
      this.mode, this.since := mode, since;
    }

    /** Reads the mode on a write path, persisting a lapsed freeze as halt-open. */
    method EffectiveMode(now: nat) returns (m: nat)
      modifies this
      ensures m == ModeView(old(State()), now)
      ensures State() == Degraded(old(State()), now)
    {
      if mode == 2 && now >= SaturatingAdd(since, FULL_FREEZE_MAX_SECS) {
        SetPauseState(1, since);
        return 1;
      }
      return mode;
    }

    /** A whole gated call; a refused or failing one is rolled back. */
    method GatedCall(c: Call) returns (ok: bool)
      modifies this
      ensures ok == (Admits(old(State()), c) && c.succeeds)
      ensures State() == AfterCall(old(State()), c)
    {
      var savedMode, savedSince := mode, since;
      var m := EffectiveMode(c.now);
      ok := c.succeeds && match c.gate case Increase => m == 0 case Reduce => m <= 1;
      if !ok {
        mode, since := savedMode, savedSince;
      }
    }
  }

  /** Writing the lapse back lazily is invisible: after any run of calls at
      nondecreasing times the mode seen from then on is the one the original
      state would show. */
  lemma {:induction false} LazyDegradeIsInvisible(p: PauseState, calls: seq<Call>, now: nat)
    requires forall i :: 0 <= i < |calls| ==> calls[i].now <= now
    ensures ModeView(AfterCalls(p, calls), now) == ModeView(p, now)
  {
    if calls != [] {
      var init, last := calls[..|calls| - 1], calls[|calls| - 1];
      LazyDegradeIsInvisible(p, init, now);
    }
  }

  /** A full freeze holds back risk-reducing calls for exactly 72 hours, whatever
      calls were made in between, and never lets a risk-increasing one through. */
  lemma {:induction false} FreezeIsBounded(since: nat, calls: seq<Call>, c: Call)
    requires forall i :: 0 <= i < |calls| ==> calls[i].now <= c.now
    ensures var p := AfterCalls(PauseState(2, since), calls);
            Admits(p, c) <==> c.gate == Reduce && c.now >= Thaw(since)
  {
    LazyDegradeIsInvisible(PauseState(2, since), calls, c.now);
  }

  /** 72 hours on, or the last second a 64-bit clock can show. */
  function Thaw(since: nat): nat {
    if since + 72 * 3_600 <= 0xFFFF_FFFF_FFFF_FFFF then since + 72 * 3_600 else 0xFFFF_FFFF_FFFF_FFFF
  }

  /** The lapse is stored by the first reducing call that succeeds after it, with the
      time of the freeze kept, and by nothing else. */
  lemma {:induction false} LapseIsStoredExactly(since: nat, calls: seq<Call>)
    ensures AfterCalls(PauseState(2, since), calls)
         == PauseState(if exists i :: 0 <= i < |calls| && Stores(calls[i], since) then 1 else 2, since)
  {
    if calls != [] {
      LapseIsStoredExactly(since, calls[..|calls| - 1]);
      assert forall i :: 0 <= i < |calls| - 1 ==> calls[..|calls| - 1][i] == calls[i];
    }
  }

  predicate Stores(c: Call, since: nat) {
    c.gate == Reduce && c.succeeds && c.now >= Thaw(since)
  }

  /** A live market admits every gated call and a halt-open one exactly the reducing
      ones, at any time and after any calls: neither mode lapses. */
  lemma {:induction false} OtherModesStay(mode: nat, since: nat, calls: seq<Call>, c: Call)
    requires mode <= 1
    ensures AfterCalls(PauseState(mode, since), calls) == PauseState(mode, since)
    ensures Admits(AfterCalls(PauseState(mode, since), calls), c) <==> mode == 0 || c.gate == Reduce
  {
    if calls != [] {
      OtherModesStay(mode, since, calls[..|calls| - 1], c);
    }
  }
}
