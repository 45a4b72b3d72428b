/**
 The 14-day rolling volume: a ring of daily slots that stands for the trade log.
 */
module VolumeWindow {
  import opened Fixed

  const DAYS: nat := 14

  /** The stored record: one slot per day modulo 14 and the day of the last update. */
  datatype Window = Window(volumes: seq<int>, lastDay: nat) {
    predicate Valid() {
      lastDay != 0 ==> |volumes| == DAYS
    }
  }

  const ZEROS: seq<int> := [0, 0, 0, 0, 0, 0, 0, 0, 0, 0, 0, 0, 0, 0]

  /** The ring with the slots of the `k` days after `last` cleared. */
  function Cleared(volumes: seq<int>, last: nat, k: nat): (r: seq<int>)
    requires |volumes| == DAYS
    ensures |r| == DAYS
  {
    if k == 0 then volumes else Cleared(volumes, last, k - 1)[(last + k) % DAYS := 0]
  }

  function Rotated(w: Window, day: nat): (r: Window)
    requires w.Valid()
    ensures r.Valid()
  {
    if w.lastDay == 0 then Window(ZEROS, day)
    else if day <= w.lastDay then w
    else if day - w.lastDay >= DAYS then Window(ZEROS, day)
    else Window(Cleared(w.volumes, w.lastDay, day - w.lastDay), day)
  }

  function Recorded(w: Window, size: int, day: nat): (r: Outcome<Window>)
    requires w.Valid()
    ensures r.Done? ==> r.value.Valid()
  {
    if size <= 0 then Done(w)
    else
      var rotated := Rotated(w, day);
      var slot := day % DAYS;
      if |rotated.volumes| != DAYS then Trap
      else
        var volume :- Checked(rotated.volumes[slot] + size);
        Done(rotated.(volumes := rotated.volumes[slot := volume]))
  }

  function Sum(volumes: seq<int>): int {
    if volumes == [] then 0 else Sum(volumes[..|volumes| - 1]) + volumes[|volumes| - 1]
  }

  // ------------------------------------------------------------ the stored record

  class VolumeRecord {
    var dailyVolumes: seq<int>
    var lastUpdateDay: nat

    constructor ()
      ensures State() == Window([], 0)
    {
      dailyVolumes, lastUpdateDay := [], 0;
    }

    function State(): Window
      reads this
    {
      Window(dailyVolumes, lastUpdateDay)
    }

    method Rotate(currentDay: nat)
      requires State().Valid()
      modifies this
      ensures State() == Rotated(old(State()), currentDay)
    {
      if lastUpdateDay == 0 {
        dailyVolumes, lastUpdateDay := ZEROS, currentDay;
        return;
      }
      var elapsed := if currentDay < lastUpdateDay then 0 else currentDay - lastUpdateDay;
      if elapsed == 0 {
        return;
      }
      if elapsed >= DAYS {
        dailyVolumes := ZEROS;
      } else {
        for i := 1 to elapsed + 1
          invariant lastUpdateDay == old(lastUpdateDay)
          invariant dailyVolumes == Cleared(old(dailyVolumes), lastUpdateDay, i - 1)
        {
          dailyVolumes := dailyVolumes[(lastUpdateDay + i) % DAYS := 0];
        }
      }
      lastUpdateDay := currentDay;
    }

    /** Aborts, changing nothing, when the slot would overflow. */
    method RecordTrade(size: int, currentDay: nat) returns (ok: bool)
      requires State().Valid()
      modifies this
      ensures ok == Recorded(old(State()), size, currentDay).Done?
      ensures State() == if ok then Recorded(old(State()), size, currentDay).value else old(State())
    {
      if size <= 0 {
        return true;
      }
      var volumes, day := dailyVolumes, lastUpdateDay;
      Rotate(currentDay);
      var slot := currentDay % DAYS;
      if |dailyVolumes| != DAYS || !InI128(dailyVolumes[slot] + size) {
        dailyVolumes, lastUpdateDay := volumes, day;
        return false;
      }
      dailyVolumes := dailyVolumes[slot := dailyVolumes[slot] + size];
      return true;
    }

    method SumRollingVolume() returns (total: int)
      ensures total == Sum(dailyVolumes)
    {
      total := 0;
      for i := 0 to |dailyVolumes|
        invariant total == Sum(dailyVolumes[..i])
      {
        assert dailyVolumes[..i + 1][..i] == dailyVolumes[..i];
        total := total + dailyVolumes[i];
      }
      assert dailyVolumes[..|dailyVolumes|] == dailyVolumes;
    }
  }

  // ------------------------------------------------------------------ trade log

  datatype Trade = Trade(size: int, day: nat)

  function Counted(t: Trade): int {
    if t.size > 0 then t.size else 0
  }

  /** Volume of the trades on days `from <= day < to`. */
  function VolumeBetween(log: seq<Trade>, from: int, to: int): int {
    if log == [] then 0
    else
      var t := log[|log| - 1];
      VolumeBetween(log[..|log| - 1], from, to) + if from <= t.day < to then Counted(t) else 0
  }

  function DayVolume(log: seq<Trade>, day: int): int {
    VolumeBetween(log, day, day + 1)
  }

  /** Day of the last trade that counted, 0 before the first. */
  function LastDay(log: seq<Trade>): nat {
    if log == [] then 0
    else if log[|log| - 1].size > 0 then log[|log| - 1].day
    else LastDay(log[..|log| - 1])
  }

  function Run(log: seq<Trade>): (r: Outcome<Window>)
    ensures r.Done? ==> r.value.Valid()
  {
    if log == [] then Done(Window([], 0))
    else
      var w :- Run(log[..|log| - 1]);
      Recorded(w, log[|log| - 1].size, log[|log| - 1].day)
  }

  /** Days never go back. */
  predicate NeverBack(log: seq<Trade>) {
    forall i, j :: 0 <= i < j < |log| ==> log[i].day <= log[j].day
  }

  /** Days start at 1 and never go back. */
  predicate Chronological(log: seq<Trade>) {
    (forall i :: 0 <= i < |log| ==> log[i].day >= 1) && NeverBack(log)
  }

  /** Slot `d mod 14` holds exactly day `d`'s volume, for each of the 14 days up to the record's. */
  predicate Stands(w: Window, log: seq<Trade>) {
    && |w.volumes| == DAYS
    && forall d: int :: w.lastDay - 14 < d <= w.lastDay ==> w.volumes[d % 14] == DayVolume(log, d)
  }

  lemma {:induction false} NothingAfterLastDay(log: seq<Trade>, d: int)
    requires NeverBack(log) && d > LastDay(log)
    ensures DayVolume(log, d) == 0
  {
    if log != [] {
      var init := log[..|log| - 1];
      LastDayGrows(log);
      NothingAfterLastDay(init, d);
    }
  }

  lemma {:induction false} LastDayGrows(log: seq<Trade>)
    requires NeverBack(log) && log != []
    ensures LastDay(log[..|log| - 1]) <= LastDay(log) <= log[|log| - 1].day
  {
    var init := log[..|log| - 1];
    if init != [] {
      LastDayGrows(init);
    }
  }

  lemma {:induction false} ClearedAt(volumes: seq<int>, last: nat, k: nat, d: int)
    requires |volumes| == DAYS
    ensures last < d <= last + k ==> Cleared(volumes, last, k)[d % 14] == 0
    ensures last + k - 14 < d <= last ==> Cleared(volumes, last, k)[d % 14] == volumes[d % 14]
  {
    if k > 0 {
      ClearedAt(volumes, last, k - 1, d);
      if last + k - 14 < d <= last + k {
        SameSlot(last + k, d);
      }
    }
  }

  lemma SameSlot(a: int, b: int)
    requires 0 <= a - b < 14
    ensures a % 14 == b % 14 <==> a == b
  {
  }

  /** Rotating forward keeps the ring standing for the same log. */
  lemma RotationKeepsLog(w: Window, log: seq<Trade>, day: nat)
    requires Chronological(log) && w.lastDay >= 1 && Stands(w, log)
    requires LastDay(log) <= w.lastDay <= day
    ensures Rotated(w, day).lastDay == day && Stands(Rotated(w, day), log)
  {
    var r := Rotated(w, day);
    forall d: int | day - 14 < d <= day
      ensures r.volumes[d % 14] == DayVolume(log, d)
    {
      if d > w.lastDay {
        NothingAfterLastDay(log, d);
      }
      if 0 < day - w.lastDay < DAYS {
        ClearedAt(w.volumes, w.lastDay, day - w.lastDay, d);
      }
    }
  }

  lemma FirstRotation(log: seq<Trade>, day: nat)
    requires Chronological(log) && LastDay(log) == 0
    ensures Stands(Window(ZEROS, day), log)
  {
    forall d: int | day - 14 < d <= day
      ensures DayVolume(log, d) == 0
    {
      if d > 0 {
        NothingAfterLastDay(log, d);
      } else {
        NothingBeforeDayOne(log, d);
      }
    }
  }

  lemma {:induction false} NothingBeforeDayOne(log: seq<Trade>, d: int)
    requires Chronological(log) && d <= 0
    ensures DayVolume(log, d) == 0
  {
    if log != [] {
      NothingBeforeDayOne(log[..|log| - 1], d);
    }
  }

  predicate HasCounted(log: seq<Trade>) {
    log != [] && (log[|log| - 1].size > 0 || HasCounted(log[..|log| - 1]))
  }

  /** Volume of the counted trades on day 0 that a later counted trade followed. */
  function Overtaken(log: seq<Trade>): int {
    if log == [] then 0
    else if log[|log| - 1].size > 0 then DayVolume(log[..|log| - 1], 0)
    else Overtaken(log[..|log| - 1])
  }

  /** What the ring knows of a day: its volume, except what was overtaken on day 0. */
  function Remembered(log: seq<Trade>, d: int): int {
    DayVolume(log, d) - if d == 0 then Overtaken(log) else 0
  }

  lemma {:induction false} NothingWithoutCounted(log: seq<Trade>, from: int, to: int)
    requires !HasCounted(log)
    ensures VolumeBetween(log, from, to) == 0 && LastDay(log) == 0 && Overtaken(log) == 0
  {
    if log != [] {
      NothingWithoutCounted(log[..|log| - 1], from, to);
    }
  }

  lemma {:induction false} NegativeDays(log: seq<Trade>, d: int)
    requires d < 0
    ensures DayVolume(log, d) == 0
  {
    if log != [] {
      NegativeDays(log[..|log| - 1], d);
    }
  }

  /** Once a later day has counted, all of day 0 is overtaken. */
  lemma {:induction false} AllOvertaken(log: seq<Trade>)
    requires LastDay(log) >= 1
    ensures Overtaken(log) == DayVolume(log, 0)
  {
    if log[|log| - 1].size <= 0 {
      AllOvertaken(log[..|log| - 1]);
    }
  }

  predicate Holds(w: Window, log: seq<Trade>) {
    && |w.volumes| == DAYS
    && forall d: int :: w.lastDay - 14 < d <= w.lastDay ==> w.volumes[d % 14] == Remembered(log, d)
  }

  /** After any run of trades on days that never go back, from day 0 on, the record
      carries the day of the last counted trade and each slot what is remembered of
      its day. */
  lemma {:induction false} RingRemembers(log: seq<Trade>)
    requires NeverBack(log) && Run(log).Done?
    ensures Run(log).value.lastDay == LastDay(log)
    ensures if HasCounted(log) then Holds(Run(log).value, log) else Run(log).value == Window([], 0)
  {
    if log != [] {
      var init, t := log[..|log| - 1], log[|log| - 1];
      RingRemembers(init);
      LastDayGrows(log);
      var w, s := Run(init).value, Run(log).value;
      if t.size > 0 {
        assert t.day - 14 < t.day <= t.day;
        RotationRemembers(w, init, t.day);
        forall d: int | t.day - 14 < d <= t.day
          ensures s.volumes[d % 14] == Remembered(log, d)
        {
          SameSlot(t.day, d);
        }
      } else if HasCounted(init) {
        forall d: int | w.lastDay - 14 < d <= w.lastDay
          ensures w.volumes[d % 14] == Remembered(log, d)
        {
          assert w.volumes[d % 14] == Remembered(init, d);
        }
      }
    }
  }

  /** Rotating for the next counted trade forgets exactly the day-0 volume. */
  lemma RotationRemembers(w: Window, log: seq<Trade>, day: nat)
    requires NeverBack(log) && w.lastDay == LastDay(log) <= day
    requires if HasCounted(log) then Holds(w, log) else w == Window([], 0)
    ensures var r := Rotated(w, day);
            && r.lastDay == day && |r.volumes| == DAYS
            && forall d: int :: day - 14 < d <= day ==> r.volumes[d % 14] == if d == 0 then 0 else DayVolume(log, d)
  {
    var r := Rotated(w, day);
    forall d: int | day - 14 < d <= day
      ensures r.volumes[d % 14] == if d == 0 then 0 else DayVolume(log, d)
    {
      if d < 0 {
        NegativeDays(log, d);
      } else if d > LastDay(log) {
        NothingAfterLastDay(log, d);
      }
      if w.lastDay >= 1 {
        AllOvertaken(log);
        if !HasCounted(log) {
          NothingWithoutCounted(log, 0, 1);
        }
        if day - w.lastDay < DAYS {
          assert Cleared(w.volumes, w.lastDay, 0) == w.volumes;
          ClearedAt(w.volumes, w.lastDay, day - w.lastDay, d);
        }
      }
    }
  }

  /** The ring refines the log exactly when nothing on day 0 was overtaken, or day 0
      has left the window. */
  lemma StandsExactly(log: seq<Trade>)
    requires NeverBack(log) && Run(log).Done? && HasCounted(log)
    ensures Stands(Run(log).value, log) <==> Overtaken(log) == 0 || LastDay(log) >= 14
  {
    RingRemembers(log);
    var w := Run(log).value;
    forall d: int | w.lastDay - 14 < d <= w.lastDay
      ensures w.volumes[d % 14] == Remembered(log, d)
    {
    }
    if LastDay(log) < 14 {
      assert w.volumes[0 % 14] == Remembered(log, 0);
    }
  }

  /** In particular, on days from 1 on, it always does. */
  lemma RingRefinesLog(log: seq<Trade>)
    requires Chronological(log) && Run(log).Done?
    ensures Run(log).value.lastDay == LastDay(log)
    ensures LastDay(log) >= 1 ==> Stands(Run(log).value, log)
  {
    RingRemembers(log);
    if LastDay(log) >= 1 {
      if !HasCounted(log) {
        NothingWithoutCounted(log, 0, 1);
      }
      AllOvertaken(log);
      NothingBeforeDayOne(log, 0);
      StandsExactly(log);
    }
  }

  // ---------------------------------------------------------------- rolling sum

  lemma {:induction false} SumConcat(a: seq<int>, b: seq<int>)
    ensures Sum(a + b) == Sum(a) + Sum(b)
  {
    if b == [] {
      assert a + b == a;
    } else {
      assert (a + b)[..|a + b| - 1] == a + b[..|b| - 1];
      SumConcat(a, b[..|b| - 1]);
    }
  }

  lemma {:induction false} BetweenSplits(log: seq<Trade>, from: int, mid: int, to: int)
    requires from <= mid <= to
    ensures VolumeBetween(log, from, to) == VolumeBetween(log, from, mid) + VolumeBetween(log, mid, to)
  {
    if log != [] {
      BetweenSplits(log[..|log| - 1], from, mid, to);
    }
  }

  lemma {:induction false} EmptyRange(log: seq<Trade>, from: int)
    ensures VolumeBetween(log, from, from) == 0
  {
    if log != [] {
      EmptyRange(log[..|log| - 1], from);
    }
  }

  /** A list of consecutive days' volumes adds up to the volume between them. */
  lemma {:induction false} DaysAddUp(days: seq<int>, log: seq<Trade>, from: int)
    requires forall i :: 0 <= i < |days| ==> days[i] == DayVolume(log, from + i)
    ensures Sum(days) == VolumeBetween(log, from, from + |days|)
  {
    if days == [] {
      EmptyRange(log, from);
    } else {
      DaysAddUp(days[..|days| - 1], log, from);
      BetweenSplits(log, from, from + |days| - 1, from + |days|);
    }
  }

  /** A ring that stands for the log sums to the volume of its 14 days. */
  lemma SumOfRing(w: Window, log: seq<Trade>)
    requires Stands(w, log)
    ensures Sum(w.volumes) == VolumeBetween(log, w.lastDay - 13, w.lastDay + 1)
  {
    var r := w.lastDay % 14;
    var late, early := w.volumes[..r + 1], w.volumes[r + 1..];
    var days := early + late;
    var from := w.lastDay - 13;
    forall i | 0 <= i < |days|
      ensures days[i] == DayVolume(log, from + i)
    {
      var d := from + i;
      assert w.volumes[d % 14] == DayVolume(log, d);
      assert d % 14 == if i < 13 - r then r + 1 + i else i - (13 - r) by {
        RingIndex(w.lastDay, i);
      }
    }
    DaysAddUp(days, log, from);
    SumConcat(early, late);
    SumConcat(late, early);
    assert late + early == w.volumes;
  }

  lemma RingIndex(last: nat, i: nat)
    requires i < 14
    ensures var r := last % 14;
            (last - 13 + i) % 14 == if i < 13 - r then r + 1 + i else i - (13 - r)
  {
  }

  /** Reading the rolling volume on day `now` (rotate, then sum) gives the volume
      of the counted trades on the 14 days ending with `now`. */
  lemma RollingVolumeIsWindowVolume(log: seq<Trade>, now: nat)
    requires Chronological(log) && Run(log).Done? && now >= 1
    requires LastDay(log) <= now
    ensures Sum(Rotated(Run(log).value, now).volumes) == VolumeBetween(log, now - 13, now + 1)
  {
    RingRefinesLog(log);
    if LastDay(log) == 0 {
      FirstRotation(log, now);
    } else {
      RotationKeepsLog(Run(log).value, log, now);
    }
    SumOfRing(Rotated(Run(log).value, now), log);
  }

  /** Summing without rotating first, as the fee tier lookup does, still counts
      the days that have rolled out since the last trade, and nothing else extra. */
  lemma UnrotatedSumCountsExpiredDays(log: seq<Trade>, now: nat)
    requires Chronological(log) && Run(log).Done?
    requires 1 <= LastDay(log) <= now
    ensures Sum(Run(log).value.volumes)
         == Sum(Rotated(Run(log).value, now).volumes) + VolumeBetween(log, LastDay(log) - 13, now - 13)
  {
    RingRefinesLog(log);
    RollingVolumeIsWindowVolume(log, now);
    SumOfRing(Run(log).value, log);
    var last: int, today: int := LastDay(log), now;
    BetweenSplits(log, last - 13, last + 1, today + 1);
    BetweenSplits(log, last - 13, today - 13, today + 1);
    NothingLater(log, last + 1, today + 1);
  }

  lemma {:induction false} NothingLater(log: seq<Trade>, from: int, to: int)
    requires Chronological(log) && from > LastDay(log)
    ensures VolumeBetween(log, from, to) == 0
  {
    if log != [] {
      LastDayGrows(log);
      NothingLater(log[..|log| - 1], from, to);
    }
  }

  // ------------------------------------------------------------ rotation by days

  /** `k` one-day rotations. */
  function Daily(w: Window, k: nat): (r: Window)
    requires w.Valid() && w.lastDay >= 1
    ensures r.Valid() && r.lastDay == w.lastDay + k
  {
    if k == 0 then w else Rotated(Daily(w, k - 1), w.lastDay + k)
  }

  lemma {:induction false} DailyClears(w: Window, k: nat)
    requires w.Valid() && w.lastDay >= 1
    ensures Daily(w, k) == Window(Cleared(w.volumes, w.lastDay, k), w.lastDay + k)
  {
    if k > 0 {
      DailyClears(w, k - 1);
      var before := Daily(w, k - 1);
      assert Cleared(before.volumes, before.lastDay, 0) == before.volumes;
      assert Cleared(before.volumes, before.lastDay, 1) == before.volumes[(before.lastDay + 1) % DAYS := 0];
    }
  }

  lemma FullTurnClearsAll(volumes: seq<int>, last: nat, k: nat)
    requires |volumes| == DAYS && k >= DAYS
    ensures Cleared(volumes, last, k) == ZEROS
  {
    var r := Cleared(volumes, last, k);
    forall s | 0 <= s < DAYS
      ensures r[s] == 0
    {
      var d := last + k - (last + k - s) % 14;
      assert d % 14 == s by {
        SlotOfDay(last + k, s);
      }
      ClearedAt(volumes, last, k, d);
    }
  }

  lemma SlotOfDay(day: int, slot: int)
    requires 0 <= slot < 14
    ensures (day - (day - slot) % 14) % 14 == slot
  {
    var q := (day - slot) / 14;
    assert day - (day - slot) % 14 == slot + 14 * q;
  }

  /** One rotation over `k` days equals `k` one-day rotations, the wholesale
      reset after 14 or more days included. */
  lemma RotationSplitsByDay(w: Window, k: nat)
    requires w.Valid() && w.lastDay >= 1
    ensures Rotated(w, w.lastDay + k) == Daily(w, k)
  {
    DailyClears(w, k);
    if k >= DAYS {
      FullTurnClearsAll(w.volumes, w.lastDay, k);
    }
  }

  /** Day 0 doubles as the mark of an untouched record: a second trade on it erases
      the first, and so does a trade on any of the next 13 days (`StandsExactly`). */
  lemma DayZeroForgets()
    ensures var log := [Trade(5, 0), Trade(7, 0)];
            Run(log).Done? && Sum(Run(log).value.volumes) == 7 && VolumeBetween(log, 0, 1) == 12
  {
    var log := [Trade(5, 0), Trade(7, 0)];
    assert log[..1] == [Trade(5, 0)] && log[..1][..0] == [];
    var once := ZEROS[0 := 5];
    assert Run(log[..1]) == Done(Window(once, 0));
    var twice := ZEROS[0 := 7];
    assert Run(log) == Done(Window(twice, 0));
    assert twice == [7] + ZEROS[1..];
    SumConcat([7], ZEROS[1..]);
    assert [7][..0] == [];
    SumOfZeros(13);
    assert ZEROS[1..] == seq(13, _ => 0);
  }

  /** Or any later trade before day 14. */
  lemma LaterDayForgets(day: nat)
    requires day <= 13
    ensures var log := [Trade(5, 0), Trade(7, day)];
            NeverBack(log) && Run(log).Done? && !Stands(Run(log).value, log)
  {
    var log := [Trade(5, 0), Trade(7, day)];
    assert log[..1] == [Trade(5, 0)] && log[..1][..0] == [];
    assert Run(log[..1]) == Done(Window(ZEROS[0 := 5], 0));
    assert Rotated(Window(ZEROS[0 := 5], 0), day) == Window(ZEROS, day);
    assert ZEROS[day % DAYS] == 0;
    assert VolumeBetween(log[..1][..0], 0, 1) == 0;
    assert VolumeBetween(log[..1], 0, 1) == 5;
    assert Overtaken(log) == DayVolume(log[..1], 0);
    StandsExactly(log);
  }

  // ----------------------------------------------------------- days that go back

  /** The latest day of a counted trade, 0 before the first. */
  function LatestDay(log: seq<Trade>): nat {
    if log == [] then 0
    else
      var before, t := LatestDay(log[..|log| - 1]), log[|log| - 1];
      if t.size > 0 && t.day > before then t.day else before
  }

  /** In any order of days the record never goes back. */
  lemma {:induction false} RecordNeverGoesBack(log: seq<Trade>)
    requires Run(log).Done?
    ensures Run(log).value.lastDay == LatestDay(log)
  {
    if log != [] {
      RecordNeverGoesBack(log[..|log| - 1]);
    }
  }

  lemma SumOfUpdate(volumes: seq<int>, k: nat, v: int)
    requires k < |volumes|
    ensures Sum(volumes[k := v]) == Sum(volumes) - volumes[k] + v
  {
    var a, b := volumes[..k], volumes[k + 1..];
    assert volumes == a + [volumes[k]] + b && volumes[k := v] == a + [v] + b;
    SumConcat(a + [volumes[k]], b);
    SumConcat(a, [volumes[k]]);
    SumConcat(a + [v], b);
    SumConcat(a, [v]);
    assert [volumes[k]][..0] == [] && [v][..0] == [];
  }

  /** A trade dated before the record's day counts in full and clears nothing: the sum
      grows by its size and every slot but its own is as it was. */
  lemma BackdatedTradeCounts(log: seq<Trade>, t: Trade, w: Window)
    requires Run(log) == Done(w) && t.size > 0 && 1 <= t.day <= w.lastDay
    requires InI128(w.volumes[t.day % 14] + t.size)
    ensures Run(log + [t]).Done?
    ensures var r := Run(log + [t]).value;
            && r.lastDay == w.lastDay && |r.volumes| == 14
            && Sum(r.volumes) == Sum(w.volumes) + t.size
            && forall k :: 0 <= k < 14 && k != t.day % 14 ==> r.volumes[k] == w.volumes[k]
  {
    assert (log + [t])[..|log|] == log;
    SumOfUpdate(w.volumes, t.day % 14, w.volumes[t.day % 14] + t.size);
  }

  lemma {:induction false} SumOfZeros(n: nat)
    ensures Sum(seq(n, _ => 0)) == 0
  {
    if n > 0 {
      SumOfZeros(n - 1);
      assert seq(n, _ => 0)[..n - 1] == seq(n - 1, _ => 0);
    }
  }
}
