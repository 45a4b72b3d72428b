/**
 The referral registry over time: what a pause holds back, what a binding is, and
 where a referrer's totals come from.
 */
module ReferralRuns {
  import opened Types
  import opened Referral

  function RunFrom(s: Registry, ops: seq<Op>): Registry {
    if ops == [] then s else Apply(RunFrom(s, ops[..|ops| - 1]), ops[|ops| - 1])
  }

  // ------------------------------------------------------------------------ pause

  /** Nobody resumes the registry. */
  predicate StaysPaused(ops: seq<Op>) {
    forall i :: 0 <= i < |ops| ==> ops[i] != Pause(false)
  }

  /** No code, row or binding is new, and no total or claim has risen. */
  predicate NothingAdded(s: Registry, t: Registry) {
    && t.codes == s.codes
    && t.infos.Keys == s.infos.Keys
    && (forall r :: r in s.infos ==> RowOnlyClaimed(s.infos[r], t.infos[r]))
    && (forall e :: e in t.refereeOf ==> e in s.refereeOf && t.refereeOf[e] == s.refereeOf[e])
    && t.balance <= s.balance
  }

  predicate RowOnlyClaimed(before: Info, after: Info) {
    after.claimable <= before.claimable && before == after.(claimable := before.claimable)
  }

  /** A paused registry answers every trade with nothing and writes nothing. */
  lemma PausedTrade(s: Registry, referee: Address, fee: int, volume: int, split: Split)
    requires s.initialized && s.paused
    ensures TradeRecorded(s, referee, fee, volume) == (s, Ok((0, 0)))
    ensures FundedTrade(s, referee, fee, volume, split) == (s, Ok((0, 0)))
  {
  }

  lemma PausedStep(s: Registry, op: Op)
    requires s.initialized && s.paused && op != Pause(false)
    ensures var t := Apply(s, op); t.initialized && t.paused && NothingAdded(s, t)
  {
    match op {
      case Trade(referee, fee, volume, split) => PausedTrade(s, referee, fee, volume, split);
      case Mint(referrer, code, volume, now) => assert Apply(s, op) == s;
      case Bind(referee, code) => assert Apply(s, op) == s;
      case Withdraw(referrer) =>
      case Release(referee) =>
      case _ => TuningKeepsPause(s, op);
    }
  }

  lemma TuningKeepsPause(s: Registry, op: Op)
    requires s.initialized && s.paused && Tunes(op) && op != Pause(false)
    ensures var t := Apply(s, op);
            && t.initialized && t.paused
            && t.codes == s.codes && t.infos == s.infos && t.refereeOf == s.refereeOf && t.balance == s.balance
  {
    match op {
      case Init => assert Apply(s, op) == s;
      case Revoke(code, flag) => assert Apply(s, op) == RevocationSet(s, code, flag).0;
      case Pause(flag) => assert Apply(s, op) == PausedSet(s, flag).0;
      case TuneBps(bps, share) => assert Apply(s, op) == BpsSet(s, bps, share).0;
      case TuneMinVolume(volume) => assert Apply(s, op) == MinVolumeSet(s, volume).0;
    }
  }

  lemma NothingAddedChains(s: Registry, t: Registry, u: Registry)
    requires NothingAdded(s, t) && NothingAdded(t, u)
    ensures NothingAdded(s, u)
  {
    forall r | r in s.infos
      ensures RowOnlyClaimed(s.infos[r], u.infos[r])
    {
      assert RowOnlyClaimed(s.infos[r], t.infos[r]) && RowOnlyClaimed(t.infos[r], u.infos[r]);
    }
  }

  /** Over any stretch of a run that starts paused and is not resumed, no code, row or
      binding appears, no referrer's totals or claim rise, and every trade in it is
      answered with nothing. */
  lemma {:induction false} PauseHoldsBack(s: Registry, ops: seq<Op>)
    requires s.initialized && s.paused && StaysPaused(ops)
    ensures var t := RunFrom(s, ops);
            && t.initialized && t.paused && NothingAdded(s, t)
            && forall referee, fee, volume :: TradeRecorded(t, referee, fee, volume) == (t, Ok((0, 0)))
  {
    if ops != [] {
      var init, last := ops[..|ops| - 1], ops[|ops| - 1];
      PauseHoldsBack(s, init);
      PausedStep(RunFrom(s, init), last);
      NothingAddedChains(s, RunFrom(s, init), RunFrom(s, ops));
    }
  }

  /** Exits do not notice a pause: claims, releases and revocations do and answer what
      they would without it. */
  lemma ExitsIgnorePause(s: Registry, paused: bool, who: Address, code: Code, flag: bool)
    ensures var q := s.(paused := paused);
            && Claimed(q, who) == (Claimed(s, who).0.(paused := paused), Claimed(s, who).1)
            && Unbound(q, who) == (Unbound(s, who).0.(paused := paused), Unbound(s, who).1)
            && RevocationSet(q, code, flag) == (RevocationSet(s, code, flag).0.(paused := paused), RevocationSet(s, code, flag).1)
  {
  }

  /** And a resumed registry is the one that was paused. */
  lemma ResumeRestores(s: Registry)
    requires s.initialized && !s.paused
    ensures PausedSet(s, true).0.paused && PausedSet(PausedSet(s, true).0, false).0 == s
  {
  }

  // --------------------------------------------------------------------- bindings

  predicate NeverReleases(ops: seq<Op>, referee: Address) {
    forall i :: 0 <= i < |ops| ==> ops[i] != Release(referee)
  }

  lemma StepKeepsBinding(s: Registry, op: Op, referee: Address)
    requires referee in s.refereeOf && op != Release(referee)
    ensures var t := Apply(s, op); referee in t.refereeOf && t.refereeOf[referee] == s.refereeOf[referee]
  {
    match op {
      case Trade(who, fee, volume, split) => assert TradeRecorded(s, who, fee, volume).0.refereeOf == s.refereeOf;
      case Mint(referrer, code, volume, now) =>
      case Bind(who, code) =>
      case Withdraw(referrer) =>
      case Release(who) =>
      case Init =>
      case Revoke(code, flag) =>
      case Pause(flag) =>
      case TuneBps(bps, share) =>
      case TuneMinVolume(volume) =>
    }
  }

  /** A binding is permanent: only the admin's release of that referee undoes it. */
  lemma {:induction false} BindingIsPermanent(s: Registry, ops: seq<Op>, referee: Address)
    requires referee in s.refereeOf && NeverReleases(ops, referee)
    ensures var t := RunFrom(s, ops); referee in t.refereeOf && t.refereeOf[referee] == s.refereeOf[referee]
  {
    if ops != [] {
      BindingIsPermanent(s, ops[..|ops| - 1], referee);
      StepKeepsBinding(RunFrom(s, ops[..|ops| - 1]), ops[|ops| - 1], referee);
    }
  }

  /** A step binds a referee exactly when it is a bind with a known code of somebody
      else that is not revoked, on an open registry, the referee was free and the count
      of a 32-bit word is not full. */
  lemma BindsExactly(ops: seq<Op>, referee: Address, code: Code)
    ensures var s := Run(ops);
            var t := Apply(s, Bind(referee, code));
            var binds := s.initialized && !s.paused && referee !in s.refereeOf
                         && code in s.codes && s.codes[code] != referee && s.codes[code] !in s.revoked
                         && s.codes[code] in s.infos && s.infos[s.codes[code]].referredCount < 0xFFFF_FFFF;
            && (ReferrerSet(s, referee, code).1.Ok? <==> binds)
            && (binds ==> referee in t.refereeOf && t.refereeOf[referee] == s.codes[code])
            && (!binds ==> t == s)
  {
  }

  // ------------------------------------------------------------------ codes minted

  /** Every minted code has between 3 and 16 characters. */
  predicate CodesSized(s: Registry) {
    forall c :: c in s.codes ==> 3 <= |c| <= 16
  }

  lemma StepKeepsSizes(s: Registry, op: Op)
    requires CodesSized(s)
    ensures CodesSized(Apply(s, op))
  {
    if op.Trade? {
      assert Apply(s, op).codes == s.codes;
    }
  }

  lemma {:induction false} CodesAlwaysSized(ops: seq<Op>)
    ensures CodesSized(Run(ops))
  {
    if ops != [] {
      CodesAlwaysSized(ops[..|ops| - 1]);
      StepKeepsSizes(Run(ops[..|ops| - 1]), ops[|ops| - 1]);
    }
  }

  /** Minting succeeds exactly for a newcomer with a free code of that length who has
      traded the required volume, an unreadable volume counting as none; the new row
      starts empty and nobody else's changes. */
  lemma MintsExactly(s: Registry, referrer: Address, code: Code, volumeAtMarket: int, now: nat)
    requires s.initialized && !s.paused
    ensures var (t, r) := CodeCreated(s, referrer, code, volumeAtMarket, now);
            && (r.Ok? <==>
                  && (s.minCodeVolume <= 0 || volumeAtMarket >= s.minCodeVolume)
                  && 3 <= |code| <= 16
                  && code !in s.codes && referrer !in s.infos)
            && (r.Ok? ==>
                  && code in t.codes && t.codes[code] == referrer && t.codes - {code} == s.codes
                  && referrer in t.infos && t.infos - {referrer} == s.infos
                  && t.infos[referrer] == Info(code, referrer, now, 0, 0, 0, 0))
            && (r.Err? ==> t == s)
  {
    if CodeCreated(s, referrer, code, volumeAtMarket, now).1.Ok? {
      var t := CodeCreated(s, referrer, code, volumeAtMarket, now).0;
      assert t.codes - {code} == s.codes;
      assert t.infos - {referrer} == s.infos;
    }
  }

  // ----------------------------------------------------------------------- totals

  /** The trade of this step accrues to `r`. */
  predicate AccruesTo(s: Registry, op: Op, r: Address) {
    && op.Trade? && s.initialized && !s.paused && op.fee > 0
    && op.referee in s.refereeOf && s.refereeOf[op.referee] == r && r !in s.revoked
    && TradeRecorded(s, op.referee, op.fee, op.volume).1.Ok?
  }

  /** Shares of the fees of all trades that accrued to `r`, each rounded down. */
  function EarnedBy(ops: seq<Op>, r: Address): int {
    if ops == [] then 0
    else
      var s, op := Run(ops[..|ops| - 1]), ops[|ops| - 1];
      EarnedBy(ops[..|ops| - 1], r) + if AccruesTo(s, op, r) then op.fee * s.shareBps / 10_000 else 0
  }

  /** Their volume. */
  function VolumeBy(ops: seq<Op>, r: Address): int {
    if ops == [] then 0
    else
      var s, op := Run(ops[..|ops| - 1]), ops[|ops| - 1];
      VolumeBy(ops[..|ops| - 1], r) + if AccruesTo(s, op, r) && op.volume > 0 then op.volume else 0
  }

  function EarnedIn(infos: map<Address, Info>, r: Address): int {
    if r in infos then infos[r].totalEarned else 0
  }

  function VolumeIn(infos: map<Address, Info>, r: Address): int {
    if r in infos then infos[r].totalVolume else 0
  }

  lemma StepAddsShare(s: Registry, op: Op, r: Address)
    ensures EarnedIn(Apply(s, op).infos, r) == EarnedIn(s.infos, r) + if AccruesTo(s, op, r) then op.fee * s.shareBps / 10_000 else 0
    ensures VolumeIn(Apply(s, op).infos, r) == VolumeIn(s.infos, r) + if AccruesTo(s, op, r) && op.volume > 0 then op.volume else 0
  {
    match op {
      case Trade(referee, fee, volume, split) => TradeAddsShare(s, op, r);
      case Mint(referrer, code, volume, now) =>
      case Bind(referee, code) =>
      case Withdraw(referrer) =>
      case Release(referee) =>
      case _ => TuningAddsNothing(s, op);
    }
  }

  lemma TuningAddsNothing(s: Registry, op: Op)
    requires Tunes(op)
    ensures Apply(s, op).infos == s.infos
  {
    match op {
      case Init => assert Apply(s, op) == SetUp(s).0;
      case Revoke(code, flag) => assert Apply(s, op) == RevocationSet(s, code, flag).0;
      case Pause(flag) => assert Apply(s, op) == PausedSet(s, flag).0;
      case TuneBps(bps, share) => assert Apply(s, op) == BpsSet(s, bps, share).0;
      case TuneMinVolume(volume) => assert Apply(s, op) == MinVolumeSet(s, volume).0;
    }
  }

  lemma TradeAddsShare(s: Registry, op: Op, r: Address)
    requires op.Trade?
    ensures EarnedIn(Apply(s, op).infos, r) == EarnedIn(s.infos, r) + if AccruesTo(s, op, r) then op.fee * s.shareBps / 10_000 else 0
    ensures VolumeIn(Apply(s, op).infos, r) == VolumeIn(s.infos, r) + if AccruesTo(s, op, r) && op.volume > 0 then op.volume else 0
  {
    assert Apply(s, op).infos == TradeRecorded(s, op.referee, op.fee, op.volume).0.infos;
  }

  /** A referrer's totals are what accrued, no more and no less: over every run the
      earnings are the rounded-down shares of the fees, and the volume the volume, of
      the trades of bound referees while open and not revoked. */
  lemma {:induction false} TotalsAreWhatAccrued(ops: seq<Op>, r: Address)
    ensures EarnedIn(Run(ops).infos, r) == EarnedBy(ops, r)
    ensures VolumeIn(Run(ops).infos, r) == VolumeBy(ops, r)
  {
    if ops != [] {
      TotalsAreWhatAccrued(ops[..|ops| - 1], r);
      StepAddsShare(Run(ops[..|ops| - 1]), ops[|ops| - 1], r);
    }
  }

  /** The step binds a referee to `r`. */
  predicate BindsTo(s: Registry, op: Op, r: Address) {
    op.Bind? && ReferrerSet(s, op.referee, op.code).1.Ok? && s.codes[op.code] == r
  }

  /** How often somebody was bound to `r`. */
  function BindsBy(ops: seq<Op>, r: Address): nat {
    if ops == [] then 0
    else BindsBy(ops[..|ops| - 1], r) + if BindsTo(Run(ops[..|ops| - 1]), ops[|ops| - 1], r) then 1 else 0
  }

  function CountIn(infos: map<Address, Info>, r: Address): nat {
    if r in infos then infos[r].referredCount else 0
  }

  lemma StepCountsBind(s: Registry, op: Op, r: Address)
    ensures CountIn(Apply(s, op).infos, r) == CountIn(s.infos, r) + if BindsTo(s, op, r) then 1 else 0
  {
    match op {
      case Trade(referee, fee, volume, split) => assert Apply(s, op).infos == TradeRecorded(s, referee, fee, volume).0.infos;
      case Mint(referrer, code, volume, now) =>
      case Bind(referee, code) =>
      case Withdraw(referrer) =>
      case Release(referee) =>
      case _ => TuningAddsNothing(s, op);
    }
  }

  /** The referred count counts every bind, released or not. */
  lemma {:induction false} CountIsBinds(ops: seq<Op>, r: Address)
    ensures CountIn(Run(ops).infos, r) == BindsBy(ops, r)
  {
    if ops != [] {
      CountIsBinds(ops[..|ops| - 1], r);
      StepCountsBind(Run(ops[..|ops| - 1]), ops[|ops| - 1], r);
    }
  }

  /** A release frees that referee and touches nobody else. */
  lemma ReleaseFrees(s: Registry, referee: Address)
    requires s.initialized
    ensures var t := Apply(s, Release(referee));
            && referee !in t.refereeOf
            && (forall e :: e != referee ==> (e in t.refereeOf <==> e in s.refereeOf))
            && (forall e :: e != referee && e in t.refereeOf ==> t.refereeOf[e] == s.refereeOf[e])
            && t.infos == s.infos && t.codes == s.codes
  {
  }

  // ------------------------------------------------------------------------- dials

  /** The rates last set within the cap, the defaults before that. */
  function LastBps(ops: seq<Op>, share: bool): nat {
    if ops == [] then 0
    else
      var op, s := ops[|ops| - 1], Run(ops[..|ops| - 1]);
      if op == Init && !s.initialized then if share then 1_000 else 400
      else if op.TuneBps? && op.share == share && s.initialized && op.bps <= 5_000 then op.bps
      else LastBps(ops[..|ops| - 1], share)
  }

  lemma StepSetsBps(s: Registry, op: Op)
    ensures var t := Apply(s, op);
            && t.discountBps == (if op == Init && !s.initialized then 400
                                 else if op.TuneBps? && !op.share && s.initialized && op.bps <= 5_000 then op.bps else s.discountBps)
            && t.shareBps == (if op == Init && !s.initialized then 1_000
                              else if op.TuneBps? && op.share && s.initialized && op.bps <= 5_000 then op.bps else s.shareBps)
  {
    match op {
      case Trade(referee, fee, volume, split) => SameRates(s, referee, fee, volume, split);
      case Init => assert Apply(s, op) == SetUp(s).0;
      case Revoke(code, flag) => assert Apply(s, op) == RevocationSet(s, code, flag).0;
      case Pause(flag) => assert Apply(s, op) == PausedSet(s, flag).0;
      case TuneBps(bps, share) => assert Apply(s, op) == BpsSet(s, bps, share).0;
      case TuneMinVolume(volume) => assert Apply(s, op) == MinVolumeSet(s, volume).0;
      case _ =>
    }
  }

  lemma SameRates(s: Registry, referee: Address, fee: int, volume: int, split: Split)
    ensures var t := FundedTrade(s, referee, fee, volume, split).0; t.discountBps == s.discountBps && t.shareBps == s.shareBps
  {
  }

  /** In every run the rates in force are those last set within the cap of 50%. */
  lemma {:induction false} RatesAreLastSet(ops: seq<Op>)
    ensures Run(ops).discountBps == LastBps(ops, false) && Run(ops).shareBps == LastBps(ops, true)
  {
    if ops != [] {
      RatesAreLastSet(ops[..|ops| - 1]);
      StepSetsBps(Run(ops[..|ops| - 1]), ops[|ops| - 1]);
    }
  }

  /** The volume floor: the default of 10,000 until the admin sets a non-negative one. */
  lemma FloorIsSet(s: Registry, volume: int)
    ensures !s.initialized ==> Apply(s, Init).minCodeVolume == 10_000 * 10_000_000 && Apply(s, TuneMinVolume(volume)) == s
    ensures s.initialized ==> Apply(s, Init) == s
    ensures s.initialized ==> Apply(s, TuneMinVolume(volume)) == if volume >= 0 then s.(minCodeVolume := volume) else s
  {
  }

  // --------------------------------------------------------------- flags last set

  /** Whether the last revocation call about a code of `r` revoked. */
  predicate LastRevoked(ops: seq<Op>, r: Address) {
    ops != [] &&
      var op, s := ops[|ops| - 1], Run(ops[..|ops| - 1]);
      if op.Revoke? && s.initialized && op.code in s.codes && s.codes[op.code] == r then op.flag
      else LastRevoked(ops[..|ops| - 1], r)
  }

  /** Whether the last pause call on an initialised registry paused. */
  predicate LastPaused(ops: seq<Op>) {
    ops != [] &&
      var op := ops[|ops| - 1];
      if op.Pause? && Run(ops[..|ops| - 1]).initialized then op.flag else LastPaused(ops[..|ops| - 1])
  }

  lemma StepSetsFlags(s: Registry, op: Op, r: Address)
    ensures var t := Apply(s, op);
            && (r in t.revoked <==>
                  if op.Revoke? && s.initialized && op.code in s.codes && s.codes[op.code] == r then op.flag else r in s.revoked)
            && t.paused == if op.Pause? && s.initialized then op.flag else s.paused
  {
    match op {
      case Trade(referee, fee, volume, split) => SameFlags(s, referee, fee, volume, split);
      case Init => assert Apply(s, op) == SetUp(s).0;
      case Revoke(code, flag) => assert Apply(s, op) == RevocationSet(s, code, flag).0;
      case Pause(flag) => assert Apply(s, op) == PausedSet(s, flag).0;
      case TuneBps(bps, share) => assert Apply(s, op) == BpsSet(s, bps, share).0;
      case TuneMinVolume(volume) => assert Apply(s, op) == MinVolumeSet(s, volume).0;
      case _ =>
    }
  }

  lemma SameFlags(s: Registry, referee: Address, fee: int, volume: int, split: Split)
    ensures var t := FundedTrade(s, referee, fee, volume, split).0; t.revoked == s.revoked && t.paused == s.paused
  {
  }

  /** In every run exactly those are revoked, and the registry is paused exactly if, the
      last call about it said so. */
  lemma {:induction false} FlagsAreLastSet(ops: seq<Op>, r: Address)
    ensures r in Run(ops).revoked <==> LastRevoked(ops, r)
    ensures Run(ops).paused <==> LastPaused(ops)
  {
    if ops != [] {
      FlagsAreLastSet(ops[..|ops| - 1], r);
      StepSetsFlags(Run(ops[..|ops| - 1]), ops[|ops| - 1], r);
    }
  }

  // ---------------------------------------------------------- before the first call

  predicate Began(ops: seq<Op>) {
    exists i :: 0 <= i < |ops| && ops[i] == Init
  }

  lemma NothingBeforeInit(s: Registry, op: Op)
    requires !s.initialized && op != Init
    ensures Apply(s, op) == s
  {
  }

  /** Until somebody initialises the registry nothing any call does is kept. */
  lemma {:induction false} OnlyInitBegins(ops: seq<Op>)
    ensures Run(ops).initialized == Began(ops)
    ensures !Began(ops) ==> Run(ops) == EMPTY
  {
    if ops != [] {
      var init, s, op := ops[..|ops| - 1], Run(ops[..|ops| - 1]), ops[|ops| - 1];
      OnlyInitBegins(init);
      assert forall i :: 0 <= i < |init| ==> init[i] == ops[i];
      if !s.initialized && op != Init {
        NothingBeforeInit(s, op);
      } else if s.initialized {
        StaysInitialized(s, op);
      }
    }
  }

  lemma StaysInitialized(s: Registry, op: Op)
    requires s.initialized
    ensures Apply(s, op).initialized
  {
  }

  // ----------------------------------------------------------------------- errors

  /** What each error says is so. */
  predicate Says(e: Error, s: Registry, who: Address, code: Code) {
    match e
    case AlreadyInitialized => s.initialized
    case NotInitialized => !s.initialized
    case RegistryPaused => s.paused
    case CodeTooShort => |code| < 3
    case CodeTooLong => |code| > 16
    case CodeAlreadyTaken => code in s.codes
    case AlreadyHasCode => who in s.infos
    case UnknownCode => code !in s.codes
    case AlreadyHasReferrer => who in s.refereeOf
    case SelfReferral => code in s.codes && s.codes[code] == who
    case RevokedCode => code in s.codes && s.codes[code] in s.revoked
    case Overflow => code in s.codes && s.codes[code] in s.infos && s.infos[s.codes[code]].referredCount >= 0xFFFF_FFFF
    case _ => false
  }

  /** A refused mint or bind names a condition that holds. */
  lemma CodeErrorsAreTrue(s: Registry, who: Address, code: Code, volumeAtMarket: int, now: nat)
    requires CodesMatch(s.codes, s.infos)
    ensures var r := CodeCreated(s, who, code, volumeAtMarket, now).1;
            r.Err? ==> if r.error == InsufficientVolume then volumeAtMarket < s.minCodeVolume && s.minCodeVolume > 0
                       else Says(r.error, s, who, code)
    ensures var r := ReferrerSet(s, who, code).1;
            r.Err? ==> Says(r.error, s, who, code)
  {
  }

  /** A claim fails for want of a row, of anything to claim or of funds, and says which;
      an admin call for want of its own condition. */
  lemma ClaimErrorsAreTrue(s: Registry, who: Address)
    requires s.initialized
    ensures match Claimed(s, who).1
            case Ok(paid) => who in s.infos && paid == s.infos[who].claimable && 0 < paid <= s.balance
            case Err(UnknownCode) => who !in s.infos
            case Err(NothingToClaim) => who in s.infos && s.infos[who].claimable <= 0
            case Err(ClaimUnfunded) => who in s.infos && s.infos[who].claimable > s.balance
            case Err(_) => false
  {
  }

  /** In every run a trade that is due to accrue fails exactly when one of its products or
      the referrer's new volume or total leaves the 128-bit range; nothing is written then. */
  lemma TradeOverflowsExactly(ops: seq<Op>, referee: Address, fee: int, volume: int)
    requires var s := Run(ops);
             && s.initialized && !s.paused && fee > 0
             && referee in s.refereeOf && s.refereeOf[referee] !in s.revoked
    ensures var s := Run(ops);
            var max := 170141183460469231731687303715884105727;
            var (t, r) := TradeRecorded(s, referee, fee, volume);
            && s.refereeOf[referee] in s.infos
            && var info := s.infos[s.refereeOf[referee]];
               && (r.Err? <==>
                     || fee * s.discountBps > max || fee * s.shareBps > max
                     || info.totalVolume + (if volume > 0 then volume else 0) > max
                     || info.totalEarned + fee * s.shareBps / 10_000 > max)
               && (r.Err? ==> t == s && r.error == Overflow)
  {
    LedgerHoldsInEveryRun(ops);
    var s := Run(ops);
    assert RowSound(s.infos[s.refereeOf[referee]], s.refereeOf[referee], PaidIn(s.paid, s.refereeOf[referee]));
  }
}
