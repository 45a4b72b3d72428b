/**
 The referral registry: code ownership, bindings, accrual and funded claims.
 */
module Referral {
  import opened Wrappers
  import opened Types
  import Fixed

  const MAX_BPS: nat := 5_000
  const BPS: int := 10_000
  const CODE_MIN_LEN: nat := 3
  const CODE_MAX_LEN: nat := 16
  const DEFAULT_DISCOUNT_BPS: nat := 400
  const DEFAULT_REFERRER_SHARE_BPS: nat := 1_000
  const DEFAULT_MIN_CODE_VOLUME: int := 100_000_000_000
  const U32_MAX: int := 0xFFFF_FFFF

  type Code = string

  datatype Error =
    | AlreadyInitialized | NotInitialized | InvalidParameter | CodeTooShort | CodeTooLong | CodeAlreadyTaken
    | AlreadyHasCode | UnknownCode | AlreadyHasReferrer | SelfReferral | InsufficientVolume | NothingToClaim
    | Overflow | ClaimUnfunded | RegistryPaused | RevokedCode

  datatype Result<+T> = Ok(value: T) | Err(error: Error)

  datatype Info = Info(
    code: Code,
    referrer: Address,
    createdAt: nat,
    referredCount: nat,
    totalVolume: int,
    totalEarned: int,
    claimable: int)

  /** The contract's storage, its own USDC balance, and what the token has recorded
      as paid out to each address. */
  datatype Registry = Registry(
    initialized: bool,
    paused: bool,
    discountBps: nat,
    shareBps: nat,
    minCodeVolume: int,
    codes: map<Code, Address>,
    infos: map<Address, Info>,
    refereeOf: map<Address, Address>,
    revoked: set<Address>,
    balance: int,
    paid: map<Address, int>)
  {
    function PaidTo(a: Address): int {
      PaidIn(paid, a)
    }
  }

  const EMPTY := Registry(false, false, 0, 0, 0, map[], map[], map[], {}, 0, map[])

  // ------------------------------------------------------------------ operations

  function SetUp(s: Registry): (Registry, Result<()>) {
    if s.initialized then (s, Err(AlreadyInitialized))
    else
      (s.(initialized := true,
          discountBps := DEFAULT_DISCOUNT_BPS,
          shareBps := DEFAULT_REFERRER_SHARE_BPS,
          minCodeVolume := DEFAULT_MIN_CODE_VOLUME), Ok(()))
  }

  function CodeCreated(s: Registry, referrer: Address, code: Code, volumeAtMarket: int, now: nat): (Registry, Result<()>) {
    if !s.initialized then (s, Err(NotInitialized))
    else if s.paused then (s, Err(RegistryPaused))
    else if s.minCodeVolume > 0 && (if volumeAtMarket > 0 then volumeAtMarket else 0) < s.minCodeVolume then
      (s, Err(InsufficientVolume))
    else if |code| < CODE_MIN_LEN then (s, Err(CodeTooShort))
    else if |code| > CODE_MAX_LEN then (s, Err(CodeTooLong))
    else if code in s.codes then (s, Err(CodeAlreadyTaken))
    else if referrer in s.infos then (s, Err(AlreadyHasCode))
    else
      (s.(infos := s.infos[referrer := Info(code, referrer, now, 0, 0, 0, 0)],
          codes := s.codes[code := referrer]), Ok(()))
  }

  function OneMore(info: Info): Info {
    info.(referredCount := info.referredCount + 1)
  }

  /** The state with a new binding and its count. */
  function WithBinding(s: Registry, referee: Address, referrer: Address): Registry
    requires referrer in s.infos
  {
    s.(refereeOf := s.refereeOf[referee := referrer],
       infos := s.infos[referrer := OneMore(s.infos[referrer])])
  }

  function ReferrerSet(s: Registry, referee: Address, code: Code): (Registry, Result<()>) {
    if !s.initialized then (s, Err(NotInitialized))
    else if s.paused then (s, Err(RegistryPaused))
    else if referee in s.refereeOf then (s, Err(AlreadyHasReferrer))
    else if code !in s.codes then (s, Err(UnknownCode))
    else
      var referrer := s.codes[code];
      if referrer == referee then (s, Err(SelfReferral))
      else if referrer in s.revoked then (s, Err(RevokedCode))
      else if referrer !in s.infos then (s, Err(UnknownCode))
      else
        var info := s.infos[referrer];
        if info.referredCount + 1 > U32_MAX then (s, Err(Overflow))
        else (WithBinding(s, referee, referrer), Ok(()))
  }

  /** A share of a positive fee, rounded down. */
  function ShareOf(fee: int, bps: nat): int {
    fee * bps / BPS
  }

  /** Discount and payout of one trade, accrued to the referrer. */
  function TradeRecorded(s: Registry, referee: Address, fee: int, volume: int): (Registry, Result<(int, int)>) {
    if !s.initialized then (s, Err(NotInitialized))
    else if fee <= 0 || s.paused || referee !in s.refereeOf then (s, Ok((0, 0)))
    else
      var referrer := s.refereeOf[referee];
      if referrer in s.revoked then (s, Ok((0, 0)))
      else if fee * s.discountBps > Fixed.I128_MAX || fee * s.shareBps > Fixed.I128_MAX then (s, Err(Overflow))
      else if referrer !in s.infos then (s, Err(UnknownCode))
      else
        var info := s.infos[referrer];
        var payout := ShareOf(fee, s.shareBps);
        var counted := if volume > 0 then volume else 0;
        if info.totalVolume + counted > Fixed.I128_MAX || info.totalEarned + payout > Fixed.I128_MAX
           || info.claimable + payout > Fixed.I128_MAX then (s, Err(Overflow))
        else
          (s.(infos := s.infos[referrer := info.(
             totalVolume := info.totalVolume + counted,
             totalEarned := info.totalEarned + payout,
             claimable := info.claimable + payout)]), Ok((ShareOf(fee, s.discountBps), payout)))
  }

  /** What the market forwards for a payout: no more than its own cut of the fee. */
  function PotOf(payout: int, cut: int): int {
    var pot := if payout < cut then payout else cut;
    if pot < 0 then 0 else pot
  }

  /** The market's fee split: until a treasury is set there is none. */
  datatype Split = NoTreasury | Treasury(protocolBps: nat)

  /** The market's cut of what the discount leaves of a fee. */
  function CutOf(net: int, split: Split): int {
    match split
    case NoTreasury => 0
    case Treasury(protocolBps) => net * protocolBps / BPS
  }

  /** The market's side of a trade: record it and transfer the pot in, in one
      transaction. A failing record leaves everything as it was. */
  function FundedTrade(s: Registry, referee: Address, fee: int, volume: int, split: Split): (Registry, Result<(int, int)>) {
    var (t, r) := TradeRecorded(s, referee, fee, volume);
    match r
    case Ok((discount, payout)) => (t.(balance := t.balance + PotOf(payout, CutOf(fee - discount, split))), r)
    case Err(_) => (s, r)
  }

  function Claimed(s: Registry, referrer: Address): (Registry, Result<int>) {
    if !s.initialized then (s, Err(NotInitialized))
    else if referrer !in s.infos then (s, Err(UnknownCode))
    else
      var info := s.infos[referrer];
      if info.claimable <= 0 then (s, Err(NothingToClaim))
      else if s.balance < info.claimable then (s, Err(ClaimUnfunded))
      else
        (s.(balance := s.balance - info.claimable,
            paid := s.paid[referrer := s.PaidTo(referrer) + info.claimable],
            infos := s.infos[referrer := info.(claimable := 0)]), Ok(info.claimable))
  }

  function RevocationSet(s: Registry, code: Code, revoked: bool): (Registry, Result<()>) {
    if !s.initialized then (s, Err(NotInitialized))
    else if code !in s.codes then (s, Err(UnknownCode))
    else
      (s.(revoked := if revoked then s.revoked + {s.codes[code]} else s.revoked - {s.codes[code]}), Ok(()))
  }

  function Unbound(s: Registry, referee: Address): (Registry, Result<()>) {
    if !s.initialized then (s, Err(NotInitialized)) else (s.(refereeOf := s.refereeOf - {referee}), Ok(()))
  }

  function PausedSet(s: Registry, paused: bool): (Registry, Result<()>) {
    if !s.initialized then (s, Err(NotInitialized)) else (s.(paused := paused), Ok(()))
  }

  function BpsSet(s: Registry, bps: nat, share: bool): (Registry, Result<()>) {
    if !s.initialized then (s, Err(NotInitialized))
    else if bps > MAX_BPS then (s, Err(InvalidParameter))
    else if share then (s.(shareBps := bps), Ok(()))
    else (s.(discountBps := bps), Ok(()))
  }

  function MinVolumeSet(s: Registry, volume: int): (Registry, Result<()>) {
    if !s.initialized then (s, Err(NotInitialized))
    else if volume < 0 then (s, Err(InvalidParameter))
    else (s.(minCodeVolume := volume), Ok(()))
  }

  // ------------------------------------------------------------ the stored object

  /** The deployed registry. A call that answers an error is rolled back. */
  class ReferralContract {
    var initialized: bool
    var paused: bool
    var discountBps: nat
    var shareBps: nat
    var minCodeVolume: int
    var codes: map<Code, Address>
    var infos: map<Address, Info>
    var refereeOf: map<Address, Address>
    var revoked: set<Address>
    var balance: int
    var paid: map<Address, int>

    constructor ()
      ensures State() == EMPTY
    {
      initialized, paused, discountBps, shareBps, minCodeVolume := false, false, 0, 0, 0;
      codes, infos, refereeOf, revoked, balance, paid := map[], map[], map[], {}, 0, map[];
    }

    function State(): Registry
      reads this
    {
      Registry(initialized, paused, discountBps, shareBps, minCodeVolume, codes, infos, refereeOf, revoked, balance, paid)
    }

    method CreateCode(referrer: Address, code: Code, volumeAtMarket: int, now: nat) returns (r: Result<()>)
      modifies this
      ensures (State(), r) == CodeCreated(old(State()), referrer, code, volumeAtMarket, now)
    {
      if !initialized { return Err(NotInitialized); }
      if paused { return Err(RegistryPaused); }
      if minCodeVolume > 0 {
        var volume := if volumeAtMarket > 0 then volumeAtMarket else 0;
        if volume < minCodeVolume { return Err(InsufficientVolume); }
      }
      if |code| < CODE_MIN_LEN { return Err(CodeTooShort); }
      if |code| > CODE_MAX_LEN { return Err(CodeTooLong); }
      if code in codes { return Err(CodeAlreadyTaken); }
      if referrer in infos { return Err(AlreadyHasCode); }
      infos := infos[referrer := Info(code, referrer, now, 0, 0, 0, 0)];
      codes := codes[code := referrer];
      return Ok(());
    }

    method SetReferrer(referee: Address, code: Code) returns (r: Result<()>)
      modifies this
      ensures (State(), r) == ReferrerSet(old(State()), referee, code)
    {
      if !initialized { return Err(NotInitialized); }
      if paused { return Err(RegistryPaused); }
      if referee in refereeOf { return Err(AlreadyHasReferrer); }
      if code !in codes { return Err(UnknownCode); }
      var referrer := codes[code];
      if referrer == referee { return Err(SelfReferral); }
      if referrer in revoked { return Err(RevokedCode); }
      var saved := refereeOf;
      refereeOf := refereeOf[referee := referrer];
      if referrer !in infos {
        refereeOf := saved;
        return Err(UnknownCode);
      }
      var info := infos[referrer];
      if info.referredCount + 1 > U32_MAX {
        refereeOf := saved;
        return Err(Overflow);
      }
      infos := infos[referrer := info.(referredCount := info.referredCount + 1)];
      return Ok(());
    }

    method RecordTrade(referee: Address, fee: int, volume: int) returns (r: Result<(int, int)>)
      modifies this
      ensures (State(), r) == TradeRecorded(old(State()), referee, fee, volume)
    {
      if !initialized { return Err(NotInitialized); }
      if fee <= 0 || paused { return Ok((0, 0)); }
      if referee !in refereeOf { return Ok((0, 0)); }
      var referrer := refereeOf[referee];
      if referrer in revoked { return Ok((0, 0)); }
      if fee * discountBps > Fixed.I128_MAX || fee * shareBps > Fixed.I128_MAX { return Err(Overflow); }
      var discount, payout := fee * discountBps / BPS, fee * shareBps / BPS;
      if referrer !in infos { return Err(UnknownCode); }
      var info := infos[referrer];
      var counted := if volume > 0 then volume else 0;
      if info.totalVolume + counted > Fixed.I128_MAX { return Err(Overflow); }
      info := info.(totalVolume := info.totalVolume + counted);
      if info.totalEarned + payout > Fixed.I128_MAX { return Err(Overflow); }
      info := info.(totalEarned := info.totalEarned + payout);
      if info.claimable + payout > Fixed.I128_MAX { return Err(Overflow); }
      info := info.(claimable := info.claimable + payout);
      infos := infos[referrer := info];
      return Ok((discount, payout));
    }

    method Claim(referrer: Address) returns (r: Result<int>)
      modifies this
      ensures (State(), r) == Claimed(old(State()), referrer)
    {
      if !initialized { return Err(NotInitialized); }
      if referrer !in infos { return Err(UnknownCode); }
      var info := infos[referrer];
      var amount := info.claimable;
      if amount <= 0 { return Err(NothingToClaim); }
      if balance < amount { return Err(ClaimUnfunded); }
      balance := balance - amount;
      paid := paid[referrer := (if referrer in paid then paid[referrer] else 0) + amount];
      infos := infos[referrer := info.(claimable := 0)];
      return Ok(amount);
    }

    method SetRevoked(code: Code, flag: bool) returns (r: Result<()>)
      modifies this
      ensures (State(), r) == RevocationSet(old(State()), code, flag)
    {
      if !initialized { return Err(NotInitialized); }
      if code !in codes { return Err(UnknownCode); }
      if flag {
        revoked := revoked + {codes[code]};
      } else {
        revoked := revoked - {codes[code]};
      }
      return Ok(());
    }

    method Unbind(referee: Address) returns (r: Result<()>)
      modifies this
      ensures (State(), r) == Unbound(old(State()), referee)
    {
      if !initialized { return Err(NotInitialized); }
      refereeOf := refereeOf - {referee};
      return Ok(());
    }

    method Initialize() returns (r: Result<()>)
      modifies this
      ensures (State(), r) == SetUp(old(State()))
    {
      if initialized { return Err(AlreadyInitialized); }
      discountBps := DEFAULT_DISCOUNT_BPS;
      shareBps := DEFAULT_REFERRER_SHARE_BPS;
      minCodeVolume := DEFAULT_MIN_CODE_VOLUME;
      initialized := true;
      return Ok(());
    }

    method SetPaused(flag: bool) returns (r: Result<()>)
      modifies this
      ensures (State(), r) == PausedSet(old(State()), flag)
    {
      if !initialized { return Err(NotInitialized); }
      paused := flag;
      return Ok(());
    }

    method SetDiscountBps(bps: nat) returns (r: Result<()>)
      modifies this
      ensures (State(), r) == BpsSet(old(State()), bps, false)
    {
      if !initialized { return Err(NotInitialized); }
      if bps > MAX_BPS { return Err(InvalidParameter); }
      discountBps := bps;
      return Ok(());
    }

    method SetReferrerShareBps(bps: nat) returns (r: Result<()>)
      modifies this
      ensures (State(), r) == BpsSet(old(State()), bps, true)
    {
      if !initialized { return Err(NotInitialized); }
      if bps > MAX_BPS { return Err(InvalidParameter); }
      shareBps := bps;
      return Ok(());
    }

    method SetMinCodeVolume(volume: int) returns (r: Result<()>)
      modifies this
      ensures (State(), r) == MinVolumeSet(old(State()), volume)
    {
      if !initialized { return Err(NotInitialized); }
      if volume < 0 { return Err(InvalidParameter); }
      minCodeVolume := volume;
      return Ok(());
    }
  }

  // ------------------------------------------------------------------------ runs

  datatype Op =
    | Init
    | Mint(referrer: Address, code: Code, volumeAtMarket: int, now: nat)
    | Bind(referee: Address, code: Code)
    | Trade(referee: Address, fee: int, volume: int, split: Split)
    | Withdraw(referrer: Address)
    | Revoke(code: Code, flag: bool)
    | Release(referee: Address)
    | Pause(flag: bool)
    | TuneBps(bps: nat, share: bool)
    | TuneMinVolume(volume: int)

  function Apply(s: Registry, op: Op): Registry {
    match op
    case Init => SetUp(s).0
    case Mint(referrer, code, volume, now) => CodeCreated(s, referrer, code, volume, now).0
    case Bind(referee, code) => ReferrerSet(s, referee, code).0
    case Trade(referee, fee, volume, split) => FundedTrade(s, referee, fee, volume, split).0
    case Withdraw(referrer) => Claimed(s, referrer).0
    case Revoke(code, flag) => RevocationSet(s, code, flag).0
    case Release(referee) => Unbound(s, referee).0
    case Pause(flag) => PausedSet(s, flag).0
    case TuneBps(bps, share) => BpsSet(s, bps, share).0
    case TuneMinVolume(volume) => MinVolumeSet(s, volume).0
  }

  function Run(ops: seq<Op>): Registry {
    if ops == [] then EMPTY else Apply(Run(ops[..|ops| - 1]), ops[|ops| - 1])
  }

  /** What a step accrues beyond what the market transfers for it. */
  function Shortfall(s: Registry, op: Op): int {
    if !op.Trade? then 0
    else
      match TradeRecorded(s, op.referee, op.fee, op.volume).1
      case Ok((discount, payout)) => payout - PotOf(payout, CutOf(op.fee - discount, op.split))
      case Err(_) => 0
  }

  function ShortOf(ops: seq<Op>): int {
    if ops == [] then 0
    else ShortOf(ops[..|ops| - 1]) + Shortfall(Run(ops[..|ops| - 1]), ops[|ops| - 1])
  }

  // -------------------------------------------------------------------- invariant

  function PaidIn(paid: map<Address, int>, r: Address): int {
    if r in paid then paid[r] else 0
  }

  /** A referrer's row is its own, and lifetime earnings split into what is still
      claimable and what has been paid out. */
  predicate RowSound(info: Info, r: Address, paidOut: int) {
    && info.referrer == r
    && info.claimable >= 0
    && paidOut >= 0
    && info.totalEarned == info.claimable + paidOut
  }

  predicate RowsSound(infos: map<Address, Info>, paid: map<Address, int>) {
    && (forall r :: r in infos ==> RowSound(infos[r], r, PaidIn(paid, r)))
    && (forall r :: r in paid ==> r in infos)
  }

  /** Code(c) = r exactly when Info(r).code = c. */
  predicate CodesMatch(codes: map<Code, Address>, infos: map<Address, Info>) {
    && (forall c :: c in codes ==> codes[c] in infos && infos[codes[c]].code == c)
    && (forall r :: r in infos ==> infos[r].code in codes && codes[infos[r].code] == r)
  }

  predicate BindingsSound(refereeOf: map<Address, Address>, infos: map<Address, Info>) {
    forall e :: e in refereeOf ==> refereeOf[e] != e && refereeOf[e] in infos
  }

  function BoundTo(refereeOf: map<Address, Address>, r: Address): set<Address> {
    set e | e in refereeOf && refereeOf[e] == r
  }

  predicate CountsCover(refereeOf: map<Address, Address>, infos: map<Address, Info>) {
    forall r :: r in infos ==> |BoundTo(refereeOf, r)| <= infos[r].referredCount
  }

  predicate Sound(s: Registry) {
    && RowsSound(s.infos, s.paid)
    && CodesMatch(s.codes, s.infos)
    && BindingsSound(s.refereeOf, s.infos)
    && CountsCover(s.refereeOf, s.infos)
    && s.discountBps <= MAX_BPS && s.shareBps <= MAX_BPS
  }

  ghost function TotalClaimable(infos: map<Address, Info>): int
    decreases |infos|
  {
    if infos == map[] then 0
    else
      var r :| r in infos;
      infos[r].claimable + TotalClaimable(infos - {r})
  }

  lemma {:induction false} TotalWithout(infos: map<Address, Info>, r: Address)
    requires r in infos
    ensures TotalClaimable(infos) == infos[r].claimable + TotalClaimable(infos - {r})
    decreases |infos|
  {
    var q :| q in infos && TotalClaimable(infos) == infos[q].claimable + TotalClaimable(infos - {q});
    if q != r {
      TotalWithout(infos - {q}, r);
      TotalWithout(infos - {r}, q);
      assert infos - {q} - {r} == infos - {r} - {q};
    }
  }

  lemma TotalAfterWrite(infos: map<Address, Info>, r: Address, info: Info)
    ensures TotalClaimable(infos[r := info])
         == TotalClaimable(infos) + info.claimable - if r in infos then infos[r].claimable else 0
  {
    var written := infos[r := info];
    TotalWithout(written, r);
    if r in infos {
      TotalWithout(infos, r);
      assert written - {r} == infos - {r};
    } else {
      assert written - {r} == infos;
    }
  }

  lemma {:induction false} OneOfTotal(infos: map<Address, Info>, r: Address)
    requires r in infos && forall q :: q in infos ==> infos[q].claimable >= 0
    ensures 0 <= infos[r].claimable <= TotalClaimable(infos)
    decreases |infos|
  {
    TotalWithout(infos, r);
    var rest := infos - {r};
    if rest != map[] {
      var q :| q in rest;
      OneOfTotal(rest, q);
    }
  }

  // ------------------------------------------------------------------ preservation

  /** Under the 50% caps discount and payout together never exceed the fee. */
  lemma SharesWithinFee(fee: int, discountBps: nat, shareBps: nat)
    requires fee > 0 && discountBps <= MAX_BPS && shareBps <= MAX_BPS
    ensures 0 <= ShareOf(fee, discountBps) && 0 <= ShareOf(fee, shareBps)
    ensures ShareOf(fee, discountBps) + ShareOf(fee, shareBps) <= fee
  {
    HalfAtMost(fee, discountBps);
    HalfAtMost(fee, shareBps);
  }

  lemma HalfAtMost(fee: int, bps: nat)
    requires fee > 0 && bps <= MAX_BPS
    ensures 0 <= 2 * ShareOf(fee, bps) <= fee
  {
    assert 0 <= fee * bps;
    assert fee * bps <= fee * MAX_BPS by {
      assert fee * (MAX_BPS - bps) >= 0;
      assert fee * (MAX_BPS - bps) == fee * MAX_BPS - fee * bps;
    }
  }

  lemma BoundAfterBind(refereeOf: map<Address, Address>, referee: Address, referrer: Address, r: Address)
    requires referee !in refereeOf
    ensures |BoundTo(refereeOf[referee := referrer], r)| == |BoundTo(refereeOf, r)| + if r == referrer then 1 else 0
  {
    assert BoundTo(refereeOf[referee := referrer], r) == BoundTo(refereeOf, r) + if r == referrer then {referee} else {};
  }

  lemma BindKeepsCounts(refereeOf: map<Address, Address>, infos: map<Address, Info>, referee: Address, referrer: Address)
    requires CountsCover(refereeOf, infos) && referee !in refereeOf && referrer in infos
    ensures var info := infos[referrer];
            CountsCover(refereeOf[referee := referrer], infos[referrer := OneMore(info)])
  {
    forall r | r in infos
      ensures |BoundTo(refereeOf[referee := referrer], r)| <= infos[r].referredCount + if r == referrer then 1 else 0
    {
      BoundAfterBind(refereeOf, referee, referrer, r);
    }
  }

  lemma UnbindKeepsCounts(refereeOf: map<Address, Address>, infos: map<Address, Info>, referee: Address)
    requires CountsCover(refereeOf, infos)
    ensures CountsCover(refereeOf - {referee}, infos)
  {
    forall r | r in infos
      ensures |BoundTo(refereeOf - {referee}, r)| <= infos[r].referredCount
    {
      SubsetSize(BoundTo(refereeOf - {referee}, r), BoundTo(refereeOf, r));
    }
  }

  /** The contract's balance and what the market held back are together exactly what is claimable. */
  ghost predicate Backed(s: Registry, short: int) {
    s.balance + short == TotalClaimable(s.infos)
  }

  lemma RowWriteKeepsRows(infos: map<Address, Info>, paid: map<Address, int>, paid': map<Address, int>, r: Address, info: Info)
    requires RowsSound(infos, paid)
    requires RowSound(info, r, PaidIn(paid', r))
    requires paid' == paid || paid' == paid[r := PaidIn(paid', r)]
    ensures RowsSound(infos[r := info], paid')
  {
    forall q | q in infos && q != r
      ensures RowSound(infos[q], q, PaidIn(paid', q))
    {
      assert PaidIn(paid', q) == PaidIn(paid, q);
    }
  }

  /** Rewriting a row under its own code touches neither codes nor bindings. */
  lemma RowWriteKeepsCodes(s: Registry, r: Address, info: Info)
    requires Sound(s) && r in s.infos
    requires info.code == s.infos[r].code && info.referredCount >= s.infos[r].referredCount
    ensures CodesMatch(s.codes, s.infos[r := info])
    ensures BindingsSound(s.refereeOf, s.infos[r := info])
    ensures CountsCover(s.refereeOf, s.infos[r := info])
  {
  }

  lemma NewRowKeepsCodes(codes: map<Code, Address>, infos: map<Address, Info>, r: Address, info: Info)
    requires CodesMatch(codes, infos) && r !in infos && info.code !in codes
    ensures CodesMatch(codes[info.code := r], infos[r := info])
  {
    forall q | q in infos
      ensures infos[q].code != info.code
    {
    }
  }

  lemma NewRowKeepsBindings(refereeOf: map<Address, Address>, infos: map<Address, Info>, r: Address, info: Info)
    requires BindingsSound(refereeOf, infos) && CountsCover(refereeOf, infos) && r !in infos
    ensures BindingsSound(refereeOf, infos[r := info]) && CountsCover(refereeOf, infos[r := info])
  {
    assert BoundTo(refereeOf, r) == {};
  }

  lemma MintKeepsSound(s: Registry, referrer: Address, code: Code, volume: int, now: nat, short: int)
    requires Sound(s) && Backed(s, short)
    ensures var t := CodeCreated(s, referrer, code, volume, now).0; Sound(t) && Backed(t, short)
  {
    var (t, r) := CodeCreated(s, referrer, code, volume, now);
    if r.Ok? {
      var info := Info(code, referrer, now, 0, 0, 0, 0);
      TotalAfterWrite(s.infos, referrer, info);
      assert PaidIn(s.paid, referrer) == 0;
      RowWriteKeepsRows(s.infos, s.paid, s.paid, referrer, info);
      NewRowKeepsCodes(s.codes, s.infos, referrer, info);
      NewRowKeepsBindings(s.refereeOf, s.infos, referrer, info);
    }
  }

  lemma BindKeepsSound(s: Registry, referee: Address, code: Code, short: int)
    requires Sound(s) && Backed(s, short)
    ensures var t := ReferrerSet(s, referee, code).0; Sound(t) && Backed(t, short)
  {
    if ReferrerSet(s, referee, code).1.Ok? {
      BoundState(s, referee, s.codes[code], short);
    }
  }

  lemma BoundParts(s: Registry, referee: Address, referrer: Address)
    requires Sound(s) && referrer in s.infos && referee !in s.refereeOf && referee != referrer
    ensures var info := OneMore(s.infos[referrer]);
            && TotalClaimable(s.infos[referrer := info]) == TotalClaimable(s.infos)
            && RowsSound(s.infos[referrer := info], s.paid)
            && CodesMatch(s.codes, s.infos[referrer := info])
            && BindingsSound(s.refereeOf[referee := referrer], s.infos[referrer := info])
            && CountsCover(s.refereeOf[referee := referrer], s.infos[referrer := info])
  {
    var info := OneMore(s.infos[referrer]);
    TotalAfterWrite(s.infos, referrer, info);
    RowWriteKeepsRows(s.infos, s.paid, s.paid, referrer, info);
    RowWriteKeepsCodes(s, referrer, info);
    BindKeepsCounts(s.refereeOf, s.infos, referee, referrer);
  }

  lemma BoundState(s: Registry, referee: Address, referrer: Address, short: int)
    requires Sound(s) && Backed(s, short) && referrer in s.infos && referee !in s.refereeOf && referee != referrer
    ensures Sound(WithBinding(s, referee, referrer)) && Backed(WithBinding(s, referee, referrer), short)
  {
    BoundParts(s, referee, referrer);
    PartsMakeSound(s, WithBinding(s, referee, referrer), short);
  }

  lemma PartsMakeSound(s: Registry, t: Registry, short: int)
    requires Backed(s, short) && t.balance == s.balance && TotalClaimable(t.infos) == TotalClaimable(s.infos)
    requires RowsSound(t.infos, t.paid) && CodesMatch(t.codes, t.infos)
    requires BindingsSound(t.refereeOf, t.infos) && CountsCover(t.refereeOf, t.infos)
    requires t.discountBps <= MAX_BPS && t.shareBps <= MAX_BPS
    ensures Sound(t) && Backed(t, short)
  {
  }

  lemma TradeKeepsSound(s: Registry, referee: Address, fee: int, volume: int, split: Split, short: int)
    requires Sound(s) && Backed(s, short)
    ensures var t := FundedTrade(s, referee, fee, volume, split).0;
            Sound(t) && Backed(t, short + Shortfall(s, Trade(referee, fee, volume, split)))
  {
    RecordKeepsSound(s, referee, fee, volume);
    FundingParts(s, referee, fee, volume, split);
    OnlyBalance(TradeRecorded(s, referee, fee, volume).0, FundedTrade(s, referee, fee, volume, split).0,
                short + Shortfall(s, Trade(referee, fee, volume, split)));
  }

  lemma OnlyBalance(t: Registry, u: Registry, short: int)
    requires Sound(t) && u == t.(balance := u.balance) && u.balance + short == TotalClaimable(t.infos)
    ensures Sound(u) && Backed(u, short)
  {
  }

  /** What is transferred and what is held back make up the payout. */
  lemma FundingParts(s: Registry, referee: Address, fee: int, volume: int, split: Split)
    ensures var (t, r) := TradeRecorded(s, referee, fee, volume);
            var u := FundedTrade(s, referee, fee, volume, split).0;
            && (r.Err? ==> t == s)
            && u == t.(balance := u.balance)
            && u.balance + Shortfall(s, Trade(referee, fee, volume, split)) == s.balance + (if r.Ok? then r.value.1 else 0)
  {
  }

  lemma RecordKeepsSound(s: Registry, referee: Address, fee: int, volume: int)
    requires Sound(s)
    ensures var (t, r) := TradeRecorded(s, referee, fee, volume);
            && Sound(t) && t.balance == s.balance
            && TotalClaimable(t.infos) == TotalClaimable(s.infos) + (if r.Ok? then r.value.1 else 0)
            && (r.Err? ==> t == s)
  {
    var (t, r) := TradeRecorded(s, referee, fee, volume);
    if r.Ok? && t != s {
      var referrer := s.refereeOf[referee];
      var info := t.infos[referrer];
      SharesWithinFee(fee, s.discountBps, s.shareBps);
      TotalAfterWrite(s.infos, referrer, info);
      RowWriteKeepsRows(s.infos, s.paid, s.paid, referrer, info);
      RowWriteKeepsCodes(s, referrer, info);
    } else if r.Ok? {
      SamePayout(s, referee, fee, volume);
    }
  }

  lemma SamePayout(s: Registry, referee: Address, fee: int, volume: int)
    requires TradeRecorded(s, referee, fee, volume).0 == s && TradeRecorded(s, referee, fee, volume).1.Ok?
    ensures TradeRecorded(s, referee, fee, volume).1.value.1 == 0
  {
    if s.initialized && fee > 0 && !s.paused && referee in s.refereeOf && s.refereeOf[referee] !in s.revoked {
      var referrer := s.refereeOf[referee];
      assert s.infos[referrer].claimable == s.infos[referrer].claimable + ShareOf(fee, s.shareBps);
    }
  }

  lemma ClaimKeepsSound(s: Registry, referrer: Address, short: int)
    requires Sound(s) && Backed(s, short)
    ensures var t := Claimed(s, referrer).0; Sound(t) && Backed(t, short)
  {
    var (t, r) := Claimed(s, referrer);
    if r.Ok? {
      var info := s.infos[referrer].(claimable := 0);
      assert RowSound(s.infos[referrer], referrer, PaidIn(s.paid, referrer));
      TotalAfterWrite(s.infos, referrer, info);
      RowWriteKeepsRows(s.infos, s.paid, t.paid, referrer, info);
      RowWriteKeepsCodes(s, referrer, info);
    }
  }

  lemma ReleaseKeepsSound(s: Registry, referee: Address, short: int)
    requires Sound(s) && Backed(s, short)
    ensures Sound(Unbound(s, referee).0) && Backed(Unbound(s, referee).0, short)
  {
    UnbindKeepsCounts(s.refereeOf, s.infos, referee);
  }

  /** Calls that change only switches, caps and revocations. */
  lemma TuningKeepsSound(s: Registry, t: Registry, short: int)
    requires Sound(s) && Backed(s, short)
    requires t.codes == s.codes && t.infos == s.infos && t.refereeOf == s.refereeOf
    requires t.balance == s.balance && t.paid == s.paid
    requires t.discountBps <= MAX_BPS && t.shareBps <= MAX_BPS
    ensures Sound(t) && Backed(t, short)
  {
  }

  /** Calls that only turn switches and dials. */
  predicate Tunes(op: Op) {
    op.Init? || op.Revoke? || op.Pause? || op.TuneBps? || op.TuneMinVolume?
  }

  lemma TuningLeavesLedger(s: Registry, op: Op)
    requires Tunes(op) && s.discountBps <= MAX_BPS && s.shareBps <= MAX_BPS
    ensures var t := Apply(s, op);
            && t.codes == s.codes && t.infos == s.infos && t.refereeOf == s.refereeOf
            && t.balance == s.balance && t.paid == s.paid
            && t.discountBps <= MAX_BPS && t.shareBps <= MAX_BPS
  {
    match op {
      case Init => assert Apply(s, op) == SetUp(s).0;
      case Revoke(code, flag) => assert Apply(s, op) == RevocationSet(s, code, flag).0;
      case Pause(flag) => assert Apply(s, op) == PausedSet(s, flag).0;
      case TuneBps(bps, share) => assert Apply(s, op) == BpsSet(s, bps, share).0;
      case TuneMinVolume(volume) => assert Apply(s, op) == MinVolumeSet(s, volume).0;
    }
  }

  lemma TuningStep(s: Registry, op: Op, short: int)
    requires Sound(s) && Backed(s, short) && Tunes(op)
    ensures Sound(Apply(s, op)) && Backed(Apply(s, op), short + Shortfall(s, op))
  {
    TuningLeavesLedger(s, op);
    TuningKeepsSound(s, Apply(s, op), short);
  }

  lemma StepKeepsSound(s: Registry, op: Op, short: int)
    requires Sound(s) && Backed(s, short)
    ensures Sound(Apply(s, op)) && Backed(Apply(s, op), short + Shortfall(s, op))
  {
    match op {
      case Mint(referrer, code, volume, now) => MintKeepsSound(s, referrer, code, volume, now, short);
      case Bind(referee, code) => BindKeepsSound(s, referee, code, short);
      case Trade(referee, fee, volume, split) => TradeKeepsSound(s, referee, fee, volume, split, short);
      case Withdraw(referrer) => ClaimKeepsSound(s, referrer, short);
      case Release(referee) => ReleaseKeepsSound(s, referee, short);
      case _ => TuningStep(s, op, short);
    }
  }

  /** The ledger invariants hold after every run: earnings split exactly, codes
      and rows match both ways, nobody is bound to themselves, every bound
      referrer has a row with a large enough count, and the balance falls short
      of all claims by exactly what the market held back. */
  lemma {:induction false} LedgerHoldsInEveryRun(ops: seq<Op>)
    ensures Sound(Run(ops)) && Backed(Run(ops), ShortOf(ops))
  {
    if ops != [] {
      var init := ops[..|ops| - 1];
      LedgerHoldsInEveryRun(init);
      StepKeepsSound(Run(init), ops[|ops| - 1], ShortOf(init));
    }
  }

  /** A claim is refused as unfunded exactly when the market has held back more
      than everybody else has still to claim; in particular never while it
      forwards every payout. Otherwise it pays exactly what was claimable. */
  lemma ClaimIsFunded(ops: seq<Op>, referrer: Address)
    requires var s := Run(ops); s.initialized && referrer in s.infos && s.infos[referrer].claimable > 0
    ensures var s := Run(ops);
            var (t, r) := Claimed(s, referrer);
            && (r == Err(ClaimUnfunded) <==> ShortOf(ops) > TotalClaimable(s.infos - {referrer}))
            && (ShortOf(ops) == 0 ==> r.Ok?)
            && (r.Ok? ==> t.PaidTo(referrer) == t.infos[referrer].totalEarned == s.infos[referrer].totalEarned)
            && (!r.Ok? ==> r == Err(ClaimUnfunded) && t == s)
  {
    LedgerHoldsInEveryRun(ops);
    var s := Run(ops);
    assert RowSound(s.infos[referrer], referrer, PaidIn(s.paid, referrer));
    TotalWithout(s.infos, referrer);
    forall q | q in s.infos
      ensures s.infos[q].claimable >= 0
    {
      assert RowSound(s.infos[q], q, PaidIn(s.paid, q));
    }
    OneOfTotal(s.infos, referrer);
  }

  // -------------------------------------------------------- funding by the market

  /** The rates under which the cut covers every payout: with a treasury, the
      protocol's share of the discounted fee is at least the referrer's share;
      without one, the referrer's share is zero. */
  predicate Funded(discountBps: nat, shareBps: nat, split: Split) {
    match split
    case NoTreasury => shareBps == 0
    case Treasury(protocolBps) => shareBps * BPS <= (BPS - discountBps) * protocolBps
  }

  /** The market forwards every payout in full. */
  predicate Forwards(fee: int, discountBps: nat, shareBps: nat, split: Split) {
    ShareOf(fee, shareBps) <= CutOf(fee - ShareOf(fee, discountBps), split)
  }

  /** A fee on which nothing is lost to rounding. */
  const ROUND_FEE: int := BPS * BPS

  /** The market's cut covers the referrer's payout of every trade exactly under
      these rates; without a treasury, under none that pay the referrer anything. */
  lemma CutCoversPayoutExactly(discountBps: nat, shareBps: nat, split: Split)
    requires discountBps <= MAX_BPS && shareBps <= MAX_BPS
    ensures (forall fee: int :: fee > 0 ==> Forwards(fee, discountBps, shareBps, split)) <==> Funded(discountBps, shareBps, split)
  {
    if Funded(discountBps, shareBps, split) {
      forall fee: int | fee > 0
        ensures Forwards(fee, discountBps, shareBps, split)
      {
        CutCovers(fee, discountBps, shareBps, split);
      }
    } else {
      RoundFeeDecides(discountBps, shareBps, split);
      assert !Forwards(ROUND_FEE, discountBps, shareBps, split);
    }
  }

  /** That one fee tells. */
  lemma RoundFeeDecides(discountBps: nat, shareBps: nat, split: Split)
    requires discountBps <= MAX_BPS && shareBps <= MAX_BPS
    ensures Forwards(ROUND_FEE, discountBps, shareBps, split) <==> Funded(discountBps, shareBps, split)
    ensures ShareOf(ROUND_FEE, discountBps) == BPS * discountBps && ShareOf(ROUND_FEE, shareBps) == BPS * shareBps
  {
    WholeShare(discountBps);
    WholeShare(shareBps);
    if split.Treasury? {
      WholeShare((BPS - discountBps) * split.protocolBps);
      assert (ROUND_FEE - BPS * discountBps) * split.protocolBps == BPS * ((BPS - discountBps) * split.protocolBps);
    }
  }

  /** With the registry's default rates every payout is funded exactly when a
      treasury is set and its protocol share is at least 1042 basis points. */
  lemma DefaultRatesAreFunded(split: Split)
    ensures (forall fee: int :: fee > 0 ==> Forwards(fee, DEFAULT_DISCOUNT_BPS, DEFAULT_REFERRER_SHARE_BPS, split))
       <==> split.Treasury? && split.protocolBps >= 1_042
  {
    CutCoversPayoutExactly(DEFAULT_DISCOUNT_BPS, DEFAULT_REFERRER_SHARE_BPS, split);
  }

  /** A default deployment does not fund: no treasury is set, the first referred
      trade accrues a payout, nothing is forwarded, and the claim is refused. */
  lemma DefaultDeploymentIsUnfunded()
    ensures var s := Run([Init, TuneMinVolume(0), Mint("r", "abc", 0, 0), Bind("e", "abc"), Trade("e", 10_000, 0, NoTreasury)]);
            && "r" in s.infos && s.infos["r"].claimable == 1_000 && s.balance == 0
            && Claimed(s, "r") == (s, Err(ClaimUnfunded))
  {
    var ops := [Init, TuneMinVolume(0), Mint("r", "abc", 0, 0), Bind("e", "abc")];
    ReachesBound();
    var trade := Trade("e", 10_000, 0, NoTreasury);
    RunNext(ops, trade);
    assert ops + [trade] == [Init, TuneMinVolume(0), Mint("r", "abc", 0, 0), Bind("e", "abc"), trade];
  }

  /** A fresh registry with one code and one binding. */
  const CODED := Registry(true, false, 400, 1_000, 0, map["abc" := "r"], map["r" := Info("abc", "r", 0, 0, 0, 0, 0)],
                          map[], {}, 0, map[])
  const BOUND := CODED.(infos := map["r" := Info("abc", "r", 0, 1, 0, 0, 0)], refereeOf := map["e" := "r"])

  lemma ReachesBound()
    ensures Run([Init, TuneMinVolume(0), Mint("r", "abc", 0, 0), Bind("e", "abc")]) == BOUND
  {
    RunNext([], Init);
    assert [] + [Init] == [Init];
    RunNext([Init], TuneMinVolume(0));
    assert [Init] + [TuneMinVolume(0)] == [Init, TuneMinVolume(0)];
    var open := EMPTY.(initialized := true, discountBps := 400, shareBps := 1_000, minCodeVolume := 0);
    assert Run([Init, TuneMinVolume(0)]) == open;
    RunNext([Init, TuneMinVolume(0)], Mint("r", "abc", 0, 0));
    assert [Init, TuneMinVolume(0)] + [Mint("r", "abc", 0, 0)] == [Init, TuneMinVolume(0), Mint("r", "abc", 0, 0)];
    FirstMint(open);
    RunNext([Init, TuneMinVolume(0), Mint("r", "abc", 0, 0)], Bind("e", "abc"));
    assert [Init, TuneMinVolume(0), Mint("r", "abc", 0, 0)] + [Bind("e", "abc")]
        == [Init, TuneMinVolume(0), Mint("r", "abc", 0, 0), Bind("e", "abc")];
    FirstBind();
  }

  lemma FirstMint(open: Registry)
    requires open == EMPTY.(initialized := true, discountBps := 400, shareBps := 1_000, minCodeVolume := 0)
    ensures Apply(open, Mint("r", "abc", 0, 0)) == CODED
  {
  }

  lemma FirstBind()
    ensures Apply(CODED, Bind("e", "abc")) == BOUND
  {
  }

  lemma RunNext(ops: seq<Op>, op: Op)
    ensures Run(ops + [op]) == Apply(Run(ops), op)
  {
    assert (ops + [op])[..|ops|] == ops;
  }

  // --------------------------------------------------------- rates and whole runs

  /** What a step holds back is never negative, and nothing under funded rates. */
  lemma NothingHeldBack(s: Registry, op: Op)
    requires s.discountBps <= MAX_BPS && s.shareBps <= MAX_BPS
    ensures Shortfall(s, op) >= 0
    ensures (op.Trade? ==> Funded(s.discountBps, s.shareBps, op.split)) ==> Shortfall(s, op) == 0
  {
    if op.Trade? && op.fee > 0 {
      SharesWithinFee(op.fee, s.discountBps, s.shareBps);
      if Funded(s.discountBps, s.shareBps, op.split) {
        CutCovers(op.fee, s.discountBps, s.shareBps, op.split);
      }
    }
  }

  /** Every trade of the run comes at funded rates. */
  predicate RatesFunded(ops: seq<Op>) {
    ops != [] ==>
      var s, op := Run(ops[..|ops| - 1]), ops[|ops| - 1];
      RatesFunded(ops[..|ops| - 1]) && (op.Trade? ==> Funded(s.discountBps, s.shareBps, op.split))
  }

  /** Then the market holds back nothing, so every claim of anything pays. */
  lemma {:induction false} FundedRatesPay(ops: seq<Op>)
    requires RatesFunded(ops)
    ensures ShortOf(ops) == 0
    ensures forall r :: Run(ops).initialized && r in Run(ops).infos && Run(ops).infos[r].claimable > 0 ==> Claimed(Run(ops), r).1.Ok?
  {
    if ops != [] {
      var init := ops[..|ops| - 1];
      FundedRatesPay(init);
      LedgerHoldsInEveryRun(init);
      NothingHeldBack(Run(init), ops[|ops| - 1]);
    }
    forall r | Run(ops).initialized && r in Run(ops).infos && Run(ops).infos[r].claimable > 0
      ensures Claimed(Run(ops), r).1.Ok?
    {
      ClaimIsFunded(ops, r);
    }
  }

  /** A binding whose trades accrue, with room left in the referrer's totals. */
  predicate Accrues(s: Registry, referee: Address) {
    && s.initialized && !s.paused
    && referee in s.refereeOf && s.refereeOf[referee] !in s.revoked && s.refereeOf[referee] in s.infos
    && var info := s.infos[s.refereeOf[referee]];
       info.totalVolume <= Fixed.I128_MAX && info.claimable <= info.totalEarned <= Fixed.I128_MAX - ROUND_FEE
  }

  /** And the rates decide it in every reachable state: no trade of such a binding
      holds anything back if and only if they are funded. */
  lemma RatesDecide(ops: seq<Op>, referee: Address, split: Split)
    requires Accrues(Run(ops), referee)
    ensures var s := Run(ops);
            (forall fee, volume :: Shortfall(s, Trade(referee, fee, volume, split)) == 0) <==> Funded(s.discountBps, s.shareBps, split)
  {
    var s := Run(ops);
    LedgerHoldsInEveryRun(ops);
    if Funded(s.discountBps, s.shareBps, split) {
      forall fee: int, volume: int
        ensures Shortfall(s, Trade(referee, fee, volume, split)) == 0
      {
        NothingHeldBack(s, Trade(referee, fee, volume, split));
      }
    } else {
      RoundTradeHeldBack(s, referee, split);
    }
  }

  lemma RoundTradeHeldBack(s: Registry, referee: Address, split: Split)
    requires Accrues(s, referee) && s.discountBps <= MAX_BPS && s.shareBps <= MAX_BPS
    requires !Funded(s.discountBps, s.shareBps, split)
    ensures Shortfall(s, Trade(referee, ROUND_FEE, 0, split)) > 0
  {
    RoundFeeDecides(s.discountBps, s.shareBps, split);
    RoundTrade(s, referee);
    ShortPot(BPS * s.shareBps, ROUND_FEE - BPS * s.discountBps, split);
  }

  lemma ShortPot(payout: int, net: int, split: Split)
    requires payout > CutOf(net, split) && payout > 0
    ensures payout > PotOf(payout, CutOf(net, split))
  {
  }

  lemma RoundTrade(s: Registry, referee: Address)
    requires Accrues(s, referee) && s.discountBps <= MAX_BPS && s.shareBps <= MAX_BPS
    ensures TradeRecorded(s, referee, ROUND_FEE, 0).1 == Ok((BPS * s.discountBps, BPS * s.shareBps))
  {
    WholeShare(s.discountBps);
    WholeShare(s.shareBps);
  }

  lemma WholeShare(x: int)
    ensures BPS * BPS * x / BPS == BPS * x && BPS * x / BPS == x
  {
  }

  lemma CutCovers(fee: int, discountBps: nat, shareBps: nat, split: Split)
    requires fee > 0 && discountBps <= MAX_BPS && Funded(discountBps, shareBps, split)
    ensures Forwards(fee, discountBps, shareBps, split)
  {
    if split.Treasury? {
      TreasuryCovers(fee, discountBps, shareBps, split.protocolBps);
    }
  }

  lemma TreasuryCovers(fee: int, discountBps: nat, shareBps: nat, protocolBps: nat)
    requires fee > 0 && discountBps <= MAX_BPS
    requires shareBps * BPS <= (BPS - discountBps) * protocolBps
    ensures Forwards(fee, discountBps, shareBps, Treasury(protocolBps))
  {
    var net := fee - ShareOf(fee, discountBps);
    assert fee * (BPS - discountBps) <= net * BPS by {
      assert fee * discountBps / BPS * BPS <= fee * discountBps;
      assert fee * (BPS - discountBps) == fee * BPS - fee * discountBps;
    }
    Scaled(shareBps * BPS, (BPS - discountBps) * protocolBps, fee);
    Scaled(fee * (BPS - discountBps), net * BPS, protocolBps);
    assert fee * shareBps * BPS <= net * protocolBps * BPS;
    QuotientKeepsOrder(fee * shareBps, net * protocolBps);
  }

  lemma Scaled(x: int, y: int, k: int)
    requires x <= y && k >= 0
    ensures k * x <= k * y
  {
  }

  lemma QuotientKeepsOrder(x: int, y: int)
    requires x <= y
    ensures x / BPS <= y / BPS
  {
  }

  /** In every reachable state a trade never gives away more than its fee. */
  lemma TradeGivesAtMostFee(ops: seq<Op>, referee: Address, fee: int, volume: int)
    ensures var r := TradeRecorded(Run(ops), referee, fee, volume).1;
            r.Ok? ==> r.value.0 >= 0 && r.value.1 >= 0 && (fee > 0 ==> r.value.0 + r.value.1 <= fee)
  {
    LedgerHoldsInEveryRun(ops);
    var s := Run(ops);
    if fee > 0 {
      SharesWithinFee(fee, s.discountBps, s.shareBps);
    }
  }

  /** An accruing trade gives the referee and the referrer their shares rounded
      down, and adds the payout to both of the referrer's totals and nobody else's. */
  lemma TradeAccruesShare(s: Registry, referee: Address, fee: int, volume: int)
    requires s.initialized && !s.paused && fee > 0
    requires referee in s.refereeOf && s.refereeOf[referee] !in s.revoked
    ensures var (t, r) := TradeRecorded(s, referee, fee, volume);
            var referrer := s.refereeOf[referee];
            r.Ok? ==>
              var (discount, payout) := r.value;
              && BPS * discount <= fee * s.discountBps < BPS * (discount + 1)
              && BPS * payout <= fee * s.shareBps < BPS * (payout + 1)
              && t.infos.Keys == s.infos.Keys
              && (forall q :: q in s.infos && q != referrer ==> t.infos[q] == s.infos[q])
              && t.infos[referrer].claimable == s.infos[referrer].claimable + payout
              && t.infos[referrer].totalEarned == s.infos[referrer].totalEarned + payout
  {
  }

  /** Revoking and restoring a code changes nothing else; while it is revoked,
      trades of its referees accrue nothing and claims still pay. */
  lemma RevocationOnlySuspends(s: Registry, code: Code, referee: Address, fee: int, volume: int)
    requires s.initialized && code in s.codes && s.codes[code] !in s.revoked
    ensures var t := RevocationSet(s, code, true).0;
            && RevocationSet(t, code, false).0 == s
            && (referee in s.refereeOf && s.refereeOf[referee] == s.codes[code] ==>
                  TradeRecorded(t, referee, fee, volume) == (t, Ok((0, 0))))
            && Claimed(t, s.codes[code]).1 == Claimed(s, s.codes[code]).1
  {
    assert s.revoked + {s.codes[code]} - {s.codes[code]} == s.revoked;
  }
}
