/**
 LP shares: minting and redeeming at the pool's share price, and the NOE token
 bookkeeping of the vault.
 */
module LpShares {
  import opened Fixed
  import opened Types

  function GlpForDeposit(usdc: int, totalGlp: int, aum: int): Outcome<int> {
    if totalGlp == 0 then Done(usdc)
    else if aum <= 0 then Fail(InsufficientLiquidity)
    else if !InI128(usdc * totalGlp) then Fail(Overflow)
    else Done(TruncDiv(usdc * totalGlp, aum))
  }

  function UsdcForWithdrawal(glp: int, totalGlp: int, aum: int): Outcome<int> {
    if totalGlp == 0 then Fail(DivisionByZero)
    else if !InI128(glp * aum) then Fail(Overflow)
    else Checked(TruncDiv(glp * aum, totalGlp))
  }

  // ------------------------------------------------------- share price over runs

  datatype Pool = Pool(aum: nat, supply: nat)

  datatype Flow = Deposit(usdc: nat) | Withdraw(glp: nat)

  /** `after` has at least the value per share of `before`. */
  predicate PriceKept(before: Pool, after: Pool) {
    after.aum * before.supply >= before.aum * after.supply
  }

  lemma MintBounds(usdc: nat, supply: nat, aum: nat)
    requires supply > 0 && GlpForDeposit(usdc, supply, aum).Done?
    ensures var g := GlpForDeposit(usdc, supply, aum).value;
            aum > 0 && 0 <= g && 0 <= aum * g <= usdc * supply < aum * (g + 1)
  {
    MulNonNegative(usdc, supply);
    TruncDivBounds(usdc * supply, aum);
    var g := GlpForDeposit(usdc, supply, aum).value;
    assert aum * (g + 1) == aum * g + aum;
  }

  lemma MintNonNegative(usdc: nat, supply: nat, aum: nat)
    requires GlpForDeposit(usdc, supply, aum).Done?
    ensures GlpForDeposit(usdc, supply, aum).value >= 0
  {
    if supply > 0 {
      MintBounds(usdc, supply, aum);
    }
  }

  lemma RedeemBounds(glp: nat, supply: nat, aum: nat)
    requires glp <= supply && UsdcForWithdrawal(glp, supply, aum).Done?
    ensures var u := UsdcForWithdrawal(glp, supply, aum).value;
            supply > 0 && 0 <= u <= aum && u * supply <= glp * aum < (u + 1) * supply
  {
    MulNonNegative(glp, aum);
    TruncDivBounds(glp * aum, supply);
    var u := UsdcForWithdrawal(glp, supply, aum).value;
    MulNonNegative(supply - glp, aum);
    assert (supply - glp) * aum == aum * supply - glp * aum;
    CancelFactor(u, aum, supply);
    assert (u + 1) * supply == u * supply + supply;
  }

  /** The first shares are minted one per unit, whatever the pool is worth; with shares
      outstanding a pool without value mints nothing. */
  lemma FirstMint(usdc: int, supply: nat, aum: int)
    ensures supply == 0 ==> GlpForDeposit(usdc, supply, aum) == Done(usdc)
    ensures supply > 0 && aum <= 0 ==> GlpForDeposit(usdc, supply, aum) == Fail(InsufficientLiquidity)
    ensures aum >= 0 && usdc >= 0 ==> var t := Apply(Pool(aum, 0), Deposit(usdc)); t == Pool(aum + usdc, usdc)
  {
  }

  /** One deposit or withdrawal at the pool's own price. A call that fails, or
      redeems more shares than exist, changes nothing. */
  function Apply(pool: Pool, flow: Flow): Pool {
    match flow
    case Deposit(usdc) =>
      var minted := GlpForDeposit(usdc, pool.supply, pool.aum);
      if minted.Done? then
        MintNonNegative(usdc, pool.supply, pool.aum);
        Pool(pool.aum + usdc, pool.supply + minted.value)
      else pool
    case Withdraw(glp) =>
      var paid := UsdcForWithdrawal(glp, pool.supply, pool.aum);
      if glp <= pool.supply && paid.Done? then
        RedeemBounds(glp, pool.supply, pool.aum);
        Pool(pool.aum - paid.value, pool.supply - glp)
      else pool
  }

  /** A deposit goes through exactly when the pool has value to price it by, or no shares
      yet, and size times supply fits; the pool then grows by all of it, and the shares
      minted are its part of the supply, rounded down. */
  lemma DepositsExactly(pool: Pool, usdc: nat)
    ensures var t := Apply(pool, Deposit(usdc));
            if pool.supply > 0 && (pool.aum == 0 || usdc * pool.supply > I128_MAX) then t == pool
            else
              && t.aum == pool.aum + usdc
              && var minted := t.supply - pool.supply;
                 if pool.supply == 0 then minted == usdc
                 else minted * pool.aum <= usdc * pool.supply < (minted + 1) * pool.aum
  {
    MulNonNegative(usdc, pool.supply);
    if pool.supply > 0 && GlpForDeposit(usdc, pool.supply, pool.aum).Done? {
      MintBounds(usdc, pool.supply, pool.aum);
    }
  }

  /** A redemption goes through exactly when the shares exist and size times value fits;
      the shares are gone and the pool shrinks by their part of its value, rounded down. */
  lemma RedeemsExactly(pool: Pool, glp: nat)
    ensures var t := Apply(pool, Withdraw(glp));
            if glp > pool.supply || pool.supply == 0 || glp * pool.aum > I128_MAX then t == pool
            else
              && t.supply == pool.supply - glp
              && var paid := pool.aum - t.aum;
                 paid * pool.supply <= glp * pool.aum < (paid + 1) * pool.supply
  {
    MulNonNegative(glp, pool.aum);
    if 0 < pool.supply && glp * pool.aum <= I128_MAX {
      TruncDivBounds(glp * pool.aum, pool.supply);
      QuotientAtMost(glp * pool.aum, pool.supply);
      if glp <= pool.supply {
        RedeemBounds(glp, pool.supply, pool.aum);
      }
    }
  }

  lemma QuotientAtMost(a: nat, b: nat)
    requires b > 0
    ensures 0 <= TruncDiv(a, b) <= a
  {
    TruncDivAtMost(a, b, a);
    TruncDivBounds(a, b);
    MulNonNegative(a, b - 1);
    assert (a + 1) * b == a * (b - 1) + a + b;
  }

  /** Whoever redeems all shares takes the whole pool. */
  lemma LastSharesTakeAll(pool: Pool)
    requires pool.supply > 0 && pool.supply * pool.aum <= I128_MAX
    ensures Apply(pool, Withdraw(pool.supply)) == Pool(0, 0)
  {
    RedeemsExactly(pool, pool.supply);
    var t := Apply(pool, Withdraw(pool.supply));
    CancelFactor(pool.aum, pool.aum - t.aum, pool.supply);
    CancelFactor(pool.aum - t.aum + 1, pool.aum, pool.supply);
  }

  lemma DepositKeepsPrice(pool: Pool, usdc: nat)
    requires pool.supply > 0
    ensures PriceKept(pool, Apply(pool, Deposit(usdc)))
  {
    if GlpForDeposit(usdc, pool.supply, pool.aum).Done? {
      MintBounds(usdc, pool.supply, pool.aum);
      var g := GlpForDeposit(usdc, pool.supply, pool.aum).value;
      assert (pool.aum + usdc) * pool.supply == pool.aum * pool.supply + usdc * pool.supply;
      assert pool.aum * (pool.supply + g) == pool.aum * pool.supply + pool.aum * g;
    }
  }

  lemma WithdrawalKeepsPrice(pool: Pool, glp: nat)
    requires pool.supply > 0
    ensures PriceKept(pool, Apply(pool, Withdraw(glp)))
  {
    var paid := UsdcForWithdrawal(glp, pool.supply, pool.aum);
    if glp <= pool.supply && paid.Done? {
      RedeemBounds(glp, pool.supply, pool.aum);
      assert (pool.aum - paid.value) * pool.supply == pool.aum * pool.supply - paid.value * pool.supply;
      assert pool.aum * (pool.supply - glp) == pool.aum * pool.supply - glp * pool.aum;
    }
  }

  lemma StepKeepsPrice(pool: Pool, flow: Flow)
    requires pool.supply > 0
    ensures PriceKept(pool, Apply(pool, flow))
  {
    match flow {
      case Deposit(usdc) => DepositKeepsPrice(pool, usdc);
      case Withdraw(glp) => WithdrawalKeepsPrice(pool, glp);
    }
  }

  lemma PriceKeptChains(a: Pool, b: Pool, c: Pool)
    requires a.supply > 0 && b.supply > 0 && PriceKept(a, b) && PriceKept(b, c)
    ensures PriceKept(a, c)
  {
    CancelFactor(b.aum * c.supply, c.aum * b.supply, a.supply);
    MulNonNegative(b.aum * a.supply - a.aum * b.supply, c.supply);
    assert (b.aum * a.supply - a.aum * b.supply) * c.supply
        == (b.aum * c.supply) * a.supply - (a.aum * c.supply) * b.supply;
    assert (c.aum * b.supply) * a.supply == (c.aum * a.supply) * b.supply;
    CancelFactor(a.aum * c.supply, c.aum * a.supply, b.supply);
  }

  function Run(pool: Pool, flows: seq<Flow>): Pool
    decreases |flows|
  {
    if flows == [] then pool else Run(Apply(pool, flows[0]), flows[1..])
  }

  /** Shares stay outstanding before every call of the run. */
  predicate Live(pool: Pool, flows: seq<Flow>)
    decreases |flows|
  {
    pool.supply > 0 && (flows != [] ==> |flows| == 1 || Live(Apply(pool, flows[0]), flows[1..]))
  }

  /** No run of deposits and withdrawals lowers the value of a share. */
  lemma {:induction false} SharePriceNeverFalls(pool: Pool, flows: seq<Flow>)
    requires Live(pool, flows)
    ensures PriceKept(pool, Run(pool, flows))
    decreases |flows|
  {
    if flows != [] {
      var next := Apply(pool, flows[0]);
      StepKeepsPrice(pool, flows[0]);
      if |flows| == 1 {
        assert Run(next, flows[1..]) == next;
      } else {
        SharePriceNeverFalls(next, flows[1..]);
        PriceKeptChains(pool, next, Run(next, flows[1..]));
      }
    }
  }

  /** Depositing and redeeming the minted shares at once returns at most the
      deposit, exactly when the pool has shares outstanding or no value. An
      ownerless remainder goes to the first depositor. */
  lemma RoundTripReturnsAtMost(pool: Pool, usdc: nat)
    requires usdc > 0
    requires GlpForDeposit(usdc, pool.supply, pool.aum).Done?
    requires var after := Apply(pool, Deposit(usdc));
             UsdcForWithdrawal(after.supply - pool.supply, after.supply, after.aum).Done?
    ensures var after := Apply(pool, Deposit(usdc));
            var back := UsdcForWithdrawal(after.supply - pool.supply, after.supply, after.aum).value;
            back <= usdc <==> (pool.supply > 0 || pool.aum == 0)
  {
    if pool.supply > 0 {
      MintBounds(usdc, pool.supply, pool.aum);
      var minted := GlpForDeposit(usdc, pool.supply, pool.aum).value;
      RedeemBounds(minted, pool.supply + minted, pool.aum + usdc);
      LiveRoundTrip(pool.aum, pool.supply, usdc, minted,
                    UsdcForWithdrawal(minted, pool.supply + minted, pool.aum + usdc).value);
    } else {
      EmptyRoundTrip(usdc, pool.aum + usdc);
    }
  }

  lemma LiveRoundTrip(aum: nat, supply: nat, usdc: nat, minted: nat, back: nat)
    requires supply > 0 && aum * minted <= usdc * supply
    requires back * (supply + minted) <= minted * (aum + usdc)
    ensures back <= usdc
  {
    assert minted * (aum + usdc) == aum * minted + usdc * minted;
    assert usdc * (supply + minted) == usdc * supply + usdc * minted;
    CancelFactor(back, usdc, supply + minted);
  }

  lemma EmptyRoundTrip(usdc: nat, aum: nat)
    requires usdc > 0 && UsdcForWithdrawal(usdc, usdc, aum).Done?
    ensures UsdcForWithdrawal(usdc, usdc, aum).value == aum
  {
    MulNonNegative(usdc, aum);
    TruncDivBounds(usdc * aum, usdc);
    var q := TruncDiv(usdc * aum, usdc);
    CancelFactor(q, aum, usdc);
    CancelFactor(aum, q + 1, usdc);
    assert (q + 1) * usdc == usdc * q + usdc;
  }

  /** Splitting a deposit never mints more than making it at once. */
  lemma SplitNeverMintsMore(pool: Pool, first: nat, second: nat)
    requires GlpForDeposit(first + second, pool.supply, pool.aum).Done?
    requires GlpForDeposit(first, pool.supply, pool.aum).Done?
    requires var mid := Apply(pool, Deposit(first)); GlpForDeposit(second, mid.supply, mid.aum).Done?
    ensures Apply(Apply(pool, Deposit(first)), Deposit(second)).supply <= Apply(pool, Deposit(first + second)).supply
  {
    if pool.supply > 0 {
      SplitLivePool(pool, first, second);
    } else if first > 0 {
      SplitEmptyPool(pool.aum, first, second);
    }
  }

  lemma SplitLivePool(pool: Pool, first: nat, second: nat)
    requires pool.supply > 0
    requires GlpForDeposit(first + second, pool.supply, pool.aum).Done?
    requires GlpForDeposit(first, pool.supply, pool.aum).Done?
    requires var g := GlpForDeposit(first, pool.supply, pool.aum).value;
             GlpForDeposit(second, pool.supply + g, pool.aum + first).Done?
    ensures var g := GlpForDeposit(first, pool.supply, pool.aum).value;
            g + GlpForDeposit(second, pool.supply + g, pool.aum + first).value
              <= GlpForDeposit(first + second, pool.supply, pool.aum).value
  {
    MintBounds(first, pool.supply, pool.aum);
    var g := GlpForDeposit(first, pool.supply, pool.aum).value;
    MintBounds(second, pool.supply + g, pool.aum + first);
    var h := GlpForDeposit(second, pool.supply + g, pool.aum + first).value;
    MintBounds(first + second, pool.supply, pool.aum);
    var whole := GlpForDeposit(first + second, pool.supply, pool.aum).value;
    SplitArithmetic(pool.aum, pool.supply, first, second, g, h, whole);
  }

  lemma SplitArithmetic(aum: nat, supply: nat, first: nat, second: nat, g: nat, h: nat, whole: nat)
    requires aum > 0 && aum * g <= first * supply
    requires (aum + first) * h <= second * (supply + g)
    requires (first + second) * supply < aum * (whole + 1)
    ensures g + h <= whole
  {
    SplitBound(aum, supply, first, second, g, h);
    CancelFactor(g + h, whole + 1, aum);
  }

  lemma SplitEmptyPool(aum: nat, first: nat, second: nat)
    requires first > 0 && GlpForDeposit(second, first, aum + first).Done?
    ensures GlpForDeposit(second, first, aum + first).value <= second
  {
    MintBounds(second, first, aum + first);
    var h := GlpForDeposit(second, first, aum + first).value;
    MulNonNegative(aum, h);
    assert (aum + first) * h == aum * h + h * first;
    CancelFactor(h, second, first);
  }

  /** Shares of both parts together are worth no more than the parts at the first price. */
  lemma SplitBound(aum: nat, supply: nat, first: nat, second: nat, g: nat, h: nat)
    requires aum > 0 && aum * g <= first * supply
    requires (aum + first) * h <= second * (supply + g)
    ensures aum * (g + h) <= (first + second) * supply
  {
    var v := aum + first;
    assert (supply + g) * aum == supply * aum + aum * g <= supply * aum + first * supply == supply * v;
    MulNonNegative(supply * v - (supply + g) * aum, second);
    assert second * ((supply + g) * aum) <= second * (supply * v);
    CancelFactor(v * h, second * (supply + g), aum);
    assert (v * h) * aum == (h * aum) * v;
    assert (second * (supply + g)) * aum == second * ((supply + g) * aum);
    assert second * (supply * v) == (second * supply) * v;
    CancelFactor(h * aum, second * supply, v);
    assert aum * (g + h) == aum * g + h * aum;
    assert (first + second) * supply == first * supply + second * supply;
  }

  // ------------------------------------------------------------ NOE bookkeeping

  /** NOE balances, allowances granted to the vault, and the vault's counter. */
  datatype Noe = Noe(balances: map<Address, int>, allowances: map<Address, int>, circulating: int) {
    function BalanceOf(a: Address): int {
      if a in balances then balances[a] else 0
    }

    function AllowanceOf(a: Address): int {
      if a in allowances then allowances[a] else 0
    }

    /** Circulating counter plus the vault's own balance. */
    function Issued(vault: Address): int {
      circulating + BalanceOf(vault)
    }
  }

  /** A token move: debit, then credit on what the debit left. */
  function Moved(s: Noe, from: Address, to: Address, amount: int): Noe {
    var debited := s.(balances := s.balances[from := s.BalanceOf(from) - amount]);
    debited.(balances := debited.balances[to := debited.BalanceOf(to) + amount])
  }

  predicate CanMove(s: Noe, from: Address, amount: int) {
    0 <= amount <= s.BalanceOf(from)
  }

  function ToUser(s: Noe, vault: Address, to: Address, amount: int): Noe {
    if CanMove(s, vault, amount) && InI128(s.circulating + amount) then
      Moved(s, vault, to, amount).(circulating := s.circulating + amount)
    else s
  }

  function FromUser(s: Noe, vault: Address, from: Address, amount: int): Noe {
    if CanMove(s, from, amount) && amount <= s.AllowanceOf(from) && InI128(s.circulating - amount) then
      Moved(s, from, vault, amount).(
        circulating := s.circulating - amount,
        allowances := s.allowances[from := s.AllowanceOf(from) - amount])
    else s
  }

  /** The vault's side of the NOE token; a call that would panic leaves everything as it was. */
  class NoeVault {
    const self: Address
    var balances: map<Address, int>
    var allowances: map<Address, int>
    var circulating: int

    constructor (self: Address, balances: map<Address, int>)
      ensures this.self == self && State() == Noe(balances, map[], 0)
    {
      this.self := self;
      this.balances := balances;
      this.allowances := map[];
      this.circulating := 0;
    }

    function State(): Noe
      reads this
    {
      Noe(balances, allowances, circulating)
    }

    method Transfer(from: Address, to: Address, amount: int) returns (ok: bool)
      modifies `balances
      ensures ok == CanMove(old(State()), from, amount)
      ensures State() == if ok then Moved(old(State()), from, to, amount) else old(State())
    {
      var available := if from in balances then balances[from] else 0;
      if amount < 0 || available < amount {
        return false;
      }
      balances := balances[from := available - amount];
      var before := if to in balances then balances[to] else 0;
      balances := balances[to := before + amount];
      return true;
    }

    method TransferToUser(to: Address, amount: int)
      modifies this
      ensures State() == ToUser(old(State()), self, to, amount)
    {
      var saved := balances;
      var ok := Transfer(self, to, amount);
      if !ok {
        return;
      }
      if !InI128(circulating + amount) {
        balances := saved;
        return;
      }
      circulating := circulating + amount;
    }

    method TransferFromUser(from: Address, amount: int)
      modifies this
      ensures State() == FromUser(old(State()), self, from, amount)
    {
      var allowance := if from in allowances then allowances[from] else 0;
      if allowance < amount {
        return;
      }
      var saved := balances;
      var ok := Transfer(from, self, amount);
      if !ok {
        return;
      }
      if !InI128(circulating - amount) {
        balances := saved;
        return;
      }
      allowances := allowances[from := allowance - amount];
      circulating := circulating - amount;
    }
  }

  /** A transfer that goes through keeps circulating plus vault balance exactly
      when the other side is not the vault itself, or nothing moves. */
  lemma TransferKeepsIssued(s: Noe, vault: Address, user: Address, amount: int)
    ensures CanMove(s, vault, amount) && InI128(s.circulating + amount) ==>
              (ToUser(s, vault, user, amount).Issued(vault) == s.Issued(vault) <==> user != vault || amount == 0)
    ensures CanMove(s, user, amount) && amount <= s.AllowanceOf(user) && InI128(s.circulating - amount) ==>
              (FromUser(s, vault, user, amount).Issued(vault) == s.Issued(vault) <==> user != vault || amount == 0)
  {
  }

  /** Who holds what after `amount` went from one account to the other. */
  ghost predicate Shifted(s: Noe, t: Noe, from: Address, to: Address, amount: int) {
    && t.BalanceOf(from) == s.BalanceOf(from) - amount
    && t.BalanceOf(to) == s.BalanceOf(to) + amount
    && forall a: Address :: a != from && a != to ==> t.BalanceOf(a) == s.BalanceOf(a)
  }

  /** A payment to another account goes through exactly when the vault holds the amount;
      then it shifts that amount and counts it as circulating, and nothing else. */
  lemma PaysExactly(s: Noe, vault: Address, user: Address, amount: int)
    requires user != vault
    ensures var t := ToUser(s, vault, user, amount);
            if 0 <= amount <= s.BalanceOf(vault) && InI128(s.circulating + amount)
            then Shifted(s, t, vault, user, amount) && t.circulating == s.circulating + amount && t.allowances == s.allowances
            else t == s
  {
  }

  /** Taking from an account needs its balance and its allowance, uses up the allowance
      and counts the amount as no longer circulating. */
  lemma TakesExactly(s: Noe, vault: Address, user: Address, amount: int)
    requires user != vault
    ensures var t := FromUser(s, vault, user, amount);
            if 0 <= amount <= s.BalanceOf(user) && amount <= s.AllowanceOf(user) && InI128(s.circulating - amount)
            then
              && Shifted(s, t, user, vault, amount) && t.circulating == s.circulating - amount
              && t.AllowanceOf(user) == s.AllowanceOf(user) - amount
              && forall a: Address :: a != user ==> t.AllowanceOf(a) == s.AllowanceOf(a)
            else t == s
  {
  }

  datatype NoeOp = Pay(user: Address, amount: int) | Take(user: Address, amount: int) | Approve(user: Address, amount: int)

  function NoeStep(s: Noe, vault: Address, op: NoeOp): Noe {
    match op
    case Pay(user, amount) => ToUser(s, vault, user, amount)
    case Take(user, amount) => FromUser(s, vault, user, amount)
    case Approve(user, amount) => s.(allowances := s.allowances[user := amount])
  }

  function NoeRun(s: Noe, vault: Address, ops: seq<NoeOp>): Noe
    decreases |ops|
  {
    if ops == [] then s else NoeRun(NoeStep(s, vault, ops[0]), vault, ops[1..])
  }

  /** An account without an entry holds nothing and has approved nothing; one with an
      entry can be paid from, and taken from, up to what its entry says. */
  lemma EntriesDecide(s: Noe, vault: Address, user: Address, amount: int)
    requires user != vault && amount > 0 && InI128(s.circulating + amount) && InI128(s.circulating - amount)
    ensures ToUser(s, vault, user, amount) != s <==> vault in s.balances && amount <= s.balances[vault]
    ensures FromUser(s, vault, user, amount) != s <==>
              && user in s.balances && amount <= s.balances[user]
              && user in s.allowances && amount <= s.allowances[user]
    ensures user !in s.balances && ToUser(s, vault, user, amount) != s ==>
              ToUser(s, vault, user, amount).balances == s.balances[vault := s.balances[vault] - amount][user := amount]
  {
  }

  /** What is left of an allowance after one step. */
  function LeftAfter(s: Noe, vault: Address, op: NoeOp, user: Address, left: int): int {
    match op
    case Approve(u, amount) => if u == user then amount else left
    case Take(u, amount) =>
      if u == user && 0 <= amount <= left && amount <= s.BalanceOf(user) && InI128(s.circulating - amount)
      then left - amount else left
    case Pay(_, _) => left
  }

  function LeftOf(s: Noe, vault: Address, ops: seq<NoeOp>, user: Address, left: int): int
    decreases |ops|
  {
    if ops == [] then left
    else LeftOf(NoeStep(s, vault, ops[0]), vault, ops[1..], user, LeftAfter(s, vault, ops[0], user, left))
  }

  /** Over any run with users other than the vault an allowance is what was last
      approved less what was taken since. */
  lemma {:induction false} AllowanceIsWhatIsLeft(s: Noe, vault: Address, ops: seq<NoeOp>, user: Address)
    requires forall i :: 0 <= i < |ops| ==> ops[i].user != vault
    requires user != vault
    ensures NoeRun(s, vault, ops).AllowanceOf(user) == LeftOf(s, vault, ops, user, s.AllowanceOf(user))
    decreases |ops|
  {
    if ops != [] {
      AllowanceIsWhatIsLeft(NoeStep(s, vault, ops[0]), vault, ops[1..], user);
    }
  }

  /** Over any run with users other than the vault the issued amount is constant
      and the vault's balance never goes negative. */
  lemma {:induction false} IssuedIsConstant(s: Noe, vault: Address, ops: seq<NoeOp>)
    requires forall op :: op in ops ==> op.user != vault
    requires s.BalanceOf(vault) >= 0
    ensures NoeRun(s, vault, ops).Issued(vault) == s.Issued(vault)
    ensures NoeRun(s, vault, ops).BalanceOf(vault) >= 0
    decreases |ops|
  {
    if ops != [] {
      assert ops[0] in ops;
      TransferKeepsIssued(s, vault, ops[0].user, ops[0].amount);
      IssuedIsConstant(NoeStep(s, vault, ops[0]), vault, ops[1..]);
    }
  }
}
