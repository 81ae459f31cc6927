/**
 * The prediction market contract: binary YES/NO markets that take bets
 * until their end time, are resolved by a named resolver after their
 * resolution time, and pay each winning bettor a share of the whole pool
 * less a 2% protocol fee.
 *
 * As for governance, the storage is kept as written: each market field
 * and each bet field is one slot of `store`. `MarketInv` describes the
 * states reachable from an empty store; every operation keeps it.
 */
module Market {
  import opened Ledger

  // Market status values, as stored (u8).
  const PENDING: nat := 0
  const ACTIVE: nat := 1
  const RESOLVED: nat := 2
  const CANCELLED: nat := 3

  // Outcome values, as stored (u8).
  const NONE: nat := 0
  const YES: nat := 1
  const NO: nat := 2

  /** The protocol fee in basis points (2%). */
  const PROTOCOL_FEE_BPS: nat := 200
  const BPS_DENOMINATOR: nat := 10000
  const MIN_BET: nat := 10000

  datatype MarketError =
    | EndTimeNotInFuture
    | ResolutionNotAfterEnd
    | MarketNotActive
    | BettingEnded
    | BetTooLow
    | UnauthorizedResolver
    | ResolutionTimeNotReached
    | InvalidOutcome
    | MarketNotResolved
    | NoBetFound
    | AlreadyClaimed
    | OnlyCreator
    | CancelAfterEnd

  /** `getMarketPointer`: the slot of one field of a market. */
  function MarketPointer(id: nat, field: string): Key
  {
    Key("market", Some(id), None, field)
  }

  /** `getUserBetPointer`: the slot of one field of a user's bet on a market. */
  function UserBetPointer(id: nat, user: Address, field: string): Key
  {
    Key("bet", Some(id), Some(user), field)
  }

  /** The pool of one side: the YES pool if `yes`, else the NO pool. */
  function SidePool(m: Store, id: nat, yes: bool): nat
  {
    Read(m, MarketPointer(id, if yes then "yesPool" else "noPool"))
  }

  /** `getUserBetSide`: the stored side reads 1 for YES. */
  function BetOnYes(m: Store, id: nat, user: Address): bool
  {
    ReadU8(m, UserBetPointer(id, user, "side")) == 1
  }

  // ---------------------------------------------------------------------
  // The payout of `claimWinnings`
  // ---------------------------------------------------------------------

  /** The proportional share of the whole pool that a winning bet earns. */
  function Share(amount: nat, totalPool: nat, winningPool: nat): nat
    requires winningPool > 0
  {
    amount * totalPool / winningPool
  }

  /** The protocol fee taken from a share. */
  function Fee(share: nat): nat
  {
    share * PROTOCOL_FEE_BPS / BPS_DENOMINATOR
  }

  /** The fee never exceeds 2% of the share, so the subtraction never underflows. */
  lemma FeeBelowShare(share: nat)
    ensures Fee(share) <= share
    ensures Fee(share) * BPS_DENOMINATOR <= share * PROTOCOL_FEE_BPS
  {
  }

  /**
   * A winner's payout: the share less the fee. It keeps at least 98% of the
   * share, and never more than the share.
   */
  function Payout(amount: nat, totalPool: nat, winningPool: nat): (payout: nat)
    requires winningPool > 0
    ensures payout <= Share(amount, totalPool, winningPool)
    ensures payout * BPS_DENOMINATOR >= Share(amount, totalPool, winningPool) * (BPS_DENOMINATOR - PROTOCOL_FEE_BPS)
  {
    var share := Share(amount, totalPool, winningPool);
    FeeBelowShare(share);
    share - Fee(share)
  }

  /** A share of a bet that is part of the winning pool is at most the whole pool. */
  lemma ShareWithinPool(amount: nat, totalPool: nat, winningPool: nat)
    requires 0 < winningPool && amount <= winningPool
    ensures Share(amount, totalPool, winningPool) <= totalPool
  {
    assert amount * totalPool <= winningPool * totalPool by {
      MulMonotone(amount, winningPool, totalPool);
    }
    DivBelow(amount * totalPool, winningPool, totalPool);
  }

  /** So is its payout. */
  lemma PayoutWithinPool(amount: nat, totalPool: nat, winningPool: nat)
    requires 0 < winningPool && amount <= winningPool
    ensures Payout(amount, totalPool, winningPool) <= totalPool
  {
    ShareWithinPool(amount, totalPool, winningPool);
  }

  /** Splitting a bet never earns more: the shares of two parts add up to at most the share of the whole. */
  lemma SharesSuperadditive(a: nat, b: nat, totalPool: nat, winningPool: nat)
    requires winningPool > 0
    ensures Share(a, totalPool, winningPool) + Share(b, totalPool, winningPool) <= Share(a + b, totalPool, winningPool)
  {
    var w := winningPool;
    var x, y := a * totalPool, b * totalPool;
    var qx, qy := x / w, y / w;
    MulAddLeft(a, b, totalPool);
    QuotientBelow(x, w);
    QuotientBelow(y, w);
    MulAddRight(w, qx, qy);
    DivLowerBound(x + y, w, qx + qy);
  }

  function Sum(amounts: seq<nat>): nat
  {
    if amounts == [] then 0 else amounts[0] + Sum(amounts[1..])
  }

  /** The payouts of all winning bets. */
  function TotalPayout(amounts: seq<nat>, totalPool: nat, winningPool: nat): nat
    requires winningPool > 0
  {
    if amounts == [] then 0 else Payout(amounts[0], totalPool, winningPool) + TotalPayout(amounts[1..], totalPool, winningPool)
  }

  /**
   * Solvency of the payout rule, stated for any list of bet amounts: when
   * they add up to at most the winning pool, all their payouts together are
   * at most the share of their sum, hence at most the whole pool. The list
   * is not derived from a store here; it stands for the winners' bets.
   */
  lemma {:induction false} TotalPayoutWithinPool(amounts: seq<nat>, totalPool: nat, winningPool: nat)
    requires 0 < winningPool && Sum(amounts) <= winningPool
    ensures TotalPayout(amounts, totalPool, winningPool) <= Share(Sum(amounts), totalPool, winningPool)
    ensures TotalPayout(amounts, totalPool, winningPool) <= totalPool
  {
    if amounts != [] {
      TotalPayoutWithinPool(amounts[1..], totalPool, winningPool);
      SharesSuperadditive(amounts[0], Sum(amounts[1..]), totalPool, winningPool);
    }
    ShareWithinPool(Sum(amounts), totalPool, winningPool);
  }

  /** The worked example: a bet of 100 in a winning pool of 500 out of 1000 pays 196. */
  lemma PayoutExample()
    ensures Share(100, 1000, 500) == 200 && Fee(200) == 4
    ensures Payout(100, 1000, 500) == 196
  {
  }

  // ---------------------------------------------------------------------
  // State transitions on the store
  // ---------------------------------------------------------------------

  /** The slots `createMarket` writes (the question and description hashes are not modelled). */
  function NewMarket(m: Store, id: nat, creator: Address, endTime: nat, resolutionTime: nat, resolver: Address): Store
  {
    m[MarketPointer(id, "creator") := creator]
     [MarketPointer(id, "endTime") := endTime]
     [MarketPointer(id, "resolutionTime") := resolutionTime]
     [MarketPointer(id, "resolver") := resolver]
     [MarketPointer(id, "status") := ACTIVE]
     [MarketPointer(id, "outcome") := NONE]
     [MarketPointer(id, "yesPool") := 0]
     [MarketPointer(id, "noPool") := 0]
     [MarketPointer(id, "totalPool") := 0]
  }

  /**
   * The slots `placeBet` writes: the side's pool and the total pool grow by
   * the amount, and the user's bet is overwritten with this amount and side.
   */
  function BetPlaced(m: Store, id: nat, user: Address, betOnYes: bool, amount: nat): Store
  {
    var side := MarketPointer(id, if betOnYes then "yesPool" else "noPool");
    var m1 := m[side := Read(m, side) + amount];
    m1[MarketPointer(id, "totalPool") := Read(m1, MarketPointer(id, "totalPool")) + amount]
      [UserBetPointer(id, user, "amount") := amount]
      [UserBetPointer(id, user, "side") := if betOnYes then 1 else 0]
  }

  /** The slots `resolveMarket` writes. */
  function Resolved(m: Store, id: nat, outcome: nat): Store
  {
    m[MarketPointer(id, "status") := RESOLVED][MarketPointer(id, "outcome") := outcome]
  }

  /** The slot `claimWinnings` writes. */
  function Claimed(m: Store, id: nat, user: Address): Store
  {
    m[UserBetPointer(id, user, "claimed") := 1]
  }

  /** The slot `cancelMarket` writes. */
  function Cancelled(m: Store, id: nat): Store
  {
    m[MarketPointer(id, "status") := CANCELLED]
  }

  // ---------------------------------------------------------------------
  // The invariant of reachable states
  // ---------------------------------------------------------------------

  function Status(m: Store, id: nat): U8
  {
    ReadU8(m, MarketPointer(id, "status"))
  }

  /** The total pool is the YES pool plus the NO pool. */
  ghost predicate PoolsBalanced(m: Store)
  {
    forall id: nat :: Read(m, MarketPointer(id, "totalPool")) == SidePool(m, id, true) + SidePool(m, id, false)
  }

  /** A user's stored bet is covered by the pool of its stored side. */
  predicate BetBacked(m: Store, id: nat, user: Address)
  {
    Read(m, UserBetPointer(id, user, "amount")) <= SidePool(m, id, BetOnYes(m, id, user))
  }

  ghost predicate BetsBacked(m: Store)
  {
    forall id: nat, user: Address :: BetBacked(m, id, user)
  }

  /** A resolved market has outcome YES or NO; any other has outcome NONE. */
  predicate OutcomeMatches(m: Store, id: nat)
  {
    var outcome := ReadU8(m, MarketPointer(id, "outcome"));
    if Status(m, id) == RESOLVED then outcome == YES || outcome == NO else outcome == NONE
  }

  ghost predicate OutcomesMatch(m: Store)
  {
    forall id: nat :: OutcomeMatches(m, id)
  }

  /** Only created markets, ids 1 to the counter, have slots. */
  ghost predicate SlotsOfCreated(m: Store, counter: nat)
  {
    && (forall id: nat, field: string :: MarketPointer(id, field) in m ==> 1 <= id <= counter)
    && (forall id: nat, user: Address, field: string :: UserBetPointer(id, user, field) in m ==> 1 <= id <= counter)
  }

  /** Every created market closes before it can be resolved. */
  ghost predicate WindowsOrdered(m: Store, counter: nat)
  {
    forall id: nat :: 1 <= id <= counter ==>
      Read(m, MarketPointer(id, "endTime")) < Read(m, MarketPointer(id, "resolutionTime"))
  }

  ghost predicate MarketInv(m: Store, counter: nat)
  {
    && PoolsBalanced(m)
    && BetsBacked(m)
    && OutcomesMatch(m)
    && SlotsOfCreated(m, counter)
    && WindowsOrdered(m, counter)
  }

  /** RESOLVED and CANCELLED are terminal: a step from `m` to `m'` keeps them. */
  ghost predicate TerminalKept(m: Store, m': Store)
  {
    forall id: nat :: Status(m, id) == RESOLVED || Status(m, id) == CANCELLED ==> Status(m', id) == Status(m, id)
  }

  /** The empty store of a fresh deployment satisfies the invariant. */
  lemma EmptyStoreValid()
    ensures MarketInv(map[], 0)
  {
  }

  /** An active market has been created. */
  lemma ActiveIsCreated(m: Store, counter: nat, id: nat)
    requires SlotsOfCreated(m, counter)
    requires Status(m, id) == ACTIVE || Status(m, id) == RESOLVED
    ensures 1 <= id <= counter
  {
    assert MarketPointer(id, "status") in m;
  }

  /** A winning bet is part of a nonempty winning pool that is part of the total pool. */
  lemma WinningPoolCoversBet(m: Store, counter: nat, id: nat, user: Address)
    requires MarketInv(m, counter)
    ensures var amount := Read(m, UserBetPointer(id, user, "amount"));
      var winning := SidePool(m, id, BetOnYes(m, id, user));
      amount <= winning <= Read(m, MarketPointer(id, "totalPool"))
  {
    assert BetBacked(m, id, user);
  }

  // createMarket

  /** `createMarket` writes no slot outside the new market. */
  lemma NewMarketFrame(m: Store, id: nat, creator: Address, endTime: nat, resolutionTime: nat, resolver: Address, k: Key)
    requires k.tag != "market" || k.id != Some(id)
    ensures (k in NewMarket(m, id, creator, endTime, resolutionTime, resolver)) == (k in m)
    ensures Read(NewMarket(m, id, creator, endTime, resolutionTime, resolver), k) == Read(m, k)
  {
  }

  /** What the new market's slots read. */
  lemma NewMarketReads(m: Store, id: nat, creator: Address, endTime: nat, resolutionTime: nat, resolver: Address)
    ensures var m' := NewMarket(m, id, creator, endTime, resolutionTime, resolver);
      && Read(m', MarketPointer(id, "creator")) == creator
      && Read(m', MarketPointer(id, "endTime")) == endTime
      && Read(m', MarketPointer(id, "resolutionTime")) == resolutionTime
      && Read(m', MarketPointer(id, "resolver")) == resolver
      && Read(m', MarketPointer(id, "status")) == ACTIVE
      && Read(m', MarketPointer(id, "outcome")) == NONE
      && SidePool(m', id, true) == 0 && SidePool(m', id, false) == 0
      && Read(m', MarketPointer(id, "totalPool")) == 0
  {
  }

  lemma CreateKeepsMarkets(m: Store, counter: nat, creator: Address, endTime: nat, resolutionTime: nat, resolver: Address)
    requires PoolsBalanced(m) && OutcomesMatch(m) && WindowsOrdered(m, counter)
    requires endTime < resolutionTime
    ensures var m' := NewMarket(m, counter + 1, creator, endTime, resolutionTime, resolver);
      PoolsBalanced(m') && OutcomesMatch(m') && WindowsOrdered(m', counter + 1)
  {
    var id := counter + 1;
    var m' := NewMarket(m, id, creator, endTime, resolutionTime, resolver);
    NewMarketReads(m, id, creator, endTime, resolutionTime, resolver);
    forall id': nat | id' != id
      ensures Read(m', MarketPointer(id', "totalPool")) == Read(m, MarketPointer(id', "totalPool"))
      ensures SidePool(m', id', true) == SidePool(m, id', true) && SidePool(m', id', false) == SidePool(m, id', false)
      ensures Status(m', id') == Status(m, id')
      ensures ReadU8(m', MarketPointer(id', "outcome")) == ReadU8(m, MarketPointer(id', "outcome"))
      ensures Read(m', MarketPointer(id', "endTime")) == Read(m, MarketPointer(id', "endTime"))
      ensures Read(m', MarketPointer(id', "resolutionTime")) == Read(m, MarketPointer(id', "resolutionTime"))
    {
      NewMarketFrame(m, id, creator, endTime, resolutionTime, resolver, MarketPointer(id', "totalPool"));
      NewMarketFrame(m, id, creator, endTime, resolutionTime, resolver, MarketPointer(id', "yesPool"));
      NewMarketFrame(m, id, creator, endTime, resolutionTime, resolver, MarketPointer(id', "noPool"));
      NewMarketFrame(m, id, creator, endTime, resolutionTime, resolver, MarketPointer(id', "status"));
      NewMarketFrame(m, id, creator, endTime, resolutionTime, resolver, MarketPointer(id', "outcome"));
      NewMarketFrame(m, id, creator, endTime, resolutionTime, resolver, MarketPointer(id', "endTime"));
      NewMarketFrame(m, id, creator, endTime, resolutionTime, resolver, MarketPointer(id', "resolutionTime"));
    }
    forall id': nat
      ensures OutcomeMatches(m', id')
    {
      if id' != id {
        assert OutcomeMatches(m, id');
      }
    }
  }

  lemma CreateKeepsBets(m: Store, counter: nat, creator: Address, endTime: nat, resolutionTime: nat, resolver: Address)
    requires BetsBacked(m) && SlotsOfCreated(m, counter)
    ensures var m' := NewMarket(m, counter + 1, creator, endTime, resolutionTime, resolver);
      BetsBacked(m') && SlotsOfCreated(m', counter + 1)
  {
    var id := counter + 1;
    var m' := NewMarket(m, id, creator, endTime, resolutionTime, resolver);
    forall id': nat, user: Address
      ensures BetBacked(m', id', user)
    {
      NewMarketFrame(m, id, creator, endTime, resolutionTime, resolver, UserBetPointer(id', user, "amount"));
      NewMarketFrame(m, id, creator, endTime, resolutionTime, resolver, UserBetPointer(id', user, "side"));
      if id' == id {
        assert UserBetPointer(id', user, "amount") !in m;
      } else {
        assert BetBacked(m, id', user);
        NewMarketFrame(m, id, creator, endTime, resolutionTime, resolver, MarketPointer(id', "yesPool"));
        NewMarketFrame(m, id, creator, endTime, resolutionTime, resolver, MarketPointer(id', "noPool"));
      }
    }
    forall id': nat, field: string | MarketPointer(id', field) in m'
      ensures 1 <= id' <= id
    {
      if id' != id {
        NewMarketFrame(m, id, creator, endTime, resolutionTime, resolver, MarketPointer(id', field));
      }
    }
    forall id': nat, user: Address, field: string | UserBetPointer(id', user, field) in m'
      ensures 1 <= id' <= id
    {
      NewMarketFrame(m, id, creator, endTime, resolutionTime, resolver, UserBetPointer(id', user, field));
    }
  }

  /** `createMarket` keeps the invariant, with the counter moved to the new id. */
  lemma CreatePreserves(m: Store, counter: nat, creator: Address, endTime: nat, resolutionTime: nat, resolver: Address)
    requires MarketInv(m, counter)
    requires endTime < resolutionTime
    ensures var m' := NewMarket(m, counter + 1, creator, endTime, resolutionTime, resolver);
      MarketInv(m', counter + 1) && TerminalKept(m, m')
  {
    var id := counter + 1;
    CreateKeepsMarkets(m, counter, creator, endTime, resolutionTime, resolver);
    CreateKeepsBets(m, counter, creator, endTime, resolutionTime, resolver);
    var m' := NewMarket(m, id, creator, endTime, resolutionTime, resolver);
    forall id': nat | Status(m, id') == RESOLVED || Status(m, id') == CANCELLED
      ensures Status(m', id') == Status(m, id')
    {
      assert MarketPointer(id', "status") in m;
      NewMarketFrame(m, id, creator, endTime, resolutionTime, resolver, MarketPointer(id', "status"));
    }
  }

  // placeBet

  lemma BetKeepsPools(m: Store, id: nat, user: Address, betOnYes: bool, amount: nat)
    requires PoolsBalanced(m) && BetsBacked(m)
    ensures var m' := BetPlaced(m, id, user, betOnYes, amount);
      PoolsBalanced(m') && BetsBacked(m')
  {
    var m' := BetPlaced(m, id, user, betOnYes, amount);
    forall id': nat
      ensures Read(m', MarketPointer(id', "totalPool")) == SidePool(m', id', true) + SidePool(m', id', false)
      ensures SidePool(m, id', true) <= SidePool(m', id', true) && SidePool(m, id', false) <= SidePool(m', id', false)
    {
      assert Read(m, MarketPointer(id', "totalPool")) == SidePool(m, id', true) + SidePool(m, id', false);
    }
    forall id': nat, user': Address
      ensures BetBacked(m', id', user')
    {
      if id' != id || user' != user {
        assert BetBacked(m, id', user');
        assert Read(m', UserBetPointer(id', user', "amount")) == Read(m, UserBetPointer(id', user', "amount"));
        assert Read(m', UserBetPointer(id', user', "side")) == Read(m, UserBetPointer(id', user', "side"));
      }
    }
  }

  /**
   * What a bet leaves behind: the latest call's amount and side replace the
   * user's earlier bet instead of adding to it, both pools of the market grow
   * by the amount, and the claimed flag and every other market are untouched.
   */
  lemma BetPlacedReads(m: Store, id: nat, user: Address, betOnYes: bool, amount: nat)
    ensures var m' := BetPlaced(m, id, user, betOnYes, amount);
      && Read(m', UserBetPointer(id, user, "amount")) == amount
      && BetOnYes(m', id, user) == betOnYes
      && SidePool(m', id, betOnYes) == SidePool(m, id, betOnYes) + amount
      && SidePool(m', id, !betOnYes) == SidePool(m, id, !betOnYes)
      && Read(m', MarketPointer(id, "totalPool")) == Read(m, MarketPointer(id, "totalPool")) + amount
      && Read(m', UserBetPointer(id, user, "claimed")) == Read(m, UserBetPointer(id, user, "claimed"))
      && (forall k: Key :: k.id != Some(id) ==> Read(m', k) == Read(m, k))
  {
  }

  /** A bet on an active market keeps the invariant. */
  lemma BetPreserves(m: Store, counter: nat, id: nat, user: Address, betOnYes: bool, amount: nat)
    requires MarketInv(m, counter)
    requires Status(m, id) == ACTIVE
    ensures var m' := BetPlaced(m, id, user, betOnYes, amount);
      MarketInv(m', counter) && TerminalKept(m, m')
  {
    var m' := BetPlaced(m, id, user, betOnYes, amount);
    ActiveIsCreated(m, counter, id);
    BetKeepsPools(m, id, user, betOnYes, amount);
    forall id': nat
      ensures Status(m', id') == Status(m, id')
      ensures Read(m', MarketPointer(id', "outcome")) == Read(m, MarketPointer(id', "outcome"))
      ensures Read(m', MarketPointer(id', "endTime")) == Read(m, MarketPointer(id', "endTime"))
      ensures Read(m', MarketPointer(id', "resolutionTime")) == Read(m, MarketPointer(id', "resolutionTime"))
    {
    }
    assert OutcomesMatch(m') by {
      forall id': nat
        ensures OutcomeMatches(m', id')
      {
        assert OutcomeMatches(m, id');
      }
    }
  }

  // resolveMarket, claimWinnings and cancelMarket

  /** Resolving an active market with YES or NO keeps the invariant. */
  lemma ResolvePreserves(m: Store, counter: nat, id: nat, outcome: nat)
    requires MarketInv(m, counter)
    requires Status(m, id) == ACTIVE && (outcome == YES || outcome == NO)
    ensures MarketInv(Resolved(m, id, outcome), counter) && TerminalKept(m, Resolved(m, id, outcome))
  {
    var m' := Resolved(m, id, outcome);
    ActiveIsCreated(m, counter, id);
    assert forall id': nat :: SidePool(m', id', true) == SidePool(m, id', true) && SidePool(m', id', false) == SidePool(m, id', false);
    assert PoolsBalanced(m');
    assert BetsBacked(m') by {
      assert forall id': nat, user: Address :: BetBacked(m, id', user) ==> BetBacked(m', id', user);
    }
    assert OutcomesMatch(m') by {
      forall id': nat
        ensures OutcomeMatches(m', id')
      {
        assert OutcomeMatches(m, id');
      }
    }
    assert SlotsOfCreated(m', counter);
    assert WindowsOrdered(m', counter);
  }

  /** Marking a bet on a resolved market as claimed keeps the invariant. */
  lemma ClaimPreserves(m: Store, counter: nat, id: nat, user: Address)
    requires MarketInv(m, counter)
    requires Status(m, id) == RESOLVED
    ensures MarketInv(Claimed(m, id, user), counter) && TerminalKept(m, Claimed(m, id, user))
  {
    var m' := Claimed(m, id, user);
    ActiveIsCreated(m, counter, id);
    assert forall id': nat, user': Address :: BetBacked(m, id', user') ==> BetBacked(m', id', user');
    assert forall id': nat :: OutcomeMatches(m, id') ==> OutcomeMatches(m', id');
  }

  /** Cancelling an active market keeps the invariant. */
  lemma CancelPreserves(m: Store, counter: nat, id: nat)
    requires MarketInv(m, counter)
    requires Status(m, id) == ACTIVE
    ensures MarketInv(Cancelled(m, id), counter) && TerminalKept(m, Cancelled(m, id))
  {
    var m' := Cancelled(m, id);
    ActiveIsCreated(m, counter, id);
    assert forall id': nat, user: Address :: BetBacked(m, id', user) ==> BetBacked(m', id', user);
    forall id': nat
      ensures OutcomeMatches(m', id')
    {
      assert OutcomeMatches(m, id');
    }
  }

  // ---------------------------------------------------------------------
  // The contract
  // ---------------------------------------------------------------------

  class PredictionMarket {
    var store: Store
    var marketCounter: nat

    ghost predicate Valid()
      reads this
    {
      MarketInv(store, marketCounter)
    }

    constructor ()
      ensures Valid() && store == map[] && marketCounter == 0
    {
      store := map[];
      marketCounter := 0;
      EmptyStoreValid();
    }

    // Getters: each reads one slot.

    function MarketCreator(id: nat): Address
      reads this
    {
      Read(store, MarketPointer(id, "creator"))
    }

    function MarketEndTime(id: nat): nat
      reads this
    {
      Read(store, MarketPointer(id, "endTime"))
    }

    function MarketResolutionTime(id: nat): nat
      reads this
    {
      Read(store, MarketPointer(id, "resolutionTime"))
    }

    function MarketResolver(id: nat): Address
      reads this
    {
      Read(store, MarketPointer(id, "resolver"))
    }

    function MarketStatus(id: nat): U8
      reads this
    {
      Status(store, id)
    }

    function MarketOutcome(id: nat): U8
      reads this
    {
      ReadU8(store, MarketPointer(id, "outcome"))
    }

    function MarketYesPool(id: nat): nat
      reads this
    {
      SidePool(store, id, true)
    }

    function MarketNoPool(id: nat): nat
      reads this
    {
      SidePool(store, id, false)
    }

    function MarketTotalPool(id: nat): nat
      reads this
    {
      Read(store, MarketPointer(id, "totalPool"))
    }

    function UserBetAmount(id: nat, user: Address): nat
      reads this
    {
      Read(store, UserBetPointer(id, user, "amount"))
    }

    function UserBetSide(id: nat, user: Address): bool
      reads this
    {
      BetOnYes(store, id, user)
    }

    function HasUserClaimed(id: nat, user: Address): bool
      reads this
    {
      ReadU8(store, UserBetPointer(id, user, "claimed")) == 1
    }

    /** Whether the user's stored side is the market's outcome. */
    function UserWon(id: nat, user: Address): bool
      reads this
    {
      (UserBetSide(id, user) && MarketOutcome(id) == YES) || (!UserBetSide(id, user) && MarketOutcome(id) == NO)
    }

    // Setters: each writes one slot (`setUserBet` writes two).

    method SetMarketSlot(id: nat, field: string, value: nat)
      modifies this`store
      ensures store == old(store)[MarketPointer(id, field) := value]
    {
      store := store[MarketPointer(id, field) := value];
    }

    /** `setUserBet`: the amount, then the side as 1 (YES) or 0 (NO). */
    method SetUserBet(id: nat, user: Address, betOnYes: bool, amount: nat)
      modifies this`store
      ensures store == old(store)[UserBetPointer(id, user, "amount") := amount]
                                 [UserBetPointer(id, user, "side") := if betOnYes then 1 else 0]
    {
      store := store[UserBetPointer(id, user, "amount") := amount];
      store := store[UserBetPointer(id, user, "side") := if betOnYes then 1 else 0];
    }

    method SetUserClaimed(id: nat, user: Address, claimed: bool)
      modifies this`store
      ensures store == old(store)[UserBetPointer(id, user, "claimed") := if claimed then 1 else 0]
    {
      store := store[UserBetPointer(id, user, "claimed") := if claimed then 1 else 0];
    }

    /** The nine slot writes of `createMarket`, in its order. */
    method WriteMarket(id: nat, creator: Address, endTime: nat, resolutionTime: nat, resolver: Address)
      modifies this`store
      ensures store == NewMarket(old(store), id, creator, endTime, resolutionTime, resolver)
    {
      SetMarketSlot(id, "creator", creator);
      SetMarketSlot(id, "endTime", endTime);
      SetMarketSlot(id, "resolutionTime", resolutionTime);
      SetMarketSlot(id, "resolver", resolver);
      SetMarketSlot(id, "status", ACTIVE);
      SetMarketSlot(id, "outcome", NONE);
      SetMarketSlot(id, "yesPool", 0);
      SetMarketSlot(id, "noPool", 0);
      SetMarketSlot(id, "totalPool", 0);
    }

    // Public operations. `sender` is the transaction's sender and `now`
    // the block timestamp.

    /**
     * `createMarket`: needs now < endTime < resolutionTime; takes the next
     * id and opens an ACTIVE market with empty pools and no outcome.
     */
    method CreateMarket(sender: Address, now: U64, endTime: U256, resolutionTime: U256, resolver: Address)
      returns (r: Result<nat, MarketError>)
      requires marketCounter + 1 < U256_LIMIT
      modifies this
      ensures r == if endTime <= now then Err(EndTimeNotInFuture)
                   else if resolutionTime <= endTime then Err(ResolutionNotAfterEnd)
                   else Ok(old(marketCounter) + 1)
      ensures r.Ok? ==> (marketCounter == old(marketCounter) + 1
                         && store == NewMarket(old(store), r.value, sender, endTime, resolutionTime, resolver))
      ensures r.Err? ==> marketCounter == old(marketCounter) && store == old(store)
      ensures r.Ok? ==> (MarketStatus(r.value) == ACTIVE && MarketOutcome(r.value) == NONE
                         && MarketYesPool(r.value) == 0 && MarketNoPool(r.value) == 0 && MarketTotalPool(r.value) == 0
                         && MarketCreator(r.value) == sender && MarketResolver(r.value) == resolver)
    {
      if endTime <= now {
        return Err(EndTimeNotInFuture);
      }
      if resolutionTime <= endTime {
        return Err(ResolutionNotAfterEnd);
      }
      ghost var m0 := store;
      marketCounter := marketCounter + 1;
      var id := marketCounter;
      WriteMarket(id, sender, endTime, resolutionTime, resolver);
      NewMarketReads(m0, id, sender, endTime, resolutionTime, resolver);
      r := Ok(id);
    }

    /**
     * `placeBet`: needs an ACTIVE market, betting still open and at least
     * MIN_BET; adds the amount to the side's pool and the total pool and
     * overwrites the user's bet with this one.
     */
    method PlaceBet(sender: Address, now: U64, id: nat, betOnYes: bool, amount: U256) returns (r: Result<(), MarketError>)
      requires SidePool(store, id, betOnYes) + amount < U256_LIMIT && MarketTotalPool(id) + amount < U256_LIMIT
      modifies this`store
      ensures r == if old(MarketStatus(id)) != ACTIVE then Err(MarketNotActive)
                   else if now >= old(MarketEndTime(id)) then Err(BettingEnded)
                   else if amount < MIN_BET then Err(BetTooLow)
                   else Ok(())
      ensures store == if r.Ok? then BetPlaced(old(store), id, sender, betOnYes, amount) else old(store)
    {
      var status := MarketStatus(id);
      if status != ACTIVE {
        return Err(MarketNotActive);
      }
      var endTime := MarketEndTime(id);
      if now >= endTime {
        return Err(BettingEnded);
      }
      if amount < MIN_BET {
        return Err(BetTooLow);
      }
      if betOnYes {
        var yesPool := MarketYesPool(id);
        SetMarketSlot(id, "yesPool", yesPool + amount);
      } else {
        var noPool := MarketNoPool(id);
        SetMarketSlot(id, "noPool", noPool + amount);
      }
      var totalPool := MarketTotalPool(id);
      SetMarketSlot(id, "totalPool", totalPool + amount);
      SetUserBet(id, sender, betOnYes, amount);
      r := Ok(());
    }

    /**
     * `resolveMarket`: needs an ACTIVE market, the authorized resolver,
     * the resolution time reached and outcome YES or NO, checked in that
     * order; records the outcome and marks the market RESOLVED.
     */
    method ResolveMarket(sender: Address, now: U64, id: nat, outcome: U8) returns (r: Result<(), MarketError>)
      modifies this`store
      ensures old(Valid()) ==> Valid()
      ensures r == if old(MarketStatus(id)) != ACTIVE then Err(MarketNotActive)
                   else if sender != old(MarketResolver(id)) then Err(UnauthorizedResolver)
                   else if now < old(MarketResolutionTime(id)) then Err(ResolutionTimeNotReached)
                   else if outcome != YES && outcome != NO then Err(InvalidOutcome)
                   else Ok(())
      ensures store == if r.Ok? then Resolved(old(store), id, outcome) else old(store)
      ensures r.Ok? ==> MarketStatus(id) == RESOLVED && MarketOutcome(id) == outcome
      ensures TerminalKept(old(store), store)
    {
      var status := MarketStatus(id);
      if status != ACTIVE {
        return Err(MarketNotActive);
      }
      var authorizedResolver := MarketResolver(id);
      if sender != authorizedResolver {
        return Err(UnauthorizedResolver);
      }
      var resolutionTime := MarketResolutionTime(id);
      if now < resolutionTime {
        return Err(ResolutionTimeNotReached);
      }
      if outcome != YES && outcome != NO {
        return Err(InvalidOutcome);
      }
      if Valid() {
        ResolvePreserves(store, marketCounter, id, outcome);
      }
      SetMarketSlot(id, "status", RESOLVED);
      SetMarketSlot(id, "outcome", outcome);
      r := Ok(());
    }

    /**
     * `claimWinnings`: needs a RESOLVED market, a nonzero stored bet and no
     * earlier claim; pays a winner `Payout` of its bet and a loser 0, and
     * marks the bet claimed either way. The payout never exceeds the
     * market's total pool.
     */
    method ClaimWinnings(sender: Address, id: nat) returns (r: Result<nat, MarketError>)
      requires Valid()
      requires UserBetAmount(id, sender) * MarketTotalPool(id) < U256_LIMIT
      requires MarketTotalPool(id) * PROTOCOL_FEE_BPS < U256_LIMIT
      modifies this`store
      ensures Valid()
      ensures r.Err? <==> old(MarketStatus(id)) != RESOLVED || old(UserBetAmount(id, sender)) == 0 || old(HasUserClaimed(id, sender))
      ensures r.Err? ==> r.error == if old(MarketStatus(id)) != RESOLVED then MarketNotResolved
                                   else if old(UserBetAmount(id, sender)) == 0 then NoBetFound
                                   else AlreadyClaimed
      ensures r.Ok? ==> (old(SidePool(store, id, UserBetSide(id, sender))) > 0
                         && r.value == if old(UserWon(id, sender))
                                       then Payout(old(UserBetAmount(id, sender)), old(MarketTotalPool(id)), old(SidePool(store, id, UserBetSide(id, sender))))
                                       else 0)
      ensures r.Ok? ==> r.value <= old(MarketTotalPool(id))
      ensures store == if r.Ok? then Claimed(old(store), id, sender) else old(store)
      ensures r.Ok? ==> HasUserClaimed(id, sender)
      ensures TerminalKept(old(store), store)
    {
      var status := MarketStatus(id);
      if status != RESOLVED {
        return Err(MarketNotResolved);
      }
      var betAmount := UserBetAmount(id, sender);
      if betAmount == 0 {
        return Err(NoBetFound);
      }
      if HasUserClaimed(id, sender) {
        return Err(AlreadyClaimed);
      }
      var betOnYes := UserBetSide(id, sender);
      var outcome := MarketOutcome(id);
      var winnings := 0;
      WinningPoolCoversBet(store, marketCounter, id, sender);
      if (betOnYes && outcome == YES) || (!betOnYes && outcome == NO) {
        var totalPool := MarketTotalPool(id);
        var winningPool := if betOnYes then MarketYesPool(id) else MarketNoPool(id);
        PayoutWithinPool(betAmount, totalPool, winningPool);
        winnings := Payout(betAmount, totalPool, winningPool);
      }
      ClaimPreserves(store, marketCounter, id, sender);
      SetUserClaimed(id, sender, true);
      r := Ok(winnings);
    }

    /**
     * `cancelMarket`: the creator may cancel an ACTIVE market before its
     * end time.
     */
    method CancelMarket(sender: Address, now: U64, id: nat) returns (r: Result<(), MarketError>)
      modifies this`store
      ensures old(Valid()) ==> Valid()
      ensures r == if sender != old(MarketCreator(id)) then Err(OnlyCreator)
                   else if old(MarketStatus(id)) != ACTIVE then Err(MarketNotActive)
                   else if now >= old(MarketEndTime(id)) then Err(CancelAfterEnd)
                   else Ok(())
      ensures store == if r.Ok? then Cancelled(old(store), id) else old(store)
      ensures TerminalKept(old(store), store)
    {
      var creator := MarketCreator(id);
      if sender != creator {
        return Err(OnlyCreator);
      }
      var status := MarketStatus(id);
      if status != ACTIVE {
        return Err(MarketNotActive);
      }
      var endTime := MarketEndTime(id);
      if now >= endTime {
        return Err(CancelAfterEnd);
      }
      if Valid() {
        CancelPreserves(store, marketCounter, id);
      }
      SetMarketSlot(id, "status", CANCELLED);
      r := Ok(());
    }
  }
}
