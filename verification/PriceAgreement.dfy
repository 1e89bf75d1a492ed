/** The watcher's big-integer price and the vault's checked one, and what that
    means for a settlement sent on a sample. */
module PriceAgreement {
  import opened Numbers
  import Settlement
  import opened PayoutToken
  import opened VaultSpec

  predicate Int8(d: int) {
    -128 <= d <= 127
  }

  /** A power of ten fits a uint256 exactly up to 10^77. */
  lemma PowerFitsIff(e: nat)
    ensures CheckedPow10(e).Some? <==> e <= 77
  {
    PowersOfTen();
    if e <= 77 {
      PowMonotone(10, e, 77);
    } else {
      PowMonotone(10, 78, e);
    }
  }

  /** What a price with `decimals` decimals is at six: multiplied exactly, or
      rounded down. */
  ghost predicate AtSixDecimals(q: int, value: nat, decimals: int) {
    if decimals <= 6 then q == value * Pow(10, 6 - decimals)
    else q * Pow(10, decimals - 6) <= value < (q + 1) * Pow(10, decimals - 6)
  }

  lemma FloorIs(value: nat, d: nat)
    requires d > 0
    ensures value / d * d <= value < (value / d + 1) * d
  {
    AtMostFloor(value / d, value, d);
    AtMostFloor(value / d + 1, value, d);
  }

  /** The watcher's rescale, for any decimals. */
  lemma SampleAtSixDecimals(value: nat, decimals: int)
    ensures AtSixDecimals(Settlement.NormalizePrice(value, decimals), value, decimals)
  {
    if decimals > 6 {
      PowPositive(10, decimals - 6);
      FloorIs(value, Pow(10, decimals - 6));
    }
  }

  /** The vault's rescale: the price at six decimals, or a revert exactly when the
      scale or the price does not fit a uint256. */
  lemma VaultPriceAtSixDecimals(value: nat, decimals: int)
    ensures var price := ToPayoutDecimals(value, decimals);
      && (price.Some? ==> AtSixDecimals(price.value, value, decimals))
      && (decimals <= 6 ==> (price.Some? <==> 6 - decimals <= 77 && value * Pow(10, 6 - decimals) <= MAX_UINT256))
      && (decimals > 6 ==> (price.Some? <==> decimals - 6 <= 77))
  {
    SampleAtSixDecimals(value, decimals);
    if decimals <= 6 {
      PowerFitsIff(6 - decimals);
    } else {
      PowerFitsIff(decimals - 6);
    }
  }

  /** No settlement succeeds on a price older than 300 seconds, from the future, or
      above the trigger, whatever the other arguments. */
  lemma SettlementIsFreshAndLow(cfg: Config, s: Vault, c: Call, q: nat)
    requires c.Settle? && Exec(cfg, s, c).1
    ensures c.feed.Some? && 0 <= c.now - c.feed.value.timestamp <= 300
    ensures AtSixDecimals(q, c.feed.value.value, c.feed.value.decimals) ==> q <= c.trigger
  {
    var data := c.feed.value;
    VaultPriceAtSixDecimals(data.value, data.decimals);
    if AtSixDecimals(q, data.value, data.decimals) {
      OnePrice(q, ToPayoutDecimals(data.value, data.decimals).value, data.value, data.decimals);
    }
  }

  /** There is one price at six decimals. */
  lemma OnePrice(q: int, r: int, value: nat, decimals: int)
    requires AtSixDecimals(q, value, decimals) && AtSixDecimals(r, value, decimals)
    ensures q == r
  {
    if decimals > 6 {
      var d := Pow(10, decimals - 6);
      PowPositive(10, decimals - 6);
      AtMostFloor(q, value, d);
      AtMostFloor(q + 1, value, d);
      AtMostFloor(r, value, d);
      AtMostFloor(r + 1, value, d);
    }
  }

  /** Whenever the vault's rescale does not revert it is the watcher's. */
  lemma RescaleAgrees(value: nat, decimals: int)
    requires value <= MAX_UINT256 && Int8(decimals)
    ensures ToPayoutDecimals(value, decimals).Some? ==>
      ToPayoutDecimals(value, decimals).value == Settlement.NormalizePrice(value, decimals)
  {
  }

  /** The vault recomputes a sample at or below a uint256 trigger without a
      revert exactly when the sample is positive or the scale itself fits. */
  lemma SampleRescalesIff(value: nat, decimals: int, trigger: nat)
    requires value <= MAX_UINT256 && Int8(decimals) && trigger <= MAX_UINT256
    requires Settlement.NormalizePrice(value, decimals) <= trigger
    ensures ToPayoutDecimals(value, decimals) == Some(Settlement.NormalizePrice(value, decimals))
      <==> Settlement.NormalizePrice(value, decimals) > 0 || -71 <= decimals <= 83
  {
    var sample := Settlement.NormalizePrice(value, decimals);
    var shift := 6 - decimals;
    if shift >= 0 {
      PowerFitsIff(shift);
      PowPositive(10, shift);
      PositiveProduct(value, Pow(10, shift));
    } else {
      PowerFitsIff(-shift);
      PowPositive(10, -shift);
      PositiveQuotient(value, Pow(10, -shift));
    }
  }

  lemma PositiveProduct(value: nat, scale: nat)
    requires scale > 0
    ensures value * scale > 0 ==> scale <= value * scale
  {
    if value > 0 {
      assert value * scale >= 1 * scale;
    }
  }

  lemma PositiveQuotient(value: nat, scale: nat)
    requires scale > 0
    ensures value / scale > 0 ==> scale <= value
  {
    if value / scale > 0 {
      AtMostFloor(1, value, scale);
    }
  }

  /** Every condition under which `settle` succeeds. */
  lemma SettleSucceedsIff(cfg: Config, s: Vault, c: Call)
    requires c.Settle? && Balanced(s.token)
    ensures Exec(cfg, s, c).1 <==>
      && c.sender == s.teeExecutor && c.maxAge <= MAX_PRICE_AGE_SEC && StatusOf(s, c.id) == STATUS_OPEN
      && c.feed.Some? && 0 <= c.now - c.feed.value.timestamp <= c.maxAge
      && var price := ToPayoutDecimals(c.feed.value.value, c.feed.value.decimals);
      && price.Some? && price.value <= c.trigger
      && s.orders[c.id].deposit * price.value <= MAX_UINT256
      && Payout(s.orders[c.id].deposit, price.value) <= BalanceOf(s.token, cfg.self)
  {
    if StatusOf(s, c.id) == STATUS_OPEN && c.feed.Some? {
      var price := ToPayoutDecimals(c.feed.value.value, c.feed.value.decimals);
      if price.Some? {
        var o := s.orders[c.id];
        MoveKeepsSupply(s.token, cfg.self, o.owner, Payout(o.deposit, price.value));
      }
    }
  }

  /** The settle call that a broadcast makes when it is mined. */
  function SettleCall(executor: Address, tx: Settlement.Tx, feed: Option<FeedData>, now: nat): Call {
    Settle(executor, tx.order, tx.trigger, tx.maxAge, feed, now)
  }

  /** A settle sent on a positive sample passes the vault's price and age guards
      if the feed is unchanged and at most 300 seconds old when it is mined: what
      is left are the executor, the order's status, the checked product and the
      payout pool. */
  lemma SentSettlePassesTheGuards(cfg: Config, s: Vault, executor: Address, tx: Settlement.Tx,
                                  feed: FeedData, now: nat)
    requires Balanced(s.token) && feed.value <= MAX_UINT256 && Int8(feed.decimals)
    requires tx.maxAge == Settlement.SETTLE_MAX_AGE_SEC && tx.trigger <= MAX_UINT256
    requires 0 < Settlement.NormalizePrice(feed.value, feed.decimals) <= tx.trigger
    requires 0 <= now - feed.timestamp <= 300
    ensures var price := Settlement.NormalizePrice(feed.value, feed.decimals);
      Exec(cfg, s, SettleCall(executor, tx, Some(feed), now)).1 <==>
        && executor == s.teeExecutor && StatusOf(s, tx.order) == STATUS_OPEN
        && s.orders[tx.order].deposit * price <= MAX_UINT256
        && Payout(s.orders[tx.order].deposit, price) <= BalanceOf(s.token, cfg.self)
  {
    SampleRescalesIff(feed.value, feed.decimals, tx.trigger);
    SettleSucceedsIff(cfg, s, SettleCall(executor, tx, Some(feed), now));
  }
}
