/**
 * Orders as the planner hands them to the broker port, how the port classifies the broker's raw reply,
 * how the planner reads the resulting status, and the local safety check each order passes first.
 */
module Broker {
  import opened Wrappers
  import opened Text

  datatype Side = Buy | Sell

  datatype Request =
    | Limit(symbol: string, side: Side, quantity: int, price: real)
    | Notional(symbol: string, usd: real)

  predicate IsBuy(r: Request) {
    r.Notional? || r.side == Buy
  }

  /** Dollars a request commits, or releases, at its limit. */
  function Amount(r: Request): real {
    match r
    case Limit(_, _, quantity, price) => quantity as real * price
    case Notional(_, usd) => usd
  }

  // ----- what the port reports -----

  /** The facts the port extracts from the broker's raw reply. */
  datatype RawReply = RawReply(orderId: Option<string>, statusCode: Option<int>, disclosureRefused: bool)

  const PREVIEWED := "previewed"
  const SUBMITTED := "submitted"
  const REJECTED := "rejected"
  const UNKNOWN := "unknown"

  function PortStatus(liveOrders: bool, raw: RawReply): string {
    var accepted := raw.orderId.Some?
                    && (raw.statusCode.None? || 200 <= raw.statusCode.value < 300);
    var rejected := raw.orderId.None? && raw.statusCode == Some(400) && raw.disclosureRefused;
    if !liveOrders then PREVIEWED
    else if accepted then SUBMITTED
    else if rejected then REJECTED
    else UNKNOWN
  }

  // ----- how the planner reads a status -----

  function Lower(c: char): char {
    if 'A' <= c <= 'Z' then c - 'A' + 'a' else c
  }

  predicate Alphanumeric(c: char) {
    'a' <= c <= 'z' || '0' <= c <= '9'
  }

  /** Lower-case letters and digits of a status; everything else is dropped. */
  function NormalizeStatus(status: string): string {
    if status == [] then []
    else
      var c := Lower(status[0]);
      (if Alphanumeric(c) then [c] else []) + NormalizeStatus(status[1..])
  }

  /** What a status string means to the planner. */
  datatype Status = AsAccepted | AsFilled | AsPartiallyFilled | AsPreviewed | AsSubmitted | AsRejected | AsOther

  function ReadStatus(status: string): Status {
    var name := NormalizeStatus(status);
    if name == "accepted" then AsAccepted
    else if name == "filled" then AsFilled
    else if name == "partiallyfilled" then AsPartiallyFilled
    else if name == PREVIEWED then AsPreviewed
    else if name == SUBMITTED then AsSubmitted
    else if name == REJECTED then AsRejected
    else AsOther
  }

  const PENDING_STATUSES := {AsAccepted, AsSubmitted, AsPartiallyFilled}
  const COMPLETED_STATUSES := {AsPreviewed, AsFilled}

  predicate Accepted(status: Status) {
    !status.AsRejected? && !status.AsOther?
  }

  predicate Rejected(status: Status) {
    status.AsRejected?
  }

  predicate Unknown(status: Status) {
    !Accepted(status) && !Rejected(status)
  }

  predicate Unspaced(s: string) {
    forall c | c in s :: Alphanumeric(c)
  }

  lemma {:induction false} NormalizeFixes(s: string)
    requires Unspaced(s)
    ensures NormalizeStatus(s) == s
  {
    if s != [] {
      assert Alphanumeric(s[0]);
      NormalizeFixes(s[1..]);
      assert s == [s[0]] + s[1..];
    }
  }

  lemma PortStatusNormal(liveOrders: bool, raw: RawReply)
    ensures NormalizeStatus(PortStatus(liveOrders, raw)) == PortStatus(liveOrders, raw)
  {
    var s := PortStatus(liveOrders, raw);
    assert Unspaced(s) by {
      forall c | c in s ensures Alphanumeric(c) {
        assert 'a' <= c <= 'z';
      }
    }
    NormalizeFixes(s);
  }

  /**
   * Every live reply falls in exactly one class, and the planner calls it rejected only on the one proof the
   * port knows (no order id, code 400, disclosure reference) and accepted only with an order id and no
   * non-2xx code. Everything else stays unknown: an order id with a code outside 2xx, or no order id without
   * that proof. A dry run is always accepted.
   */
  lemma OutcomeTrichotomy(raw: RawReply)
    ensures var status := ReadStatus(PortStatus(true, raw));
      && (Accepted(status) <==> raw.orderId.Some? && (raw.statusCode == None || 200 <= raw.statusCode.value < 300))
      && (Rejected(status) <==> raw.orderId.None? && raw.statusCode == Some(400) && raw.disclosureRefused)
      && (Unknown(status) <==>
            || (raw.orderId.Some? && raw.statusCode.Some? && !(200 <= raw.statusCode.value < 300))
            || (raw.orderId.None? && (raw.statusCode != Some(400) || !raw.disclosureRefused)))
    ensures Accepted(ReadStatus(PortStatus(false, raw)))
  {
    PortStatusNormal(true, raw);
    PortStatusNormal(false, raw);
    hide NormalizeStatus;
  }

  lemma {:induction false} NormalizeJoin(a: string, b: string)
    ensures NormalizeStatus(a + b) == NormalizeStatus(a) + NormalizeStatus(b)
  {
    if a == [] {
      assert a + b == b;
    } else {
      NormalizeJoin(a[1..], b);
      assert (a + b)[1..] == a[1..] + b;
    }
  }

  lemma NormalizeAround(a: string, c: char, b: string)
    ensures NormalizeStatus(a + [c] + b) == NormalizeStatus(a) + NormalizeStatus([c]) + NormalizeStatus(b)
  {
    NormalizeJoin(a + [c], b);
    NormalizeJoin(a, [c]);
  }

  /** Case, and characters that are no letters or digits, make no difference to how a status is read. */
  lemma StatusSpelling(a: string, c: char, b: string)
    ensures 'A' <= c <= 'Z' ==> ReadStatus(a + [c] + b) == ReadStatus(a + [c - 'A' + 'a'] + b)
    ensures !('A' <= c <= 'Z') && !('a' <= c <= 'z') && !('0' <= c <= '9') ==> ReadStatus(a + [c] + b) == ReadStatus(a + b)
  {
    NormalizeAround(a, c, b);
    NormalizeJoin(a, b);
    if 'A' <= c <= 'Z' {
      NormalizeAround(a, c - 'A' + 'a', b);
      assert NormalizeStatus([c]) == NormalizeStatus([c - 'A' + 'a']);
    } else if !('a' <= c <= 'z') && !('0' <= c <= '9') {
      assert NormalizeStatus([c]) == [];
      assert NormalizeStatus(a) + [] == NormalizeStatus(a);
    }
  }

  /** What is left is one of six names, or no name the planner knows. */
  lemma StatusNames(s: string)
    requires forall c | c in s :: 'a' <= c <= 'z' || '0' <= c <= '9'
    ensures ReadStatus(s) == AsAccepted <==> s == "accepted"
    ensures ReadStatus(s) == AsFilled <==> s == "filled"
    ensures ReadStatus(s) == AsPartiallyFilled <==> s == "partiallyfilled"
    ensures ReadStatus(s) == AsPreviewed <==> s == "previewed"
    ensures ReadStatus(s) == AsSubmitted <==> s == "submitted"
    ensures ReadStatus(s) == AsRejected <==> s == "rejected"
  {
    NormalizeFixes(s);
    hide NormalizeStatus;
  }

  /** The four statuses of the port, as the planner reads them. */
  lemma PortReads(liveOrders: bool, raw: RawReply)
    ensures var status := ReadStatus(PortStatus(liveOrders, raw));
      if liveOrders then status == AsSubmitted || status == AsRejected || status == AsOther else status == AsPreviewed
  {
    PortStatusNormal(liveOrders, raw);
    hide NormalizeStatus;
  }

  // ----- the local safety check -----

  datatype PriceType = MarketPrice | LimitPrice
  datatype StockOrder = StockOrder(symbol: string, side: Side, quantity: Option<int>, notionalUsd: Option<real>,
                                   priceType: PriceType, limitPrice: Option<real>, maxNotionalUsd: Option<real>)

  datatype SafetyError =
    | SymbolEmpty | QuantityXorNotional | QuantityNotPositive | NotionalNotPositive | CapNotPositive
    | NotionalNotBuy | NotionalNotMarket | NotionalOverCap | LimitNotPositive
    | LiveTradingDisabled | LiveNotAcknowledged | LiveNeedsLimit | EstimateOverCap

  /** More than white space. */
  predicate Tradable(symbol: string) {
    Strip(symbol) != []
  }

  function NotPositive(value: Option<real>): bool {
    value.Some? && value.value <= 0.0
  }

  /** The order the port builds for a request under the configured cap. */
  function ToStockOrder(r: Request, cap: Option<real>): StockOrder {
    match r
    case Limit(symbol, side, quantity, price) =>
      StockOrder(symbol, side, Some(quantity), None, LimitPrice, Some(price), cap)
    case Notional(symbol, usd) =>
      StockOrder(symbol, Buy, None, Some(usd), MarketPrice, None, cap)
  }

  /** The port's order is on the same side of the same symbol, for the same dollars, under the configured cap. */
  lemma OrderKeeps(r: Request, cap: Option<real>)
    ensures var o := ToStockOrder(r, cap);
      && o.symbol == r.symbol && (o.side == Buy <==> IsBuy(r)) && o.maxNotionalUsd == cap
      && (r.Limit? ==>
            o.quantity.Some? && o.notionalUsd.None? && o.priceType == LimitPrice && o.limitPrice.Some?
            && o.quantity.value as real * o.limitPrice.value == Amount(r))
      && (r.Notional? ==> o.quantity.None? && o.priceType == MarketPrice && o.notionalUsd == Some(Amount(r)))
  {
  }

  function ValidateStockOrder(o: StockOrder, dryRun: bool, liveEnabled: bool, acknowledged: bool)
    : Option<SafetyError>
  {
    if !Tradable(o.symbol) then Some(SymbolEmpty)
    else if o.quantity.Some? == o.notionalUsd.Some? then Some(QuantityXorNotional)
    else if o.quantity.Some? && o.quantity.value <= 0 then Some(QuantityNotPositive)
    else if NotPositive(o.notionalUsd) then Some(NotionalNotPositive)
    else if NotPositive(o.maxNotionalUsd) then Some(CapNotPositive)
    else if o.notionalUsd.Some? && o.side != Buy then Some(NotionalNotBuy)
    else if o.notionalUsd.Some? && o.priceType != MarketPrice then Some(NotionalNotMarket)
    else if o.notionalUsd.Some? && o.maxNotionalUsd.Some? && o.notionalUsd.value > o.maxNotionalUsd.value then
      Some(NotionalOverCap)
    else if o.priceType == LimitPrice && NotPositive(o.limitPrice) then Some(LimitNotPositive)
    else if dryRun then None
    else if !liveEnabled then Some(LiveTradingDisabled)
    else if !acknowledged then Some(LiveNotAcknowledged)
    else if o.quantity.Some? && o.limitPrice.None? then Some(LiveNeedsLimit)
    else if o.quantity.Some? && o.maxNotionalUsd.Some?
            && o.quantity.value as real * o.limitPrice.value > o.maxNotionalUsd.value then
      Some(EstimateOverCap)
    else None
  }

  /**
   * When an order passes, in its own fields and the three switches: a named symbol; one of quantity and dollar
   * amount, positive, under a positive cap if any; a dollar amount only as a market buy within the cap; a limit
   * that is positive; and without a dry run both live switches, and for a quantity a limit at which it fits the cap.
   */
  lemma ValidatesExactly(o: StockOrder, dryRun: bool, liveEnabled: bool, acknowledged: bool)
    ensures ValidateStockOrder(o, dryRun, liveEnabled, acknowledged) == None <==>
              && Strip(o.symbol) != []
              && (o.quantity.Some? <==> o.notionalUsd.None?)
              && (o.quantity.Some? ==> o.quantity.value >= 1)
              && (o.maxNotionalUsd.Some? ==> o.maxNotionalUsd.value > 0.0)
              && (o.notionalUsd.Some? ==>
                    && o.notionalUsd.value > 0.0 && o.side == Buy && o.priceType == MarketPrice
                    && (o.maxNotionalUsd.Some? ==> o.notionalUsd.value <= o.maxNotionalUsd.value))
              && (o.priceType == LimitPrice && o.limitPrice.Some? ==> o.limitPrice.value > 0.0)
              && (!dryRun ==>
                    && liveEnabled && acknowledged
                    && (o.quantity.Some? ==>
                          && o.limitPrice.Some?
                          && (o.maxNotionalUsd.Some? ==>
                                o.quantity.value as real * o.limitPrice.value <= o.maxNotionalUsd.value)))
  {
    hide Strip;
  }
}
