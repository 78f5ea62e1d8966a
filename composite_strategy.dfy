/** The composite strategy: signals registered from a configuration, entry
    and exit conditions over their latest values, fixed-percentage, ATR and
    trailing risk exits, and calendar events feeding the event signals. */
module CompositeStrategies {
  import opened Wrappers
  import opened Numeric
  import opened EventSignals

  // ---------------------------------------------------------------------
  // Conditions
  // ---------------------------------------------------------------------

  /** The `value` of a condition: a number; a string, with the number
      `float()` makes of it when it is one; or nothing at all. */
  datatype Threshold =
    | Number(x: real)
    | Str(s: string, asNumber: Option<real>)
    | Missing

  /** One condition of a list: `signal_id`, `operator` and `value`, each of
      which the configuration may leave out. */
  datatype Condition = Condition(signalId: Option<string>, operator: Option<string>, value: Threshold)

  const Close: string := "Close"

  /** The number a threshold stands for: the text "Close" is the bar's
      price, a signal id that signal's latest value, any other text the
      number it spells; an absent value or a text that is no number stands
      for nothing, and every comparison with it fails. */
  function Resolve(t: Threshold, values: map<string, real>, price: real): Option<real>
  {
    match t
    case Number(x) => Some(x)
    case Str(s, asNumber) =>
      if s == Close then Some(price)
      else if s in values then Some(values[s])
      else asNumber
    case Missing => None
  }

  predicate KnownOperator(op: string)
  {
    op == "<" || op == ">" || op == "==" || op == ">=" || op == "<="
  }

  /** The five comparison operators; any other operator compares false. */
  predicate Compare(op: string, a: real, b: real)
  {
    if op == "<" then a < b
    else if op == ">" then a > b
    else if op == "==" then a == b
    else if op == ">=" then a >= b
    else if op == "<=" then a <= b
    else false
  }

  /** Whether a condition holds for the latest signal values and the bar's
      price. */
  predicate EvaluateCondition(c: Condition, values: map<string, real>, price: real)
    ensures EvaluateCondition(c, values, price) ==>
      && c.signalId.Some? && c.signalId.value in values
      && c.operator.Some? && KnownOperator(c.operator.value)
      && Resolve(c.value, values, price).Some?
  {
    if c.signalId.None? || c.signalId.value !in values then false
    else
      var th := Resolve(c.value, values, price);
      th.Some? && c.operator.Some? && Compare(c.operator.value, values[c.signalId.value], th.value)
  }

  /** Once the signal is known and the threshold resolves, a condition is
      the comparison of the signal's value with the threshold. */
  lemma ConditionCompares(c: Condition, values: map<string, real>, price: real, th: real)
    requires c.signalId.Some? && c.signalId.value in values && c.operator.Some?
    requires Resolve(c.value, values, price) == Some(th)
    ensures EvaluateCondition(c, values, price) == Compare(c.operator.value, values[c.signalId.value], th)
  {
  }

  /** "Close" compares with the bar's price, even when a signal has that
      name. */
  lemma CloseIsThePrice(values: map<string, real>, price: real, asNumber: Option<real>)
    ensures Resolve(Str(Close, asNumber), values, price) == Some(price)
  {
  }

  /** Any other text naming a signal compares with that signal's value, and
      text naming no signal with the number it spells, if any. */
  lemma TextThreshold(s: string, asNumber: Option<real>, values: map<string, real>, price: real)
    requires s != Close
    ensures s in values ==> Resolve(Str(s, asNumber), values, price) == Some(values[s])
    ensures s !in values ==> Resolve(Str(s, asNumber), values, price) == asNumber
  {
  }

  /** A condition on a signal with no latest value, with an operator other
      than the five, or with a threshold that stands for nothing is false. */
  lemma FailingConditions(c: Condition, values: map<string, real>, price: real)
    requires
      || c.signalId.None? || c.signalId.value !in values
      || c.operator.None? || !KnownOperator(c.operator.value)
      || c.value.Missing?
      || (c.value.Str? && c.value.s != Close && c.value.s !in values && c.value.asNumber.None?)
    ensures !EvaluateCondition(c, values, price)
  {
  }

  /** Where the signal is known and the threshold resolves, `<` and `>=`
      are each other's negation, as are `>` and `<=`, and `<=` is `<` or
      `==`. */
  lemma OperatorDuality(id: string, th: Threshold, values: map<string, real>, price: real)
    requires id in values && Resolve(th, values, price).Some?
    ensures EvaluateCondition(Condition(Some(id), Some("<"), th), values, price)
        != EvaluateCondition(Condition(Some(id), Some(">="), th), values, price)
    ensures EvaluateCondition(Condition(Some(id), Some(">"), th), values, price)
        != EvaluateCondition(Condition(Some(id), Some("<="), th), values, price)
    ensures EvaluateCondition(Condition(Some(id), Some("<="), th), values, price)
        == (EvaluateCondition(Condition(Some(id), Some("<"), th), values, price)
            || EvaluateCondition(Condition(Some(id), Some("=="), th), values, price))
  {
  }

  /** A list of conditions fires when it is not empty and every condition
      in it holds. */
  predicate AllHold(cs: seq<Condition>, values: map<string, real>, price: real)
  {
    |cs| > 0 && forall i | 0 <= i < |cs| :: EvaluateCondition(cs[i], values, price)
  }

  /** Evaluates a list of conditions, stopping at the first that fails. */
  method ConditionsMet(cs: seq<Condition>, values: map<string, real>, price: real) returns (signal: bool)
    ensures signal == AllHold(cs, values, price)
  {
    signal := true;
    if |cs| == 0 {
      signal := false;
    } else {
      var i := 0;
      while i < |cs|
        invariant 0 <= i <= |cs|
        invariant forall j | 0 <= j < i :: EvaluateCondition(cs[j], values, price)
      {
        if !EvaluateCondition(cs[i], values, price) {
          signal := false;
          break;
        }
        i := i + 1;
      }
    }
  }

  /** Appending a condition to a list narrows it: the longer list fires
      exactly when the new condition holds and the old list fires or was
      empty. */
  lemma AppendNarrows(cs: seq<Condition>, c: Condition, values: map<string, real>, price: real)
    ensures AllHold(cs + [c], values, price)
        <==> (cs == [] || AllHold(cs, values, price)) && EvaluateCondition(c, values, price)
  {
    var xs := cs + [c];
    assert xs[|cs|] == c;
    assert forall i | 0 <= i < |cs| :: xs[i] == cs[i];
  }

  // ---------------------------------------------------------------------
  // Risk management
  // ---------------------------------------------------------------------

  /** Stop-loss and take-profit as fractions of the entry price, as
      multiples of the ATR captured at entry, and the trailing stop's
      activation and trail fractions; 0 switches each one off. */
  datatype RiskLimits = RiskLimits(
    stopLoss: real,
    takeProfit: real,
    stopLossAtr: real,
    takeProfitAtr: real,
    trailActivation: real,
    trailPct: real)

  /** The relative change of the price since entry. */
  function Change(price: real, entry: real): real
    requires entry != 0.0
  {
    (price - entry) / entry
  }

  /** One of the fixed exits of a long position: percentage stop-loss, ATR
      stop-loss, percentage take-profit or ATR take-profit. */
  predicate LongFixedExit(r: RiskLimits, entry: real, atr: real, price: real)
    requires entry != 0.0
  {
    || (r.stopLoss > 0.0 && Change(price, entry) <= -r.stopLoss)
    || (r.stopLossAtr > 0.0 && atr > 0.0 && price <= entry - atr * r.stopLossAtr)
    || (r.takeProfit > 0.0 && Change(price, entry) >= r.takeProfit)
    || (r.takeProfitAtr > 0.0 && atr > 0.0 && price >= entry + atr * r.takeProfitAtr)
  }

  /** The fixed exits of a short position, where a rising price loses. */
  predicate ShortFixedExit(r: RiskLimits, entry: real, atr: real, price: real)
    requires entry != 0.0
  {
    || (r.stopLoss > 0.0 && Change(price, entry) >= r.stopLoss)
    || (r.stopLossAtr > 0.0 && atr > 0.0 && price >= entry + atr * r.stopLossAtr)
    || (r.takeProfit > 0.0 && Change(price, entry) <= -r.takeProfit)
    || (r.takeProfitAtr > 0.0 && atr > 0.0 && price <= entry - atr * r.takeProfitAtr)
  }

  predicate Trailing(r: RiskLimits)
  {
    r.trailActivation > 0.0 && r.trailPct > 0.0
  }

  /** The long trailing stop: once the highest price has risen by the
      activation fraction, a fall by the trail fraction from it exits. */
  predicate LongTrailExit(r: RiskLimits, entry: real, highest: real, price: real)
  {
    highest >= entry * (1.0 + r.trailActivation) && price <= highest * (1.0 - r.trailPct)
  }

  /** The short trailing stop, mirrored around the lowest price. */
  predicate ShortTrailExit(r: RiskLimits, entry: real, lowest: real, price: real)
  {
    lowest <= entry * (1.0 - r.trailActivation) && price >= lowest * (1.0 + r.trailPct)
  }

  /** A long position is closed on this bar by a fixed or a trailing exit;
      the trailing stop sees the highest price including this bar's. */
  predicate LongRiskExit(r: RiskLimits, entry: real, atr: real, highest: real, price: real)
    requires entry != 0.0
  {
    LongFixedExit(r, entry, atr, price) || (Trailing(r) && LongTrailExit(r, entry, Max(highest, price), price))
  }

  predicate ShortRiskExit(r: RiskLimits, entry: real, atr: real, lowest: real, price: real)
    requires entry != 0.0
  {
    ShortFixedExit(r, entry, atr, price) || (Trailing(r) && ShortTrailExit(r, entry, Min(lowest, price), price))
  }

  /** A percentage stop-loss on a long entered at a positive price is a
      stop price: the change falls to -stopLoss exactly when the price
      falls to entry * (1 - stopLoss). */
  lemma LongStopIsStopPrice(entry: real, stopLoss: real, price: real)
    requires entry > 0.0
    ensures Change(price, entry) <= -stopLoss <==> price <= entry * (1.0 - stopLoss)
  {
    var c := Change(price, entry);
    assert c * entry == price - entry;
    assert entry * (1.0 - stopLoss) == entry + entry * -stopLoss;
    if c <= -stopLoss {
      MulMonotone(entry, c, -stopLoss);
    }
    if price <= entry * (1.0 - stopLoss) {
      assert price - entry <= entry * -stopLoss;
      DivMonotone(price - entry, entry * -stopLoss, entry);
      assert c <= entry * -stopLoss / entry;
      MulDivCancel(-stopLoss, entry);
      assert c <= -stopLoss;
    }
  }

  /** A short's fixed exits are a long's mirrored through the entry price:
      the short exits at `price` exactly when the long would exit at
      2 * entry - price. */
  lemma ShortMirrorsLong(r: RiskLimits, entry: real, atr: real, price: real)
    requires entry != 0.0
    ensures ShortFixedExit(r, entry, atr, price) == LongFixedExit(r, entry, atr, 2.0 * entry - price)
  {
    var c := Change(price, entry);
    var m := Change(2.0 * entry - price, entry);
    assert c * entry == price - entry;
    assert m * entry == entry - price;
    assert (c + m) * entry == c * entry + m * entry;
    assert c + m == 0.0;
  }

  /** A trailing exit with a positive peak only happens below the peak. */
  lemma TrailingExitBelowPeak(r: RiskLimits, entry: real, highest: real, price: real)
    requires Trailing(r) && highest > 0.0 && LongTrailExit(r, entry, highest, price)
    ensures price < highest
  {
    MulStrict(highest, 1.0 - r.trailPct, 1.0);
  }

  /** A short's trailing exit with a positive trough only happens above it. */
  lemma TrailingExitAboveTrough(r: RiskLimits, entry: real, lowest: real, price: real)
    requires Trailing(r) && lowest > 0.0 && ShortTrailExit(r, entry, lowest, price)
    ensures price > lowest
  {
    MulStrict(lowest, 1.0, 1.0 + r.trailPct);
  }

  // ---------------------------------------------------------------------
  // Orders
  // ---------------------------------------------------------------------

  datatype Side = Buy | Sell

  /** An order handed to the broker, or logged when there is none. */
  datatype Order = Order(side: Side, price: real, size: real)

  /** What a bar leads to: nothing, one order, or the division by a zero
      entry price that stops the strategy. */
  datatype Outcome = Idle | Placed(order: Order) | ZeroEntryPrice

  /** The size of a new position. */
  const EntrySize: real := 1000.0

  /** The order that closes a position at the given price. */
  function Closing(position: real, price: real): (o: Order)
    requires position != 0.0
    ensures o.size > 0.0 && o.price == price
    ensures position > 0.0 ==> o.side == Sell && o.size == position
    ensures position < 0.0 ==> o.side == Buy && o.size == -position
  {
    if position > 0.0 then Order(Sell, price, position) else Order(Buy, price, Abs(position))
  }

  /** The four fixed exits of a long position, checked in turn. */
  method LongFixedCheck(r: RiskLimits, entry: real, atr: real, price: real) returns (hit: bool)
    requires entry != 0.0
    ensures hit == LongFixedExit(r, entry, atr, price)
  {
    var pct := Change(price, entry);
    if r.stopLoss > 0.0 && pct <= -r.stopLoss {
      return true;
    }
    if r.stopLossAtr > 0.0 && atr > 0.0 {
      var slPrice := entry - atr * r.stopLossAtr;
      if price <= slPrice {
        return true;
      }
    }
    if r.takeProfit > 0.0 && pct >= r.takeProfit {
      return true;
    }
    if r.takeProfitAtr > 0.0 && atr > 0.0 {
      var tpPrice := entry + atr * r.takeProfitAtr;
      if price >= tpPrice {
        return true;
      }
    }
    return false;
  }

  /** The four fixed exits of a short position, checked in turn. */
  method ShortFixedCheck(r: RiskLimits, entry: real, atr: real, price: real) returns (hit: bool)
    requires entry != 0.0
    ensures hit == ShortFixedExit(r, entry, atr, price)
  {
    var pct := Change(price, entry);
    if r.stopLoss > 0.0 && pct >= r.stopLoss {
      return true;
    }
    if r.stopLossAtr > 0.0 && atr > 0.0 {
      var slPrice := entry + atr * r.stopLossAtr;
      if price >= slPrice {
        return true;
      }
    }
    if r.takeProfit > 0.0 && pct <= -r.takeProfit {
      return true;
    }
    if r.takeProfitAtr > 0.0 && atr > 0.0 {
      var tpPrice := entry - atr * r.takeProfitAtr;
      if price <= tpPrice {
        return true;
      }
    }
    return false;
  }

  /** The trailing stop of an open position: moves the peak (long) or the
      trough (short) to this bar's price when it goes beyond, then checks
      the stop against it. */
  method TrailCheck(r: RiskLimits, position: real, entry: real, highest: real, lowest: real, price: real)
    returns (hit: bool, newHighest: real, newLowest: real)
    requires position != 0.0 && Trailing(r)
    ensures position > 0.0 ==>
      newHighest == Max(highest, price) && newLowest == lowest && hit == LongTrailExit(r, entry, newHighest, price)
    ensures position < 0.0 ==>
      newLowest == Min(lowest, price) && newHighest == highest && hit == ShortTrailExit(r, entry, newLowest, price)
  {
    newHighest, newLowest, hit := highest, lowest, false;
    if position > 0.0 {
      if price > newHighest {
        newHighest := price;
      }
      if newHighest >= entry * (1.0 + r.trailActivation) {
        var tsPrice := newHighest * (1.0 - r.trailPct);
        hit := price <= tsPrice;
      }
    } else {
      if price < newLowest {
        newLowest := price;
      }
      if newLowest <= entry * (1.0 - r.trailActivation) {
        var tsPrice := newLowest * (1.0 + r.trailPct);
        hit := price >= tsPrice;
      }
    }
  }

  /** The risk checks of a bar with an open position: they fail on a zero
      entry price, close the position on a fixed or trailing exit, and
      otherwise only move the trailing stop's peak or trough. */
  method ManageRisk(r: RiskLimits, position: real, entry: real, atr: real, highest: real, lowest: real, price: real)
    returns (exit: Option<Outcome>, newHighest: real, newLowest: real)
    requires position != 0.0
    ensures entry == 0.0 ==> exit == Some(ZeroEntryPrice) && newHighest == highest && newLowest == lowest
    ensures entry != 0.0 && position > 0.0 ==>
      && (exit.Some? <==> LongRiskExit(r, entry, atr, highest, price))
      && newHighest == (if !LongFixedExit(r, entry, atr, price) && Trailing(r) then Max(highest, price) else highest)
      && newLowest == lowest
    ensures entry != 0.0 && position < 0.0 ==>
      && (exit.Some? <==> ShortRiskExit(r, entry, atr, lowest, price))
      && newLowest == (if !ShortFixedExit(r, entry, atr, price) && Trailing(r) then Min(lowest, price) else lowest)
      && newHighest == highest
    ensures entry != 0.0 && exit.Some? ==> exit.value == Placed(Closing(position, price))
  {
    newHighest, newLowest := highest, lowest;
    if entry == 0.0 {
      return Some(ZeroEntryPrice), newHighest, newLowest;
    }
    var fixed;
    if position > 0.0 {
      fixed := LongFixedCheck(r, entry, atr, price);
    } else {
      fixed := ShortFixedCheck(r, entry, atr, price);
    }
    if fixed {
      return Some(Placed(Closing(position, price))), newHighest, newLowest;
    }
    exit := None;
    if r.trailActivation > 0.0 && r.trailPct > 0.0 {
      var trailed;
      trailed, newHighest, newLowest := TrailCheck(r, position, entry, highest, lowest, price);
      if trailed {
        exit := Some(Placed(Closing(position, price)));
      }
    }
  }

  // ---------------------------------------------------------------------
  // Signal registry and latest values
  // ---------------------------------------------------------------------

  /** A registered signal: an event signal, updated by calendar events, or
      a technical one, updated on every bar. */
  datatype SignalKind = Technical | Event(signal: EventSignal)

  /** One entry of the `signals` configuration: its `type`, its `id` (the
      type when left out) and the event signal's parameters. */
  datatype SignalConfig = SignalConfig(
    signalType: Option<string>,
    id: Option<string>,
    eventName: Option<string>,
    impact: Option<string>)

  const EventType: string := "Event"

  /** The signal types the strategy knows how to build. */
  predicate KnownType(t: string)
  {
    t in {"SMA", "RSI", "MACD", "Bollinger", EventType, "SupportResistance", "Trend", "ATR", "Time", "TimeRange"}
  }

  predicate Registered(cfg: SignalConfig)
  {
    cfg.signalType.Some? && KnownType(cfg.signalType.value)
  }

  function IdOf(cfg: SignalConfig): string
    requires cfg.signalType.Some?
  {
    cfg.id.GetOr(cfg.signalType.value)
  }

  function KindOf(cfg: SignalConfig): SignalKind
    requires cfg.signalType.Some?
  {
    if cfg.signalType.value == EventType then Event(FromParameters(cfg.eventName, cfg.impact)) else Technical
  }

  /** The signals a configuration registers, by id; a later entry with the
      same id replaces an earlier one, entries of unknown type are skipped. */
  function Registry(configs: seq<SignalConfig>): map<string, SignalKind>
  {
    if configs == [] then map[]
    else
      var m := Registry(configs[..|configs| - 1]);
      var cfg := configs[|configs| - 1];
      if Registered(cfg) then m[IdOf(cfg) := KindOf(cfg)] else m
  }

  /** The registered ids in the order they were first registered. */
  function RegistryOrder(configs: seq<SignalConfig>): seq<string>
  {
    if configs == [] then []
    else
      var ids := RegistryOrder(configs[..|configs| - 1]);
      var cfg := configs[|configs| - 1];
      if Registered(cfg) && IdOf(cfg) !in ids then ids + [IdOf(cfg)] else ids
  }

  /** The ids list every registered signal exactly once. */
  predicate WellFormed(ids: seq<string>, kinds: map<string, SignalKind>)
  {
    && (forall i, j | 0 <= i < j < |ids| :: ids[i] != ids[j])
    && (forall id | id in kinds :: id in ids)
    && (forall i | 0 <= i < |ids| :: ids[i] in kinds)
  }

  /** The registration order lists the registry's ids, each once, and
      every entry of known type is registered under its id. */
  lemma {:induction false} RegistryShape(configs: seq<SignalConfig>)
    ensures WellFormed(RegistryOrder(configs), Registry(configs))
    ensures forall i | 0 <= i < |configs| && Registered(configs[i]) :: IdOf(configs[i]) in Registry(configs)
  {
    if configs != [] {
      var init := configs[..|configs| - 1];
      RegistryShape(init);
      forall i | 0 <= i < |configs| - 1 && Registered(configs[i])
        ensures IdOf(configs[i]) in Registry(configs)
      {
        assert configs[i] == init[i];
      }
    }
  }

  /** An id keeps the kind of the last entry registered under it. */
  lemma {:induction false} LastEntryWins(configs: seq<SignalConfig>, i: nat)
    requires i < |configs| && Registered(configs[i])
    requires forall j | i < j < |configs| && Registered(configs[j]) :: IdOf(configs[j]) != IdOf(configs[i])
    ensures IdOf(configs[i]) in Registry(configs) && Registry(configs)[IdOf(configs[i])] == KindOf(configs[i])
  {
    if i < |configs| - 1 {
      var init := configs[..|configs| - 1];
      assert init[i] == configs[i];
      LastEntryWins(init, i);
    }
  }

  /** Registers the signals of a configuration, in order. */
  method Register(configs: seq<SignalConfig>) returns (ids: seq<string>, kinds: map<string, SignalKind>)
    ensures ids == RegistryOrder(configs) && kinds == Registry(configs)
    ensures WellFormed(ids, kinds)
  {
    ids, kinds := [], map[];
    var i := 0;
    while i < |configs|
      invariant 0 <= i <= |configs|
      invariant ids == RegistryOrder(configs[..i]) && kinds == Registry(configs[..i])
    {
      assert configs[..i + 1][..i] == configs[..i];
      var cfg := configs[i];
      if cfg.signalType.Some? && KnownType(cfg.signalType.value) {
        var id := cfg.id.GetOr(cfg.signalType.value);
        kinds := kinds[id := KindOf(cfg)];
        if id !in ids {
          ids := ids + [id];
        }
      }
      i := i + 1;
    }
    assert configs[..i] == configs;
    RegistryShape(configs);
  }

  /** Every technical signal produces a value on a bar. */
  predicate Generates(kinds: map<string, SignalKind>, generated: map<string, real>)
  {
    forall id | id in kinds && kinds[id].Technical? :: id in generated
  }

  /** The new values of the technical signals on a bar. */
  function TechnicalUpdates(kinds: map<string, SignalKind>, generated: map<string, real>): map<string, real>
    requires Generates(kinds, generated)
  {
    map id | id in kinds && kinds[id].Technical? :: generated[id]
  }

  /** Every event signal reset to 0. */
  function EventResets(kinds: map<string, SignalKind>): map<string, real>
  {
    map id | id in kinds && kinds[id].Event? :: 0.0
  }

  /** The event signals a calendar event moves, with their new values. */
  function EventUpdates(kinds: map<string, SignalKind>, e: CalendarEvent): map<string, real>
  {
    map id | id in kinds && kinds[id].Event? && OnEvent(kinds[id].signal, e) != 0.0 :: OnEvent(kinds[id].signal, e)
  }

  /** The part of `u` whose keys have been visited. */
  function Restrict(u: map<string, real>, visited: seq<string>): map<string, real>
  {
    map k | k in u && k in visited :: u[k]
  }

  /** Visiting one more id adds its update, if it has one. */
  lemma MergeStep(values: map<string, real>, u: map<string, real>, ids: seq<string>, i: nat)
    requires i < |ids|
    ensures values + Restrict(u, ids[..i + 1])
         == if ids[i] in u then (values + Restrict(u, ids[..i]))[ids[i] := u[ids[i]]]
            else values + Restrict(u, ids[..i])
  {
    assert ids[..i + 1] == ids[..i] + [ids[i]];
    assert forall k :: k in ids[..i + 1] <==> k in ids[..i] || k == ids[i];
  }

  /** Once every key of `u` has been visited, all of `u` is merged. */
  lemma MergeAll(values: map<string, real>, u: map<string, real>, ids: seq<string>)
    requires forall k | k in u :: k in ids
    ensures values + Restrict(u, ids) == values + u
  {
    assert Restrict(u, ids) == u;
  }

  /** One visit of the refresh loop: a technical id takes its generated value. */
  lemma TechnicalStep(values: map<string, real>, ids: seq<string>, kinds: map<string, SignalKind>,
                      generated: map<string, real>, i: nat)
    requires WellFormed(ids, kinds) && Generates(kinds, generated) && i < |ids|
    ensures ids[i] in kinds
    ensures kinds[ids[i]].Technical? ==> ids[i] in generated
    ensures values + Restrict(TechnicalUpdates(kinds, generated), ids[..i + 1])
         == if kinds[ids[i]].Technical?
            then (values + Restrict(TechnicalUpdates(kinds, generated), ids[..i]))[ids[i] := generated[ids[i]]]
            else values + Restrict(TechnicalUpdates(kinds, generated), ids[..i])
  {
    MergeStep(values, TechnicalUpdates(kinds, generated), ids, i);
  }

  /** Gives every technical signal the value it generated on this bar. */
  method RefreshTechnical(values: map<string, real>, ids: seq<string>, kinds: map<string, SignalKind>,
                          generated: map<string, real>) returns (r: map<string, real>)
    requires WellFormed(ids, kinds) && Generates(kinds, generated)
    ensures r == values + TechnicalUpdates(kinds, generated)
  {
    ghost var u := TechnicalUpdates(kinds, generated);
    r := values;
    for i := 0 to |ids|
      invariant r == values + Restrict(u, ids[..i])
    {
      TechnicalStep(values, ids, kinds, generated, i);
      var id := ids[i];
      if kinds[id].Technical? {
        r := r[id := generated[id]];
      }
    }
    assert ids[..|ids|] == ids;
    MergeAll(values, u, ids);
  }

  /** Resets every event signal to 0. */
  method ResetEvents(values: map<string, real>, ids: seq<string>, kinds: map<string, SignalKind>)
    returns (r: map<string, real>)
    requires WellFormed(ids, kinds)
    ensures r == values + EventResets(kinds)
  {
    ghost var u := EventResets(kinds);
    r := values;
    var i := 0;
    while i < |ids|
      invariant 0 <= i <= |ids|
      invariant r == values + Restrict(u, ids[..i])
    {
      MergeStep(values, u, ids, i);
      var id := ids[i];
      if kinds[id].Event? {
        r := r[id := 0.0];
      }
      i := i + 1;
    }
    assert ids[..i] == ids;
    MergeAll(values, u, ids);
  }

  /** Passes a calendar event to every event signal and keeps the signals
      it moves. */
  method ApplyEvent(values: map<string, real>, ids: seq<string>, kinds: map<string, SignalKind>, e: CalendarEvent)
    returns (r: map<string, real>)
    requires WellFormed(ids, kinds)
    ensures r == values + EventUpdates(kinds, e)
  {
    ghost var u := EventUpdates(kinds, e);
    r := values;
    var i := 0;
    while i < |ids|
      invariant 0 <= i <= |ids|
      invariant r == values + Restrict(u, ids[..i])
    {
      MergeStep(values, u, ids, i);
      var id := ids[i];
      if kinds[id].Event? {
        var v := OnEvent(kinds[id].signal, e);
        if v != 0.0 {
          r := r[id := v];
        }
      }
      i := i + 1;
    }
    assert ids[..i] == ids;
    MergeAll(values, u, ids);
  }

  /** A bar leaves the event signals alone and gives each technical signal
      its generated value. */
  lemma RefreshKeepsEvents(values: map<string, real>, kinds: map<string, SignalKind>, generated: map<string, real>, id: string)
    requires Generates(kinds, generated) && id in values && id in kinds
    ensures kinds[id].Event? ==> (values + TechnicalUpdates(kinds, generated))[id] == values[id]
    ensures kinds[id].Technical? ==> (values + TechnicalUpdates(kinds, generated))[id] == generated[id]
  {
  }

  /** A calendar event moves only event signals, and only to a direction. */
  lemma EventMovesOnlyEventSignals(values: map<string, real>, kinds: map<string, SignalKind>, e: CalendarEvent, id: string)
    requires id in values && id in kinds
    ensures kinds[id].Technical? ==> (values + EventUpdates(kinds, e))[id] == values[id]
    ensures (values + EventUpdates(kinds, e))[id] != values[id] ==>
      var v := (values + EventUpdates(kinds, e))[id]; v == 1.0 || v == -1.0
  {
  }

  /** The ATR captured at entry: the named signal's latest value, or 0 when
      no (non-empty) signal is named or it has no value. */
  function CapturedAtr(atrSignalId: Option<string>, values: map<string, real>): real
  {
    if atrSignalId.Some? && atrSignalId.value != "" && atrSignalId.value in values then values[atrSignalId.value]
    else 0.0
  }

  /** On entry: records the ATR and resets every event signal to 0. */
  method CaptureAtr(atrSignalId: Option<string>, ids: seq<string>, kinds: map<string, SignalKind>,
                    values: map<string, real>) returns (atr: real, reset: map<string, real>)
    requires WellFormed(ids, kinds)
    ensures atr == CapturedAtr(atrSignalId, values)
    ensures reset == values + EventResets(kinds)
  {
    if atrSignalId.Some? && atrSignalId.value != "" && atrSignalId.value in values {
      atr := values[atrSignalId.value];
    } else {
      atr := 0.0;
    }
    reset := ResetEvents(values, ids, kinds);
  }

  /** The strategy's parameters: its four condition lists, its risk limits
      and the id of the signal whose value is the ATR at entry. */
  datatype Rules = Rules(
    entryConditions: seq<Condition>,
    exitConditions: seq<Condition>,
    shortConditions: seq<Condition>,
    coverConditions: seq<Condition>,
    limits: RiskLimits,
    atrSignalId: Option<string>)

  /** The state of the open trade: entry price, ATR at entry, and the
      highest and lowest prices the trailing stops follow. */
  datatype Trade = Trade(entryPrice: real, entryAtr: real, highestPrice: real, lowestPrice: real)

  /** What one bar does, once the technical signals hold `refreshed`:
      with an open position it fails on a zero entry price, and otherwise
      closes the whole position exactly when a risk exit or the exit (long)
      or cover (short) conditions say so; flat, it buys on the entry
      conditions, or else sells short on the short conditions, recording
      the entry and clearing the event signals. */
  ghost predicate BarEffect(rules: Rules, kinds: map<string, SignalKind>, position: real, price: real,
                            refreshed: map<string, real>, before: Trade, after: Trade,
                            values: map<string, real>, outcome: Outcome)
  {
    var r := rules.limits;
    var entry := before.entryPrice;
    && (outcome.Placed? && position != 0.0 ==> outcome.order == Closing(position, price))
    && (position != 0.0 && entry == 0.0 ==>
          outcome == ZeroEntryPrice && after == before && values == refreshed)
    && (position != 0.0 && entry != 0.0 ==>
          && outcome != ZeroEntryPrice
          && values == refreshed
          && after.entryPrice == entry && after.entryAtr == before.entryAtr
          && (position > 0.0 ==>
                && (outcome.Placed? <==>
                      LongRiskExit(r, entry, before.entryAtr, before.highestPrice, price)
                      || AllHold(rules.exitConditions, refreshed, price))
                && after.highestPrice ==
                     (if !LongFixedExit(r, entry, before.entryAtr, price) && Trailing(r)
                      then Max(before.highestPrice, price) else before.highestPrice)
                && after.lowestPrice == before.lowestPrice)
          && (position < 0.0 ==>
                && (outcome.Placed? <==>
                      ShortRiskExit(r, entry, before.entryAtr, before.lowestPrice, price)
                      || AllHold(rules.coverConditions, refreshed, price))
                && after.lowestPrice ==
                     (if !ShortFixedExit(r, entry, before.entryAtr, price) && Trailing(r)
                      then Min(before.lowestPrice, price) else before.lowestPrice)
                && after.highestPrice == before.highestPrice))
    && (position == 0.0 ==>
          && (outcome == Placed(Order(Buy, price, EntrySize)) <==> AllHold(rules.entryConditions, refreshed, price))
          && (outcome == Placed(Order(Sell, price, EntrySize)) <==>
                !AllHold(rules.entryConditions, refreshed, price) && AllHold(rules.shortConditions, refreshed, price))
          && (outcome.Placed? || outcome == Idle)
          && (outcome.Placed? ==>
                && after.entryPrice == price
                && after.entryAtr == CapturedAtr(rules.atrSignalId, refreshed)
                && values == refreshed + EventResets(kinds)
                && (outcome.order.side == Buy ==>
                      after.highestPrice == price && after.lowestPrice == before.lowestPrice)
                && (outcome.order.side == Sell ==>
                      after.lowestPrice == price && after.highestPrice == before.highestPrice))
          && (outcome == Idle ==> after == before && values == refreshed))
  }

  /** The decisions of one bar after the technical signals are refreshed:
      risk exits first, then the four condition lists, then the order. */
  method Decide(rules: Rules, ids: seq<string>, kinds: map<string, SignalKind>, position: real, price: real,
                refreshed: map<string, real>, before: Trade)
    returns (outcome: Outcome, after: Trade, values: map<string, real>)
    requires WellFormed(ids, kinds) && refreshed.Keys == kinds.Keys
    ensures BarEffect(rules, kinds, position, price, refreshed, before, after, values, outcome)
    ensures values.Keys == kinds.Keys
  {
    after, values := before, refreshed;
    if position != 0.0 {
      var exit, h, l := ManageRisk(rules.limits, position, before.entryPrice, before.entryAtr,
                                   before.highestPrice, before.lowestPrice, price);
      after := after.(highestPrice := h, lowestPrice := l);
      if exit.Some? {
        return exit.value, after, values;
      }
    }

    var buySignal := ConditionsMet(rules.entryConditions, refreshed, price);
    var shortSignal := ConditionsMet(rules.shortConditions, refreshed, price);
    var sellSignal := ConditionsMet(rules.exitConditions, refreshed, price);
    var coverSignal := ConditionsMet(rules.coverConditions, refreshed, price);

    outcome := Idle;
    if position == 0.0 {
      if buySignal {
        outcome := Placed(Order(Buy, price, EntrySize));
        var atr, reset := CaptureAtr(rules.atrSignalId, ids, kinds, refreshed);
        after := after.(entryPrice := price, highestPrice := price, entryAtr := atr);
        values := reset;
      } else if shortSignal {
        outcome := Placed(Order(Sell, price, EntrySize));
        var atr, reset := CaptureAtr(rules.atrSignalId, ids, kinds, refreshed);
        after := after.(entryPrice := price, lowestPrice := price, entryAtr := atr);
        values := reset;
      }
    } else if position > 0.0 {
      if sellSignal {
        outcome := Placed(Order(Sell, price, position));
      }
    } else {
      if coverSignal {
        outcome := Placed(Order(Buy, price, Abs(position)));
      }
    }
  }

  /** What the broker reports: the position held in the strategy's symbol,
      if any, and the account balance. */
  datatype BrokerView = BrokerView(held: Option<real>, balance: real)

  // ---------------------------------------------------------------------
  // The strategy
  // ---------------------------------------------------------------------

  class CompositeStrategy {
    const ids: seq<string>
    const kinds: map<string, SignalKind>
    const rules: Rules

    var position: real
    var cash: real
    var entryPrice: real
    var entryAtr: real
    var highestPrice: real
    var lowestPrice: real
    var latestValues: map<string, real>
    /** Orders logged when there is no broker to take them. */
    var orders: seq<Order>

    /** Every registered signal, and only those, has a latest value. */
    predicate Valid()
      reads this
    {
      WellFormed(ids, kinds) && latestValues.Keys == kinds.Keys
    }

    function CurrentTrade(): Trade
      reads this
    {
      Trade(entryPrice, entryAtr, highestPrice, lowestPrice)
    }

    constructor (configs: seq<SignalConfig>, rules: Rules, initialCash: real)
      ensures Valid()
      ensures ids == RegistryOrder(configs) && kinds == Registry(configs) && this.rules == rules
      ensures latestValues == map id | id in kinds :: 0.0
      ensures position == 0.0 && cash == initialCash && orders == []
      ensures CurrentTrade() == Trade(0.0, 0.0, 0.0, 0.0)
    {
      var registeredIds, registered := Register(configs);
      ids, kinds, this.rules := registeredIds, registered, rules;
      latestValues := map id | id in registered :: 0.0;
      position, cash, orders := 0.0, initialCash, [];
      entryPrice, entryAtr, highestPrice, lowestPrice := 0.0, 0.0, 0.0, 0.0;
    }

    /** One bar: syncs with the broker, refreshes the technical signals,
        then runs the risk checks and the conditions; an order goes to the
        broker, or to the log when there is none. */
    method OnData(price: real, broker: Option<BrokerView>, generated: map<string, real>) returns (outcome: Outcome)
      requires Valid() && Generates(kinds, generated)
      modifies this
      ensures Valid()
      ensures position == (if broker.Some? then broker.value.held.GetOr(0.0) else old(position))
      ensures cash == (if broker.Some? then broker.value.balance else old(cash))
      ensures BarEffect(rules, kinds, position, price, old(latestValues) + TechnicalUpdates(kinds, generated),
                        old(CurrentTrade()), CurrentTrade(), latestValues, outcome)
      ensures orders == old(orders) + if broker.None? && outcome.Placed? then [outcome.order] else []
    {
      if broker.Some? {
        position := broker.value.held.GetOr(0.0);
        cash := broker.value.balance;
      }
      var refreshed := RefreshTechnical(latestValues, ids, kinds, generated);
      var after, values;
      outcome, after, values := Decide(rules, ids, kinds, position, price, refreshed, CurrentTrade());
      latestValues := values;
      entryPrice, entryAtr, highestPrice, lowestPrice := after.entryPrice, after.entryAtr, after.highestPrice, after.lowestPrice;
      assert CurrentTrade() == after;
      if outcome.Placed? && broker.None? {
        orders := orders + [outcome.order];
      }
    }

    /** A calendar event: each event signal it moves takes the new value. */
    method OnEvent(e: CalendarEvent)
      requires Valid()
      modifies this`latestValues
      ensures Valid()
      ensures latestValues == old(latestValues) + EventUpdates(kinds, e)
    {
      latestValues := ApplyEvent(latestValues, ids, kinds, e);
    }
  }
}
