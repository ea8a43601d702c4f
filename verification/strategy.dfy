/** The SMA long-only decision rule of `MovingAverageStrategy`: a two-state
    machine, FLAT (no position) and LONG (one position), stepped once per bar
    by the bar's price, the latest moving-average value and the broker's cash. */
module SmaStrategy {
  import opened Basics

  /** The open position returned by `enterLong`; only its size is observable here. */
  datatype Position = Position(shares: int)

  /** The strategy object's decision state and its two tunable parameters. */
  datatype Strategy = Strategy(
    position: Option<Position>,
    stopLoss: real,
    fillPrice: real,
    riskPercent: real,
    budgetUse: real)

  /** What one bar made the strategy do. */
  datatype Action = Wait | Enter(shares: int) | Exit

  /** The exception `onBars` can raise: a floor division by a zero price. */
  datatype StepError = DivisionByZero

  datatype Outcome = Outcome(next: Strategy, action: Action)

  /** Parameters and fixed stop of a state are the same in `a` and `b`. */
  predicate SameSettings(a: Strategy, b: Strategy)
  {
    a.stopLoss == b.stopLoss && a.fillPrice == b.fillPrice
    && a.riskPercent == b.riskPercent && a.budgetUse == b.budgetUse
  }

  /** The state a freshly constructed strategy starts in. */
  function Init(): (s: Strategy)
    ensures s.position.None?
    ensures s.stopLoss == 0.0 && s.fillPrice == 0.0
    ensures s.riskPercent == 2.0 && s.budgetUse == 0.0
  {
    Strategy(None, 0.0, 0.0, 2.0, 0.0)
  }

  function SetBudgetUse(s: Strategy, budgetUse: real): (r: Strategy)
    ensures r.budgetUse == budgetUse
    ensures r.position == s.position && r.stopLoss == s.stopLoss
    ensures r.fillPrice == s.fillPrice && r.riskPercent == s.riskPercent
  {
    s.(budgetUse := budgetUse)
  }

  function SetRiskPercent(s: Strategy, riskPercent: real): (r: Strategy)
    ensures r.riskPercent == riskPercent
    ensures r.position == s.position && r.stopLoss == s.stopLoss
    ensures r.fillPrice == s.fillPrice && r.budgetUse == s.budgetUse
  {
    s.(riskPercent := riskPercent)
  }

  /** The stop placed at entry: the price less the largest accepted loss,
      `riskPercent` per cent of the price. */
  function StopFor(riskPercent: real, price: real): real
  {
    var maxRisk := riskPercent * price * 0.01;
    price - maxRisk
  }

  /** `n` whole shares are the most that `budget` buys at `price`. */
  predicate IsAffordableMax(n: int, budget: real, price: real)
    requires price > 0.0
  {
    n as real * price <= budget < (n + 1) as real * price
  }

  /** Python's `budget // price` for a positive price is the affordable maximum. */
  lemma FloorQuotientIsMax(budget: real, price: real)
    ensures price > 0.0 ==> IsAffordableMax((budget / price).Floor, budget, price)
  {
    if price > 0.0 {
      var q := budget / price;
      var n := q.Floor;
      assert n as real <= q < n as real + 1.0;
      assert q * price == budget;
      assert n as real * price <= q * price;
      assert q * price < (n as real + 1.0) * price;
    }
  }

  /** One call of `onBars`. */
  function OnBars(s: Strategy, price: real, sma: Option<real>, cash: real): (r: Result<Outcome, StepError>)
    // the only failure: entering at a zero price
    ensures r.Err? <==> sma.Some? && s.position.None? && sma.value < price && price == 0.0
    // a step never touches the parameters
    ensures r.Ok? ==> r.value.next.riskPercent == s.riskPercent && r.value.next.budgetUse == s.budgetUse
    // warm-up: nothing at all happens while the average is unavailable
    ensures sma.None? ==> r == Ok(Outcome(s, Wait))
    // entry opens exactly one position, sized to the budget, with a stop below by riskPercent per cent
    ensures r.Ok? && r.value.action.Enter? ==>
              && s.position.None? && sma.Some? && sma.value < price
              && r.value.next.position == Some(Position(r.value.action.shares))
              && r.value.next.fillPrice == price
              && r.value.next.stopLoss == price * (1.0 - s.riskPercent / 100.0)
              && (price > 0.0 ==> IsAffordableMax(r.value.action.shares, cash * s.budgetUse, price))
    ensures s.position.None? && sma.Some? && sma.value < price && price != 0.0 ==> r.Ok? && r.value.action.Enter?
    // exit clears the position on the same bar and keeps the recorded stop and fill
    ensures r.Ok? && r.value.action.Exit? ==>
              && s.position.Some? && sma.Some? && (sma.value > price || price <= s.stopLoss)
              && r.value.next.position.None? && SameSettings(r.value.next, s)
    ensures s.position.Some? && sma.Some? && (sma.value > price || price <= s.stopLoss) ==> r.Ok? && r.value.action.Exit?
    // every other bar leaves the state exactly as it was
    ensures r.Ok? && r.value.action.Wait? ==> r.value.next == s
  {
    if sma.None? then Ok(Outcome(s, Wait))
    else if s.position.None? then
      if sma.value < price then
        if price == 0.0 then Err(DivisionByZero)
        else
          var shares := ((cash * s.budgetUse) / price).Floor;
          FloorQuotientIsMax(cash * s.budgetUse, price);
          Ok(Outcome(s.(position := Some(Position(shares)), stopLoss := StopFor(s.riskPercent, price), fillPrice := price),
                     Enter(shares)))
      else Ok(Outcome(s, Wait))
    else if sma.value > price || price <= s.stopLoss then
      Ok(Outcome(s.(position := None), Exit))
    else Ok(Outcome(s, Wait))
  }

  /** With a positive price and a positive risk percentage the stop set at
      entry lies strictly below the entry price. */
  lemma EntryStopBelowPrice(s: Strategy, price: real, sma: Option<real>, cash: real)
    requires s.position.None? && sma.Some? && sma.value < price
    requires price > 0.0 && s.riskPercent > 0.0
    ensures OnBars(s, price, sma, cash).Ok?
    ensures OnBars(s, price, sma, cash).value.next.stopLoss < OnBars(s, price, sma, cash).value.next.fillPrice
  {
  }

  /** A LONG bar that does not exit either has no average yet or has its
      price above the stop and the average at or below the price. */
  lemma HoldMeansAboveStop(s: Strategy, price: real, sma: Option<real>, cash: real)
    requires s.position.Some?
    requires OnBars(s, price, sma, cash).Ok? && OnBars(s, price, sma, cash).value.action.Wait?
    ensures sma.None? || (price > s.stopLoss && sma.value <= price)
  {
  }

  /** A FLAT strategy whose average lies below a positive price enters on
      that bar at the affordable maximum with its stop below the price. */
  lemma EntryFromFlat(s: Strategy, price: real, sma: Option<real>, cash: real)
    requires s.position.None? && sma.Some? && sma.value < price
    requires price > 0.0 && s.riskPercent > 0.0
    ensures
      var r := OnBars(s, price, sma, cash);
      && r.Ok? && r.value.action.Enter?
      && IsAffordableMax(r.value.action.shares, cash * s.budgetUse, price)
      && r.value.next.fillPrice == price && r.value.next.stopLoss < price
  {
  }

  lemma BelowOneShare(x: real, budget: real, price: real)
    requires price > 0.0 && budget < price && x * price <= budget
    ensures x < 1.0
  {
  }

  lemma AboveMinusOneShare(x: real, budget: real, price: real)
    requires price > 0.0 && 0.0 <= budget && budget < (x + 1.0) * price
    ensures x > -1.0
  {
  }

  /** A budget below one share's price affords no whole share. */
  lemma NoShareBelowPrice(n: int, budget: real, price: real)
    requires price > 0.0 && 0.0 <= budget < price
    requires IsAffordableMax(n, budget, price)
    ensures n == 0
  {
    BelowOneShare(n as real, budget, price);
    assert (n + 1) as real == n as real + 1.0;
    AboveMinusOneShare(n as real, budget, price);
  }

  /** A budget below one share's price still enters, with zero shares: the
      strategy passes the share count to `enterLong` unchecked, and the model
      assumes `enterLong` returns a position for any share count. */
  lemma TooLittleCashEntersWithZeroShares(s: Strategy, price: real, sma: Option<real>, cash: real)
    requires s.position.None? && sma.Some? && sma.value < price && price > 0.0
    requires 0.0 <= cash * s.budgetUse < price
    ensures OnBars(s, price, sma, cash) == Ok(Outcome(
              s.(position := Some(Position(0)), stopLoss := StopFor(s.riskPercent, price), fillPrice := price),
              Enter(0)))
  {
    var r := OnBars(s, price, sma, cash).value;
    NoShareBelowPrice(r.action.shares, cash * s.budgetUse, price);
    assert r.action == Enter(0);
    assert r.next.stopLoss == StopFor(s.riskPercent, price);
    assert r.next == s.(position := Some(Position(0)), stopLoss := StopFor(s.riskPercent, price), fillPrice := price);
  }
}
