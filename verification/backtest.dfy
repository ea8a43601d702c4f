/** A backtest of one instrument: the strategy is built, configured, and
    `onBars` is called once per bar in time order. The broker and the
    moving-average indicator are external; what they report on each bar
    (the cash, the latest average) is part of the input, and the average is
    tied to its trailing-mean contract by `SmaConsistent`. */
module Backtest {
  import opened Basics
  import opened MovingAverage
  import opened SmaStrategy

  /** What `onBars` reads on one bar: the bar's price, the broker's cash and
      the indicator's latest value. */
  datatype Tick = Tick(price: real, cash: real, sma: Option<real>)

  /** The final strategy state and one action per bar. */
  datatype Trace = Trace(final: Strategy, actions: seq<Action>)

  function Prices(ticks: seq<Tick>): (ps: seq<real>)
    ensures |ps| == |ticks|
    ensures forall i :: 0 <= i < |ticks| ==> ps[i] == ticks[i].price
  {
    seq(|ticks|, i requires 0 <= i < |ticks| => ticks[i].price)
  }

  /** Every bar carries the `period`-bar average of the closes up to and
      including it, and nothing from later bars. */
  ghost predicate SmaConsistent(ticks: seq<Tick>, period: nat)
    requires period >= 1
  {
    forall i {:trigger SmaAt(ticks, period, i)} :: 0 <= i < |ticks| ==> ticks[i].sma == SmaAt(ticks, period, i)
  }

  /** The indicator's value on bar `i` by its contract. */
  ghost function SmaAt(ticks: seq<Tick>, period: nat, i: nat): Option<real>
    requires period >= 1 && i < |ticks|
  {
    SmaLast(Prices(ticks[..i + 1]), period)
  }

  function Entries(actions: seq<Action>): nat
  {
    if |actions| == 0 then 0
    else Entries(actions[..|actions| - 1]) + (if actions[|actions| - 1].Enter? then 1 else 0)
  }

  function Exits(actions: seq<Action>): nat
  {
    if |actions| == 0 then 0
    else Exits(actions[..|actions| - 1]) + (if actions[|actions| - 1].Exit? then 1 else 0)
  }

  /** The strategy as the batch backtest script configures it before running. */
  function Configured(riskPercent: real, budgetUse: real): (s: Strategy)
    ensures s.position.None? && s.stopLoss == 0.0 && s.fillPrice == 0.0
    ensures s.riskPercent == riskPercent && s.budgetUse == budgetUse
  {
    SetBudgetUse(SetRiskPercent(Init(), riskPercent), budgetUse)
  }

  /** Replays `ticks` through a freshly configured strategy. An exception on
      any bar ends the run. */
  function Replay(riskPercent: real, budgetUse: real, ticks: seq<Tick>): (r: Result<Trace, StepError>)
    decreases |ticks|
    ensures r.Ok? ==> |r.value.actions| == |ticks|
    // the parameters set before the run are the ones in force at its end
    ensures r.Ok? ==> r.value.final.riskPercent == riskPercent && r.value.final.budgetUse == budgetUse
    // at most one open position: exits never outrun entries, entries never outrun exits by two
    ensures r.Ok? ==> Exits(r.value.actions) <= Entries(r.value.actions) <= Exits(r.value.actions) + 1
    ensures r.Ok? ==> (r.value.final.position.Some? <==> Entries(r.value.actions) == Exits(r.value.actions) + 1)
  {
    if |ticks| == 0 then Ok(Trace(Configured(riskPercent, budgetUse), []))
    else
      match Replay(riskPercent, budgetUse, ticks[..|ticks| - 1])
      case Err(e) => Err(e)
      case Ok(t) =>
        var bar := ticks[|ticks| - 1];
        match OnBars(t.final, bar.price, bar.sma, bar.cash)
        case Err(e) => Err(e)
        case Ok(o) =>
          // lets `Entries` and `Exits` unfold over the extended action list
          assert t.actions + [o.action] == (t.actions + [o.action])[..|t.actions|] + [o.action];
          Ok(Trace(o.next, t.actions + [o.action]))
  }

  /** The last bar of a replay, taken on its own: the replay of all bars is
      the replay of the earlier ones followed by one `onBars` call. */
  lemma LastStep(riskPercent: real, budgetUse: real, ticks: seq<Tick>)
    requires |ticks| > 0
    requires Replay(riskPercent, budgetUse, ticks[..|ticks| - 1]).Ok?
    ensures
      var t := Replay(riskPercent, budgetUse, ticks[..|ticks| - 1]).value;
      var last := ticks[|ticks| - 1];
      var o := OnBars(t.final, last.price, last.sma, last.cash);
      o.Ok? ==>
        && Replay(riskPercent, budgetUse, ticks).Ok?
        && Replay(riskPercent, budgetUse, ticks).value.final == o.value.next
        && Replay(riskPercent, budgetUse, ticks).value.actions[|ticks| - 1] == o.value.action
  {
  }

  /** Replaying the first `k` bars gives the first `k` actions of the full
      replay: a bar's decision never depends on later bars. */
  lemma {:induction false} ReplayPrefix(riskPercent: real, budgetUse: real, ticks: seq<Tick>, k: nat)
    requires k <= |ticks|
    requires Replay(riskPercent, budgetUse, ticks).Ok?
    ensures Replay(riskPercent, budgetUse, ticks[..k]).Ok?
    ensures Replay(riskPercent, budgetUse, ticks[..k]).value.actions
            == Replay(riskPercent, budgetUse, ticks).value.actions[..k]
    decreases |ticks| - k
  {
    if k < |ticks| {
      var front := ticks[..|ticks| - 1];
      ReplayPrefix(riskPercent, budgetUse, front, k);
      assert front[..k] == ticks[..k];
    } else {
      assert ticks[..k] == ticks;
    }
  }

  /** The action on bar `i` together with the state the strategy had before it. */
  lemma StepAt(riskPercent: real, budgetUse: real, ticks: seq<Tick>, i: nat)
    requires i < |ticks|
    requires Replay(riskPercent, budgetUse, ticks).Ok?
    ensures Replay(riskPercent, budgetUse, ticks[..i]).Ok?
    ensures
      var before := Replay(riskPercent, budgetUse, ticks[..i]).value;
      var o := OnBars(before.final, ticks[i].price, ticks[i].sma, ticks[i].cash);
      && before.actions == Replay(riskPercent, budgetUse, ticks).value.actions[..i]
      && o.Ok? && o.value.action == Replay(riskPercent, budgetUse, ticks).value.actions[i]
  {
    ReplayPrefix(riskPercent, budgetUse, ticks, i + 1);
    ReplayPrefix(riskPercent, budgetUse, ticks, i);
    var pre := ticks[..i + 1];
    assert pre[..|pre| - 1] == ticks[..i];
    assert pre[|pre| - 1] == ticks[i];
  }

  /** Entries and exits alternate, starting with an entry: a position is
      opened only while none is open and closed only while one is. */
  lemma EntriesAndExitsAlternate(riskPercent: real, budgetUse: real, ticks: seq<Tick>, i: nat)
    requires i < |ticks|
    requires Replay(riskPercent, budgetUse, ticks).Ok?
    ensures
      var acts := Replay(riskPercent, budgetUse, ticks).value.actions;
      && (acts[i].Enter? ==> Entries(acts[..i]) == Exits(acts[..i]))
      && (acts[i].Exit? ==> Entries(acts[..i]) == Exits(acts[..i]) + 1)
  {
    StepAt(riskPercent, budgetUse, ticks, i);
  }

  /** With positive prices and a positive risk percentage, an open position's
      stop always lies below its fill price: the stop is set once at entry
      and never moved. */
  lemma {:induction false} StopStaysBelowFill(riskPercent: real, budgetUse: real, ticks: seq<Tick>)
    requires riskPercent > 0.0
    requires forall i :: 0 <= i < |ticks| ==> ticks[i].price > 0.0
    requires Replay(riskPercent, budgetUse, ticks).Ok?
    ensures
      var s := Replay(riskPercent, budgetUse, ticks).value.final;
      s.position.Some? ==> s.stopLoss < s.fillPrice
  {
    if |ticks| > 0 {
      var front := ticks[..|ticks| - 1];
      StopStaysBelowFill(riskPercent, budgetUse, front);
      var t := Replay(riskPercent, budgetUse, front).value;
      var bar := ticks[|ticks| - 1];
      if t.final.position.None? && bar.sma.Some? && bar.sma.value < bar.price {
        EntryStopBelowPrice(t.final, bar.price, bar.sma, bar.cash);
      }
    }
  }

  /** The average a consistent bar carries, restated for the closes so far. */
  lemma ConsistentAt(ticks: seq<Tick>, period: nat, i: nat)
    requires period >= 1 && i < |ticks| && SmaConsistent(ticks, period)
    ensures ticks[i].sma == SmaLast(Prices(ticks)[..i + 1], period)
  {
    assert ticks[i].sma == SmaAt(ticks, period, i);
    assert Prices(ticks[..i + 1]) == Prices(ticks)[..i + 1];
  }

  lemma ConsistentPrefix(ticks: seq<Tick>, period: nat, k: nat)
    requires period >= 1 && k <= |ticks| && SmaConsistent(ticks, period)
    ensures SmaConsistent(ticks[..k], period)
  {
    forall i | 0 <= i < k
      ensures ticks[..k][i].sma == SmaAt(ticks[..k], period, i)
    {
      assert ticks[i].sma == SmaAt(ticks, period, i);
      assert ticks[..k][..i + 1] == ticks[..i + 1];
    }
  }

  /** Warm-up: during the first `period - 1` bars the average is unavailable
      and the strategy stays exactly as configured, taking no action. */
  lemma {:induction false} WarmUpDoesNothing(riskPercent: real, budgetUse: real, period: nat, ticks: seq<Tick>)
    requires period >= 1 && |ticks| < period && SmaConsistent(ticks, period)
    ensures Replay(riskPercent, budgetUse, ticks).Ok?
    ensures Replay(riskPercent, budgetUse, ticks).value.final == Configured(riskPercent, budgetUse)
    ensures forall i :: 0 <= i < |ticks| ==> Replay(riskPercent, budgetUse, ticks).value.actions[i] == Wait
  {
    if |ticks| > 0 {
      var front := ticks[..|ticks| - 1];
      ConsistentPrefix(ticks, period, |ticks| - 1);
      WarmUpDoesNothing(riskPercent, budgetUse, period, front);
      ConsistentAt(ticks, period, |ticks| - 1);
      LastStep(riskPercent, budgetUse, ticks);
    }
  }

  /** While the price never moves the strategy never trades: the average is
      unavailable or equal to the price, and the entry test is strict. */
  lemma {:induction false} FlatPricesNeverTrade(riskPercent: real, budgetUse: real, period: nat, ticks: seq<Tick>, c: real)
    requires period >= 1 && SmaConsistent(ticks, period)
    requires forall i :: 0 <= i < |ticks| ==> ticks[i].price == c
    ensures Replay(riskPercent, budgetUse, ticks).Ok?
    ensures Replay(riskPercent, budgetUse, ticks).value.final == Configured(riskPercent, budgetUse)
    ensures forall i :: 0 <= i < |ticks| ==> Replay(riskPercent, budgetUse, ticks).value.actions[i] == Wait
  {
    if |ticks| > 0 {
      var front := ticks[..|ticks| - 1];
      ConsistentPrefix(ticks, period, |ticks| - 1);
      FlatPricesNeverTrade(riskPercent, budgetUse, period, front, c);
      ConsistentAt(ticks, period, |ticks| - 1);
      var ps := Prices(ticks);
      assert ps[..|ticks|] == ps;
      if |ps| >= period {
        SmaOfConstantWindow(ps, period, c);
      }
      LastStep(riskPercent, budgetUse, ticks);
    }
  }

  /** After a flat stretch at least as long as the warm-up, the first bar
      that closes above the flat level enters, taking the entry decision of
      the untouched configured strategy, with the stop below the entry price. */
  lemma BreakoutEnters(riskPercent: real, budgetUse: real, period: nat, ticks: seq<Tick>, c: real)
    requires period >= 2 && |ticks| >= period && SmaConsistent(ticks, period)
    requires forall i :: 0 <= i < |ticks| - 1 ==> ticks[i].price == c
    requires ticks[|ticks| - 1].price > c && ticks[|ticks| - 1].price > 0.0
    requires riskPercent > 0.0
    ensures Replay(riskPercent, budgetUse, ticks).Ok?
    ensures
      var t := Replay(riskPercent, budgetUse, ticks).value;
      var last := ticks[|ticks| - 1];
      var o := OnBars(Configured(riskPercent, budgetUse), last.price, last.sma, last.cash);
      && o.Ok? && o.value.action.Enter?
      && t.actions[|ticks| - 1] == o.value.action
      && t.final.fillPrice == last.price
      && t.final.stopLoss < last.price
  {
    var last := ticks[|ticks| - 1];
    var s := Configured(riskPercent, budgetUse);
    assert last.sma.Some? && last.sma.value < last.price by {
      ConsistentAt(ticks, period, |ticks| - 1);
      var ps := Prices(ticks);
      assert ps[..|ticks|] == ps;
      BreakoutAboveAverage(ps, period, c);
    }
    assert Replay(riskPercent, budgetUse, ticks[..|ticks| - 1]).Ok?
        && Replay(riskPercent, budgetUse, ticks[..|ticks| - 1]).value.final == s by {
      ConsistentPrefix(ticks, period, |ticks| - 1);
      FlatPricesNeverTrade(riskPercent, budgetUse, period, ticks[..|ticks| - 1], c);
    }
    EntryStopBelowPrice(s, last.price, last.sma, last.cash);
    LastStep(riskPercent, budgetUse, ticks);
  }

  /** The breakout entry buys as many whole shares as the budget share of
      the cash allows. */
  lemma BreakoutBuysMaxShares(riskPercent: real, budgetUse: real, period: nat, ticks: seq<Tick>, c: real)
    requires period >= 2 && |ticks| >= period && SmaConsistent(ticks, period)
    requires forall i :: 0 <= i < |ticks| - 1 ==> ticks[i].price == c
    requires ticks[|ticks| - 1].price > c && ticks[|ticks| - 1].price > 0.0
    requires riskPercent > 0.0
    ensures Replay(riskPercent, budgetUse, ticks).Ok?
    ensures
      var a := Replay(riskPercent, budgetUse, ticks).value.actions[|ticks| - 1];
      var last := ticks[|ticks| - 1];
      a.Enter? && IsAffordableMax(a.shares, last.cash * budgetUse, last.price)
  {
    BreakoutEnters(riskPercent, budgetUse, period, ticks, c);
    var last := ticks[|ticks| - 1];
    var s := Configured(riskPercent, budgetUse);
    var a := OnBars(s, last.price, last.sma, last.cash).value.action;
    assert IsAffordableMax(a.shares, last.cash * s.budgetUse, last.price);
  }
}
