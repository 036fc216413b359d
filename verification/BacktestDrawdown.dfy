/** The single-pass drawdown equals the worst loss between any two marks. */
module BacktestDrawdown {
  import opened Reals
  import opened Backtest
  import opened BacktestMoney

  /** An account's cash and its quantity at a close. */
  function Worth(a: Account, close: real): real {
    if a.long then a.capital + a.quantity * close else a.capital
  }

  lemma MarkIsWorth(a: Account, close: real)
    ensures Mark(a, close) == Worth(a, close)
  {}

  /** The initial capital followed by what the account is worth after each candle. */
  function Marks(config: Config, openedAt: real, bars: seq<Bar>): seq<real> {
    if bars == [] then [config.initialCapital]
    else
      var front, bar := bars[..|bars| - 1], bars[|bars| - 1];
      Marks(config, openedAt, front)
        + [Worth(Act(config, Fold(config, Start(config, openedAt), front), bar), bar.candle.close)]
  }

  /** Percentage lost from one mark to a later one. */
  function Loss(from: real, to: real): real {
    if from > 0.0 then (from - to) / from * 100.0 else 0.0
  }

  predicate IsPeak(marks: seq<real>, peak: real) {
    && (forall i :: 0 <= i < |marks| ==> marks[i] <= peak)
    && (exists i :: 0 <= i < |marks| && marks[i] == peak)
  }

  /** d is the largest loss over all pairs of marks a <= b. */
  predicate IsWorstLoss(marks: seq<real>, d: real) {
    && (forall i, j :: 0 <= i <= j < |marks| ==> Loss(marks[i], marks[j]) <= d)
    && (exists i, j :: 0 <= i <= j < |marks| && Loss(marks[i], marks[j]) == d)
  }

  lemma LossIsRest(from: real, to: real)
    requires from > 0.0
    ensures Loss(from, to) == 100.0 - to / from * 100.0
  {
    QuotientOfDifference(from, to, from);
  }

  lemma LossGrowsWithStart(x: real, peak: real, to: real)
    requires 0.0 < x <= peak && to >= 0.0
    ensures Loss(x, to) <= Loss(peak, to)
  {
    LossIsRest(x, to);
    LossIsRest(peak, to);
    QuotientAntitone(to, x, peak);
  }

  lemma LossBelowHundred(from: real, to: real)
    requires to > 0.0
    ensures Loss(from, to) < 100.0
  {
    if from > 0.0 {
      QuotientPositive(to, from);
      LossIsRest(from, to);
    }
  }

  lemma AppendPeak(marks: seq<real>, peak: real, mark: real)
    requires IsPeak(marks, peak)
    ensures IsPeak(marks + [mark], Max(peak, mark))
  {
    var all := marks + [mark];
    var p :| 0 <= p < |marks| && marks[p] == peak;
    assert all[if mark > peak then |marks| else p] == Max(peak, mark);
  }

  lemma WorstFacts(maxDd: real, top: real, mark: real)
    requires maxDd >= 0.0 && mark >= 0.0
    ensures WorstDrawdown(maxDd, top, mark) >= maxDd
    ensures forall x :: x <= top ==> Loss(x, mark) <= WorstDrawdown(maxDd, top, mark)
    ensures WorstDrawdown(maxDd, top, mark) == maxDd || WorstDrawdown(maxDd, top, mark) == Loss(top, mark)
  {
    forall x | x <= top ensures Loss(x, mark) <= WorstDrawdown(maxDd, top, mark) {
      if x > 0.0 {
        LossGrowsWithStart(x, top, mark);
      }
    }
  }

  /** One mark appended: what `Marked` does to the drawdown. */
  lemma AppendMark(marks: seq<real>, peak: real, maxDd: real, mark: real)
    requires mark >= 0.0 && IsPeak(marks, peak) && IsWorstLoss(marks, maxDd)
    ensures IsWorstLoss(marks + [mark], WorstDrawdown(maxDd, Max(peak, mark), mark))
  {
    var all, n, top := marks + [mark], |marks|, Max(peak, mark);
    var worst := WorstDrawdown(maxDd, top, mark);
    assert maxDd >= Loss(marks[0], marks[0]) == 0.0;
    WorstFacts(maxDd, top, mark);
    AppendPeak(marks, peak, mark);
    hide WorstDrawdown, Loss, Max;
    forall i, j | 0 <= i <= j < |all| ensures Loss(all[i], all[j]) <= worst {
      if j == n {
        assert all[i] <= top;
      } else {
        assert Loss(marks[i], marks[j]) <= maxDd;
      }
    }
    if worst == maxDd {
      var i, j :| 0 <= i <= j < |marks| && Loss(marks[i], marks[j]) == maxDd;
      assert Loss(all[i], all[j]) == worst;
    } else {
      var q :| 0 <= q < |all| && all[q] == top;
      assert Loss(all[q], all[n]) == worst;
    }
  }

  lemma MarkSign(config: Config, a: Account, close: real)
    requires Reconciles(config, a) && config.feePct < 1.0 && config.initialCapital >= 0.0 && close > 0.0
    ensures if config.initialCapital > 0.0 then Mark(a, close) > 0.0 else Mark(a, close) == 0.0
  {
    if config.initialCapital > 0.0 {
      StakePositive(config, a);
      if a.long {
        ProductPositive(a.quantity, close);
      }
    } else {
      assert Stake(a) == 0.0;
      if a.long {
        assert a.quantity == 0.0;
      }
    }
  }

  lemma {:induction false} DrawdownInvariant(config: Config, openedAt: real, bars: seq<Bar>)
    requires config.feePct < 1.0 && config.initialCapital >= 0.0
    ensures var a, marks := Fold(config, Start(config, openedAt), bars), Marks(config, openedAt, bars);
            && |marks| == |bars| + 1
            && (forall i :: 0 <= i < |marks| ==>
                  if config.initialCapital > 0.0 then marks[i] > 0.0 else marks[i] == 0.0)
            && IsPeak(marks, a.peak)
            && IsWorstLoss(marks, a.maxDd)
  {
    var marks := Marks(config, openedAt, bars);
    if bars == [] {
      assert Loss(marks[0], marks[0]) == 0.0;
    } else {
      var n := |bars| - 1;
      var front, bar := bars[..n], bars[n];
      var before := Fold(config, Start(config, openedAt), front);
      var acted := Act(config, before, bar);
      DrawdownInvariant(config, openedAt, front);
      RunReconciles(config, openedAt, front);
      ActReconciles(config, before, bar);
      MarkSign(config, acted, bar.candle.close);
      var mark := Mark(acted, bar.candle.close);
      MarkIsWorth(acted, bar.candle.close);
      hide Worth;
      assert acted.peak == before.peak && acted.maxDd == before.maxDd;
      assert Fold(config, Start(config, openedAt), bars) == Marked(acted, bar.candle.close);
      assert marks == Marks(config, openedAt, front) + [mark];
      hide Fold, Marks, Act, Mark, Reconciles, WorstDrawdown, Loss, IsPeak, IsWorstLoss;
      AppendPeak(Marks(config, openedAt, front), before.peak, mark);
      AppendMark(Marks(config, openedAt, front), before.peak, before.maxDd, mark);
    }
  }

  /** The reported drawdown is the largest percentage loss over all pairs a <= b of the marks
      that follow the initial capital, and it stays below 100. */
  lemma {:induction false} DrawdownRefinement(config: Config, bars: seq<Bar>)
    requires bars != [] && config.feePct < 1.0 && config.initialCapital >= 0.0
    ensures IsWorstLoss(Marks(config, bars[0].candle.openedAt, bars), ReportOf(config, bars).maxDrawdownPct)
    ensures 0.0 <= ReportOf(config, bars).maxDrawdownPct < 100.0
  {
    var marks, d := Marks(config, bars[0].candle.openedAt, bars), ReportOf(config, bars).maxDrawdownPct;
    DrawdownInvariant(config, bars[0].candle.openedAt, bars);
    hide Fold, Marks, Summary;
    assert Loss(marks[0], marks[0]) == 0.0;
    var i, j :| 0 <= i <= j < |marks| && Loss(marks[i], marks[j]) == d;
    if marks[j] > 0.0 {
      LossBelowHundred(marks[i], marks[j]);
    }
  }

  lemma {:induction false} MarksPrefix(config: Config, openedAt: real, bars: seq<Bar>, k: nat)
    requires k <= |bars|
    ensures |Marks(config, openedAt, bars)| == |bars| + 1 && |Marks(config, openedAt, bars[..k])| == k + 1
    ensures Marks(config, openedAt, bars)[k] == Marks(config, openedAt, bars[..k])[k]
    decreases |bars|
  {
    if bars == [] {
      assert bars[..k] == [];
    } else {
      var n := |bars| - 1;
      if k <= n {
        MarksPrefix(config, openedAt, bars[..n], k);
        assert bars[..n][..k] == bars[..k];
      } else {
        assert bars[..k] == bars;
        MarksPrefix(config, openedAt, bars[..n], n);
        assert bars[..n][..n] == bars[..n];
      }
    }
  }

  lemma MarkedKeeps(a: Account, close: real)
    ensures var b := Marked(a, close); b.long == a.long && b.capital == a.capital && b.quantity == a.quantity
  {}

  function AfterFee(x: real, feePct: real): real {
    x * (1.0 - feePct)
  }

  lemma WorthWhenClosed(a: Account, close: real, feePct: real)
    requires a.long ==> a.capital == 0.0
    ensures if a.long then Gross(a.quantity, close, feePct) == AfterFee(Worth(a, close), feePct) else Worth(a, close) == a.capital
  {
    GrossOfNotional(a.quantity, close, feePct);
  }

  lemma LongHasNoCash(config: Config, openedAt: real, bars: seq<Bar>)
    ensures var a := Fold(config, Start(config, openedAt), bars); a.long ==> a.capital == 0.0
  {
    RunReconciles(config, openedAt, bars);
  }

  /** The last mark is what closing now would bring, but for the exit fee. */
  lemma LastMark(config: Config, bars: seq<Bar>)
    requires bars != [] && |Marks(config, bars[0].candle.openedAt, bars)| == |bars| + 1
    ensures var a, m := Final(config, bars), Marks(config, bars[0].candle.openedAt, bars)[|bars|];
            ClosedCapital(config, a, LastCandle(bars)) == if a.long then AfterFee(m, config.feePct) else m
  {
    hide Worth, Gross, Act, Marked, AfterFee;
    var openedAt, n := bars[0].candle.openedAt, |bars| - 1;
    var acted := Act(config, Fold(config, Start(config, openedAt), bars[..n]), bars[n]);
    var close := bars[n].candle.close;
    MarksPrefix(config, openedAt, bars[..n], n);
    LongHasNoCash(config, openedAt, bars);
    MarkedKeeps(acted, close);
    WorthWhenClosed(acted, close, config.feePct);
  }

  /** Every mark is what closing at that candle would bring, but for the exit fee. */
  lemma MarksAreLiquidationValues(config: Config, bars: seq<Bar>, k: nat)
    requires 0 < k <= |bars|
    ensures k < |Marks(config, bars[0].candle.openedAt, bars)|
    ensures var a, m := Final(config, bars[..k]), Marks(config, bars[0].candle.openedAt, bars)[k];
            ClosedCapital(config, a, bars[k - 1].candle) == if a.long then AfterFee(m, config.feePct) else m
  {
    hide Marks, Fold, ClosedCapital, AfterFee;
    MarksPrefix(config, bars[0].candle.openedAt, bars, k);
    LastMark(config, bars[..k]);
  }
}
