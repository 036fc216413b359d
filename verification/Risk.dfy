/** The risk gate: app/modules/risk/application/services.py and its trading adapter. */
module Risk {
  import opened Wrappers
  import opened Reals

  datatype RiskProfile = RiskProfile(
    maxPositionPct: real, maxDailyLossPct: real, maxDrawdownPct: real, allowLeverage: bool, failedClosed: bool)

  datatype KillSwitch = KillSwitch(active: bool, reason: Option<string>)

  datatype Decision = Decision(approved: bool, reason: string)

  datatype RiskEvent = RiskBreached(symbol: string, reason: string) | KillSwitchTriggered(reason: string)

  const DEFAULT_PROFILE := RiskProfile(0.10, 0.02, 0.15, false, true)
  const DEFAULT_SWITCH := KillSwitch(false, None)

  /** `reason or fallback`: an absent or empty reason is replaced. */
  function ReasonOr(reason: Option<string>, fallback: string): string {
    if reason.None? || reason.value == "" then fallback else reason.value
  }

  predicate Breaches(profile: RiskProfile, dailyLoss: real, positionPct: real) {
    positionPct > profile.maxPositionPct * 1.5 || dailyLoss > profile.maxDailyLossPct * 1.5
  }

  /** The refusal of the checks that precede the breach notification, if any. */
  function Refusal(switch: KillSwitch, profile: RiskProfile, dailyLoss: real, positionPct: real): Option<string> {
    if switch.active then Some("kill_switch: " + ReasonOr(switch.reason, "active"))
    else if !profile.allowLeverage && positionPct > 1.0 then Some("leverage_disabled")
    else if positionPct > profile.maxPositionPct then Some("max_position_exceeded")
    else if dailyLoss > profile.maxDailyLossPct then Some("daily_loss_exceeded")
    else None
  }

  /** Whether checking an order publishes a breach. */
  predicate Notifies(switch: KillSwitch, profile: RiskProfile, dailyLoss: real, positionPct: real) {
    Refusal(switch, profile, dailyLoss, positionPct).None? && Breaches(profile, dailyLoss, positionPct)
  }

  function Decide(switch: KillSwitch, profile: RiskProfile, dailyLoss: real, positionPct: real): Decision {
    match Refusal(switch, profile, dailyLoss, positionPct)
    case Some(reason) => Decision(false, reason)
    case None =>
      if Breaches(profile, dailyLoss, positionPct) && !profile.failedClosed then Decision(false, "posture_breach")
      else Decision(true, "ok")
  }

  class RiskService {
    var profile: RiskProfile
    var switch: KillSwitch
    var published: seq<RiskEvent>

    constructor ()
      ensures profile == DEFAULT_PROFILE && switch == DEFAULT_SWITCH && published == []
    {
      profile, switch, published := DEFAULT_PROFILE, DEFAULT_SWITCH, [];
    }

    method SetProfile(p: RiskProfile) returns (r: RiskProfile)
      modifies this`profile
      ensures r == profile == p
    {
      profile := p;
      r := p;
    }

    method SetKillSwitch(active: bool, reason: Option<string>) returns (state: KillSwitch)
      modifies this`switch, this`published
      ensures state == switch == KillSwitch(active, reason)
      ensures published == old(published)
                           + if active then [KillSwitchTriggered(ReasonOr(reason, "manual"))] else []
    {
      state := KillSwitch(active, reason);
      switch := state;
      if active {
        published := published + [KillSwitchTriggered(ReasonOr(reason, "manual"))];
      }
    }

    method BreachNotify(symbol: string, positionPct: real, dailyLoss: real) returns (refused: bool)
      modifies this`published
      ensures refused <==> Breaches(profile, dailyLoss, positionPct) && !profile.failedClosed
      ensures published == old(published)
                           + if Breaches(profile, dailyLoss, positionPct) then [RiskBreached(symbol, "posture_breach")] else []
    {
      if positionPct > profile.maxPositionPct * 1.5 || dailyLoss > profile.maxDailyLossPct * 1.5 {
        published := published + [RiskBreached(symbol, "posture_breach")];
        return !profile.failedClosed;
      }
      return false;
    }

    method CheckOrder(symbol: string, dailyLoss: real, positionPct: real) returns (decision: Decision)
      modifies this`published
      ensures decision == Decide(switch, profile, dailyLoss, positionPct)
      ensures published == old(published)
                           + if Notifies(switch, profile, dailyLoss, positionPct) then [RiskBreached(symbol, "posture_breach")] else []
    {
      if switch.active {
        return Decision(false, "kill_switch: " + ReasonOr(switch.reason, "active"));
      }
      if !profile.allowLeverage && positionPct > 1.0 {
        return Decision(false, "leverage_disabled");
      }
      if positionPct > profile.maxPositionPct {
        return Decision(false, "max_position_exceeded");
      }
      if dailyLoss > profile.maxDailyLossPct {
        return Decision(false, "daily_loss_exceeded");
      }
      var refused := BreachNotify(symbol, positionPct, dailyLoss);
      if refused {
        return Decision(false, "posture_breach");
      }
      return Decision(true, "ok");
    }
  }

  // ----- The trading adapter ------------------------------------------------------

  function PositionPct(notional: real, equity: real): real {
    if equity != 0.0 then notional / equity else 1.0
  }

  /** The adapter always reports a daily loss of 0. */
  function Authorised(switch: KillSwitch, profile: RiskProfile, notional: real, equity: real): Decision {
    Decide(switch, profile, 0.0, PositionPct(notional, equity))
  }

  function BreachesPublished(switch: KillSwitch, profile: RiskProfile, symbol: string, notional: real, equity: real): seq<RiskEvent> {
    if Notifies(switch, profile, 0.0, PositionPct(notional, equity)) then [RiskBreached(symbol, "posture_breach")] else []
  }

  class RiskServiceAdapter {
    const service: RiskService

    constructor (service: RiskService)
      ensures this.service == service
    {
      this.service := service;
    }

    method Authorise(symbol: string, notional: real, equity: real) returns (allowed: bool, reason: string)
      modifies service`published
      ensures Decision(allowed, reason) == Authorised(service.switch, service.profile, notional, equity)
      ensures service.published == old(service.published)
                                   + BreachesPublished(service.switch, service.profile, symbol, notional, equity)
    {
      var positionPct := if equity != 0.0 then notional / equity else 1.0;
      var decision := service.CheckOrder(symbol, 0.0, positionPct);
      return decision.approved, decision.reason;
    }
  }

  // ----- Properties -------------------------------------------------------------------

  predicate WithinPosition(notional: real, profile: RiskProfile, equity: real) {
    notional <= profile.maxPositionPct * equity
  }

  predicate WithinLimits(notional: real, profile: RiskProfile, equity: real) {
    WithinPosition(notional, profile, equity) && (profile.allowLeverage || notional <= equity)
  }

  predicate NonNegativeLimits(profile: RiskProfile) {
    profile.maxPositionPct >= 0.0 && profile.maxDailyLossPct >= 0.0
  }

  /** With nonnegative limits an order is approved exactly within the limits, switch off. */
  lemma ApprovedIff(switch: KillSwitch, profile: RiskProfile, dailyLoss: real, positionPct: real)
    requires NonNegativeLimits(profile)
    ensures Decide(switch, profile, dailyLoss, positionPct).approved <==>
              && !switch.active && positionPct <= profile.maxPositionPct && dailyLoss <= profile.maxDailyLossPct
              && (profile.allowLeverage || positionPct <= 1.0)
  {}

  /** Checking an order can publish a breach exactly when some limit is negative. */
  lemma NeverNotifiesIff(profile: RiskProfile)
    ensures NonNegativeLimits(profile) <==>
            forall switch, dailyLoss, positionPct :: !Notifies(switch, profile, dailyLoss, positionPct)
  {
    var m, l := profile.maxPositionPct, profile.maxDailyLossPct;
    if m < 0.0 {
      assert Notifies(DEFAULT_SWITCH, profile, l, m);
    } else if l < 0.0 {
      assert Notifies(DEFAULT_SWITCH, profile, l, 0.0);
    }
  }

  /** A breaching order can be approved exactly under failed_closed with some limit negative. */
  lemma BreachApprovedIff(profile: RiskProfile)
    ensures (exists switch, dailyLoss, positionPct ::
               Decide(switch, profile, dailyLoss, positionPct).approved && Breaches(profile, dailyLoss, positionPct))
            <==> profile.failedClosed && !NonNegativeLimits(profile)
  {
    var m, l := profile.maxPositionPct, profile.maxDailyLossPct;
    if profile.failedClosed && m < 0.0 {
      assert Decide(DEFAULT_SWITCH, profile, l, m).approved && Breaches(profile, l, m);
    } else if profile.failedClosed && l < 0.0 {
      var pct := if m < 1.0 then m else 1.0;
      assert Decide(DEFAULT_SWITCH, profile, l, pct).approved && Breaches(profile, l, pct);
    }
  }

  /** One such order, as the trading adapter asks: a limit of -1 and an equity of -80 let a
      notional of 100 through, an exposure of -1.25 that breaches the posture. */
  lemma BreachApproved(profile: RiskProfile)
    requires profile == RiskProfile(-1.0, 0.02, 0.15, false, true)
    ensures PositionPct(100.0, -80.0) == -1.25 && Breaches(profile, 0.0, -1.25)
    ensures Authorised(DEFAULT_SWITCH, profile, 100.0, -80.0).approved
  {}

  /** Orders of positive notional and equity, which are all the order route lets in, are never
      approved in breach of the posture, whatever the profile. */
  lemma NoBreachOnPositiveEquity(switch: KillSwitch, profile: RiskProfile, notional: real, equity: real)
    requires notional > 0.0 && equity > 0.0 && Authorised(switch, profile, notional, equity).approved
    ensures !Breaches(profile, 0.0, PositionPct(notional, equity))
  {
    QuotientPositive(notional, equity);
  }

  /** The first check that fails gives the reason, in this order; an empty or absent reason of
      the switch reads active. */
  lemma ReasonGiven(switch: KillSwitch, p: RiskProfile, loss: real, pct: real)
    ensures var d := Decide(switch, p, loss, pct);
            var why := if switch.reason.Some? && switch.reason.value != "" then switch.reason.value else "active";
            && (switch.active ==> !d.approved && d.reason == "kill_switch: " + why)
            && (!switch.active && !p.allowLeverage && pct > 1.0 ==> !d.approved && d.reason == "leverage_disabled")
            && (!switch.active && (p.allowLeverage || pct <= 1.0) && pct > p.maxPositionPct ==>
                  !d.approved && d.reason == "max_position_exceeded")
            && (!switch.active && (p.allowLeverage || pct <= 1.0) && pct <= p.maxPositionPct && loss > p.maxDailyLossPct ==>
                  !d.approved && d.reason == "daily_loss_exceeded")
            && (!switch.active && (p.allowLeverage || pct <= 1.0) && pct <= p.maxPositionPct && loss <= p.maxDailyLossPct ==>
                  d.reason == if d.approved then "ok" else "posture_breach")
            && (d.approved ==> d.reason == "ok")
  {}

  /** An order within all limits breaches the posture exactly if some limit is negative and it
      uses less than one and a half times that limit's magnitude. */
  lemma BreachWithinLimits(p: RiskProfile, loss: real, pct: real)
    requires pct <= p.maxPositionPct && loss <= p.maxDailyLossPct
    ensures Breaches(p, loss, pct) <==>
              || (p.maxPositionPct < 0.0 && -pct < -p.maxPositionPct * 1.5)
              || (p.maxDailyLossPct < 0.0 && -loss < -p.maxDailyLossPct * 1.5)
  {}

  /** With positive equity, what exceeds the position limit times equity, or equity itself without
      leverage, is refused. */
  lemma RefusedBeyond(switch: KillSwitch, p: RiskProfile, notional: real, equity: real)
    requires equity > 0.0 && !WithinLimits(notional, p, equity)
    ensures !Authorised(switch, p, notional, equity).approved
  {
    QuotientTimes(notional, equity);
    if notional / equity <= p.maxPositionPct {
      ProductMonotone(notional / equity, p.maxPositionPct, equity);
    }
    if notional / equity <= 1.0 {
      ProductMonotone(notional / equity, 1.0, equity);
    }
  }

  predicate Looser(p: RiskProfile, q: RiskProfile) {
    && p.maxPositionPct <= q.maxPositionPct && p.maxDailyLossPct <= q.maxDailyLossPct
    && (p.allowLeverage ==> q.allowLeverage) && p.failedClosed == q.failedClosed
  }

  /** Approval survives lower exposure, lower loss and looser limits, whatever their signs. */
  lemma ApprovalMonotone(
    switch: KillSwitch, p: RiskProfile, q: RiskProfile, loss: real, loss': real, pct: real, pct': real)
    requires Looser(p, q) && loss' <= loss && pct' <= pct
    requires Decide(switch, p, loss, pct).approved
    ensures Decide(switch, q, loss', pct').approved
  {}

  /** An authorised order of positive notional respects the position limit times equity, and
      equity itself without leverage, exactly when equity is positive. Under a negative limit
      only a negative equity gets orders through, and the bound is met with equality or not at all. */
  lemma AuthorisedBoundIff(switch: KillSwitch, profile: RiskProfile, notional: real, equity: real)
    requires notional > 0.0 && Authorised(switch, profile, notional, equity).approved
    ensures profile.maxPositionPct >= 0.0 ==> (notional <= profile.maxPositionPct * equity <==> equity > 0.0)
    ensures profile.maxPositionPct < 0.0 ==>
              equity < 0.0 && (notional <= profile.maxPositionPct * equity <==> notional == profile.maxPositionPct * equity)
    ensures equity > 0.0 && !profile.allowLeverage ==> notional <= equity
    ensures !switch.active
  {
    if equity > 0.0 {
      QuotientTimes(notional, equity);
      QuotientPositive(notional, equity);
      ProductMonotone(notional / equity, profile.maxPositionPct, equity);
      if !profile.allowLeverage {
        ProductMonotone(notional / equity, 1.0, equity);
      }
    } else if profile.maxPositionPct >= 0.0 {
      ProductNonNegative(profile.maxPositionPct, -equity);
    } else if equity < 0.0 {
      QuotientTimes(notional, equity);
      ProductMonotone(notional / equity, profile.maxPositionPct, -equity);
    }
  }

  /** Zero equity counts as a position of 100%: every notional is approved under a position limit
      of at least 1, and none under a smaller one. */
  lemma ZeroEquityIff(switch: KillSwitch, p: RiskProfile, notional: real)
    ensures Authorised(switch, p, notional, 0.0).approved <==>
              !switch.active && p.maxPositionPct >= 1.0 && p.maxDailyLossPct >= 0.0
  {}

  /** So with a limit of 1 the bound is exceeded by any positive notional. */
  lemma ZeroEquityAuthorisesAnything(notional: real)
    requires notional > 0.0
    ensures var profile := DEFAULT_PROFILE.(maxPositionPct := 1.0);
            && Authorised(DEFAULT_SWITCH, profile, notional, 0.0).approved
            && !WithinPosition(notional, profile, 0.0)
  {}

  /** Through the adapter the drawdown limit never has an effect, and the daily-loss limit none
      among nonnegative values; a negative daily-loss limit refuses every order. */
  lemma DailyLossLimitIsInert(switch: KillSwitch, p: RiskProfile, daily: real, drawdown: real, notional: real, equity: real)
    ensures Authorised(switch, p.(maxDrawdownPct := drawdown), notional, equity) == Authorised(switch, p, notional, equity)
    ensures p.maxDailyLossPct >= 0.0 && daily >= 0.0 ==>
              Authorised(switch, p.(maxDailyLossPct := daily), notional, equity) == Authorised(switch, p, notional, equity)
    ensures p.maxDailyLossPct < 0.0 ==> !Authorised(switch, p, notional, equity).approved
  {}
}
