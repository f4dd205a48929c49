/** The threshold evaluators: an alarm is raised when its condition holds and it is not yet
    active, and resolved when the condition no longer holds and it is. */
module Evaluators {
  import opened AlertTypes
  import opened Engine
  import B = Blocks
  import opened Wrappers

  /** What is known of the validator; counts as read from the chain, amounts as reals. */
  datatype ValInfo = ValInfo(missed: int, window: int, delegatedTokens: real, commissionRate: real)

  datatype Limits = Limits(
    consecutiveMissed: int, missedPercent: int, consecutiveEmpty: int, emptyPercent: int,
    stakeIncrease: real, stakeDrop: real, commission: real)

  /** The board after a guarded evaluation of one condition. */
  function Guarded(b: Board, views: ChainViews, defaults: AlertConfig, name: string, message: string, severity: string,
                   condition: bool, id: string, now: Time): Board
  {
    if condition == (id in Of(b.all, name)) then b
    else Post(b, views, defaults, name, message, severity, !condition, id, now)
  }

  /** The whole effect of a guarded evaluation, with the two answers it gives: an inactive alarm
      whose condition holds is raised, an active one whose condition fails is resolved, and
      otherwise nothing happens, to AllAlarms or to the queue. */
  ghost predicate Evaluates(b: Board, b': Board, c: ChainView, defaults: AlertConfig, name: string, severity: string,
                            condition: bool, id: string, now: Time, alert: bool, resolved: bool)
  {
    var was := id in Of(b.all, name);
    && alert == (condition && !was) && resolved == (!condition && was)
    && if alert || resolved then AlertRaised(b, b', c, defaults, name, severity, resolved, id, now) else b' == b
  }

  /** After a pass the alarm is active exactly when its condition holds, except that silence
      keeps an inactive alarm inactive; no other alarm of any chain moves. */
  lemma GuardedSettles(b: Board, views: ChainViews, defaults: AlertConfig, name: string, message: string,
                       severity: string, condition: bool, id: string, now: Time)
    requires name in views && now != ZERO_TIME && Stamped(Of(b.all, name))
    ensures var b' := Guarded(b, views, defaults, name, message, severity, condition, id, now);
      var silenced := Silenced(views[name].silencedUntil, now);
      && Stamped(Of(b'.all, name)) && (forall c | c != name :: Of(b'.all, c) == Of(b.all, c))
      && (id in Of(b'.all, name) <==> condition && (id in Of(b.all, name) || !silenced))
      && (forall i | i != id :: i in Of(b'.all, name) <==> i in Of(b.all, name))
      && (forall i | i in Of(b'.all, name) && i in Of(b.all, name) :: Of(b'.all, name)[i] == Of(b.all, name)[i])
  {
    hide Post, Silenced;
    RaiseEffect(b, views, defaults, name, message, severity, !condition, id, now);
  }

  class Evaluator {
    const td: Config
    const cc: ChainConfig
    const stats: B.SignStats
    const limits: Limits
    var valInfo: Option<ValInfo>
    var lastValInfo: Option<ValInfo>

    constructor (td: Config, cc: ChainConfig, stats: B.SignStats, limits: Limits)
      ensures this.td == td && this.cc == cc && this.stats == stats && this.limits == limits
      ensures valInfo == None && lastValInfo == None
    {
      this.td, this.cc, this.stats, this.limits := td, cc, stats, limits;
      valInfo, lastValInfo := None, None;
    }

    ghost predicate Valid()
      reads td`Chains, td.alarms`AllAlarms
    {
      cc.name in td.Chains && td.Chains[cc.name] == cc && Stamped(Of(td.alarms.AllAlarms, cc.name))
    }

    ghost predicate Active(id: string)
      reads td.alarms`AllAlarms
    {
      id in Of(td.alarms.AllAlarms, cc.name)
    }

    method Settle(condition: bool, id: string, message: string, severity: string, now: Time)
        returns (alert: bool, resolved: bool)
      requires Valid() && now != ZERO_TIME
      modifies td`alertChan, td.alarms`AllAlarms
      ensures Valid() && td.Views() == old(td.Views())
      ensures td.View() == Guarded(old(td.View()), td.Views(), td.DefaultAlertConfig, cc.name, message, severity,
            condition, id, now)
      ensures Active(id) <==> condition && (old(Active(id)) || !Silenced(cc.silencedUntil, now))
      ensures forall i | i != id :: Active(i) == old(Active(i))
      ensures Evaluates(old(td.View()), td.View(), cc.View(), td.DefaultAlertConfig, cc.name, severity, condition, id,
                        now, alert, resolved)
    {
      hide Post, Silenced, AlertRaised;
      assert td.Views()[cc.name] == cc.View();
      RaiseRecords(td.View(), td.Views(), td.DefaultAlertConfig, cc.name, message, severity, !condition, id, now);
      alert, resolved := false, false;
      GuardedSettles(td.View(), td.Views(), td.DefaultAlertConfig, cc.name, message, severity, condition, id, now);
      var known := td.alarms.Exist(cc.name, id);
      if condition {
        if !known {
          td.Alert(cc.name, message, severity, false, id, now);
          alert := true;
        }
      } else {
        if known {
          td.Alert(cc.name, message, severity, true, id, now);
          resolved := true;
        }
      }
    }

    method EvaluateConsecutiveBlocksMissed(severity: string, now: Time) returns (alert: bool, resolved: bool)
      requires Valid() && now != ZERO_TIME
      modifies td`alertChan, td.alarms`AllAlarms
      ensures Valid() && td.Views() == old(td.Views())
      ensures var id := "ConsecutiveBlocksMissed_" + cc.ValAddress;
        var holds := stats.statConsecutiveMiss >= limits.consecutiveMissed;
        && (Active(id) <==> holds && (old(Active(id)) || !Silenced(cc.silencedUntil, now)))
        && (forall i | i != id :: Active(i) == old(Active(i)))
        && Evaluates(old(td.View()), td.View(), cc.View(), td.DefaultAlertConfig, cc.name, severity, holds, id, now,
                     alert, resolved)
    {
      hide Guarded, Silenced, AlertRaised;
      var alertID := "ConsecutiveBlocksMissed_" + cc.ValAddress;
      alert, resolved := Settle(stats.statConsecutiveMiss >= limits.consecutiveMissed, alertID,
          "blocks missed in a row", severity, now);
    }

    /** Dividing by an empty window gives infinity or no number, which compare as true for a
        positive count of misses and as false otherwise. */
    method EvaluatePercentageBlocksMissed(severity: string, now: Time) returns (alert: bool, resolved: bool)
      requires Valid() && now != ZERO_TIME && valInfo.Some?
      modifies td`alertChan, td.alarms`AllAlarms
      ensures Valid() && td.Views() == old(td.Views())
      ensures var id := "PercentageBlocksMissed_" + cc.ValAddress;
        var v := valInfo.value;
        var holds := if v.window > 0 then 100 * v.missed >= limits.missedPercent * v.window
                     else if v.window < 0 then 100 * v.missed <= limits.missedPercent * v.window
                     else v.missed > 0;
        && (Active(id) <==> holds && (old(Active(id)) || !Silenced(cc.silencedUntil, now)))
        && (forall i | i != id :: Active(i) == old(Active(i)))
        && Evaluates(old(td.View()), td.View(), cc.View(), td.DefaultAlertConfig, cc.name, severity, holds, id, now,
                     alert, resolved)
    {
      hide Guarded, Silenced, AlertRaised;
      var alertID := "PercentageBlocksMissed_" + cc.ValAddress;
      var info := valInfo.value;
      var over: bool;
      if info.window == 0 {
        over := info.missed > 0;
      } else {
        over := 100.0 * info.missed as real / info.window as real >= limits.missedPercent as real;
        ShareCompares(100 * info.missed, info.window, limits.missedPercent);
        assert 100.0 * info.missed as real == (100 * info.missed) as real;
      }
      alert, resolved := Settle(over, alertID, "too many blocks of the window missed", severity, now);
    }

    method EvaluateConsecutiveEmptyBlocks(severity: string, now: Time) returns (alert: bool, resolved: bool)
      requires Valid() && now != ZERO_TIME
      modifies td`alertChan, td.alarms`AllAlarms
      ensures Valid() && td.Views() == old(td.Views())
      ensures var id := "ConsecutiveEmptyBlocks_" + cc.ValAddress;
        var holds := stats.statConsecutiveEmpty >= limits.consecutiveEmpty;
        && (Active(id) <==> holds && (old(Active(id)) || !Silenced(cc.silencedUntil, now)))
        && (forall i | i != id :: Active(i) == old(Active(i)))
        && Evaluates(old(td.View()), td.View(), cc.View(), td.DefaultAlertConfig, cc.name, severity, holds, id, now,
                     alert, resolved)
    {
      hide Guarded, Silenced, AlertRaised;
      var alertID := "ConsecutiveEmptyBlocks_" + cc.ValAddress;
      alert, resolved := Settle(stats.statConsecutiveEmpty >= limits.consecutiveEmpty, alertID,
          "empty blocks in a row", severity, now);
    }

    /** Before the first proposal the share counts as zero. */
    method EvaluatePercentageEmptyBlocks(severity: string, now: Time) returns (alert: bool, resolved: bool)
      requires Valid() && now != ZERO_TIME
      modifies td`alertChan, td.alarms`AllAlarms
      ensures Valid() && td.Views() == old(td.Views())
      ensures var id := "PercentageEmptyBlocks_" + cc.ValAddress;
        var holds := if stats.statTotalProps > 0
            then 100 * stats.statTotalPropsEmpty >= limits.emptyPercent * stats.statTotalProps
                     else limits.emptyPercent <= 0;
        && (Active(id) <==> holds && (old(Active(id)) || !Silenced(cc.silencedUntil, now)))
        && (forall i | i != id :: Active(i) == old(Active(i)))
        && Evaluates(old(td.View()), td.View(), cc.View(), td.DefaultAlertConfig, cc.name, severity, holds, id, now,
                     alert, resolved)
    {
      hide Guarded, Silenced, AlertRaised;
      var emptyBlocksPercent := 0.0;
      if stats.statTotalProps > 0 {
        emptyBlocksPercent := 100.0 * stats.statTotalPropsEmpty as real / stats.statTotalProps as real;
        ShareCompares(100 * stats.statTotalPropsEmpty, stats.statTotalProps, limits.emptyPercent);
        assert 100.0 * stats.statTotalPropsEmpty as real == (100 * stats.statTotalPropsEmpty) as real;
      }
      var alertID := "PercentageEmptyBlocks_" + cc.ValAddress;
      alert, resolved := Settle(emptyBlocksPercent >= limits.emptyPercent as real, alertID, "too many empty blocks",
          severity, now);
    }

    /** Nothing happens without two readings or when the earlier stake was not positive. */
    method EvaluateStakeChange(now: Time) returns (alert: bool, resolved: bool)
      requires Valid() && now != ZERO_TIME
      modifies td`alertChan, td.alarms`AllAlarms
      ensures Valid() && td.Views() == old(td.Views())
      ensures var id := "StakeChange_" + cc.ValAddress;
        if valInfo.Some? && lastValInfo.Some? && lastValInfo.value.delegatedTokens > 0.0 then
          var after, before := valInfo.value.delegatedTokens, lastValInfo.value.delegatedTokens;
          var holds := if after < before then before - after >= limits.stakeDrop * before
                       else after - before >= limits.stakeIncrease * before;
          && (Active(id) <==> holds && (old(Active(id)) || !Silenced(cc.silencedUntil, now)))
          && (forall i | i != id :: Active(i) == old(Active(i)))
          && Evaluates(old(td.View()), td.View(), cc.View(), td.DefaultAlertConfig, cc.name, "warning", holds, id, now,
                       alert, resolved)
        else
          td.View() == old(td.View()) && !alert && !resolved
    {
      hide Guarded, Silenced, AlertRaised;
      alert, resolved := false, false;
      if valInfo.Some? && lastValInfo.Some? && lastValInfo.value.delegatedTokens > 0.0 {
        var stakeNow := valInfo.value.delegatedTokens;
        var stakeBefore := lastValInfo.value.delegatedTokens;
        var stakeChangePercent := (stakeNow - stakeBefore) / stakeBefore;
        var threshold := limits.stakeIncrease;
        if stakeChangePercent < 0.0 {
          threshold := limits.stakeDrop;
        }
        RatioCompares(stakeNow - stakeBefore, stakeBefore, threshold);
        RatioCompares(stakeBefore - stakeNow, stakeBefore, threshold);
        RatioCompares(stakeNow - stakeBefore, stakeBefore, 0.0);
        assert (stakeBefore - stakeNow) / stakeBefore == -stakeChangePercent;
        var alertID := "StakeChange_" + cc.ValAddress;
        alert, resolved := Settle(Abs(stakeChangePercent) >= threshold, alertID, "stake changed", "warning", now);
      }
    }

    method EvaluateCommissionChange(now: Time) returns (alert: bool, resolved: bool)
      requires Valid() && now != ZERO_TIME
      modifies td`alertChan, td.alarms`AllAlarms
      ensures Valid() && td.Views() == old(td.Views())
      ensures var id := "CommissionChange_" + cc.ValAddress;
        if valInfo.Some? && lastValInfo.Some? then
          var after, before := valInfo.value.commissionRate, lastValInfo.value.commissionRate;
          var holds := after >= before + limits.commission || after <= before - limits.commission;
          && (Active(id) <==> holds && (old(Active(id)) || !Silenced(cc.silencedUntil, now)))
          && (forall i | i != id :: Active(i) == old(Active(i)))
          && Evaluates(old(td.View()), td.View(), cc.View(), td.DefaultAlertConfig, cc.name, "warning", holds, id, now,
                       alert, resolved)
        else
          td.View() == old(td.View()) && !alert && !resolved
    {
      hide Guarded, Silenced, AlertRaised;
      alert, resolved := false, false;
      if valInfo.Some? && lastValInfo.Some? {
        var commissionChange := valInfo.value.commissionRate - lastValInfo.value.commissionRate;
        var alertID := "CommissionChange_" + cc.ValAddress;
        alert, resolved := Settle(Abs(commissionChange) >= limits.commission, alertID, "commission changed",
            "warning", now);
      }
    }
  }

  function Abs(x: real): real {
    if x < 0.0 then -x else x
  }

  /** A quotient is at least y exactly when the numerator is at least y times the denominator. */
  lemma RatioCompares(x: real, d: real, y: real)
    requires d > 0.0
    ensures x / d >= y <==> x >= y * d
  {
    var q := x / d;
    assert q * d == x;
    if q >= y {
      assert (q - y) * d >= 0.0;
    } else {
      assert (y - q) * d > 0.0;
    }
  }

  lemma ShareCompares(x: int, d: int, percent: int)
    requires d != 0
    ensures x as real / d as real >= percent as real <==> if d > 0 then x >= percent * d else x <= percent * d
  {
    assert percent as real * d as real == (percent * d) as real;
    if d > 0 {
      RatioCompares(x as real, d as real, percent as real);
    } else {
      RatioCompares(-x as real, -d as real, percent as real);
      assert (-x) as real / (-d) as real == x as real / d as real;
      assert percent as real * (-d) as real == -(percent * d) as real;
    }
  }

  /** With statistics kept over any history, an unsilenced pass of the consecutive-miss
      evaluator leaves its alarm active exactly when the run of misses that the history ends
      with has reached the limit. */
  lemma MissAlarmFollowsHistory(window: seq<int>, events: seq<B.Event>, exclude: bool, limit: int,
                                b: Board, views: ChainViews, defaults: AlertConfig, name: string, message: string,
                                severity: string, id: string, now: Time)
      returns (record: seq<int>, run: nat)
    requires window != [] && B.Ranked(events)
    requires name in views && now != ZERO_TIME && Stamped(Of(b.all, name)) && !Silenced(views[name].silencedUntil, now)
    ensures B.IsRecord(events, record)
    ensures B.IsTrailingRun(record, st => st >= B.MISSED, st => B.IsMiss(exclude, st), run)
    ensures var holds := B.Run(window, events, exclude).consecutiveMiss >= limit;
      id in Of(Guarded(b, views, defaults, name, message, severity, holds, id, now).all, name) <==> run >= limit
  {
    hide Guarded, Silenced, B.IsRecord, B.IsTrailingRun, B.Run;
    record := B.StatisticsMatchHistory(window, events, exclude);
    run := B.Run(window, events, exclude).consecutiveMiss;
    GuardedSettles(b, views, defaults, name, message, severity, run >= limit, id, now);
  }

  // ---------------------------------------------------------------------------
  // Runs
  // ---------------------------------------------------------------------------

  /** One evaluation of the alarm under study, under whatever configuration and silence
      holds at that moment, and everything else that touches AllAlarms. */
  datatype Event =
    | Evaluated(condition: bool, message: string, severity: string, views: ChainViews, now: Time)
    | Raised(chain: string, other: string, message: string, severity: string, resolved: bool, views: ChainViews,
        now: Time)
    | Marked(chain: string, other: string)
    | Emptied(chain: string)

  ghost predicate WellFormed(events: seq<Event>, name: string, id: string) {
    forall e | e in events ::
      && (e.Evaluated? ==> name in e.views && e.now != ZERO_TIME)
      && (e.Raised? ==> (e.chain != name || e.other != id) && e.now != ZERO_TIME)
  }

  ghost function Step(b: Board, e: Event, defaults: AlertConfig, name: string, id: string): Board {
    match e
    case Evaluated(condition, message, severity, views, now) => Guarded(b, views, defaults, name, message, severity,
        condition, id, now)
    case Raised(chain, other, message, severity, resolved, views, now) =>
      Post(b, views, defaults, chain, message, severity, resolved, other, now)
    case Marked(chain, other) =>
      var m := Of(b.all, chain);
      if other in m then b.(all := b.all[chain := m[other := m[other].(escalated := true)]]) else b
    case Emptied(chain) => if chain in b.all then b.(all := b.all[chain := map[]]) else b
  }

  ghost function Run(b: Board, events: seq<Event>, defaults: AlertConfig, name: string, id: string): Board {
    if events == [] then b
    else Step(Run(b, events[..|events| - 1], defaults, name, id), events[|events| - 1], defaults, name, id)
  }

  /** The alarm under study after the first n events. */
  ghost predicate ActiveAt(b: Board, events: seq<Event>, defaults: AlertConfig, name: string, id: string, n: nat)
    requires n <= |events|
  {
    id in Of(Run(b, events[..n], defaults, name, id).all, name)
  }

  /** A dispatched message about the alarm, a firing or a resolution, is on the queue. */
  ghost predicate Sends(b: Board, b': Board, id: string, resolved: bool) {
    |b'.queue| > |b.queue| && var m := b'.queue[|b'.queue| - 1]; m.uniqueId == id && m.resolved == resolved
  }

  /** Event i dispatches a firing, or a resolution, of the alarm. */
  ghost predicate Dispatches(b: Board, events: seq<Event>, defaults: AlertConfig, name: string, id: string, i: nat,
                             resolved: bool)
    requires i < |events|
  {
    events[i].Evaluated?
    && Sends(Run(b, events[..i], defaults, name, id), Run(b, events[..i + 1], defaults, name, id), id, resolved)
  }

  /** What one event does to the alarm: it appears exactly with a dispatched firing, and
      goes with a dispatched resolution, a silent one, or `clearAll`. */
  lemma StepOnAlarm(b: Board, e: Event, defaults: AlertConfig, name: string, id: string)
    requires WellFormed([e], name, id) && Stamped(Of(b.all, name))
    ensures var b' := Step(b, e, defaults, name, id);
      var before, after := id in Of(b.all, name), id in Of(b'.all, name);
      && Stamped(Of(b'.all, name))
      && (e.Evaluated? && Sends(b, b', id, false) <==> !before && after)
      && (e.Evaluated? && Sends(b, b', id, true) ==> before && !after)
      && (before && !after ==> e == Emptied(name) || (e.Evaluated? && !e.condition))
      && (before && !after && e.Evaluated? ==> Sends(b, b', id, true) || Silenced(e.views[name].silencedUntil, e.now))
  {
    assert e in [e];
  }

  /** The same at position i of a run. */
  lemma EventOnAlarm(b: Board, events: seq<Event>, defaults: AlertConfig, name: string, id: string, i: nat)
    requires WellFormed(events, name, id) && Stamped(Of(b.all, name)) && i < |events|
    ensures var before, after := ActiveAt(b, events, defaults, name, id, i),
          ActiveAt(b, events, defaults, name, id, i + 1);
      && (Dispatches(b, events, defaults, name, id, i, false) <==> !before && after)
      && (Dispatches(b, events, defaults, name, id, i, true) ==> before && !after)
      && (before && !after ==> events[i] == Emptied(name) || (events[i].Evaluated? && !events[i].condition))
      && (before && !after && events[i].Evaluated? ==>
            Dispatches(b, events, defaults, name, id, i, true)
                || Silenced(events[i].views[name].silencedUntil, events[i].now))
  {
    hide Step, Sends, Silenced;
    StaysStamped(b, events, defaults, name, id, i);
    assert events[..i + 1][..i] == events[..i];
    assert events[i] in events;
    StepOnAlarm(Run(b, events[..i], defaults, name, id), events[i], defaults, name, id);
  }

  lemma {:induction false} StaysStamped(b: Board, events: seq<Event>, defaults: AlertConfig, name: string, id: string,
                                        n: nat)
    requires WellFormed(events, name, id) && Stamped(Of(b.all, name)) && n <= |events|
    ensures Stamped(Of(Run(b, events[..n], defaults, name, id).all, name))
  {
    hide Step, Sends, Silenced, Stamped;
    if n > 0 {
      StaysStamped(b, events, defaults, name, id, n - 1);
      assert events[..n][..n - 1] == events[..n - 1];
      assert events[n - 1] in events;
      StepOnAlarm(Run(b, events[..n - 1], defaults, name, id), events[n - 1], defaults, name, id);
    }
  }

  /** Event k takes the alarm out of AllAlarms. */
  ghost predicate Removes(b: Board, events: seq<Event>, defaults: AlertConfig, name: string, id: string, k: nat)
    requires k < |events|
  {
    ActiveAt(b, events, defaults, name, id, k) && !ActiveAt(b, events, defaults, name, id, k + 1)
  }

  /** An alarm that is there at i and not at j is removed in between; one that is not there
      at i but is at j is fired in between. */
  lemma {:induction false} ChangesBetween(b: Board, events: seq<Event>, defaults: AlertConfig, name: string,
                                          id: string, i: nat, j: nat)
      returns (k: nat)
    requires i < j <= |events|
    requires ActiveAt(b, events, defaults, name, id, i) != ActiveAt(b, events, defaults, name, id, j)
    ensures i <= k < j
    ensures ActiveAt(b, events, defaults, name, id, k) == ActiveAt(b, events, defaults, name, id, i)
    ensures ActiveAt(b, events, defaults, name, id, k + 1) == ActiveAt(b, events, defaults, name, id, j)
  {
    hide ActiveAt;
    if i + 1 == j {
      k := i;
    } else if ActiveAt(b, events, defaults, name, id, j - 1) == ActiveAt(b, events, defaults, name, id, i) {
      k := j - 1;
    } else {
      k := ChangesBetween(b, events, defaults, name, id, i, j - 1);
    }
  }

  /** Over every run of evaluations under changing configuration and silence, other alarms,
      escalation marks and `clearAll`: between two dispatched firings of the alarm it is
      taken out of AllAlarms, by `clearAll` or by an evaluation whose condition is false. */
  lemma RemovalBetweenFirings(b: Board, events: seq<Event>, defaults: AlertConfig, name: string, id: string, i: nat,
                              j: nat)
      returns (k: nat)
    requires WellFormed(events, name, id) && Stamped(Of(b.all, name)) && i < j < |events|
    requires Dispatches(b, events, defaults, name, id, i, false) && Dispatches(b, events, defaults, name, id, j, false)
    ensures i < k < j && Removes(b, events, defaults, name, id, k)
    ensures events[k] == Emptied(name) || (events[k].Evaluated? && !events[k].condition)
    ensures events[k].Evaluated? ==>
      Dispatches(b, events, defaults, name, id, k, true) || Silenced(events[k].views[name].silencedUntil, events[k].now)
  {
    hide ActiveAt, Dispatches, Silenced;
    EventOnAlarm(b, events, defaults, name, id, i);
    EventOnAlarm(b, events, defaults, name, id, j);
    k := ChangesBetween(b, events, defaults, name, id, i + 1, j);
    EventOnAlarm(b, events, defaults, name, id, k);
  }

  /** And between two dispatched resolutions a firing is dispatched. */
  lemma FiringBetweenResolutions(b: Board, events: seq<Event>, defaults: AlertConfig, name: string, id: string,
                                 i: nat, j: nat)
      returns (k: nat)
    requires WellFormed(events, name, id) && Stamped(Of(b.all, name)) && i < j < |events|
    requires Dispatches(b, events, defaults, name, id, i, true) && Dispatches(b, events, defaults, name, id, j, true)
    ensures i < k < j && Dispatches(b, events, defaults, name, id, k, false)
  {
    hide ActiveAt, Dispatches, Silenced;
    EventOnAlarm(b, events, defaults, name, id, i);
    EventOnAlarm(b, events, defaults, name, id, j);
    k := ChangesBetween(b, events, defaults, name, id, i + 1, j);
    EventOnAlarm(b, events, defaults, name, id, k);
  }
}
