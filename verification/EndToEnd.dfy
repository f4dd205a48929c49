/** From an evaluator's condition to what a channel holds. */
module EndToEnd {
  import opened AlertTypes
  import opened Engine
  import opened Agreement
  import opened Paging
  import opened Evaluators

  /** What a guarded evaluation raises: nothing if the alarm is active exactly when its
      condition holds. */
  function Raises(s: Sys, chain: string, message: string, severity: string, condition: bool, id: string, now: Time)
      : seq<Agreement.Event>
  {
    if condition == (id in Of(s.alarms.all, chain)) then []
    else [Agreement.Raise(chain, message, severity, !condition, id, now)]
  }

  /** The run that raises it ends as the guarded evaluation says. */
  lemma RaisesIsGuarded(s: Sys, events: seq<Agreement.Event>, chain: string, message: string, severity: string,
                        condition: bool, id: string, now: Time, hours: int)
    ensures var v := Agreement.Run(s, events, hours);
      var v' := Agreement.Run(s, events + Raises(v, chain, message, severity, condition, id, now), hours);
      Board(v'.alarms.all, v'.queue) ==
        Guarded(Board(v.alarms.all, v.queue), v.chains, v.defaults, chain, message, severity, condition, id, now)
  {
    hide Post;
    var v := Agreement.Run(s, events, hours);
    var more := Raises(v, chain, message, severity, condition, id, now);
    if more == [] {
      assert events + more == events;
    } else {
      assert (events + more)[..|events|] == events;
    }
  }

  /** After an unsilenced pass the alarm is active exactly when its condition holds, and the
      run is settled exactly if the pass raised something or it was settled before. */
  lemma PassSettles(s: Sys, events: seq<Agreement.Event>, chain: string, message: string, severity: string,
                    condition: bool, id: string, now: Time, hours: int)
    requires var v := Agreement.Run(s, events, hours);
      && chain in v.chains && !Silenced(v.chains[chain].silencedUntil, now) && now != ZERO_TIME
      && Stamped(Of(v.alarms.all, chain))
    ensures var v := Agreement.Run(s, events, hours);
      var all := events + Raises(v, chain, message, severity, condition, id, now);
      && (Active(Agreement.Run(s, all, hours), chain, id) <==> condition)
      && (Settled(s, all, chain, id, hours) <==>
            condition != Active(v, chain, id) || Settled(s, events, chain, id, hours))
  {
    hide Guarded, Post, Silenced;
    var v := Agreement.Run(s, events, hours);
    RaisesIsGuarded(s, events, chain, message, severity, condition, id, now, hours);
    GuardedSettles(Board(v.alarms.all, v.queue), v.chains, v.defaults, chain, message, severity, condition, id, now);
    var more := Raises(v, chain, message, severity, condition, id, now);
    if more == [] {
      assert events + more == events;
    } else {
      assert (events + more)[..|events|] == events;
    }
  }

  /** An enabled channel without flap detection, whose threshold admits the severity: after an
      unsilenced pass and draining, at any times, it holds the alarm exactly when its condition
      holds, if and only if the pass raised something or the run was settled before it. */
  lemma {:induction false} ConditionReachesChannel(
      s: Sys, events: seq<Agreement.Event>, d: Dest, chain: string, message: string, severity: string, condition: bool,
      id: string, now: Time, times: seq<Time>, hours: int)
    requires !d.Pd? && Sound(s, d, id) && Agree(s, d, chain, id)
    requires var v := Agreement.Run(s, events, hours);
      && chain in v.chains && !Silenced(v.chains[chain].silencedUntil, now) && now != ZERO_TIME
      && Stamped(Of(v.alarms.all, chain))
    requires var all := events + Raises(Agreement.Run(s, events, hours), chain, message, severity, condition, id, now);
      && RunCovers(s, all, d, chain, id, hours)
      && |times| == |Agreement.Run(s, all, hours).queue| && ZERO_TIME !in times
    ensures var v := Agreement.Run(s, events, hours);
      var v' := Agreement.Run(s, events + Raises(v, chain, message, severity, condition, id, now), hours);
      var held := Recorded(Drained(v'.alarms.sent.To(d), v'.queue, d, times, hours), id);
      && (condition ==> held)
      && ((held <==> condition) <==> condition != Active(v, chain, id) || Settled(s, events, chain, id, hours))
  {
    hide Agreement.Run, Settled, Drained, RunCovers, Sound, Agree, Active, Raises, Silenced;
    PassSettles(s, events, chain, message, severity, condition, id, now, hours);
    var all := events + Raises(Agreement.Run(s, events, hours), chain, message, severity, condition, id, now);
    DrainedChannelMatchesAllAlarms(s, all, d, chain, id, times, hours);
  }

  /** The same for PagerDuty: if and only if these both hold or both fail: the pass raised
      something or the run was settled; the last message delivered was not withheld. */
  lemma {:induction false} ConditionReachesPager(
      s: Sys, events: seq<Agreement.Event>, chain: string, message: string, severity: string, condition: bool,
      id: string, now: Time, times: seq<Time>, hours: int)
    requires Sound(s, Pd, id) && Agree(s, Pd, chain, id)
    requires var v := Agreement.Run(s, events, hours);
      && chain in v.chains && !Silenced(v.chains[chain].silencedUntil, now) && now != ZERO_TIME
      && Stamped(Of(v.alarms.all, chain))
    requires var all := events + Raises(Agreement.Run(s, events, hours), chain, message, severity, condition, id, now);
      && RunCovers(s, all, Pd, chain, id, hours)
      && |times| == |Agreement.Run(s, all, hours).queue| && ZERO_TIME !in times
    ensures var v := Agreement.Run(s, events, hours);
      var all := events + Raises(v, chain, message, severity, condition, id, now);
      var v' := Agreement.Run(s, all, hours);
      var held := Recorded(Delivered(v'.alarms, v'.queue, times, hours).sent.pd, id);
      (held <==> condition) <==>
        ((condition != Active(v, chain, id) || Settled(s, events, chain, id, hours))
         <==> !Muted(s, all + Delivers(times), id, hours))
  {
    hide Agreement.Run, Settled, Delivered, RunCovers, Sound, Agree, Active, Raises, Silenced, Muted;
    PassSettles(s, events, chain, message, severity, condition, id, now, hours);
    var all := events + Raises(Agreement.Run(s, events, hours), chain, message, severity, condition, id, now);
    DrainedPagerMatchesAllAlarms(s, all, chain, id, times, hours);
  }
}
