/** PagerDuty against AllAlarms: flap detection can withhold a page for good, so its sent map
    agrees with AllAlarms under a condition of its own. */
module Paging {
  import opened AlertTypes
  import opened Notify
  import opened Engine
  import opened Dispatch
  import opened Agreement
  import Evaluators

  /** One delivery: an admitted firing is held afterwards exactly if it was held before or
      has not been paged within five minutes. */
  lemma OnePage(a: Alarms, msg: AlertMsg, id: string, at: Time, hours: int)
    requires at != ZERO_TIME && msg.uniqueId == id && Reaches(msg, Pd, id)
    ensures Recorded(Gate(a, msg, Pd, at, hours).sent.pd, id) <==>
      !msg.resolved && (Recorded(a.sent.pd, id) || !RecentlyFired(a, msg, at))
  {
    hide Severities, RecentlyFired, FlapMap;
  }

  lemma PagerStaysStamped(a: Alarms, msg: AlertMsg, at: Time, hours: int)
    requires at != ZERO_TIME && Stamped(a.sent.pd)
    ensures Stamped(GatesThrough(a, msg, ORDER, at, hours).sent.pd)
  {
    hide Severities, RecentlyFired, FlapMap, JudgeOn, GatesThrough;
    assert ORDER[0] == Pd;
    PagerIsIndependent(a, msg, ORDER, at, hours);
  }

  lemma OtherPage(a: Alarms, msg: AlertMsg, id: string, at: Time, hours: int)
    requires msg.uniqueId != id
    ensures Recorded(Gate(a, msg, Pd, at, hours).sent.pd, id) == Recorded(a.sent.pd, id)
  {
    hide Severities, RecentlyFired, FlapMap, JudgeOn;
  }

  /** The caches after the messages have been delivered at the given times. */
  ghost function Delivered(a: Alarms, queue: seq<AlertMsg>, times: seq<Time>, hours: int): Alarms
    requires |times| == |queue|
  {
    if queue == [] then a
    else
      var n := |queue| - 1;
      GatesThrough(Delivered(a, queue[..n], times[..n], hours), queue[n], ORDER, times[n], hours)
  }

  /** The index of the last message for the id, or -1. */
  ghost function LastFor(queue: seq<AlertMsg>, id: string): (k: int)
    ensures -1 <= k < |queue|
    ensures k >= 0 ==> queue[k].uniqueId == id
    ensures forall i | k < i < |queue| :: queue[i].uniqueId != id
  {
    if queue == [] then -1
    else if queue[|queue| - 1].uniqueId == id then |queue| - 1
    else LastFor(queue[..|queue| - 1], id)
  }

  lemma PagedThrough(a: Alarms, msg: AlertMsg, id: string, at: Time, hours: int)
    requires at != ZERO_TIME && Reaches(msg, Pd, id)
    ensures Recorded(GatesThrough(a, msg, ORDER, at, hours).sent.pd, id) <==>
      if msg.uniqueId == id then !msg.resolved && (Recorded(a.sent.pd, id) || !RecentlyFired(a, msg, at))
      else Recorded(a.sent.pd, id)
  {
    hide Gate, GatesThrough, RecentlyFired;
    assert ORDER[0] == Pd;
    PagerIsIndependent(a, msg, ORDER, at, hours);
    if msg.uniqueId == id {
      OnePage(a, msg, id, at, hours);
    } else {
      OtherPage(a, msg, id, at, hours);
    }
  }

  /** After any deliveries PagerDuty holds the id exactly if the last message for it is a
      firing which, when it was delivered, found the id held or not paged within five minutes;
      with no message for it, if it held it before. */
  lemma {:induction false} PagerDrainingDecides(a: Alarms, queue: seq<AlertMsg>, id: string, times: seq<Time>,
                                                hours: int)
    requires |times| == |queue| && ZERO_TIME !in times
    requires forall q | q in queue :: Reaches(q, Pd, id)
    ensures var k := LastFor(queue, id);
      Recorded(Delivered(a, queue, times, hours).sent.pd, id) <==>
        if k < 0 then Recorded(a.sent.pd, id)
        else
          var found := Delivered(a, queue[..k], times[..k], hours);
          !queue[k].resolved && (Recorded(found.sent.pd, id) || !RecentlyFired(found, queue[k], times[k]))
  {
    hide RecentlyFired, GatesThrough, Reaches;
    if queue != [] {
      var n := |queue| - 1;
      assert queue[n] in queue && times[n] in times;
      PagedThrough(Delivered(a, queue[..n], times[..n], hours), queue[n], id, times[n], hours);
      if queue[n].uniqueId != id {
        PagerDrainingDecides(a, queue[..n], id, times[..n], hours);
        var k := LastFor(queue[..n], id);
        if k >= 0 {
          assert queue[..n][..k] == queue[..k] && times[..n][..k] == times[..k];
        }
      }
    }
  }

  // ---------------------------------------------------------------------------
  // Whole runs
  // ---------------------------------------------------------------------------

  /** The step delivers a message for the id. */
  ghost predicate Reports(s: Sys, e: Event, id: string) {
    e.Deliver? && s.queue != [] && s.queue[0].uniqueId == id
  }

  /** It delivers a firing of an id that is not held but was paged within five minutes. */
  ghost predicate Withholds(s: Sys, e: Event, id: string) {
    Reports(s, e, id) && !s.queue[0].resolved && !Recorded(s.alarms.sent.pd, id)
        && RecentlyFired(s.alarms, s.queue[0], e.at)
  }

  /** The last message delivered for the id was withheld by flap detection. */
  ghost predicate Muted(s: Sys, events: seq<Event>, id: string, hours: int) {
    events != []
    && var n := |events| - 1;
    var before := Run(s, events[..n], hours);
    if Reports(before, events[n], id) then Withholds(before, events[n], id) else Muted(s, events[..n], id, hours)
  }

  /** What PagerDuty would hold after draining if nothing had been withheld so far. */
  ghost predicate Told(s: Sys, muted: bool, id: string) {
    Notified(Recorded(s.alarms.sent.pd, id) || muted, s.queue, id)
  }

  lemma PagerDeliverStep(s: Sys, at: Time, muted: bool, id: string, hours: int)
    requires at != ZERO_TIME && Sound(s, Pd, id) && (muted ==> !Recorded(s.alarms.sent.pd, id))
    ensures var s', e := Next(s, Deliver(at), hours), Deliver(at);
      var muted' := if Reports(s, e, id) then Withholds(s, e, id) else muted;
      && s'.alarms.all == s.alarms.all && Sound(s', Pd, id)
      && (muted' ==> !Recorded(s'.alarms.sent.pd, id))
      && Told(s', muted', id) == Told(s, muted, id)
  {
    hide RecentlyFired, GatesThrough, Reaches;
    if s.queue != [] {
      OthersAreIndependent(s.alarms, s.queue[0], ORDER, Tg, at, hours);
      PagedThrough(s.alarms, s.queue[0], id, at, hours);
      PagerStaysStamped(s.alarms, s.queue[0], at, hours);
      NotifiedFromFront(Recorded(s.alarms.sent.pd, id) || muted, s.queue, id);
    }
  }

  /** Raising a message tells PagerDuty what it tells the others. */
  lemma RaiseTells(s: Sys, e: Event, muted: bool, chain: string, id: string, hours: int)
    requires e.Raise? && Covers(s, e, Pd, chain, id) && Sound(s, Pd, id)
    ensures var s' := Next(s, e, hours);
      && s'.alarms.sent == s.alarms.sent
      && Told(s', muted, id) == if Dispatches(s, e, id) then !e.resolved else Told(s, muted, id)
  {
    hide Severities, Silenced, Reaches;
    var s' := Next(s, e, hours);
    if e.chain in s.chains && !Silenced(s.chains[e.chain].silencedUntil, e.now) {
      var m := s'.queue[|s.queue|];
      assert s'.queue == s.queue + [m] && s'.queue[..|s'.queue| - 1] == s.queue;
    }
  }

  lemma PagerStep(s: Sys, e: Event, muted: bool, chain: string, id: string, hours: int)
    requires Covers(s, e, Pd, chain, id) && Sound(s, Pd, id) && (muted ==> !Recorded(s.alarms.sent.pd, id))
    requires Active(s, chain, id) ==> Told(s, muted, id)
    ensures var s' := Next(s, e, hours);
      var muted' := if Reports(s, e, id) then Withholds(s, e, id) else muted;
      && Sound(s', Pd, id) && (muted' ==> !Recorded(s'.alarms.sent.pd, id))
      && (Active(s', chain, id) ==> Told(s', muted', id))
      && ((Told(s', muted', id) <==> Active(s', chain, id)) <==>
            Dispatches(s, e, id) || ((Told(s, muted, id) <==> Active(s, chain, id)) && !DropsSilently(s, e, chain, id)))
  {
    hide Told, Withholds, GatesThrough, Notified, Reaches, Silenced;
    if e.Deliver? {
      PagerDeliverStep(s, e.at, muted, id, hours);
    } else if e.Raise? {
      RaiseStep(s, e, Pd, chain, id, hours);
      RaiseTells(s, e, muted, chain, id, hours);
    } else {
      OtherStep(s, e, Pd, chain, id, hours);
      SameTold(s, Next(s, e, hours), muted, id);
    }
  }

  lemma SameTold(s: Sys, s': Sys, muted: bool, id: string)
    requires s'.alarms.sent == s.alarms.sent && s'.queue == s.queue
    ensures Told(s', muted, id) == Told(s, muted, id)
  {
  }

  /** Over every run: an active alarm is held or was withheld, counting what is pending, and
      the two stores agree on everything but what was withheld exactly when the run is settled. */
  lemma {:induction false} PagerKnows(s: Sys, events: seq<Event>, chain: string, id: string, hours: int)
    requires RunCovers(s, events, Pd, chain, id, hours)
    requires Sound(s, Pd, id) && Agree(s, Pd, chain, id)
    ensures var s', muted := Run(s, events, hours), Muted(s, events, id, hours);
      && Sound(s', Pd, id) && (muted ==> !Recorded(s'.alarms.sent.pd, id))
      && (Active(s', chain, id) ==> Told(s', muted, id))
      && ((Told(s', muted, id) <==> Active(s', chain, id)) <==> Settled(s, events, chain, id, hours))
  {
    if events != [] {
      var n := |events| - 1;
      RunPrefix(s, events, Pd, chain, id, hours);
      PagerKnows(s, events[..n], chain, id, hours);
      assert Covers(Run(s, events[..n], hours), events[n], Pd, chain, id);
      PagerStep(Run(s, events[..n], hours), events[n], Muted(s, events[..n], id, hours), chain, id, hours);
    }
  }

  /** Any run after which nothing is pending: PagerDuty and AllAlarms agree about the id if and
      only if the run is settled and the last message delivered for the id was not withheld,
      or it is not settled and that message was. */
  lemma {:induction false} PagerMatchesAllAlarms(s: Sys, events: seq<Event>, chain: string, id: string, hours: int)
    requires RunCovers(s, events, Pd, chain, id, hours)
    requires Sound(s, Pd, id) && Agree(s, Pd, chain, id)
    requires Run(s, events, hours).queue == []
    ensures var s' := Run(s, events, hours);
      && ((Recorded(s'.alarms.sent.pd, id) <==> Active(s', chain, id))
          <==> (Settled(s, events, chain, id, hours) <==> !Muted(s, events, id, hours)))
      && (Active(s', chain, id) && !Recorded(s'.alarms.sent.pd, id) ==> Muted(s, events, id, hours))
  {
    hide Settled, Muted, Run, RunCovers, Sound, Agree, Active;
    PagerKnows(s, events, chain, id, hours);
  }

  ghost function Delivers(times: seq<Time>): seq<Event> {
    seq(|times|, i requires 0 <= i < |times| => Deliver(times[i]))
  }

  /** Draining is a run of its own: it empties the queue and changes neither AllAlarms nor
      whether the run is settled. */
  lemma {:induction false} DrainingIsARun(s: Sys, events: seq<Event>, chain: string, id: string, times: seq<Time>,
                                          hours: int)
    requires RunCovers(s, events, Pd, chain, id, hours) && ZERO_TIME !in times
    requires |times| <= |Run(s, events, hours).queue|
    ensures var s', all := Run(s, events, hours), events + Delivers(times);
      && RunCovers(s, all, Pd, chain, id, hours)
      && Run(s, all, hours).queue == s'.queue[|times|..] && Run(s, all, hours).alarms.all == s'.alarms.all
      && Run(s, all, hours).alarms == Delivered(s'.alarms, s'.queue[..|times|], times, hours)
      && (Settled(s, all, chain, id, hours) <==> Settled(s, events, chain, id, hours))
  {
    hide GatesThrough, RunCovers, Settled, Run, Delivered;
    var s' := Run(s, events, hours);
    if times == [] {
      assert events + Delivers(times) == events && s'.queue[..0] == [];
      NoneDelivered(s'.alarms, hours);
    } else {
      var n := |times| - 1;
      var rest, all := events + Delivers(times[..n]), events + Delivers(times);
      assert times[n] in times && all == rest + [Deliver(times[n])];
      DrainingIsARun(s, events, chain, id, times[..n], hours);
      DeliverMore(s, rest, chain, id, times[n], hours);
      CoversDelivery(s, rest, Pd, chain, id, times[n], hours);
      assert s'.queue[..n + 1] == s'.queue[..n] + [s'.queue[n]] && times == times[..n] + [times[n]];
      DeliveredMore(s'.alarms, s'.queue[..n], s'.queue[n], times[..n], times[n], hours);
    }
  }

  lemma DeliverMore(s: Sys, rest: seq<Event>, chain: string, id: string, at: Time, hours: int)
    requires Run(s, rest, hours).queue != []
    ensures var v, v' := Run(s, rest, hours), Run(s, rest + [Deliver(at)], hours);
      && v'.queue == v.queue[1..] && v'.alarms.all == v.alarms.all
      && v'.alarms == GatesThrough(v.alarms, v.queue[0], ORDER, at, hours)
      && (Settled(s, rest + [Deliver(at)], chain, id, hours) <==> Settled(s, rest, chain, id, hours))
  {
    hide GatesThrough, Silenced;
    var v := Run(s, rest, hours);
    assert (rest + [Deliver(at)])[..|rest|] == rest;
    OthersAreIndependent(v.alarms, v.queue[0], ORDER, Tg, at, hours);
  }

  lemma NoneDelivered(a: Alarms, hours: int)
    ensures Delivered(a, [], [], hours) == a
  {
  }

  lemma DeliveredMore(a: Alarms, queue: seq<AlertMsg>, msg: AlertMsg, times: seq<Time>, at: Time, hours: int)
    requires |times| == |queue|
    ensures Delivered(a, queue + [msg], times + [at], hours)
         == GatesThrough(Delivered(a, queue, times, hours), msg, ORDER, at, hours)
  {
    hide GatesThrough;
    assert (queue + [msg])[..|queue|] == queue && (times + [at])[..|times|] == times;
  }

  lemma CoversDelivery(s: Sys, events: seq<Event>, d: Dest, chain: string, id: string, at: Time, hours: int)
    requires RunCovers(s, events, d, chain, id, hours) && at != ZERO_TIME
    ensures RunCovers(s, events + [Deliver(at)], d, chain, id, hours)
  {
    var all := events + [Deliver(at)];
    forall k | 0 <= k < |all| ensures Covers(Run(s, all[..k], hours), all[k], d, chain, id) {
      assert all[..k] == events[..k];
      if k < |events| {
        assert Covers(Run(s, events[..k], hours), events[k], d, chain, id);
      }
    }
  }

  /** PagerDuty's counterpart of the other channels' result: after draining at any times. */
  lemma {:induction false} DrainedPagerMatchesAllAlarms(s: Sys, events: seq<Event>, chain: string, id: string,
                                                        times: seq<Time>, hours: int)
    requires RunCovers(s, events, Pd, chain, id, hours)
    requires Sound(s, Pd, id) && Agree(s, Pd, chain, id)
    requires |times| == |Run(s, events, hours).queue| && ZERO_TIME !in times
    ensures var s' := Run(s, events, hours);
      var held := Recorded(Delivered(s'.alarms, s'.queue, times, hours).sent.pd, id);
      (held <==> Active(s', chain, id))
      <==> (Settled(s, events, chain, id, hours) <==> !Muted(s, events + Delivers(times), id, hours))
  {
    hide Settled, Muted, RunCovers, Sound, Agree, Delivered;
    DrainingIsARun(s, events, chain, id, times, hours);
    var s' := Run(s, events, hours);
    assert s'.queue[..|times|] == s'.queue && s'.queue[|times|..] == [];
    PagerMatchesAllAlarms(s, events + Delivers(times), chain, id, hours);
  }

  // ---------------------------------------------------------------------------
  // The failure
  // ---------------------------------------------------------------------------

  /** A chain that pages: not silenced, PagerDuty on in the defaults and for the chain, and
      the severity admitted. */
  ghost predicate Pages(s: Sys, chain: string, severity: string) {
    && chain in s.chains && s.chains[chain].silencedUntil == 0
    && s.defaults.pd.enabled && s.chains[chain].alerts.pd.enabled
    && severity in Severities(s.chains[chain].alerts.pd.threshold)
  }

  /** How messages name the chain. */
  function Label(s: Sys, chain: string): string
    requires chain in s.chains
  {
    chain + " (" + s.chains[chain].chainId + ")"
  }

  ghost predicate PagedSince(a: Alarms, name: string, id: string, since: Time) {
    exists at :: PagedAt(a, name, id, at) && at > since
  }

  function RaisedAt(chain: string, message: string, severity: string, resolved: bool, id: string, at: Time): Event {
    Raise(chain, message, severity, resolved, id, at)
  }

  /** Raising an alert on an idle queue and delivering it at once. */
  lemma RaiseAndDeliver(s: Sys, chain: string, message: string, severity: string, resolved: bool, id: string,
                        at: Time, hours: int)
    requires Pages(s, chain, severity) && s.queue == [] && at != ZERO_TIME
    ensures var s' := Next(Next(s, RaisedAt(chain, message, severity, resolved, id, at), hours), Deliver(at), hours);
      var name := Label(s, chain);
      var recent := PagedSince(s.alarms, name, id, at - FLAP_WINDOW);
      && s'.queue == [] && s'.chains == s.chains && s'.defaults == s.defaults
      && (Active(s', chain, id) <==> !resolved)
      && (Recorded(s'.alarms.sent.pd, id) <==> !resolved && (Recorded(s.alarms.sent.pd, id) || !recent))
      && (forall t :: PagedAt(s'.alarms, name, id, t) <==>
            if !resolved && !Recorded(s.alarms.sent.pd, id) && !recent then t == at else PagedAt(s.alarms, name, id, t))
  {
    hide Severities, GatesThrough, Gate, PagedAt, After, Filed, BuildAlertMsg, Reaches;
    var s1 := Next(s, RaisedAt(chain, message, severity, resolved, id, at), hours);
    RaisedMessage(s, chain, message, severity, resolved, id, at, hours);
    var msg := s1.queue[0];
    assert ORDER[0] == Pd;
    OthersAreIndependent(s1.alarms, msg, ORDER, Tg, at, hours);
    PagerIsIndependent(s1.alarms, msg, ORDER, at, hours);
    OnePage(s1.alarms, msg, id, at, hours);
    RecentMeans(s.alarms, msg, at);
    SameMemoryAs(s1.alarms, s.alarms, msg, at);
    MemoryThrough(s, s1, msg, id, at, hours);
    var s' := Next(s1, Deliver(at), hours);
    assert s'.alarms == GatesThrough(s1.alarms, msg, ORDER, at, hours) && s'.queue == [];
  }

  lemma RaisedMessage(s: Sys, chain: string, message: string, severity: string, resolved: bool, id: string, at: Time,
                      hours: int)
    requires Pages(s, chain, severity) && s.queue == [] && at != ZERO_TIME
    ensures var s1 := Next(s, RaisedAt(chain, message, severity, resolved, id, at), hours);
      && s1.chains == s.chains && s1.defaults == s.defaults
      && s1.alarms.sent == s.alarms.sent && s1.alarms.flapping == s.alarms.flapping
      && (Active(s1, chain, id) <==> !resolved)
      && |s1.queue| == 1 && s1.queue[0].uniqueId == id && s1.queue[0].resolved == resolved && s1.queue[0].pd
      && s1.queue[0].chain == Label(s, chain) && Reaches(s1.queue[0], Pd, id)
  {
    hide Severities;
  }

  lemma RecentMeans(a: Alarms, msg: AlertMsg, now: Time)
    ensures RecentlyFired(a, msg, now) <==> PagedSince(a, msg.chain, msg.uniqueId, now - FLAP_WINDOW)
  {
    var seen := Of(a.flapping, msg.chain);
    if msg.uniqueId in seen {
      assert PagedAt(a, msg.chain, msg.uniqueId, seen[msg.uniqueId].sentTime);
    }
  }

  lemma MemoryThrough(s: Sys, s1: Sys, msg: AlertMsg, id: string, at: Time, hours: int)
    requires s1.alarms.sent == s.alarms.sent && s1.alarms.flapping == s.alarms.flapping
    requires msg.uniqueId == id && msg.pd && Reaches(msg, Pd, id) && at != ZERO_TIME
    ensures forall t :: PagedAt(GatesThrough(s1.alarms, msg, ORDER, at, hours), msg.chain, id, t) <==>
      if !msg.resolved && !Recorded(s.alarms.sent.pd, id) && !RecentlyFired(s.alarms, msg, at) then t == at
      else PagedAt(s.alarms, msg.chain, id, t)
  {
    hide Severities, GatesThrough, RecentlyFired, After;
    assert ORDER[0] == Pd;
    PagerIsIndependent(s1.alarms, msg, ORDER, at, hours);
    var c := Call(msg, Pd, at);
    var a, a' := s1.alarms, GatesThrough(s1.alarms, msg, ORDER, at, hours);
    SameMemoryAs(s1.alarms, s.alarms, msg, at);
    assert Judge(a, msg, Pd, at, hours).Firing? <==>
        !msg.resolved && !Recorded(s.alarms.sent.pd, id) && !RecentlyFired(s.alarms, msg, at);
    forall t
      ensures PagedAt(a', msg.chain, id, t) <==>
        if !msg.resolved && !Recorded(s.alarms.sent.pd, id) && !RecentlyFired(s.alarms, msg, at) then t == at
        else PagedAt(s.alarms, msg.chain, id, t)
    {
      AfterOnMemory(a, c, msg.chain, id, t, hours);
      assert Of(a'.flapping, msg.chain) == Of(Gate(a, msg, Pd, at, hours).flapping, msg.chain);
      assert PagedAt(a, msg.chain, id, t) <==> PagedAt(s.alarms, msg.chain, id, t);
    }
  }

  lemma SameMemoryAs(a: Alarms, b: Alarms, msg: AlertMsg, at: Time)
    requires a.flapping == b.flapping
    ensures RecentlyFired(a, msg, at) == RecentlyFired(b, msg, at)
  {
  }

  /** An outage is paged and resolves; a second one begins within five minutes of the page.
      Its page is withheld, nothing is pending any more, and no later evaluation raises the
      alarm again while it lasts, since it is active. */
  lemma SecondOutageGoesUnpaged(s: Sys, chain: string, message: string, severity: string, id: string,
                                first: Time, over: Time, second: Time, hours: int) returns (events: seq<Event>)
    requires Pages(s, chain, severity) && s.queue == [] && ZERO_TIME !in [first, over, second]
    requires !Recorded(s.alarms.sent.pd, id) && !PagedSince(s.alarms, Label(s, chain), id, first - FLAP_WINDOW)
    requires second - first < FLAP_WINDOW
    ensures events == [RaisedAt(chain, message, severity, false, id, first), Deliver(first),
                       RaisedAt(chain, message, severity, true, id, over), Deliver(over),
                       RaisedAt(chain, message, severity, false, id, second), Deliver(second)]
    ensures var s' := Run(s, events, hours);
      && s'.queue == [] && Active(s', chain, id) && !Recorded(s'.alarms.sent.pd, id)
      && (forall now :: Evaluators.Guarded(Board(s'.alarms.all, []), s'.chains, s'.defaults, chain, message, severity,
            true, id, now)
                        == Board(s'.alarms.all, []))
  {
    events := [RaisedAt(chain, message, severity, false, id, first), Deliver(first),
               RaisedAt(chain, message, severity, true, id, over), Deliver(over),
               RaisedAt(chain, message, severity, false, id, second), Deliver(second)];
    hide Run, Next, Severities, PagedAt, RaisedAt, Evaluators.Guarded, Active;
    assert first in [first, over, second] && over in [first, over, second] && second in [first, over, second];
    var s1 := RaisedAndDelivered(s, chain, message, severity, false, id, first, hours);
    var s2 := RaisedAndDelivered(s1, chain, message, severity, true, id, over, hours);
    var s3 := RaisedAndDelivered(s2, chain, message, severity, false, id, second, hours);
    SixSteps(s, events[0], events[1], events[2], events[3], events[4], events[5], hours);
    RaiseAndDeliver(s, chain, message, severity, false, id, first, hours);
    assert PagedAt(s1.alarms, Label(s, chain), id, first);
    RaiseAndDeliver(s1, chain, message, severity, true, id, over, hours);
    assert PagedAt(s2.alarms, Label(s, chain), id, first);
    RaiseAndDeliver(s2, chain, message, severity, false, id, second, hours);
    ActiveIsNotRaised(s3, chain, message, severity, id);
  }

  ghost function RaisedAndDelivered(s: Sys, chain: string, message: string, severity: string, resolved: bool,
                                    id: string, at: Time, hours: int): Sys
  {
    Next(Next(s, RaisedAt(chain, message, severity, resolved, id, at), hours), Deliver(at), hours)
  }

  lemma ActiveIsNotRaised(s: Sys, chain: string, message: string, severity: string, id: string)
    requires Active(s, chain, id)
    ensures var b := Board(s.alarms.all, []);
      forall now :: Evaluators.Guarded(b, s.chains, s.defaults, chain, message, severity, true, id, now) == b
  {
  }

  lemma SixSteps(s: Sys, e0: Event, e1: Event, e2: Event, e3: Event, e4: Event, e5: Event, hours: int)
    ensures var s1 := Next(Next(s, e0, hours), e1, hours);
      var s2 := Next(Next(s1, e2, hours), e3, hours);
      Run(s, [e0, e1, e2, e3, e4, e5], hours) == Next(Next(s2, e4, hours), e5, hours)
  {
    RunTwoMore(s, [], e0, e1, hours);
    RunTwoMore(s, [e0, e1], e2, e3, hours);
    RunTwoMore(s, [e0, e1, e2, e3], e4, e5, hours);
    assert [] + [e0, e1] == [e0, e1];
    assert [e0, e1] + [e2, e3] == [e0, e1, e2, e3] && [e0, e1, e2, e3] + [e4, e5] == [e0, e1, e2, e3, e4, e5];
    hide Next;
    assert Run(s, [], hours) == s;
  }

  lemma RunTwoMore(s: Sys, events: seq<Event>, e: Event, f: Event, hours: int)
    ensures Run(s, events + [e, f], hours) == Next(Next(Run(s, events, hours), e, hours), f, hours)
  {
    hide Next;
    var all := events + [e, f];
    assert all[..|all| - 1] == events + [e] && (events + [e])[..|events|] == events;
  }
}
