/** Whole runs of the engine: AllAlarms is updated when an alert is raised, the sent
    maps when its message is delivered later; the two stores must agree once the queue
    has drained. */
module Agreement {
  import opened AlertTypes
  import opened Engine
  import opened Dispatch

  datatype Sys = Sys(chains: ChainViews, defaults: AlertConfig, alarms: Alarms, queue: seq<AlertMsg>)

  /** Messages are delivered in the order they were raised. */
  datatype Event =
    | Raise(chain: string, message: string, severity: string, resolved: bool, id: string, now: Time)
    | Deliver(at: Time)
    | Silence(on: string, until: int)
    | ClearAll(of: string)

  ghost function Next(s: Sys, e: Event, hours: int): Sys {
    match e
    case Raise(chain, message, severity, resolved, id, now) =>
      var b := Post(Board(s.alarms.all, s.queue), s.chains, s.defaults, chain, message, severity, resolved, id, now);
      s.(alarms := s.alarms.(all := b.all), queue := b.queue)
    case Deliver(at) =>
      if s.queue == [] then s
      else s.(alarms := GatesThrough(s.alarms, s.queue[0], ORDER, at, hours), queue := s.queue[1..])
    case Silence(on, until) =>
      if on in s.chains then s.(chains := s.chains[on := s.chains[on].(silencedUntil := until)]) else s
    case ClearAll(of) =>
      if of in s.alarms.all then s.(alarms := s.alarms.(all := s.alarms.all[of := map[]])) else s
  }

  ghost function Run(s: Sys, events: seq<Event>, hours: int): Sys {
    if events == [] then s else Next(Run(s, events[..|events| - 1], hours), events[|events| - 1], hours)
  }

  ghost predicate Active(s: Sys, chain: string, id: string) {
    Recorded(Of(s.alarms.all, chain), id)
  }

  /** The channel's sent map after its pending messages, delivered at the given times. */
  ghost function Drained(m: Entries, queue: seq<AlertMsg>, d: Dest, times: seq<Time>, hours: int): Entries
    requires |times| == |queue|
    decreases |queue|
  {
    if queue == [] then m
    else Drained(ChannelAfter(m, queue[0], d, times[0], hours), queue[1..], d, times[1..], hours)
  }

  /** Whether the channel will hold the id once the queue has drained: the last pending
      message for the id decides. */
  ghost function Notified(held: bool, queue: seq<AlertMsg>, id: string): bool {
    if queue == [] then held
    else if queue[|queue| - 1].uniqueId == id then !queue[|queue| - 1].resolved
    else Notified(held, queue[..|queue| - 1], id)
  }

  ghost predicate Clock(e: Event) {
    (e.Raise? ==> e.now != ZERO_TIME) && (e.Deliver? ==> e.at != ZERO_TIME)
  }

  /** The message is for another id, or the channel is on and admits it. */
  ghost predicate Reaches(msg: AlertMsg, d: Dest, id: string) {
    msg.uniqueId == id ==> msg.Wants(d) && msg.severity in Severities(msg.alertConfig.On(d).threshold)
  }

  /** What the run must respect for this id: it belongs to one configured chain, which
      enables channel d and admits the severities the id is raised with. */
  ghost predicate Covers(s: Sys, e: Event, d: Dest, chain: string, id: string) {
    && Clock(e)
    && (e.Raise? && e.id == id ==>
          && e.chain == chain && chain in s.chains
          && s.defaults.On(d).enabled && s.chains[chain].alerts.On(d).enabled
          && e.severity in Severities(s.chains[chain].alerts.On(d).threshold))
  }

  /** The step takes an active alarm off AllAlarms without telling any channel: a
      resolution raised while the chain is silenced, or `clearAll`. */
  ghost predicate DropsSilently(s: Sys, e: Event, chain: string, id: string) {
    && Active(s, chain, id)
    && ((e.Raise? && e.id == id && e.resolved && chain in s.chains && Silenced(s.chains[chain].silencedUntil, e.now))
        || (e.ClearAll? && e.of == chain))
  }

  /** The step puts a message for the id on the queue. */
  ghost predicate Dispatches(s: Sys, e: Event, id: string) {
    e.Raise? && e.id == id && e.chain in s.chains && !Silenced(s.chains[e.chain].silencedUntil, e.now)
  }

  /** No step has dropped the alarm silently since its last dispatched message (or since
      the start of the run, if there was none). */
  ghost predicate Settled(s: Sys, events: seq<Event>, chain: string, id: string, hours: int) {
    events == []
    || (var n := |events| - 1;
        var before := Run(s, events[..n], hours);
        || Dispatches(before, events[n], id)
        || (Settled(s, events[..n], chain, id, hours) && !DropsSilently(before, events[n], chain, id)))
  }

  ghost predicate Sound(s: Sys, d: Dest, id: string) {
    Stamped(s.alarms.sent.To(d)) && forall m | m in s.queue :: Reaches(m, d, id)
  }

  /** Whether the channel agrees with AllAlarms about the id once the queue has drained. */
  ghost predicate Agree(s: Sys, d: Dest, chain: string, id: string) {
    Notified(Recorded(s.alarms.sent.To(d), id), s.queue, id) <==> Active(s, chain, id)
  }

  ghost predicate NeverMissed(s: Sys, d: Dest, chain: string, id: string) {
    Active(s, chain, id) ==> Notified(Recorded(s.alarms.sent.To(d), id), s.queue, id)
  }

  // ---------------------------------------------------------------------------

  lemma OneDelivery(m: Entries, msg: AlertMsg, d: Dest, id: string, at: Time, hours: int)
    requires Stamped(m) && at != ZERO_TIME && Reaches(msg, d, id)
    ensures var m' := ChannelAfter(m, msg, d, at, hours);
      Stamped(m') && (Recorded(m', id) <==> if msg.uniqueId == id then !msg.resolved else Recorded(m, id))
  {
    hide Severities;
  }

  lemma {:induction false} NotifiedFromFront(held: bool, queue: seq<AlertMsg>, id: string)
    requires queue != []
    ensures Notified(held, queue, id)
          == Notified(if queue[0].uniqueId == id then !queue[0].resolved else held, queue[1..], id)
  {
    var n := |queue| - 1;
    if n > 0 {
      NotifiedFromFront(held, queue[..n], id);
      assert queue[..n][1..] == queue[1..][..n - 1];
    }
  }

  /** Delivering the whole queue, at whatever times, gives what Notified predicts. */
  lemma {:induction false} DrainingDecides(m: Entries, queue: seq<AlertMsg>, d: Dest, id: string, times: seq<Time>,
                                           hours: int)
    requires Stamped(m) && |times| == |queue| && ZERO_TIME !in times
    requires forall q | q in queue :: Reaches(q, d, id)
    ensures Recorded(Drained(m, queue, d, times, hours), id) == Notified(Recorded(m, id), queue, id)
    decreases |queue|
  {
    hide ChannelAfter, Recorded;
    if queue != [] {
      OneDelivery(m, queue[0], d, id, times[0], hours);
      NotifiedFromFront(Recorded(m, id), queue, id);
      DrainingDecides(ChannelAfter(m, queue[0], d, times[0], hours), queue[1..], d, id, times[1..], hours);
    }
  }

  lemma DeliverStep(s: Sys, at: Time, d: Dest, id: string, hours: int)
    requires !d.Pd? && at != ZERO_TIME && Sound(s, d, id)
    ensures var s' := Next(s, Deliver(at), hours);
      && Sound(s', d, id) && s'.alarms.all == s.alarms.all
      && Notified(Recorded(s'.alarms.sent.To(d), id), s'.queue, id)
          == Notified(Recorded(s.alarms.sent.To(d), id), s.queue, id)
  {
    if s.queue != [] {
      assert d in ORDER;
      OthersAreIndependent(s.alarms, s.queue[0], ORDER, d, at, hours);
      OneDelivery(s.alarms.sent.To(d), s.queue[0], d, id, at, hours);
      NotifiedFromFront(Recorded(s.alarms.sent.To(d), id), s.queue, id);
    }
  }

  lemma RaiseStep(s: Sys, e: Event, d: Dest, chain: string, id: string, hours: int)
    requires e.Raise? && Covers(s, e, d, chain, id) && Sound(s, d, id)
    ensures var s' := Next(s, e, hours);
      && Sound(s', d, id) && s'.alarms.sent == s.alarms.sent
      && (e.id != id ==>
            && (Active(s', chain, id) == Active(s, chain, id))
            && Notified(Recorded(s.alarms.sent.To(d), id), s'.queue, id)
                == Notified(Recorded(s.alarms.sent.To(d), id), s.queue, id))
      && (e.id == id && Silenced(s.chains[chain].silencedUntil, e.now) ==>
            s'.queue == s.queue && Active(s', chain, id) == (Active(s, chain, id) && !e.resolved))
      && (e.id == id && !Silenced(s.chains[chain].silencedUntil, e.now) ==>
            && Active(s', chain, id) == !e.resolved
            && Notified(Recorded(s.alarms.sent.To(d), id), s'.queue, id) == !e.resolved)
  {
    hide Severities;
    var s' := Next(s, e, hours);
    if e.chain in s.chains && !Silenced(s.chains[e.chain].silencedUntil, e.now) {
      var m := s'.queue[|s.queue|];
      assert s'.queue == s.queue + [m] && s'.queue[..|s'.queue| - 1] == s.queue;
    }
  }

  lemma OtherStep(s: Sys, e: Event, d: Dest, chain: string, id: string, hours: int)
    requires (e.Silence? || e.ClearAll?) && Sound(s, d, id)
    ensures var s' := Next(s, e, hours);
      && Sound(s', d, id) && s'.alarms.sent == s.alarms.sent && s'.queue == s.queue
      && (Active(s', chain, id) == (Active(s, chain, id) && !DropsSilently(s, e, chain, id)))
  {
  }

  /** After one step the stores agree exactly when the step dispatched a message for the
      id, or they agreed before and it did not drop the alarm silently; and no step leaves
      an active alarm that the channel will not hold. */
  lemma AgreementStep(s: Sys, e: Event, d: Dest, chain: string, id: string, hours: int)
    requires !d.Pd? && Covers(s, e, d, chain, id) && Sound(s, d, id) && NeverMissed(s, d, chain, id)
    ensures var s' := Next(s, e, hours);
      && Sound(s', d, id) && NeverMissed(s', d, chain, id)
      && (Agree(s', d, chain, id)
          <==> Dispatches(s, e, id) || (Agree(s, d, chain, id) && !DropsSilently(s, e, chain, id)))
  {
    if e.Deliver? {
      DeliverStep(s, e.at, d, id, hours);
    } else if e.Raise? {
      RaiseStep(s, e, d, chain, id, hours);
    } else {
      OtherStep(s, e, d, chain, id, hours);
    }
  }

  /** The conditions hold of every step of the run. */
  ghost predicate RunCovers(s: Sys, events: seq<Event>, d: Dest, chain: string, id: string, hours: int) {
    forall k | 0 <= k < |events| :: Covers(Run(s, events[..k], hours), events[k], d, chain, id)
  }

  lemma RunPrefix(s: Sys, events: seq<Event>, d: Dest, chain: string, id: string, hours: int)
    requires events != [] && RunCovers(s, events, d, chain, id, hours)
    ensures RunCovers(s, events[..|events| - 1], d, chain, id, hours)
  {
    var rest := events[..|events| - 1];
    forall k | 0 <= k < |rest| ensures Covers(Run(s, rest[..k], hours), rest[k], d, chain, id) {
      assert rest[..k] == events[..k];
    }
  }

  /** Over every run, with silencing and `clearAll` anywhere in it: an active alarm is
      always known to the channel, and the two stores agree exactly when the run is settled. */
  lemma {:induction false} StoresAgree(s: Sys, events: seq<Event>, d: Dest, chain: string, id: string, hours: int)
    requires !d.Pd? && RunCovers(s, events, d, chain, id, hours)
    requires Sound(s, d, id) && Agree(s, d, chain, id)
    ensures var s' := Run(s, events, hours);
      && Sound(s', d, id) && NeverMissed(s', d, chain, id)
      && (Agree(s', d, chain, id) <==> Settled(s, events, chain, id, hours))
  {
    if events != [] {
      var n := |events| - 1;
      RunPrefix(s, events, d, chain, id, hours);
      StoresAgree(s, events[..n], d, chain, id, hours);
      assert Covers(Run(s, events[..n], hours), events[n], d, chain, id);
      AgreementStep(Run(s, events[..n], hours), events[n], d, chain, id, hours);
    }
  }

  /** The headline: draining the queue, at any times, leaves the channel holding the id
      exactly when AllAlarms does if and only if the run is settled; and it never leaves
      the channel without an id that is active. */
  lemma {:induction false} DrainedChannelMatchesAllAlarms(s: Sys, events: seq<Event>, d: Dest, chain: string,
                                                          id: string, times: seq<Time>, hours: int)
    requires !d.Pd? && RunCovers(s, events, d, chain, id, hours)
    requires Sound(s, d, id) && Agree(s, d, chain, id)
    requires |times| == |Run(s, events, hours).queue| && ZERO_TIME !in times
    ensures var s' := Run(s, events, hours);
      var held := Recorded(Drained(s'.alarms.sent.To(d), s'.queue, d, times, hours), id);
      && (Active(s', chain, id) ==> held)
      && ((held <==> Active(s', chain, id)) <==> Settled(s, events, chain, id, hours))
  {
    StoresAgree(s, events, d, chain, id, hours);
    var s' := Run(s, events, hours);
    DrainingDecides(s'.alarms.sent.To(d), s'.queue, d, id, times, hours);
  }

  /** With no window open and no `clearAll`, every run is settled. */
  lemma {:induction false} QuietRunsAreSettled(s: Sys, events: seq<Event>, chain: string, id: string, hours: int)
    requires forall e | e in events :: !e.Silence? && !e.ClearAll?
    requires forall c | c in s.chains :: s.chains[c].silencedUntil == 0
    ensures Run(s, events, hours).chains == s.chains && Settled(s, events, chain, id, hours)
  {
    if events != [] {
      assert events[|events| - 1] in events;
      QuietRunsAreSettled(s, events[..|events| - 1], chain, id, hours);
    }
  }

  /** Order matters, since the dispatch loop handles each message in its own goroutine. For
      every order in which the pending messages can be delivered: the channel ends as it
      would in the raised order, and so agrees exactly when the run is settled, if and only
      if the last message for the id is of the same kind in both orders. */
  lemma {:induction false} DeliveryOrderDecides(s: Sys, events: seq<Event>, d: Dest, chain: string, id: string,
                                                order: seq<AlertMsg>, times: seq<Time>, hours: int)
    requires !d.Pd? && RunCovers(s, events, d, chain, id, hours)
    requires Sound(s, d, id) && Agree(s, d, chain, id)
    requires multiset(order) == multiset(Run(s, events, hours).queue) && |times| == |order| && ZERO_TIME !in times
    ensures var s' := Run(s, events, hours);
      var before := Recorded(s'.alarms.sent.To(d), id);
      var held := Recorded(Drained(s'.alarms.sent.To(d), order, d, times, hours), id);
      && held == Notified(before, order, id)
      && (((held <==> Active(s', chain, id)) <==> Settled(s, events, chain, id, hours))
          <==> (Notified(before, order, id) <==> Notified(before, s'.queue, id)))
  {
    hide Settled, Drained, Notified, RunCovers, Reaches;
    StoresAgree(s, events, d, chain, id, hours);
    var s' := Run(s, events, hours);
    forall q | q in order ensures Reaches(q, d, id) {
      assert q in multiset(order);
    }
    DrainingDecides(s'.alarms.sent.To(d), order, d, id, times, hours);
  }

  /** The smallest case: a resolution that overtakes its firing leaves the channel holding a
      resolved id. */
  lemma OvertakenResolutionSticks(m: Entries, fire: AlertMsg, clear: AlertMsg, d: Dest, id: string, at: Time,
                                  later: Time, hours: int)
    requires fire.uniqueId == id && clear.uniqueId == id && !fire.resolved && clear.resolved
    requires Stamped(m) && at != ZERO_TIME && later != ZERO_TIME
    requires Reaches(fire, d, id) && Reaches(clear, d, id)
    ensures !Recorded(Drained(m, [fire, clear], d, [at, later], hours), id)
    ensures Recorded(Drained(m, [clear, fire], d, [at, later], hours), id)
  {
    hide Drained, Reaches;
    DrainingDecides(m, [fire, clear], d, id, [at, later], hours);
    DrainingDecides(m, [clear, fire], d, id, [at, later], hours);
  }

  // ---------------------------------------------------------------------------
  // All ids at once
  // ---------------------------------------------------------------------------

  /** Each id belongs to one chain. */
  ghost predicate Owned(s: Sys, owner: string -> string) {
    forall c, id | Active(s, c, id) :: c == owner(id)
  }

  lemma OwnedStep(s: Sys, e: Event, d: Dest, owner: string -> string, hours: int)
    requires Owned(s, owner) && forall id :: Covers(s, e, d, owner(id), id)
    ensures Owned(Next(s, e, hours), owner)
  {
    var s' := Next(s, e, hours);
    forall c, id | Active(s', c, id) ensures c == owner(id) {
      assert Covers(s, e, d, owner(id), id);
      if e.Deliver? && s.queue != [] {
        OthersAreIndependent(s.alarms, s.queue[0], ORDER, Tg, e.at, hours);
      }
      hide Covers, GatesThrough, Owned, Silenced, BuildAlertMsg;
      OwnedBy(s, e, c, id, hours);
    }
  }

  /** An id is active after a step only if it was before or the step raised it. */
  lemma OwnedBy(s: Sys, e: Event, c: string, id: string, hours: int)
    requires Active(Next(s, e, hours), c, id)
    requires e.Deliver? ==> Next(s, e, hours).alarms.all == s.alarms.all
    ensures Active(s, c, id) || (e.Raise? && e.id == id && e.chain == c)
  {
    hide GatesThrough, Silenced;
  }

  lemma {:induction false} OwnedRun(s: Sys, events: seq<Event>, d: Dest, owner: string -> string, hours: int)
    requires Owned(s, owner) && forall id :: RunCovers(s, events, d, owner(id), id, hours)
    ensures Owned(Run(s, events, hours), owner)
  {
    hide Owned, Covers;
    if events != [] {
      var n := |events| - 1;
      forall id ensures RunCovers(s, events[..n], d, owner(id), id, hours)
          && Covers(Run(s, events[..n], hours), events[n], d, owner(id), id) {
        assert RunCovers(s, events, d, owner(id), id, hours);
        RunPrefix(s, events, d, owner(id), id, hours);
      }
      OwnedRun(s, events[..n], d, owner, hours);
      OwnedStep(Run(s, events[..n], hours), events[n], d, owner, hours);
    }
  }

  /** Draining a channel whose run is settled for every id leaves it holding exactly the ids
      that are active on any chain. */
  lemma {:induction false} DrainedChannelIsAllAlarms(s: Sys, events: seq<Event>, d: Dest, owner: string -> string,
                                                     times: seq<Time>, hours: int)
    requires !d.Pd? && Owned(s, owner)
    requires forall id :: RunCovers(s, events, d, owner(id), id, hours) && Sound(s, d, id) && Agree(s, d, owner(id), id)
    requires forall id :: Settled(s, events, owner(id), id, hours)
    requires |times| == |Run(s, events, hours).queue| && ZERO_TIME !in times
    ensures var s' := Run(s, events, hours);
      forall id :: Recorded(Drained(s'.alarms.sent.To(d), s'.queue, d, times, hours), id) <==>
          exists c :: Active(s', c, id)
  {
    hide Settled, Drained, RunCovers, Sound, Agree, Active;
    OwnedRun(s, events, d, owner, hours);
    var s' := Run(s, events, hours);
    forall id ensures Recorded(Drained(s'.alarms.sent.To(d), s'.queue, d, times, hours), id) <==>
        exists c :: Active(s', c, id) {
      assert RunCovers(s, events, d, owner(id), id, hours);
      assert Settled(s, events, owner(id), id, hours);
      DrainedChannelMatchesAllAlarms(s, events, d, owner(id), id, times, hours);
    }
  }
}
