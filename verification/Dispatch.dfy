/** The dispatch loop: PagerDuty first, then every other channel at once. */
module Dispatch {
  import opened AlertTypes
  import opened Notify

  /** The routing key of PagerDuty's own example, which is never sent to. */
  const EXAMPLE_KEY: string := "aaaaaaaaaaaabbbbbbbbbbbbbcccccccccccc"

  datatype Address = Routing(key: string) | Bot(key: string, channel: string) | Hook(url: string)

  function AddressOf(msg: AlertMsg, d: Dest): Address {
    var c := msg.alertConfig;
    match d
    case Pd => Routing(c.pdKey)
    case Tg => Bot(c.tgKey, c.tgChannel)
    case Di => Hook(c.discHook)
    case Slk => Hook(c.slkHook)
    case Wh => Hook(c.whURL)
  }

  /** One outgoing request. An immediate notification carries one note. */
  datatype Delivery = Delivery(dest: Dest, addr: Address, notes: seq<Note>)

  /** Filters applied after the gate has approved (and recorded) the message. */
  predicate Withheld(msg: AlertMsg, d: Dest) {
    || (d.Pd? && msg.alertConfig.pdKey == EXAMPLE_KEY)
    || (d.Wh? && msg.resolved && msg.alertConfig.whDisableResolve)
  }

  function Gate(a: Alarms, msg: AlertMsg, d: Dest, now: Time, hours: int): Alarms {
    if msg.Wants(d) then After(a, msg, d, now, hours) else a
  }

  predicate Sends(a: Alarms, msg: AlertMsg, d: Dest, now: Time, hours: int) {
    msg.Wants(d) && Judge(a, msg, d, now, hours).Approves() && !Withheld(msg, d)
  }

  function Outgoing(a: Alarms, msg: AlertMsg, d: Dest, now: Time, hours: int): seq<Delivery> {
    if Sends(a, msg, d, now, hours) then [Delivery(d, AddressOf(msg, d), [NoteOf(msg)])] else []
  }

  /** Building Slack's request rewrites the text of a resolved message for whoever comes after. */
  function Rewritten(a: Alarms, msg: AlertMsg, d: Dest, now: Time, hours: int): AlertMsg {
    if d.Slk? && msg.resolved && Sends(a, msg, d, now, hours) then msg.(message := "OK: " + msg.message) else msg
  }

  const ORDER: seq<Dest> := [Pd, Di, Tg, Slk, Wh]

  function GatesThrough(a: Alarms, msg: AlertMsg, ds: seq<Dest>, now: Time, hours: int): Alarms
    decreases |ds|
  {
    if ds == [] then a
    else GatesThrough(Gate(a, msg, ds[0], now, hours), Rewritten(a, msg, ds[0], now, hours), ds[1..], now, hours)
  }

  function OutgoingThrough(a: Alarms, msg: AlertMsg, ds: seq<Dest>, now: Time, hours: int): seq<Delivery>
    decreases |ds|
  {
    if ds == [] then []
    else Outgoing(a, msg, ds[0], now, hours)
         + OutgoingThrough(Gate(a, msg, ds[0], now, hours), Rewritten(a, msg, ds[0], now, hours), ds[1..], now, hours)
  }

  class Dispatcher {
    const alarms: AlarmCache
    const reminderHours: int
    var outbox: seq<Delivery>

    constructor (alarms: AlarmCache, reminderHours: int)
      ensures this.alarms == alarms && this.reminderHours == reminderHours && outbox == []
    {
      this.alarms, this.reminderHours, outbox := alarms, reminderHours, [];
    }

    /** One of the five notify functions: gate, then filter, then send. */
    method NotifyOn(d: Dest, msg: AlertMsg, now: Time) returns (msg': AlertMsg)
      modifies this`outbox, alarms
      ensures alarms.View() == Gate(old(alarms.View()), msg, d, now, reminderHours)
      ensures outbox == old(outbox) + Outgoing(old(alarms.View()), msg, d, now, reminderHours)
      ensures msg' == Rewritten(old(alarms.View()), msg, d, now, reminderHours)
    {
      hide After, Judge;
      msg' := msg;
      if !msg.Wants(d) {
        return;
      }
      var ok := alarms.ShouldNotify(msg, d, now, reminderHours);
      if !ok {
        return;
      }
      if d == Pd && msg.alertConfig.pdKey == EXAMPLE_KEY {
        return;
      }
      if d == Wh && msg.resolved && msg.alertConfig.whDisableResolve {
        return;
      }
      if d == Slk && msg.resolved {
        msg' := msg.(message := "OK: " + msg.message);
      }
      outbox := outbox + [Delivery(d, AddressOf(msg, d), [NoteOf(msg)])];
    }

    /** Immediate mode: one message through all five channels. */
    method Dispatch(msg: AlertMsg, now: Time)
      modifies this`outbox, alarms
      ensures alarms.View() == GatesThrough(old(alarms.View()), msg, ORDER, now, reminderHours)
      ensures outbox == old(outbox) + OutgoingThrough(old(alarms.View()), msg, ORDER, now, reminderHours)
    {
      hide Gate, Outgoing, Rewritten;
      ghost var a0, o0 := alarms.View(), outbox;
      var m := NotifyOn(Pd, msg, now);
      NextChannel(a0, msg, Pd, [Di, Tg, Slk, Wh], now, reminderHours);
      ghost var a1, m1 := alarms.View(), m;
      m := NotifyOn(Di, m, now);
      NextChannel(a1, m1, Di, [Tg, Slk, Wh], now, reminderHours);
      ghost var a2, m2 := alarms.View(), m;
      m := NotifyOn(Tg, m, now);
      NextChannel(a2, m2, Tg, [Slk, Wh], now, reminderHours);
      ghost var a3, m3 := alarms.View(), m;
      m := NotifyOn(Slk, m, now);
      NextChannel(a3, m3, Slk, [Wh], now, reminderHours);
      ghost var a4, m4 := alarms.View(), m;
      m := NotifyOn(Wh, m, now);
      NextChannel(a4, m4, Wh, [], now, reminderHours);
    }
  }

  lemma NextChannel(a: Alarms, msg: AlertMsg, d: Dest, rest: seq<Dest>, now: Time, hours: int)
    ensures var ds := [d] + rest;
      var a1, msg1 := Gate(a, msg, d, now, hours), Rewritten(a, msg, d, now, hours);
      && GatesThrough(a, msg, ds, now, hours) == GatesThrough(a1, msg1, rest, now, hours)
      && OutgoingThrough(a, msg, ds, now, hours)
          == Outgoing(a, msg, d, now, hours) + OutgoingThrough(a1, msg1, rest, now, hours)
  {
    hide Gate, Outgoing, Rewritten;
    assert ([d] + rest)[0] == d && ([d] + rest)[1..] == rest;
  }

  // ---------------------------------------------------------------------------
  // Channels do not interfere
  // ---------------------------------------------------------------------------

  /** The effect of one gate on its own channel's map, for channels without flap detection. */
  function ChannelAfter(m: Entries, msg: AlertMsg, d: Dest, now: Time, hours: int): Entries {
    if !msg.Wants(d) then m
    else
      match JudgeOn(m, msg, d, false, now, hours)
      case Firing => m[msg.uniqueId := Stamp(msg, now)]
      case Reminder => m[msg.uniqueId := Stamp(msg, now)]
      case Resolution => m - {msg.uniqueId}
      case _ => m
  }

  lemma GateOnChannel(a: Alarms, msg: AlertMsg, e: Dest, d: Dest, now: Time, hours: int)
    requires !d.Pd?
    ensures Gate(a, msg, e, now, hours).all == a.all
    ensures Gate(a, msg, e, now, hours).sent.To(d) ==
          if e == d then ChannelAfter(a.sent.To(d), msg, d, now, hours) else a.sent.To(d)
  {
    hide JudgeOn, FlapMap, RecentlyFired, Sent.To, Sent.With;
    if msg.Wants(e) {
      assert a.sent.With(e, a.sent.To(e)).To(d) == a.sent.To(d);
    }
  }

  /** The text of a resolved message reaches no sent map. */
  lemma TextIsIrrelevant(m: Entries, msg: AlertMsg, text: string, d: Dest, now: Time, hours: int)
    requires msg.resolved
    ensures ChannelAfter(m, msg.(message := text), d, now, hours) == ChannelAfter(m, msg, d, now, hours)
  {
    hide Severities;
  }

  lemma RewritesTextOnly(a: Alarms, msg: AlertMsg, d: Dest, now: Time, hours: int)
    ensures var m := Rewritten(a, msg, d, now, hours); m == msg.(message := m.message) && (m != msg ==> msg.resolved)
  {
    hide Sends;
  }

  ghost predicate NoRepeats(ds: seq<Dest>) {
    forall i, j | 0 <= i < j < |ds| :: ds[i] != ds[j]
  }

  lemma {:induction false} OthersAreIndependent(a: Alarms, msg: AlertMsg, ds: seq<Dest>, d: Dest, now: Time, hours: int)
    requires !d.Pd? && NoRepeats(ds)
    ensures var a' := GatesThrough(a, msg, ds, now, hours);
      && a'.all == a.all
      && a'.sent.To(d) == if d in ds then ChannelAfter(a.sent.To(d), msg, d, now, hours) else a.sent.To(d)
    decreases |ds|
  {
    hide Gate, Rewritten, ChannelAfter;
    if ds != [] {
      var a1, msg1 := Gate(a, msg, ds[0], now, hours), Rewritten(a, msg, ds[0], now, hours);
      RewritesTextOnly(a, msg, ds[0], now, hours);
      GateOnChannel(a, msg, ds[0], d, now, hours);
      assert ds == [ds[0]] + ds[1..];
      OthersAreIndependent(a1, msg1, ds[1..], d, now, hours);
      if msg.resolved {
        TextIsIrrelevant(a1.sent.To(d), msg, msg1.message, d, now, hours);
      }
    }
  }

  /** The same to the PagerDuty gate: its sent map and the flap memory. */
  ghost predicate SamePager(a: Alarms, b: Alarms) {
    a.sent.pd == b.sent.pd && forall chain :: Of(a.flapping, chain) == Of(b.flapping, chain)
  }

  lemma OtherGateKeepsPager(a: Alarms, msg: AlertMsg, d: Dest, now: Time, hours: int)
    requires !d.Pd?
    ensures SamePager(Gate(a, msg, d, now, hours), a)
  {
    hide JudgeOn, RecentlyFired, Stamp, Sent.To;
    if msg.Wants(d) {
      KeepsPagerMap(a.sent, d);
    }
  }

  lemma KeepsPagerMap(s: Sent, d: Dest)
    requires !d.Pd?
    ensures forall m :: s.With(d, m).pd == s.pd
  {
  }

  /** The PagerDuty gate's own effect. */
  function PagerMap(m: Entries, v: Verdict, msg: AlertMsg, now: Time): Entries {
    match v
    case Firing => m[msg.uniqueId := Stamp(msg, now)]
    case Reminder => m[msg.uniqueId := Stamp(msg, now)]
    case Resolution => m - {msg.uniqueId}
    case _ => m
  }

  lemma PagerAfter(a: Alarms, msg: AlertMsg, now: Time, hours: int)
    ensures var v, a' := Judge(a, msg, Pd, now, hours), After(a, msg, Pd, now, hours);
      && a'.sent.pd == PagerMap(a.sent.pd, v, msg, now)
      && a'.flapping == if v.Firing? || v.Flapping? then FlapMap(a, msg, Pd, now) else a.flapping
  {
    hide Judge, FlapMap, Stamp;
  }

  /** The PagerDuty gate sees nothing else, and of a resolution not the text. */
  lemma PagerGateSeesPager(a: Alarms, b: Alarms, msg: AlertMsg, text: string, now: Time, hours: int)
    requires SamePager(a, b) && (text != msg.message ==> msg.resolved)
    ensures SamePager(Gate(a, msg, Pd, now, hours), Gate(b, msg.(message := text), Pd, now, hours))
  {
    hide Severities, RecentlyFired, JudgeOn, FlapMap, After;
    var m := msg.(message := text);
    RecentIsPagers(a, b, msg, text, now);
    assert Judge(a, msg, Pd, now, hours) == Judge(b, m, Pd, now, hours) by {
      SameVerdict(a.sent.pd, msg, text, msg.pd && RecentlyFired(a, msg, now), now, hours);
    }
    hide Judge;
    PagerAfter(a, msg, now, hours);
    PagerAfter(b, m, now, hours);
    if !msg.resolved {
      assert m == msg;
    } else {
      ResolvedVerdict(a, msg, now, hours);
    }
    if Judge(a, msg, Pd, now, hours).Firing? || Judge(a, msg, Pd, now, hours).Flapping? {
      SameMemory(a, b, msg, now);
    }
  }

  lemma SameVerdict(e: Entries, msg: AlertMsg, text: string, flap: bool, now: Time, hours: int)
    ensures JudgeOn(e, msg.(message := text), Pd, flap, now, hours) == JudgeOn(e, msg, Pd, flap, now, hours)
  {
    hide Severities;
  }

  lemma ResolvedVerdict(a: Alarms, msg: AlertMsg, now: Time, hours: int)
    requires msg.resolved
    ensures var v := Judge(a, msg, Pd, now, hours); v.Gated? || v.Resolution? || v.NothingToClear?
  {
    hide Severities;
  }

  lemma SameMemory(a: Alarms, b: Alarms, msg: AlertMsg, now: Time)
    requires SamePager(a, b)
    ensures forall chain :: Of(FlapMap(a, msg, Pd, now), chain) == Of(FlapMap(b, msg, Pd, now), chain)
  {
    RecentIsPagers(a, b, msg, msg.message, now);
    assert msg.(message := msg.message) == msg;
    hide RecentlyFired;
    forall chain ensures Of(FlapMap(a, msg, Pd, now), chain) == Of(FlapMap(b, msg, Pd, now), chain) {
      assert Of(a.flapping, chain) == Of(b.flapping, chain);
      assert Of(a.flapping, msg.chain) == Of(b.flapping, msg.chain);
    }
  }

  lemma RecentIsPagers(a: Alarms, b: Alarms, msg: AlertMsg, text: string, now: Time)
    requires SamePager(a, b)
    ensures RecentlyFired(a, msg, now) == RecentlyFired(b, msg.(message := text), now)
  {
  }

  lemma {:induction false} PagerIsIndependent(a: Alarms, msg: AlertMsg, ds: seq<Dest>, now: Time, hours: int)
    requires NoRepeats(ds)
    ensures SamePager(GatesThrough(a, msg, ds, now, hours), if Pd in ds then Gate(a, msg, Pd, now, hours) else a)
    decreases |ds|
  {
    hide Gate, Rewritten;
    if ds != [] {
      var a1, msg1 := Gate(a, msg, ds[0], now, hours), Rewritten(a, msg, ds[0], now, hours);
      RewritesTextOnly(a, msg, ds[0], now, hours);
      assert ds == [ds[0]] + ds[1..];
      PagerIsIndependent(a1, msg1, ds[1..], now, hours);
      if !ds[0].Pd? {
        OtherGateKeepsPager(a, msg, ds[0], now, hours);
        PagerGateSeesPager(a, a1, msg, msg1.message, now, hours);
      }
    }
  }

  /** Passing a message through any list of distinct channels changes each sent map, and the
      flap memory, as the one gate that writes it alone would, and AllAlarms not at all. */
  lemma ChannelsAreIndependent(a: Alarms, msg: AlertMsg, ds: seq<Dest>, d: Dest, now: Time, hours: int)
    requires NoRepeats(ds)
    ensures var a' := GatesThrough(a, msg, ds, now, hours);
      && a'.all == a.all
      && a'.sent.To(d) == (if d in ds then Gate(a, msg, d, now, hours) else a).sent.To(d)
      && (forall chain :: Of(a'.flapping, chain)
            == Of((if Pd in ds then Gate(a, msg, Pd, now, hours) else a).flapping, chain))
  {
    hide Gate, GatesThrough, ChannelAfter;
    PagerIsIndependent(a, msg, ds, now, hours);
    if d.Pd? {
      OthersAreIndependent(a, msg, ds, Tg, now, hours);
    } else {
      OthersAreIndependent(a, msg, ds, d, now, hours);
      GateOnChannel(a, msg, d, d, now, hours);
    }
  }
}
