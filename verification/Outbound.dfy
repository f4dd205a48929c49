/** What goes out, told from the history of messages alone: over every run each channel is
    sent exactly what is due on it, at once or through its digest bucket. */
module Outbound {
  import opened AlertTypes
  import opened Notify
  import opened Dispatch
  import opened Digest
  import Engine
  import Escalation

  /** The channels asked about a message before d is. */
  function Earlier(d: Dest): seq<Dest> {
    match d
    case Pd => []
    case Di => [Pd]
    case Tg => [Pd, Di]
    case Slk => [Pd, Di, Tg]
    case Wh => [Pd, Di, Tg, Slk]
  }

  /** The calls of the gate for one message: one on each of the channels that it wants. */
  function CallsOn(msg: AlertMsg, ds: seq<Dest>, now: Time): seq<Call>
    decreases |ds|
  {
    if ds == [] then []
    else (if msg.Wants(ds[0]) then [Call(msg, ds[0], now)] else []) + CallsOn(msg, ds[1..], now)
  }

  function Asked(ops: seq<Op>): seq<Call> {
    if ops == [] then []
    else
      Asked(ops[..|ops| - 1]) + match ops[|ops| - 1]
        case Message(msg, now) => CallsOn(msg, [Pd, Di, Tg, Slk, Wh], now)
        case Flush => []
  }

  ghost predicate RealTimes(ops: seq<Op>) {
    forall op | op in ops && op.Message? :: op.now != ZERO_TIME
  }

  /** The approvals before channel d is asked about the message that follows the run. */
  ghost function Known(a: Alarms, ops: seq<Op>, msg: AlertMsg, now: Time, d: Dest, hours: int): seq<Approval> {
    DueSoFar(a, Asked(ops) + CallsOn(msg, Earlier(d), now), hours)
  }

  /** The message that follows the run is to be sent on channel d: it wants it, it is due
      there, and it is neither for PagerDuty's example key nor a resolution for a webhook
      that declines them. */
  ghost predicate ToSend(a: Alarms, ops: seq<Op>, msg: AlertMsg, now: Time, d: Dest, hours: int) {
    && msg.Wants(d)
    && IsDue(a, Known(a, ops, msg, now, d, hours), Call(msg, d, now), hours)
    && !(d == Pd && msg.alertConfig.pdKey == "aaaaaaaaaaaabbbbbbbbbbbbbcccccccccccc")
    && !(d == Wh && msg.resolved && msg.alertConfig.whDisableResolve)
  }

  /** The messages of a run that are to be sent on channel d, in order. */
  ghost function DueOn(a: Alarms, ops: seq<Op>, d: Dest, hours: int): seq<AlertMsg> {
    if ops == [] then []
    else
      var rest := ops[..|ops| - 1];
      DueOn(a, rest, d, hours) + match ops[|ops| - 1]
        case Message(msg, now) => if ToSend(a, rest, msg, now, d, hours) then [msg] else []
        case Flush => []
  }

  /** Where a configuration has channel d send to. */
  function Target(c: AlertConfig, d: Dest): Address {
    match d
    case Pd => Routing(c.pdKey)
    case Di => Hook(c.discHook)
    case Tg => Bot(c.tgKey, c.tgChannel)
    case Slk => Hook(c.slkHook)
    case Wh => Hook(c.whURL)
  }

  /** The messages, each sent on channel d by itself and to its own address. */
  function EachSent(msgs: seq<AlertMsg>, d: Dest): seq<Delivery> {
    seq(|msgs|, i requires 0 <= i < |msgs| =>
      Delivery(d, Target(msgs[i].alertConfig, d),
               [Note(msgs[i].uniqueId, msgs[i].chain, msgs[i].severity, msgs[i].resolved)]))
  }

  /** The messages whose address has the given digest key. */
  function WithKey(msgs: seq<AlertMsg>, d: Dest, key: string): seq<AlertMsg> {
    if msgs == [] then []
    else
      var m := msgs[|msgs| - 1];
      var k := match Target(m.alertConfig, d)
        case Routing(k) => k
        case Bot(k, channel) => k + "|" + channel
        case Hook(url) => url;
      WithKey(msgs[..|msgs| - 1], d, key) + if k == key then [m] else []
  }

  /** The deliveries made on channel d, in order. */
  function OnChannel(out: seq<Delivery>, d: Dest): seq<Delivery> {
    if out == [] then []
    else OnChannel(out[..|out| - 1], d) + if out[|out| - 1].dest == d then [out[|out| - 1]] else []
  }

  // ---------------------------------------------------------------------------
  // The caches of both modes come from the same calls of the gate
  // ---------------------------------------------------------------------------

  lemma {:induction false} StateAfterBoth(a: Alarms, x: seq<Call>, y: seq<Call>, hours: int)
    ensures StateAfter(a, x + y, hours) == StateAfter(StateAfter(a, x, hours), y, hours)
  {
    hide After;
    if y == [] {
      assert x + y == x;
    } else {
      var rest := y[..|y| - 1];
      assert (x + y)[..|x + y| - 1] == x + rest;
      StateAfterBoth(a, x, rest, hours);
    }
  }

  lemma {:induction false} GatesAreCalls(a: Alarms, msg: AlertMsg, ds: seq<Dest>, now: Time, hours: int)
    ensures PlainGates(a, msg, ds, now, hours) == StateAfter(a, CallsOn(msg, ds, now), hours)
    decreases |ds|
  {
    hide After;
    if ds != [] {
      GatesAreCalls(Gate(a, msg, ds[0], now, hours), msg, ds[1..], now, hours);
      if msg.Wants(ds[0]) {
        var c := Call(msg, ds[0], now);
        assert [c][..0] == [];
        assert StateAfter(a, [c], hours) == Gate(a, msg, ds[0], now, hours);
        StateAfterBoth(a, [c], CallsOn(msg, ds[1..], now), hours);
      } else {
        assert CallsOn(msg, ds, now) == CallsOn(msg, ds[1..], now);
      }
    }
  }

  lemma {:induction false} CallsAreWellFormed(msg: AlertMsg, ds: seq<Dest>, now: Time)
    requires now != ZERO_TIME
    ensures WellFormed(CallsOn(msg, ds, now))
    decreases |ds|
  {
    if ds != [] {
      CallsAreWellFormed(msg, ds[1..], now);
    }
  }

  lemma {:induction false} AskedIsWellFormed(ops: seq<Op>)
    requires RealTimes(ops)
    ensures WellFormed(Asked(ops))
  {
    if ops != [] {
      var rest, op := ops[..|ops| - 1], ops[|ops| - 1];
      assert ops == rest + [op] && op in ops;
      AskedIsWellFormed(rest);
      if op.Message? {
        CallsAreWellFormed(op.msg, [Pd, Di, Tg, Slk, Wh], op.now);
      }
    }
  }

  /** Immediate mode ends with the cache the calls leave. */
  lemma {:induction false} CacheIsAsked(a: Alarms, ops: seq<Op>, hours: int)
    ensures ImmediateRun(a, ops, hours).0 == StateAfter(a, Asked(ops), hours)
  {
    assert StateAfter(a, [], hours) == a;
    hide GatesThrough, OutgoingThrough, PlainGates, CallsOn, StateAfter;
    if ops != [] {
      var rest := ops[..|ops| - 1];
      CacheIsAsked(a, rest, hours);
      match ops[|ops| - 1]
      case Flush =>
        assert Asked(ops) == Asked(rest);
      case Message(msg, now) =>
        var s := StateAfter(a, Asked(rest), hours);
        SameGates(s, msg, msg, ORDER, now, hours);
        GatesAreCalls(s, msg, ORDER, now, hours);
        StateAfterBoth(a, Asked(rest), CallsOn(msg, ORDER, now), hours);
    }
  }

  /** The gate and the filters together let through what is to be sent, and nothing else. */
  lemma SendsWhatIsToBeSent(a: Alarms, ops: seq<Op>, msg: AlertMsg, now: Time, d: Dest, hours: int)
    requires RealTimes(ops) && now != ZERO_TIME
    ensures Sends(PlainGates(ImmediateRun(a, ops, hours).0, msg, Earlier(d), now, hours), msg, d, now, hours)
            <==> ToSend(a, ops, msg, now, d, hours)
  {
    hide Judge, StateAfter, PlainGates, ImmediateRun, IsDue, Asked, CallsOn, DueSoFar;
    var calls := Asked(ops) + CallsOn(msg, Earlier(d), now);
    CacheIsAsked(a, ops, hours);
    GatesAreCalls(ImmediateRun(a, ops, hours).0, msg, Earlier(d), now, hours);
    StateAfterBoth(a, Asked(ops), CallsOn(msg, Earlier(d), now), hours);
    if msg.Wants(d) {
      AskedIsWellFormed(ops);
      CallsAreWellFormed(msg, Earlier(d), now);
      ApprovalsAreWhatIsDue(a, calls, hours);
      ApprovedExactlyWhenDue(a, calls, Call(msg, d, now), hours);
    }
  }

  // ---------------------------------------------------------------------------
  // One message through the channels
  // ---------------------------------------------------------------------------

  /** The channels of the list that come before d. */
  function Front(ds: seq<Dest>, d: Dest): seq<Dest> {
    if ds == [] || ds[0] == d then [] else [ds[0]] + Front(ds[1..], d)
  }

  lemma EarlierIsFront(d: Dest)
    ensures Earlier(d) == Front(ORDER, d)
  {
    assert ORDER[1..] == [Di, Tg, Slk, Wh];
    assert ORDER[1..][1..] == [Tg, Slk, Wh];
    assert ORDER[1..][1..][1..] == [Slk, Wh];
    assert ORDER[1..][1..][1..][1..] == [Wh];
  }

  lemma IsInOrder(d: Dest)
    ensures d in ORDER
  {
    match d {
      case Pd => assert ORDER[0] == d;
      case Di => assert ORDER[1] == d;
      case Tg => assert ORDER[2] == d;
      case Slk => assert ORDER[3] == d;
      case Wh => assert ORDER[4] == d;
    }
  }

  lemma {:induction false} OnChannelAppend(s: seq<Delivery>, t: seq<Delivery>, d: Dest)
    ensures OnChannel(s + t, d) == OnChannel(s, d) + OnChannel(t, d)
  {
    if t == [] {
      assert s + t == s;
    } else {
      OnChannelAppend(s, t[..|t| - 1], d);
      assert (s + t)[..|s + t| - 1] == s + t[..|t| - 1];
    }
  }

  lemma OnItsChannel(a: Alarms, m: AlertMsg, m1: AlertMsg, e: Dest, d: Dest, now: Time, hours: int)
    requires SameButText(m, m1)
    ensures OnChannel(Outgoing(a, m1, e, now, hours), d) == if e == d then Outgoing(a, m, d, now, hours) else []
  {
    GatesIgnoreText(a, m, m1, e, now, hours);
    hide Sends, Gate, Rewritten;
    if Sends(a, m, e, now, hours) {
      var one := Outgoing(a, m1, e, now, hours);
      assert one[..|one| - 1] == [];
    }
  }

  /** On channel d, a message passed through the channels has what d's own turn sends. */
  lemma {:induction false} TurnOf(a: Alarms, m: AlertMsg, m1: AlertMsg, ds: seq<Dest>, d: Dest, now: Time, hours: int)
    requires SameButText(m, m1) && NoRepeats(ds)
    ensures OnChannel(OutgoingThrough(a, m1, ds, now, hours), d)
         == if d in ds then Outgoing(PlainGates(a, m, Front(ds, d), now, hours), m, d, now, hours) else []
    decreases |ds|
  {
    hide Gate, Outgoing, Rewritten, SameButText, PlainGates, GatesThrough, OnChannel;
    if ds == [] {
      NoneOnChannel(d);
    } else {
      var e, rest := ds[0], ds[1..];
      assert ds == [e] + rest && Front(ds, d) == if e == d then [] else [e] + Front(rest, d);
      assert NoRepeats(rest) && e !in rest;
      hide NoRepeats, Front;
      GatesIgnoreText(a, m, m1, e, now, hours);
      OnItsChannel(a, m, m1, e, d, now, hours);
      var a1, m2 := Gate(a, m, e, now, hours), Rewritten(a, m1, e, now, hours);
      TurnOf(a1, m, m2, rest, d, now, hours);
      NextChannel(a, m1, e, rest, now, hours);
      hide OutgoingThrough;
      OnChannelAppend(Outgoing(a, m1, e, now, hours), OutgoingThrough(a1, m2, rest, now, hours), d);
      NextPlain(a, m, e, Front(rest, d), now, hours);
      NonePlain(a, m, now, hours);
    }
  }

  lemma NoneOnChannel(d: Dest)
    ensures OnChannel([], d) == []
  {
  }

  lemma NonePlain(a: Alarms, m: AlertMsg, now: Time, hours: int)
    ensures PlainGates(a, m, [], now, hours) == a
  {
  }

  /** On channel e, enqueuing a message buffers what e's own turn buffers. */
  lemma {:induction false} BufferTurnOf(a: Alarms, m: AlertMsg, ds: seq<Dest>, e: Dest, key: string, now: Time,
                                        hours: int)
    requires NoRepeats(ds)
    ensures PlainBuffers(a, m, ds, e, key, now, hours)
         == if e in ds then Buffers(PlainGates(a, m, Front(ds, e), now, hours), m, e, e, key, now, hours) else []
    decreases |ds|
  {
    hide Gate, Sends, Key;
    if ds != [] {
      var d, rest := ds[0], ds[1..];
      BufferTurnOf(Gate(a, m, d, now, hours), m, rest, e, key, now, hours);
      assert ds == [d] + rest;
      NextPlain(a, m, d, Front(rest, e), now, hours);
    }
  }

  // ---------------------------------------------------------------------------
  // Whole runs
  // ---------------------------------------------------------------------------

  /** Over every run of immediate mode, from any cache, each channel is sent exactly the
      messages that are due on it, in order, each to the address its configuration names. */
  lemma {:induction false} SentExactlyWhenDue(a: Alarms, ops: seq<Op>, d: Dest, hours: int)
    requires RealTimes(ops)
    ensures OnChannel(ImmediateRun(a, ops, hours).1, d) == EachSent(DueOn(a, ops, d, hours), d)
  {
    hide OutgoingThrough, GatesThrough, ToSend, EachSent;
    if ops == [] {
      NoneAreSent(d);
    } else {
      var rest, op := ops[..|ops| - 1], ops[|ops| - 1];
      assert op in ops && forall o | o in rest :: o in ops;
      SentExactlyWhenDue(a, rest, d, hours);
      var (s, out) := ImmediateRun(a, rest, hours);
      if op.Message? {
        OnChannelAppend(out, OutgoingThrough(s, op.msg, ORDER, op.now, hours), d);
        OneIsSent(a, rest, op.msg, op.now, d, hours);
        EachSentAppend(DueOn(a, rest, d, hours), op.msg, d);
      } else {
        assert DueOn(a, ops, d, hours) == DueOn(a, rest, d, hours);
      }
    }
  }

  lemma NoneAreSent(d: Dest)
    ensures EachSent([], d) == []
  {
  }

  lemma EachSentAppend(msgs: seq<AlertMsg>, m: AlertMsg, d: Dest)
    ensures EachSent(msgs + [m], d) == EachSent(msgs, d) + EachSent([m], d)
    ensures EachSent(msgs + [], d) == EachSent(msgs, d) + EachSent([], d)
  {
    assert msgs + [] == msgs;
  }

  lemma OneIsSent(a: Alarms, ops: seq<Op>, msg: AlertMsg, now: Time, d: Dest, hours: int)
    requires RealTimes(ops) && now != ZERO_TIME
    ensures OnChannel(OutgoingThrough(ImmediateRun(a, ops, hours).0, msg, ORDER, now, hours), d)
         == EachSent(if ToSend(a, ops, msg, now, d, hours) then [msg] else [], d)
  {
    hide Sends, ToSend, PlainGates, ImmediateRun, OutgoingThrough;
    var s := ImmediateRun(a, ops, hours).0;
    TurnOf(s, msg, msg, ORDER, d, now, hours);
    EarlierIsFront(d);
    IsInOrder(d);
    SendsWhatIsToBeSent(a, ops, msg, now, d, hours);
  }

  /** Over every run of digest mode, with flushes anywhere: what a bucket has flushed and
      holds is exactly the messages due on its channel to an address with its key, in order. */
  lemma {:induction false} BufferedExactlyWhenDue(s: Batching, ops: seq<Op>, e: Dest, key: string, hours: int)
    requires !e.Pd? && RealTimes(ops)
    requires s.Stream(e, key) == []
    ensures BatchRun(s, ops, hours).Stream(e, key) == WithKey(DueOn(s.alarms, ops, e, hours), e, key)
  {
    assert WithKey([], e, key) == [];
    hide PlainBuffers, Gate, ToSend, WithKey, BatchStep, Batching.Stream;
    if ops != [] {
      var rest, op := ops[..|ops| - 1], ops[|ops| - 1];
      assert op in ops && forall o | o in rest :: o in ops;
      BufferedExactlyWhenDue(s, rest, e, key, hours);
      var r, due := BatchRun(s, rest, hours), DueOn(s.alarms, rest, e, hours);
      StreamStep(r, op, e, key, hours);
      if op.Message? {
        DigestRefinesImmediate(s, rest, e, key, hours);
        OneIsBuffered(s.alarms, rest, op.msg, op.now, e, key, hours);
        WithKeyMore(due, op.msg, e, key);
      } else {
        assert DueOn(s.alarms, ops, e, hours) == due;
      }
    }
  }

  lemma StreamStep(r: Batching, op: Op, e: Dest, key: string, hours: int)
    ensures BatchStep(r, op, hours).Stream(e, key) == r.Stream(e, key) +
        if op.Flush? then []
        else PlainBuffers(Gate(r.alarms, op.msg, Pd, op.now, hours), op.msg, BATCHED, e, key, op.now, hours)
  {
    hide PlainGates, PlainBuffers, Gate;
  }

  lemma WithKeyMore(msgs: seq<AlertMsg>, m: AlertMsg, e: Dest, key: string)
    ensures WithKey(msgs + [m], e, key) == WithKey(msgs, e, key) + WithKey([m], e, key)
    ensures WithKey(msgs + [], e, key) == WithKey(msgs, e, key) + WithKey([], e, key)
  {
    assert (msgs + [m])[..|msgs|] == msgs && [m][..0] == [] && msgs + [] == msgs;
  }

  lemma OneIsBuffered(a: Alarms, ops: seq<Op>, msg: AlertMsg, now: Time, e: Dest, key: string, hours: int)
    requires !e.Pd? && RealTimes(ops) && now != ZERO_TIME
    ensures PlainBuffers(Gate(ImmediateRun(a, ops, hours).0, msg, Pd, now, hours), msg, BATCHED, e, key, now, hours)
         == WithKey(if ToSend(a, ops, msg, now, e, hours) then [msg] else [], e, key)
  {
    hide Gate, Sends, ToSend, PlainGates, PlainBuffers, ImmediateRun, Key, WithKey, Earlier, Front;
    var s := ImmediateRun(a, ops, hours).0;
    NextPlain(s, msg, Pd, BATCHED, now, hours);
    assert ORDER == [Pd] + BATCHED;
    BufferTurnOf(s, msg, ORDER, e, key, now, hours);
    EarlierIsFront(e);
    IsInOrder(e);
    SendsWhatIsToBeSent(a, ops, msg, now, e, hours);
    OneWithKey(msg, e, key);
    assert Buffers(s, msg, Pd, e, key, now, hours) == [];
  }

  lemma OneWithKey(msg: AlertMsg, e: Dest, key: string)
    ensures WithKey([], e, key) == [] && WithKey([msg], e, key) == if key == Key(msg, e) then [msg] else []
  {
    assert [msg][..0] == [];
  }

  // ---------------------------------------------------------------------------
  // Escalations reach the channels they are meant for
  // ---------------------------------------------------------------------------

  /** The channel is about to hear of the message that follows the run: it does not hold the
      id, or holds it as a governance id that is due a reminder. */
  ghost predicate Unheard(a: Alarms, ops: seq<Op>, m: AlertMsg, now: Time, d: Dest, hours: int) {
    var log := Known(a, ops, m, now, d, hours);
    Holding(a, log, d, m.uniqueId) ==>
      "UnvotedGovernanceProposal" <= m.uniqueId && now > LastApproval(a, log, d, m.uniqueId) + hours * 3_600_000_000_000
  }

  lemma EscalationIsToSend(a: Alarms, ops: seq<Op>, m: AlertMsg, now: Time, chains: Engine.ChainViews,
                           defaults: AlertConfig, chain: string, id: string, d: Dest, hours: int)
    requires !d.Pd? && Escalation.IsEscalation(m, chains, defaults, chain, id)
    requires defaults.On(d).enabled && chains[chain].alerts.On(d).enabled
    ensures ToSend(a, ops, m, now, d, hours) <==> Unheard(a, ops, m, now, d, hours)
  {
    hide Known, Holding, LastApproval, ToLower;
  }

  /** After any run, delivering an escalation sends it, to the address the chain's own
      configuration names, on every channel other than PagerDuty that the defaults and the
      chain enable and that does not hold the derived id already. */
  lemma EscalationIsHeard(a: Alarms, ops: seq<Op>, m: AlertMsg, now: Time, chains: Engine.ChainViews,
                          defaults: AlertConfig, chain: string, id: string, d: Dest, hours: int)
    requires RealTimes(ops) && now != ZERO_TIME
    requires !d.Pd? && Escalation.IsEscalation(m, chains, defaults, chain, id)
    requires defaults.On(d).enabled && chains[chain].alerts.On(d).enabled
    ensures var before, after := ImmediateRun(a, ops, hours).1, ImmediateRun(a, ops + [Message(m, now)], hours).1;
      var title := chain + " (" + chains[chain].chainId + ")";
      OnChannel(after, d) == OnChannel(before, d) +
        if Unheard(a, ops, m, now, d, hours)
            then [Delivery(d, Target(chains[chain].alerts, d), [Note(id + "_escalated", title, "critical", false)])]
        else []
  {
    hide Unheard, ToSend, OutgoingThrough, GatesThrough, Target;
    var more := ops + [Message(m, now)];
    assert more[..|more| - 1] == ops;
    EscalationIsToSend(a, ops, m, now, chains, defaults, chain, id, d, hours);
    OneIsSent(a, ops, m, now, d, hours);
    var (s, out) := ImmediateRun(a, ops, hours);
    OnChannelAppend(out, OutgoingThrough(s, m, ORDER, now, hours), d);
    hide ImmediateRun, OnChannel;
  }

  /** The same in digest mode: the escalation joins its bucket exactly if it is unheard. */
  lemma EscalationIsBuffered(s: Batching, ops: seq<Op>, m: AlertMsg, now: Time, chains: Engine.ChainViews,
                             defaults: AlertConfig, chain: string, id: string, d: Dest, hours: int)
    requires RealTimes(ops) && now != ZERO_TIME
    requires !d.Pd? && Escalation.IsEscalation(m, chains, defaults, chain, id)
    requires defaults.On(d).enabled && chains[chain].alerts.On(d).enabled
    requires s.Stream(d, KeyOf(Target(chains[chain].alerts, d))) == []
    ensures var key := KeyOf(Target(chains[chain].alerts, d));
      BatchRun(s, ops + [Message(m, now)], hours).Stream(d, key) == BatchRun(s, ops, hours).Stream(d, key) +
        if Unheard(s.alarms, ops, m, now, d, hours) then [m] else []
  {
    hide Unheard, ToSend, PlainBuffers, Gate, BatchStep, Batching.Stream;
    var more := ops + [Message(m, now)];
    assert more[..|more| - 1] == ops;
    var key := KeyOf(Target(chains[chain].alerts, d));
    EscalationIsToSend(s.alarms, ops, m, now, chains, defaults, chain, id, d, hours);
    StreamStep(BatchRun(s, ops, hours), Message(m, now), d, key, hours);
    DigestRefinesImmediate(s, ops, d, key, hours);
    OneIsBuffered(s.alarms, ops, m, now, d, key, hours);
    assert m.alertConfig == chains[chain].alerts;
    OneWithKey(m, d, key);
  }
}
