/** `shouldNotify`: the per-channel gate every notification passes, and what its
    answers look like over a whole run. */
module Notify {
  import opened AlertTypes

  const FLAP_WINDOW: int := 5 * MINUTE

  /** Why a message is or is not sent on a channel. */
  datatype Verdict = Gated | Reminder | Duplicate | Resolution | NothingToClear | Flapping | Firing {
    predicate Approves() {
      Reminder? || Resolution? || Firing?
    }
  }

  /** The PagerDuty firing of this id that flap detection remembers, if it is recent. */
  predicate RecentlyFired(a: Alarms, msg: AlertMsg, now: Time) {
    var seen := Of(a.flapping, msg.chain);
    msg.uniqueId in seen && seen[msg.uniqueId].sentTime > now - FLAP_WINDOW
  }

  /** The decision, from the channel's own sent map and the flap check alone. */
  function JudgeOn(m: Entries, msg: AlertMsg, d: Dest, flap: bool, now: Time, hours: int): Verdict {
    if msg.severity !in Severities(msg.alertConfig.On(d).threshold) then Gated
    else if Recorded(m, msg.uniqueId) then
      if msg.resolved then Resolution
      else if HasPrefix(msg.uniqueId, GOVERNANCE) && m[msg.uniqueId].sentTime < now - hours * HOUR then Reminder
      else Duplicate
    else if msg.resolved then NothingToClear
    else if flap then Flapping
    else Firing
  }

  function Judge(a: Alarms, msg: AlertMsg, d: Dest, now: Time, hours: int): Verdict {
    JudgeOn(a.sent.To(d), msg, d, d.Pd? && msg.pd && RecentlyFired(a, msg, now), now, hours)
  }

  function Stamp(msg: AlertMsg, now: Time): Entry {
    Entry(msg.message, now, "", false)
  }

  /** What flap detection remembers once a new firing reaches it. */
  function FlapMap(a: Alarms, msg: AlertMsg, d: Dest, now: Time): map<string, Entries> {
    var seen := Of(a.flapping, msg.chain);
    a.flapping[msg.chain := if d.Pd? && msg.pd && !RecentlyFired(a, msg, now)
        then seen[msg.uniqueId := Stamp(msg, now)] else seen]
  }

  function After(a: Alarms, msg: AlertMsg, d: Dest, now: Time, hours: int): Alarms {
    var v := Judge(a, msg, d, now, hours);
    var m := a.sent.To(d);
    var sent' := match v
      case Firing => a.sent.With(d, m[msg.uniqueId := Stamp(msg, now)])
      case Reminder => a.sent.With(d, m[msg.uniqueId := Stamp(msg, now)])
      case Resolution => a.sent.With(d, m - {msg.uniqueId})
      case _ => a.sent;
    Alarms(sent', a.all, if v.Firing? || v.Flapping? then FlapMap(a, msg, d, now) else a.flapping)
  }

  /** The shared alarm cache, one map per channel plus the dashboard's AllAlarms. */
  class AlarmCache {
    var SentPdAlarms: Entries
    var SentTgAlarms: Entries
    var SentDiAlarms: Entries
    var SentSlkAlarms: Entries
    var SentWHAlarms: Entries
    var AllAlarms: map<string, Entries>
    var flappingAlarms: map<string, Entries>

    ghost function View(): Alarms
      reads this
    {
      Alarms(Sent(SentPdAlarms, SentTgAlarms, SentDiAlarms, SentSlkAlarms, SentWHAlarms), AllAlarms, flappingAlarms)
    }

    constructor ()
      ensures View() == Alarms(Sent(map[], map[], map[], map[], map[]), map[], map[])
    {
      SentPdAlarms, SentTgAlarms, SentDiAlarms, SentSlkAlarms, SentWHAlarms := map[], map[], map[], map[], map[];
      AllAlarms, flappingAlarms := map[], map[];
    }

    method Store(dest: Dest, m: Entries)
      modifies this
      ensures View() == old(View()).(sent := old(View()).sent.With(dest, m))
    {
      match dest
      case Pd => SentPdAlarms := m;
      case Tg => SentTgAlarms := m;
      case Di => SentDiAlarms := m;
      case Slk => SentSlkAlarms := m;
      case Wh => SentWHAlarms := m;
    }

    method Load(dest: Dest) returns (m: Entries)
      ensures m == View().sent.To(dest)
    {
      match dest
      case Pd => m := SentPdAlarms;
      case Tg => m := SentTgAlarms;
      case Di => m := SentDiAlarms;
      case Slk => m := SentSlkAlarms;
      case Wh => m := SentWHAlarms;
    }

    /** PagerDuty's flap check; it also remembers the firing it lets through. */
    method DetectFlap(msg: AlertMsg, dest: Dest, now: Time) returns (suppressed: bool)
      modifies this`flappingAlarms
      ensures suppressed == (dest.Pd? && msg.pd && RecentlyFired(old(View()), msg, now))
      ensures flappingAlarms == FlapMap(old(View()), msg, dest, now)
    {
      if msg.chain !in flappingAlarms {
        flappingAlarms := flappingAlarms[msg.chain := map[]];
      }
      var seen := flappingAlarms[msg.chain];
      if dest == Pd && msg.pd && msg.uniqueId in seen && seen[msg.uniqueId].sentTime > now - 5 * MINUTE {
        return true;
      } else if dest == Pd && msg.pd {
        flappingAlarms := flappingAlarms[msg.chain := seen[msg.uniqueId := Entry(msg.message, now, "", false)]];
      }
      return false;
    }

    method ShouldNotify(msg: AlertMsg, dest: Dest, now: Time, reminderHours: int) returns (ok: bool)
      modifies this
      ensures ok == Judge(old(View()), msg, dest, now, reminderHours).Approves()
      ensures View() == After(old(View()), msg, dest, now, reminderHours)
    {
      hide Severities, Sent.With, Sent.To, FlapMap, RecentlyFired;
      if msg.severity !in Severities(msg.alertConfig.On(dest).threshold) {
        return false;
      }
      var whichMap := Load(dest);
      var cache := Entry(msg.message, now, "", false);
      if Recorded(whichMap, msg.uniqueId) && !msg.resolved {
        if HasPrefix(msg.uniqueId, GOVERNANCE) {
          if whichMap[msg.uniqueId].sentTime < now - reminderHours * HOUR {
            Store(dest, whichMap[msg.uniqueId := cache]);
            return true;
          }
        }
        return false;
      } else if Recorded(whichMap, msg.uniqueId) && msg.resolved {
        Store(dest, whichMap - {msg.uniqueId});
        return true;
      } else if msg.resolved {
        return false;
      }
      var suppressed := DetectFlap(msg, dest, now);
      if suppressed {
        return false;
      }
      Store(dest, whichMap[msg.uniqueId := cache]);
      return true;
    }

    /** Empties the chain's AllAlarms; the sent maps keep their records. */
    method ClearAll(chain: string)
      modifies this`AllAlarms
      ensures Of(AllAlarms, chain) == map[]
      ensures chain in AllAlarms <==> chain in old(AllAlarms)
      ensures forall c | c != chain :: (c in AllAlarms <==> c in old(AllAlarms))
                && Of(AllAlarms, c) == Of(old(AllAlarms), c)
    {
      if chain in AllAlarms {
        AllAlarms := AllAlarms[chain := map[]];
      }
    }

    method Exist(chain: string, alertID: string) returns (ok: bool)
      ensures ok <==> alertID in Of(AllAlarms, chain)
    {
      if chain !in AllAlarms {
        return false;
      }
      ok := alertID in AllAlarms[chain];
    }

    method GetCount(chain: string) returns (n: nat)
      ensures n == |Of(AllAlarms, chain).Keys|
    {
      if chain !in AllAlarms {
        return 0;
      }
      n := |AllAlarms[chain]|;
    }
  }

  // ---------------------------------------------------------------------------
  // Runs of the gate
  // ---------------------------------------------------------------------------

  /** One call of the gate. */
  datatype Call = Call(msg: AlertMsg, dest: Dest, now: Time)

  /** One message the gate let through. */
  datatype Approval = Approval(dest: Dest, chain: string, id: string, kind: Verdict, at: Time)

  /** The caller of the PagerDuty gate has already checked that the message wants it. */
  ghost predicate WellFormed(calls: seq<Call>) {
    forall c | c in calls :: c.now != ZERO_TIME && (c.dest.Pd? ==> c.msg.pd)
  }

  ghost function StateAfter(a: Alarms, calls: seq<Call>, hours: int): Alarms {
    if calls == [] then a
    else
      var c := calls[|calls| - 1];
      After(StateAfter(a, calls[..|calls| - 1], hours), c.msg, c.dest, c.now, hours)
  }

  ghost function Logged(a: Alarms, c: Call, hours: int): seq<Approval> {
    var v := Judge(a, c.msg, c.dest, c.now, hours);
    if v.Approves() then [Approval(c.dest, c.msg.chain, c.msg.uniqueId, v, c.now)] else []
  }

  ghost function Log(a: Alarms, calls: seq<Call>, hours: int): seq<Approval> {
    if calls == [] then []
    else
      var rest := calls[..|calls| - 1];
      Log(a, rest, hours) + Logged(StateAfter(a, rest, hours), calls[|calls| - 1], hours)
  }

  /** The index of the last approval for (d, id) among the first n, or -1. */
  ghost function Previous(log: seq<Approval>, n: nat, d: Dest, id: string): (i: int)
    requires n <= |log|
    ensures -1 <= i < n
    ensures i >= 0 ==> log[i].dest == d && log[i].id == id
    ensures forall k | i < k < n :: log[k].dest != d || log[k].id != id
  {
    if n == 0 then -1
    else if log[n - 1].dest == d && log[n - 1].id == id then n - 1
    else Previous(log, n - 1, d, id)
  }

  /** What approval j may be, given the approval before it on the same channel and id
      (or, for the first one, whether the channel already held the id). */
  ghost predicate Bracketed(a: Alarms, log: seq<Approval>, j: nat, hours: int)
    requires j < |log|
  {
    var e := log[j];
    var i := Previous(log, j, e.dest, e.id);
    var m := a.sent.To(e.dest);
    var open := if i >= 0 then !log[i].kind.Resolution? else Recorded(m, e.id);
    && e.kind.Approves()
    && (e.kind.Firing? <==> !open)
    && (e.kind.Reminder? ==>
          && HasPrefix(e.id, GOVERNANCE)
          && (i >= 0 ==> e.at > log[i].at + hours * HOUR)
          && (i < 0 ==> Recorded(m, e.id) && e.at > m[e.id].sentTime + hours * HOUR))
  }

  /** What the sent maps remember is exactly the last approval in the log. */
  ghost predicate Tracks(a0: Alarms, a: Alarms, log: seq<Approval>, d: Dest, id: string) {
    var i := Previous(log, |log|, d, id);
    var m := a.sent.To(d);
    if i < 0 then (Recorded(m, id) <==> Recorded(a0.sent.To(d), id)) && (Recorded(m, id) ==> m[id] == a0.sent.To(d)[id])
    else if log[i].kind.Resolution? then !Recorded(m, id)
    else Recorded(m, id) && m[id].sentTime == log[i].at
  }

  lemma PreviousOfPrefix(log: seq<Approval>, more: seq<Approval>, n: nat, d: Dest, id: string)
    requires n <= |log|
    ensures Previous(log + more, n, d, id) == Previous(log, n, d, id)
  {
  }

  ghost predicate AllBracketed(a: Alarms, log: seq<Approval>, hours: int) {
    forall j: nat | j < |log| :: Bracketed(a, log, j, hours)
  }

  ghost predicate AllTracked(a0: Alarms, a: Alarms, log: seq<Approval>) {
    forall d, id :: Tracks(a0, a, log, d, id)
  }

  /** A call changes at most one record: its own id in its own channel's map. */
  lemma AfterIsLocal(a: Alarms, c: Call, d: Dest, id: string, hours: int)
    requires c.now != ZERO_TIME
    requires d != c.dest || id != c.msg.uniqueId
    ensures var m, m' := a.sent.To(d), After(a, c.msg, c.dest, c.now, hours).sent.To(d);
      (id in m' <==> id in m) && (id in m ==> m'[id] == m[id])
  {
    hide Severities;
  }

  /** What a call does to its own record, by verdict. */
  lemma AfterOnSelf(a: Alarms, c: Call, hours: int)
    requires c.now != ZERO_TIME
    ensures var id, d := c.msg.uniqueId, c.dest;
      var m, m' := a.sent.To(d), After(a, c.msg, d, c.now, hours).sent.To(d);
      match Judge(a, c.msg, d, c.now, hours)
      case Firing => !Recorded(m, id) && Recorded(m', id) && m'[id].sentTime == c.now
      case Reminder => Recorded(m, id) && Recorded(m', id) && m'[id].sentTime == c.now
                       && HasPrefix(id, GOVERNANCE) && c.now > m[id].sentTime + hours * HOUR
      case Resolution => Recorded(m, id) && !Recorded(m', id)
      case _ => m' == m
  {
    hide Severities;
  }

  lemma BracketStep(a0: Alarms, a: Alarms, log: seq<Approval>, c: Call, hours: int)
    requires c.now != ZERO_TIME
    requires AllBracketed(a0, log, hours) && AllTracked(a0, a, log)
    ensures AllBracketed(a0, log + Logged(a, c, hours), hours)
  {
    var more := Logged(a, c, hours);
    var d, id := c.dest, c.msg.uniqueId;
    AfterOnSelf(a, c, hours);
    hide After, Judge;
    forall j: nat | j < |log + more| ensures Bracketed(a0, log + more, j, hours) {
      if j < |log| {
        assert Bracketed(a0, log, j, hours);
        PreviousOfPrefix(log, more, j, log[j].dest, log[j].id);
      } else {
        PreviousOfPrefix(log, more, |log|, d, id);
        assert Tracks(a0, a, log, d, id);
      }
    }
  }

  lemma TrackStep(a0: Alarms, a: Alarms, log: seq<Approval>, c: Call, hours: int)
    requires c.now != ZERO_TIME
    requires AllTracked(a0, a, log)
    ensures AllTracked(a0, After(a, c.msg, c.dest, c.now, hours), log + Logged(a, c, hours))
  {
    var more := Logged(a, c, hours);
    var a' := After(a, c.msg, c.dest, c.now, hours);
    AfterOnSelf(a, c, hours);
    hide After, Judge;
    forall d, id ensures Tracks(a0, a', log + more, d, id) {
      assert Tracks(a0, a, log, d, id);
      PreviousOfPrefix(log, more, |log|, d, id);
      if d != c.dest || id != c.msg.uniqueId {
        AfterIsLocal(a, c, d, id, hours);
      }
    }
  }

  /** Over any sequence of calls, from any starting cache, the approvals on each channel
      and id alternate firing and resolution; the only others are governance reminders,
      spaced by more than the configured hours. */
  lemma {:induction false} NotificationsAreBracketed(a: Alarms, calls: seq<Call>, hours: int)
    requires WellFormed(calls)
    ensures AllBracketed(a, Log(a, calls, hours), hours)
    ensures AllTracked(a, StateAfter(a, calls, hours), Log(a, calls, hours))
  {
    if calls != [] {
      var rest, c := calls[..|calls| - 1], calls[|calls| - 1];
      assert c in calls;
      NotificationsAreBracketed(a, rest, hours);
      var s, log := StateAfter(a, rest, hours), Log(a, rest, hours);
      BracketStep(a, s, log, c, hours);
      TrackStep(a, s, log, c, hours);
    }
  }

  /** PagerDuty firing: what the flap map remembers is no older than any earlier firing. */
  ghost predicate FlapTracks(a: Alarms, log: seq<Approval>) {
    forall i | 0 <= i < |log| && log[i].dest.Pd? && log[i].kind.Firing? ::
      var seen := Of(a.flapping, log[i].chain);
      log[i].id in seen && log[i].at <= seen[log[i].id].sentTime
  }

  ghost predicate FiringsSpaced(log: seq<Approval>) {
    forall i, j | 0 <= i < j < |log| && log[i].dest.Pd? && log[j].dest.Pd? && log[i].kind.Firing? && log[j].kind.Firing?
                  && log[i].chain == log[j].chain && log[i].id == log[j].id ::
      log[j].at >= log[i].at + FLAP_WINDOW
  }

  lemma FlapStep(a: Alarms, log: seq<Approval>, c: Call, hours: int)
    requires c.dest.Pd? ==> c.msg.pd
    requires FlapTracks(a, log) && FiringsSpaced(log)
    ensures FlapTracks(After(a, c.msg, c.dest, c.now, hours), log + Logged(a, c, hours))
    ensures FiringsSpaced(log + Logged(a, c, hours))
  {
    hide Severities, Sent.With;
    var log' := log + Logged(a, c, hours);
    var a' := After(a, c.msg, c.dest, c.now, hours);
    assert forall i | 0 <= i < |log| :: log'[i] == log[i];
    forall i | 0 <= i < |log'| && log'[i].dest.Pd? && log'[i].kind.Firing?
      ensures log'[i].id in Of(a'.flapping, log'[i].chain)
      ensures log'[i].at <= Of(a'.flapping, log'[i].chain)[log'[i].id].sentTime
    {
    }
  }

  /** Within one process, two PagerDuty firings for one chain and id are at least five
      minutes apart, whatever the clock does between them. */
  lemma {:induction false} PagerDutyDoesNotFlap(a: Alarms, calls: seq<Call>, hours: int)
    requires WellFormed(calls)
    ensures FlapTracks(StateAfter(a, calls, hours), Log(a, calls, hours))
    ensures FiringsSpaced(Log(a, calls, hours))
  {
    if calls != [] {
      var rest, c := calls[..|calls| - 1], calls[|calls| - 1];
      assert c in calls;
      PagerDutyDoesNotFlap(a, rest, hours);
      FlapStep(StateAfter(a, rest, hours), Log(a, rest, hours), c, hours);
    }
  }

  // ---------------------------------------------------------------------------
  // Which messages are let through, told from the history alone
  // ---------------------------------------------------------------------------

  /** The index of the last PagerDuty firing of the chain and id among the first n, or -1. */
  ghost function LastPage(log: seq<Approval>, n: nat, chain: string, id: string): (i: int)
    requires n <= |log|
    ensures -1 <= i < n
    ensures i >= 0 ==> IsPage(log[i], chain, id)
    ensures forall k | i < k < n :: !IsPage(log[k], chain, id)
  {
    if n == 0 then -1
    else if IsPage(log[n - 1], chain, id) then n - 1
    else LastPage(log, n - 1, chain, id)
  }

  ghost predicate IsPage(e: Approval, chain: string, id: string) {
    e.dest.Pd? && e.kind.Firing? && e.chain == chain && e.id == id
  }

  /** When flap detection last let the chain and id through, if it remembers that. */
  ghost predicate PagedAt(a: Alarms, chain: string, id: string, at: Time) {
    id in Of(a.flapping, chain) && Of(a.flapping, chain)[id].sentTime == at
  }

  /** Flap detection remembers the last PagerDuty firing, or what it began with. */
  ghost predicate Remembers(a0: Alarms, a: Alarms, log: seq<Approval>, chain: string, id: string) {
    var i := LastPage(log, |log|, chain, id);
    forall at :: PagedAt(a, chain, id, at) <==> if i >= 0 then at == log[i].at else PagedAt(a0, chain, id, at)
  }

  lemma LastPageOfPrefix(log: seq<Approval>, more: seq<Approval>, n: nat, chain: string, id: string)
    requires n <= |log|
    ensures LastPage(log + more, n, chain, id) == LastPage(log, n, chain, id)
  {
  }

  /** What a call does to the flap memory. */
  lemma AfterOnMemory(a: Alarms, c: Call, chain: string, id: string, at: Time, hours: int)
    requires c.dest.Pd? ==> c.msg.pd
    ensures var a' := After(a, c.msg, c.dest, c.now, hours);
      PagedAt(a', chain, id, at) <==>
        if c.dest.Pd? && Judge(a, c.msg, c.dest, c.now, hours).Firing? && c.msg.chain == chain && c.msg.uniqueId == id
            then at == c.now
        else PagedAt(a, chain, id, at)
  {
    hide Severities, Sent.With, Sent.To;
  }

  lemma {:induction false} MemoryIsLastPage(a: Alarms, calls: seq<Call>, hours: int, chain: string, id: string)
    requires WellFormed(calls)
    ensures Remembers(a, StateAfter(a, calls, hours), Log(a, calls, hours), chain, id)
  {
    hide PagedAt, After, Judge;
    if calls != [] {
      var rest, c := calls[..|calls| - 1], calls[|calls| - 1];
      assert c in calls;
      MemoryIsLastPage(a, rest, hours, chain, id);
      var s, log := StateAfter(a, rest, hours), Log(a, rest, hours);
      LastPageOfPrefix(log, Logged(s, c, hours), |log|, chain, id);
      forall at {
        AfterOnMemory(s, c, chain, id, at, hours);
      }
    }
  }

  /** The channel holds the id, from the history: its last approval was not a resolution, or
      it has none and the channel held it at the start. */
  ghost predicate Holding(a: Alarms, log: seq<Approval>, d: Dest, id: string) {
    var i := Previous(log, |log|, d, id);
    if i >= 0 then !log[i].kind.Resolution? else Recorded(a.sent.To(d), id)
  }

  /** The time of that last approval, or of the record at the start. */
  ghost function LastApproval(a: Alarms, log: seq<Approval>, d: Dest, id: string): Time
    requires Holding(a, log, d, id)
  {
    var i := Previous(log, |log|, d, id);
    if i >= 0 then log[i].at else a.sent.To(d)[id].sentTime
  }

  /** The last PagerDuty firing is less than five minutes old. */
  ghost predicate PagedRecently(a: Alarms, log: seq<Approval>, chain: string, id: string, now: Time) {
    var i := LastPage(log, |log|, chain, id);
    if i >= 0 then log[i].at > now - 300_000_000_000
    else exists at :: PagedAt(a, chain, id, at) && at > now - 300_000_000_000
  }

  /** Whether the next message is due, from the history: its severity is admitted and it is a
      resolution of an id the channel holds; or a firing of an id it holds, if that is a
      governance id whose last approval is more than the configured hours old; or a firing of
      an id it does not hold, unless it is for PagerDuty and paged within five minutes. */
  ghost predicate IsDue(a: Alarms, log: seq<Approval>, c: Call, hours: int) {
    var id := c.msg.uniqueId;
    && c.msg.severity in Severities(c.msg.alertConfig.On(c.dest).threshold)
    && if c.msg.resolved then Holding(a, log, c.dest, id)
       else if Holding(a, log, c.dest, id)
           then "UnvotedGovernanceProposal" <= id
               && c.now > LastApproval(a, log, c.dest, id) + hours * 3_600_000_000_000
       else !(c.dest.Pd? && PagedRecently(a, log, c.msg.chain, id, c.now))
  }

  /** After any calls, the next message is let through exactly if it is due. */
  lemma ApprovedExactlyWhenDue(a: Alarms, calls: seq<Call>, c: Call, hours: int)
    requires WellFormed(calls + [c])
    ensures Judge(StateAfter(a, calls, hours), c.msg, c.dest, c.now, hours).Approves()
            <==> IsDue(a, Log(a, calls, hours), c, hours)
    ensures Recorded(StateAfter(a, calls, hours).sent.To(c.dest), c.msg.uniqueId)
            <==> Holding(a, Log(a, calls, hours), c.dest, c.msg.uniqueId)
  {
    hide Log, StateAfter, RecentlyFired, PagedRecently, Severities, Remembers, Holding, LastApproval, Bracketed;
    assert c in calls + [c] && forall k | k in calls :: k in calls + [c];
    var log, s, id := Log(a, calls, hours), StateAfter(a, calls, hours), c.msg.uniqueId;
    NotificationsAreBracketed(a, calls, hours);
    assert Tracks(a, s, log, c.dest, id);
    HeldAsLogged(a, s, log, c.dest, id);
    MemoryIsLastPage(a, calls, hours, c.msg.chain, id);
    RecentIsPaged(a, s, log, c.msg, c.now);
    hide Tracks;
  }

  /** The sent map and the log agree on whether the id is held, and since when. */
  lemma HeldAsLogged(a: Alarms, s: Alarms, log: seq<Approval>, d: Dest, id: string)
    requires Tracks(a, s, log, d, id)
    ensures Recorded(s.sent.To(d), id) <==> Holding(a, log, d, id)
    ensures Holding(a, log, d, id) ==> s.sent.To(d)[id].sentTime == LastApproval(a, log, d, id)
  {
  }

  /** The approvals of a run, told without the sent maps: every message that is due when it
      comes, given what was approved before it. */
  ghost function DueSoFar(a: Alarms, calls: seq<Call>, hours: int): seq<Approval> {
    if calls == [] then []
    else
      var log, c := DueSoFar(a, calls[..|calls| - 1], hours), calls[|calls| - 1];
      if !IsDue(a, log, c, hours) then log
      else
        var kind := if c.msg.resolved then Resolution
          else if Holding(a, log, c.dest, c.msg.uniqueId) then Reminder
          else Firing;
        log + [Approval(c.dest, c.msg.chain, c.msg.uniqueId, kind, c.now)]
  }

  /** Over any calls, from any cache, the gate lets through exactly what is due. */
  lemma {:induction false} ApprovalsAreWhatIsDue(a: Alarms, calls: seq<Call>, hours: int)
    requires WellFormed(calls)
    ensures Log(a, calls, hours) == DueSoFar(a, calls, hours)
  {
    if calls != [] {
      var rest, c := calls[..|calls| - 1], calls[|calls| - 1];
      assert calls == rest + [c];
      ApprovalsAreWhatIsDue(a, rest, hours);
      ApprovedExactlyWhenDue(a, rest, c, hours);
      hide Holding, IsDue, StateAfter, Severities;
    }
  }

  lemma RecentIsPaged(a: Alarms, s: Alarms, log: seq<Approval>, msg: AlertMsg, now: Time)
    requires Remembers(a, s, log, msg.chain, msg.uniqueId)
    ensures RecentlyFired(s, msg, now) <==> PagedRecently(a, log, msg.chain, msg.uniqueId, now)
  {
    var chain, id, seen := msg.chain, msg.uniqueId, Of(s.flapping, msg.chain);
    if id in seen {
      assert PagedAt(s, chain, id, seen[id].sentTime);
    }
    var i := LastPage(log, |log|, chain, id);
    if i >= 0 {
      assert PagedAt(s, chain, id, log[i].at);
    }
  }
}
