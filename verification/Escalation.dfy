/** The escalation sweep: scan under the lock, look each candidate up without it, then
    re-check and mark under the lock again. */
module Escalation {
  import opened AlertTypes
  import opened Notify
  import opened Engine
  import opened Wrappers

  datatype Candidate = Candidate(chain: string, alertID: string, message: string)

  type AllAlarms = map<string, Entries>

  predicate Has(all: AllAlarms, chain: string, id: string) {
    chain in all && id in all[chain]
  }

  /** What the scan looks for. */
  predicate Due(e: Entry, threshold: int, now: Time) {
    e.severity == "critical" && !e.escalated && now - e.sentTime >= threshold
  }

  ghost predicate DueAt(all: AllAlarms, chain: string, id: string, threshold: int, now: Time) {
    Has(all, chain, id) && Due(all[chain][id], threshold, now)
  }

  /** The candidates list exactly the due keys, each once, in any order. */
  ghost predicate Lists(due: seq<Candidate>, all: AllAlarms, threshold: int, now: Time) {
    && (forall i, j | 0 <= i < j < |due| :: due[i].chain != due[j].chain || due[i].alertID != due[j].alertID)
    && (forall c | c in due :: DueAt(all, c.chain, c.alertID, threshold, now)
          && c.message == all[c.chain][c.alertID].message)
    && (forall chain, id | DueAt(all, chain, id, threshold, now) :: Candidate(chain, id, all[chain][id].message) in due)
  }

  const SUFFIX: string := "_escalated"

  /** The message of an escalation; PagerDuty is always left out. */
  function EscalationMsg(chains: ChainViews, defaults: AlertConfig, c: Candidate): Option<AlertMsg> {
    match BuildAlertMsg(chains, defaults, c.chain, "ESCALATION: " + c.message, "critical", false, c.alertID + SUFFIX)
    case None => None
    case Some(m) => Some(m.(pd := false))
  }

  /** The message that escalates an alarm of a known chain: critical, firing, under the derived
      id, with the chain's configuration, and wanted by every channel other than PagerDuty that
      the defaults and the chain enable. */
  ghost predicate IsEscalation(m: AlertMsg, chains: ChainViews, defaults: AlertConfig, chain: string, id: string) {
    && chain in chains
    && m.uniqueId == id + "_escalated" && m.severity == "critical" && !m.resolved
    && m.chain == chain + " (" + chains[chain].chainId + ")" && m.alertConfig == chains[chain].alerts
    && !m.pd
    && (m.tg <==> defaults.tg.enabled && chains[chain].alerts.tg.enabled)
    && (m.disc <==> defaults.di.enabled && chains[chain].alerts.di.enabled)
    && (m.slk <==> defaults.slk.enabled && chains[chain].alerts.slk.enabled)
    && (m.wh <==> defaults.wh.enabled && chains[chain].alerts.wh.enabled)
  }

  lemma EscalationIsAddressed(chains: ChainViews, defaults: AlertConfig, c: Candidate)
    requires c.chain in chains
    ensures EscalationMsg(chains, defaults, c).Some?
    ensures IsEscalation(EscalationMsg(chains, defaults, c).value, chains, defaults, c.chain, c.alertID)
    ensures EscalationMsg(chains, defaults, c).value.message == "ESCALATION: " + c.message
  {
  }

  /** Re-check and mark, as done under the second lock. */
  function Mark(all: AllAlarms, chain: string, id: string): (r: Option<AllAlarms>)
    ensures r.Some? <==> Has(all, chain, id) && !all[chain][id].escalated
    ensures r.Some? ==>
              && (forall c, i :: Has(r.value, c, i) <==> Has(all, c, i))
              && (forall c, i | Has(r.value, c, i) ::
                    r.value[c][i] == if c == chain && i == id then all[c][i].(escalated := true) else all[c][i])
  {
    if chain in all && id in all[chain] && !all[chain][id].escalated
    then Some(all[chain := all[chain][id := all[chain][id].(escalated := true)]])
    else None
  }

  // ---------------------------------------------------------------------------
  // One uninterrupted sweep
  // ---------------------------------------------------------------------------

  /** The keys a sweep at one instant escalates. */
  ghost predicate Escalates(all: AllAlarms, chains: ChainViews, chain: string, id: string, threshold: int, now: Time) {
    DueAt(all, chain, id, threshold, now) && chain in chains && !Silenced(chains[chain].silencedUntil, now)
  }

  /** Every entry of all is in marked, with Escalated set on exactly the given keys. */
  ghost predicate MarkedOnly(all: AllAlarms, marked: AllAlarms, keys: seq<Candidate>) {
    && (forall c, i :: Has(marked, c, i) <==> Has(all, c, i))
    && (forall c, i | Has(all, c, i) ::
          marked[c][i] == if Listed(keys, c, i) then all[c][i].(escalated := true) else all[c][i])
  }

  ghost predicate Listed(keys: seq<Candidate>, chain: string, id: string) {
    exists k | k in keys :: k.chain == chain && k.alertID == id
  }

  ghost function Messages(chains: ChainViews, defaults: AlertConfig, keys: seq<Candidate>): seq<AlertMsg> {
    if keys == [] then []
    else
      var rest, m := Messages(chains, defaults, keys[..|keys| - 1]), EscalationMsg(chains, defaults, keys[|keys| - 1]);
      if m.Some? then rest + [m.value] else rest
  }

  method ScanChain(chain: string, entries: Entries, threshold: int, now: Time) returns (due: seq<Candidate>)
    ensures forall c | c in due :: c.chain == chain
    ensures Lists(due, map[chain := entries], threshold, now)
  {
    due := [];
    var ids := entries.Keys;
    ghost var one := map[chain := entries];
    while ids != {}
      invariant ids <= entries.Keys
      invariant forall i, j | 0 <= i < j < |due| :: due[i].alertID != due[j].alertID
      invariant forall c | c in due :: c.chain == chain && c.alertID !in ids
                  && DueAt(one, chain, c.alertID, threshold, now)
                                       && c.message == entries[c.alertID].message
      invariant forall id | DueAt(one, chain, id, threshold, now) && id !in ids ::
                  Candidate(chain, id, entries[id].message) in due
      decreases |ids|
    {
      var id :| id in ids;
      ids := ids - {id};
      if Due(entries[id], threshold, now) {
        due := due + [Candidate(chain, id, entries[id].message)];
      }
    }
  }

  /** Phase 1: collect the candidates without changing anything. */
  method Scan(all: AllAlarms, threshold: int, now: Time) returns (due: seq<Candidate>)
    ensures Lists(due, all, threshold, now)
    ensures forall chain, id | Has(all, chain, id) ::
              Listed(due, chain, id) <==>
                var e := all[chain][id]; e.severity == "critical" && !e.escalated && e.sentTime + threshold <= now
  {
    due := [];
    var chains := all.Keys;
    while chains != {}
      invariant chains <= all.Keys
      invariant forall c | c in due :: c.chain !in chains
      invariant Lists(due, all - chains, threshold, now)
      decreases |chains|
    {
      var chain :| chain in chains;
      var more := ScanChain(chain, all[chain], threshold, now);
      ListsJoin(due, more, all - chains, chain, all[chain], threshold, now);
      assert (all - chains)[chain := all[chain]] == all - (chains - {chain});
      due := due + more;
      chains := chains - {chain};
    }
    assert all - {} == all;
    ListedAreDue(due, all, threshold, now);
  }

  lemma ListedAreDue(due: seq<Candidate>, all: AllAlarms, threshold: int, now: Time)
    requires Lists(due, all, threshold, now)
    ensures forall chain, id | Has(all, chain, id) ::
              Listed(due, chain, id) <==>
                var e := all[chain][id]; e.severity == "critical" && !e.escalated && e.sentTime + threshold <= now
  {
    forall chain, id | Has(all, chain, id)
      ensures Listed(due, chain, id) <==> DueAt(all, chain, id, threshold, now)
    {
      if DueAt(all, chain, id, threshold, now) {
        assert Candidate(chain, id, all[chain][id].message) in due;
      }
    }
  }

  lemma ListsJoin(due: seq<Candidate>, more: seq<Candidate>, all: AllAlarms, chain: string, entries: Entries,
                  threshold: int, now: Time)
    requires chain !in all && Lists(due, all, threshold, now) && Lists(more, map[chain := entries], threshold, now)
    ensures Lists(due + more, all[chain := entries], threshold, now)
  {
    var all' := all[chain := entries];
    assert forall c | c in due :: c.chain in all;
    assert forall c | c in more :: c.chain == chain;
    forall c, id | DueAt(all', c, id, threshold, now) ensures Candidate(c, id, all'[c][id].message) in due + more {
      if c == chain {
        assert DueAt(map[chain := entries], c, id, threshold, now);
      } else {
        assert DueAt(all, c, id, threshold, now);
      }
    }
  }

  predicate Passes(c: Candidate, views: ChainViews, now: Time) {
    c.chain in views && !Silenced(views[c.chain].silencedUntil, now)
  }

  /** The candidates that pass the lookup: chain still configured and not silenced. */
  ghost function Passing(due: seq<Candidate>, chains: ChainViews, now: Time): seq<Candidate> {
    if due == [] then []
    else
      var rest, c := Passing(due[..|due| - 1], chains, now), due[|due| - 1];
      if c.chain in chains && !Silenced(chains[c.chain].silencedUntil, now) then rest + [c] else rest
  }

  lemma {:induction false} PassingMembers(due: seq<Candidate>, chains: ChainViews, now: Time)
    ensures var keys := Passing(due, chains, now);
      && (forall c :: c in keys <==> c in due && c.chain in chains && !Silenced(chains[c.chain].silencedUntil, now))
      && ((forall i, j | 0 <= i < j < |due| :: due[i].chain != due[j].chain || due[i].alertID != due[j].alertID) ==>
            forall i, j | 0 <= i < j < |keys| :: keys[i].chain != keys[j].chain || keys[i].alertID != keys[j].alertID)
  {
    if due != [] {
      var rest, c := due[..|due| - 1], due[|due| - 1];
      PassingMembers(rest, chains, now);
      assert due == rest + [c];
      var ks := Passing(rest, chains, now);
      forall i | 0 <= i < |ks| ensures exists k :: 0 <= k < |rest| && due[k] == ks[i] {
        assert ks[i] in ks;
        var k :| 0 <= k < |rest| && rest[k] == ks[i];
        assert due[k] == ks[i];
      }
    }
  }

  lemma MarkOneMore(all: AllAlarms, marked: AllAlarms, keys: seq<Candidate>, c: Candidate)
    requires MarkedOnly(all, marked, keys) && Has(all, c.chain, c.alertID)
    requires !Listed(keys, c.chain, c.alertID) && !all[c.chain][c.alertID].escalated
    ensures Mark(marked, c.chain, c.alertID).Some?
    ensures MarkedOnly(all, Mark(marked, c.chain, c.alertID).value, keys + [c])
  {
    forall chain, id ensures Listed(keys + [c], chain, id)
        <==> Listed(keys, chain, id) || (chain == c.chain && id == c.alertID) {
      if Listed(keys, chain, id) {
        var k :| k in keys && k.chain == chain && k.alertID == id;
        assert k in keys + [c];
      }
      assert c in keys + [c];
    }
  }

  method BuildEscalation(td: Config, c: Candidate) returns (m: Option<AlertMsg>)
    ensures m == EscalationMsg(td.Views(), td.DefaultAlertConfig, c)
  {
    m := td.Build(c.chain, "ESCALATION: " + c.message, "critical", false, c.alertID + SUFFIX);
    if m.Some? {
      m := Some(m.value.(pd := false));
    }
  }

  /** Phase 2 and 3 for one candidate. */
  method Escalate(td: Config, c: Candidate, now: Time, ghost views: ChainViews)
    requires views == td.Views()
    modifies td`alertChan, td.alarms`AllAlarms
    ensures views == td.Views()
    ensures td.alarms.AllAlarms == AfterOne(old(td.alarms.AllAlarms), c, views, now)
    ensures td.alertChan == old(td.alertChan)
          + SentByOne(old(td.alarms.AllAlarms), c, views, td.DefaultAlertConfig, now)
    ensures forall i | |old(td.alertChan)| <= i < |td.alertChan| ::
              IsEscalation(td.alertChan[i], views, td.DefaultAlertConfig, c.chain, c.alertID)
              && td.alertChan[i].message == "ESCALATION: " + c.message
  {
    hide IsEscalation, EscalationMsg, Silenced;
    if c.chain !in td.Chains {
      return;
    }
    assert views[c.chain] == td.Chains[c.chain].View();
    EscalationIsAddressed(views, td.DefaultAlertConfig, c);
    hide Config.Views;
    var silenced, _ := td.Chains[c.chain].SilenceStatus(now);
    if silenced {
      return;
    }
    var msg := BuildEscalation(td, c);
    var all := td.alarms.AllAlarms;
    if !Has(all, c.chain, c.alertID) || all[c.chain][c.alertID].escalated {
      return;
    }
    td.alarms.AllAlarms := all[c.chain := all[c.chain][c.alertID := all[c.chain][c.alertID].(escalated := true)]];
    td.alertChan := td.alertChan + [msg.value];
  }

  ghost function AfterOne(all: AllAlarms, c: Candidate, views: ChainViews, now: Time): AllAlarms {
    if Passes(c, views, now) && Mark(all, c.chain, c.alertID).Some? then Mark(all, c.chain, c.alertID).value else all
  }

  ghost function SentByOne(all: AllAlarms, c: Candidate, views: ChainViews, defaults: AlertConfig,
                           now: Time): seq<AlertMsg> {
    if Passes(c, views, now) && Mark(all, c.chain, c.alertID).Some? then [EscalationMsg(views, defaults, c).value]
        else []
  }

  /** A sweep with nothing else running, at one instant: what it sends, marks and leaves. */
  method CheckEscalations(td: Config, threshold: int, now: Time) returns (ghost due: seq<Candidate>)
    modifies td`alertChan, td.alarms`AllAlarms
    ensures td.Views() == old(td.Views())
    ensures Lists(due, old(td.alarms.AllAlarms), threshold, now)
    ensures MarkedOnly(old(td.alarms.AllAlarms), td.alarms.AllAlarms, Passing(due, old(td.Views()), now))
    ensures td.alertChan == old(td.alertChan)
          + Messages(old(td.Views()), td.DefaultAlertConfig, Passing(due, old(td.Views()), now))
    ensures EscalationsFor(old(td.alertChan), td.alertChan, Passing(due, old(td.Views()), now), old(td.Views()),
                           td.DefaultAlertConfig)
  {
    hide EscalationsFor, MarkedOnly, Passing, Messages, Lists, AfterOne, SentByOne, Config.Views;
    ghost var all, views, queue := td.alarms.AllAlarms, td.Views(), td.alertChan;
    var list := Scan(td.alarms.AllAlarms, threshold, now);
    due := list;
    Nothing(all, views, td.DefaultAlertConfig, now);
    assert list[..0] == [];
    for i := 0 to |list|
      invariant td.Views() == views
      invariant MarkedOnly(all, td.alarms.AllAlarms, Passing(list[..i], views, now))
      invariant td.alertChan == queue + Messages(views, td.DefaultAlertConfig, Passing(list[..i], views, now))
    {
      SweepStep(all, td.alarms.AllAlarms, list, i, views, td.DefaultAlertConfig, threshold, now);
      Escalate(td, list[i], now, views);
    }
    assert list[..|list|] == list;
    PassingAreKnown(list, views, now);
    MessagesAreEscalations(queue, Passing(list, views, now), views, td.DefaultAlertConfig);
  }

  /** One escalation has been queued for each key, in order, and nothing else. */
  ghost predicate EscalationsFor(q: seq<AlertMsg>, q': seq<AlertMsg>, keys: seq<Candidate>, chains: ChainViews,
                                 defaults: AlertConfig)
  {
    && |q'| == |q| + |keys| && q <= q'
    && forall i | 0 <= i < |keys| ::
         IsEscalation(q'[|q| + i], chains, defaults, keys[i].chain, keys[i].alertID)
         && q'[|q| + i].message == "ESCALATION: " + keys[i].message
  }

  lemma PassingAreKnown(due: seq<Candidate>, chains: ChainViews, now: Time)
    ensures forall k | k in Passing(due, chains, now) :: k.chain in chains
  {
    PassingMembers(due, chains, now);
  }

  lemma {:induction false} MessagesAreEscalations(q: seq<AlertMsg>, keys: seq<Candidate>, chains: ChainViews,
                                                  defaults: AlertConfig)
    requires forall k | k in keys :: k.chain in chains
    ensures EscalationsFor(q, q + Messages(chains, defaults, keys), keys, chains, defaults)
  {
    hide EscalationMsg, IsEscalation;
    if keys != [] {
      var n := |keys| - 1;
      assert keys[n] in keys;
      MessagesAreEscalations(q, keys[..n], chains, defaults);
      EscalationIsAddressed(chains, defaults, keys[n]);
    }
  }

  lemma Nothing(all: AllAlarms, views: ChainViews, defaults: AlertConfig, now: Time)
    ensures MarkedOnly(all, all, Passing([], views, now)) && Messages(views, defaults, Passing([], views, now)) == []
  {
  }

  /** A candidate is not among the ones before it. */
  lemma FreshCandidate(all: AllAlarms, due: seq<Candidate>, i: nat, views: ChainViews, threshold: int, now: Time)
    requires i < |due| && Lists(due, all, threshold, now)
    ensures !Listed(Passing(due[..i], views, now), due[i].chain, due[i].alertID)
    ensures DueAt(all, due[i].chain, due[i].alertID, threshold, now)
  {
    assert due[i] in due;
    PassingMembers(due[..i], views, now);
    hide DueAt, Passing;
    var keys := Passing(due[..i], views, now);
    forall k | k in keys ensures k.chain != due[i].chain || k.alertID != due[i].alertID {
      var j :| 0 <= j < i && due[j] == k;
    }
  }

  lemma SweepStep(all: AllAlarms, marked: AllAlarms, due: seq<Candidate>, i: nat, views: ChainViews,
                  defaults: AlertConfig, threshold: int, now: Time)
    requires i < |due| && Lists(due, all, threshold, now)
    requires MarkedOnly(all, marked, Passing(due[..i], views, now))
    ensures MarkedOnly(all, AfterOne(marked, due[i], views, now), Passing(due[..i + 1], views, now))
    ensures Messages(views, defaults, Passing(due[..i + 1], views, now))
         == Messages(views, defaults, Passing(due[..i], views, now)) + SentByOne(marked, due[i], views, defaults, now)
  {
    var c := due[i];
    var keys := Passing(due[..i], views, now);
    PassingStep(due, i, views, now);
    FreshCandidate(all, due, i, views, threshold, now);
    if Passes(c, views, now) {
      MessagesStep(keys, c, views, defaults);
      hide Lists, Silenced, Passing, Messages, EscalationMsg;
      MarkOneMore(all, marked, keys, c);
    }
  }

  lemma PassingStep(due: seq<Candidate>, i: nat, views: ChainViews, now: Time)
    requires i < |due|
    ensures var keys := Passing(due[..i], views, now);
      Passing(due[..i + 1], views, now) == if Passes(due[i], views, now) then keys + [due[i]] else keys
  {
    assert due[..i + 1][..i] == due[..i];
  }

  lemma MessagesStep(keys: seq<Candidate>, c: Candidate, views: ChainViews, defaults: AlertConfig)
    requires c.chain in views
    ensures EscalationMsg(views, defaults, c).Some?
    ensures Messages(views, defaults, keys + [c])
          == Messages(views, defaults, keys) + [EscalationMsg(views, defaults, c).value]
  {
    assert (keys + [c])[..|keys|] == keys;
  }

  /** The sweep is exact: its keys are the escalating ones, each once. */
  lemma SweepIsExact(all: AllAlarms, due: seq<Candidate>, chains: ChainViews, threshold: int, now: Time)
    requires Lists(due, all, threshold, now)
    ensures var keys := Passing(due, chains, now);
      && (forall c, i :: Listed(keys, c, i) <==> Escalates(all, chains, c, i, threshold, now))
      && (forall i, j | 0 <= i < j < |keys| :: keys[i].chain != keys[j].chain || keys[i].alertID != keys[j].alertID)
  {
    PassingMembers(due, chains, now);
    forall c, i | Escalates(all, chains, c, i, threshold, now) ensures Listed(Passing(due, chains, now), c, i) {
      assert Candidate(c, i, all[c][i].message) in Passing(due, chains, now);
    }
  }

  /** An immediate second sweep finds nothing to send; keys passed over because their chain
      was silenced or unknown are still due, at this and every later instant. */
  lemma {:induction false} SecondSweepIsSilent(all: AllAlarms, marked: AllAlarms, due: seq<Candidate>,
                                               again: seq<Candidate>, chains: ChainViews, threshold: int, now: Time)
    requires Lists(due, all, threshold, now) && MarkedOnly(all, marked, Passing(due, chains, now))
    requires Lists(again, marked, threshold, now)
    ensures Passing(again, chains, now) == []
    ensures forall c, i, t | DueAt(all, c, i, threshold, now) && !Escalates(all, chains, c, i, threshold, now)
              && t >= now ::
              DueAt(marked, c, i, threshold, t)
  {
    SweepIsExact(all, due, chains, threshold, now);
    PassingMembers(again, chains, now);
    var keys := Passing(again, chains, now);
    if keys != [] {
      assert keys[0] in keys;
      var c := keys[0];
      assert DueAt(marked, c.chain, c.alertID, threshold, now);
      assert Escalates(all, chains, c.chain, c.alertID, threshold, now);
      assert false;
    }
  }

  // ---------------------------------------------------------------------------
  // What the channels make of repeated escalations
  // ---------------------------------------------------------------------------

  ghost predicate For(e: Approval, d: Dest, id: string) {
    e.dest == d && e.id == id
  }

  ghost predicate NoResolution(log: seq<Approval>, id: string) {
    forall i | 0 <= i < |log| :: log[i].id == id ==> !log[i].kind.Resolution?
  }

  lemma LoggedResolution(a: Alarms, c: Call, hours: int, id: string)
    requires c.msg.uniqueId == id ==> !c.msg.resolved
    ensures NoResolution(Logged(a, c, hours), id)
  {
  }

  /** Only a resolved message can be approved as a resolution. */
  lemma {:induction false} ResolutionsComeFromResolves(a: Alarms, calls: seq<Call>, hours: int, id: string)
    requires forall c | c in calls && c.msg.uniqueId == id :: !c.msg.resolved
    ensures NoResolution(Log(a, calls, hours), id)
  {
    hide Logged, StateAfter;
    if calls != [] {
      var rest, c := calls[..|calls| - 1], calls[|calls| - 1];
      assert c in calls;
      ResolutionsComeFromResolves(a, rest, hours, id);
      LoggedResolution(StateAfter(a, rest, hours), c, hours, id);
    }
  }

  /** Nothing ever resolves a derived "_escalated" id, so each channel is told about the
      escalation of an alarm at most once in the life of the process: when the alarm
      resolves, fires again and is escalated again, the gate suppresses the message as a
      duplicate. */
  lemma EscalationsOfOneAlarmNotifyOnce(a: Alarms, calls: seq<Call>, hours: int, d: Dest, alertID: string)
    requires WellFormed(calls) && !HasPrefix(alertID + SUFFIX, GOVERNANCE)
    requires forall c | c in calls && c.msg.uniqueId == alertID + SUFFIX :: !c.msg.resolved
    ensures var log, id := Log(a, calls, hours), alertID + SUFFIX;
      && (Recorded(a.sent.To(d), id) ==> forall i | 0 <= i < |log| :: !For(log[i], d, id))
      && (forall i, j | 0 <= i < j < |log| :: !For(log[i], d, id) || !For(log[j], d, id))
  {
    var log, id := Log(a, calls, hours), alertID + SUFFIX;
    NotificationsAreBracketed(a, calls, hours);
    ResolutionsComeFromResolves(a, calls, hours, id);
    hide Log, Judge, After;
    forall j: nat | j < |log| && For(log[j], d, id) ensures Previous(log, j, d, id) < 0 && !Recorded(a.sent.To(d), id) {
      assert Bracketed(a, log, j, hours);
      assert !log[j].kind.Resolution? && !HasPrefix(log[j].id, GOVERNANCE);
    }
  }

  /** The calls for an escalation id are what the sweeps send: critical firings. */
  ghost predicate OnlyEscalates(calls: seq<Call>, id: string) {
    forall c | c in calls && c.msg.uniqueId == id :: !c.msg.resolved && c.msg.severity == "critical"
  }

  /** One of the calls was for the id on channel d. */
  ghost predicate Tried(calls: seq<Call>, d: Dest, id: string) {
    exists c | c in calls :: c.dest == d && c.msg.uniqueId == id
  }

  lemma TriedMore(rest: seq<Call>, c: Call, d: Dest, id: string)
    ensures Tried(rest + [c], d, id) <==> Tried(rest, d, id) || (c.dest == d && c.msg.uniqueId == id)
  {
    assert c in rest + [c] && forall k | k in rest :: k in rest + [c];
  }

  /** A critical firing leaves its id recorded, flap detection aside. */
  lemma CriticalIsRecorded(a: Alarms, c: Call, hours: int)
    requires !c.dest.Pd? && c.now != ZERO_TIME && !c.msg.resolved && c.msg.severity == "critical"
    ensures Recorded(After(a, c.msg, c.dest, c.now, hours).sent.To(c.dest), c.msg.uniqueId)
  {
    AfterOnSelf(a, c, hours);
    CriticalIsAdmitted(c);
    hide After, Severities;
  }

  lemma CriticalIsAdmitted(c: Call)
    requires c.msg.severity == "critical"
    ensures c.msg.severity in Severities(c.msg.alertConfig.On(c.dest).threshold)
  {
  }

  /** A channel holds the escalation id exactly if it did at the start or has been sent one. */
  lemma {:induction false} HoldsOnceTried(a: Alarms, calls: seq<Call>, hours: int, d: Dest, id: string)
    requires !d.Pd? && WellFormed(calls) && OnlyEscalates(calls, id)
    ensures Recorded(StateAfter(a, calls, hours).sent.To(d), id) <==> Recorded(a.sent.To(d), id) || Tried(calls, d, id)
  {
    if calls != [] {
      hide After, Tried, Recorded;
      var rest, c := calls[..|calls| - 1], calls[|calls| - 1];
      assert calls == rest + [c] && c in calls;
      HoldsOnceTried(a, rest, hours, d, id);
      TriedMore(rest, c, d, id);
      var s := StateAfter(a, rest, hours);
      if c.dest == d && c.msg.uniqueId == id {
        CriticalIsRecorded(s, c, hours);
      } else {
        SameRecord(s, c, d, id, hours);
      }
    }
  }

  lemma SameRecord(a: Alarms, c: Call, d: Dest, id: string, hours: int)
    requires c.now != ZERO_TIME && (d != c.dest || id != c.msg.uniqueId)
    ensures Recorded(After(a, c.msg, c.dest, c.now, hours).sent.To(d), id) == Recorded(a.sent.To(d), id)
  {
    AfterIsLocal(a, c, d, id, hours);
    hide After;
  }

  /** The exact condition: after any calls, an escalation is let through on a channel if and
      only if the channel did not hold its id at the start and no escalation of the same alarm
      id has been sent there before. What the alarm itself has done since does not matter. */
  lemma {:induction false} HeardOnlyTheFirstTime(a: Alarms, calls: seq<Call>, c: Call, hours: int, alertID: string)
    requires !c.dest.Pd? && c.msg.uniqueId == alertID + SUFFIX && !HasPrefix(c.msg.uniqueId, GOVERNANCE)
    requires WellFormed(calls + [c]) && OnlyEscalates(calls + [c], c.msg.uniqueId)
    ensures Judge(StateAfter(a, calls, hours), c.msg, c.dest, c.now, hours).Approves() <==>
      !Recorded(a.sent.To(c.dest), c.msg.uniqueId) && !Tried(calls, c.dest, c.msg.uniqueId)
  {
    hide Tried, Severities, StateAfter;
    assert c in calls + [c] && forall k | k in calls :: k in calls + [c];
    HoldsOnceTried(a, calls, hours, c.dest, c.msg.uniqueId);
    CriticalIsAdmitted(c);
  }

  /** Five critical messages for one channel: an alarm fires, is escalated, resolves, fires
      again and is escalated again. */
  ghost predicate Relapse(calls: seq<Call>, d: Dest, alertID: string) {
    && |calls| == 5
    && (forall i | 0 <= i < 5 :: calls[i].dest == d && calls[i].now != ZERO_TIME && calls[i].msg.severity == "critical")
    && (forall i | 0 <= i < 5 :: calls[i].msg.uniqueId == if i == 1 || i == 4 then alertID + SUFFIX else alertID)
    && (forall i | 0 <= i < 5 :: calls[i].msg.resolved <==> i == 2)
  }

  /** The failure: from an empty cache every message but the last is let through. */
  lemma SecondEscalationIsUnheard(calls: seq<Call>, d: Dest, alertID: string, hours: int)
    requires !d.Pd? && Relapse(calls, d, alertID)
    requires !HasPrefix(alertID, GOVERNANCE) && !HasPrefix(alertID + SUFFIX, GOVERNANCE)
    ensures var empty := Alarms(Sent(map[], map[], map[], map[], map[]), map[], map[]);
      forall i | 0 <= i < 5 ::
        Judge(StateAfter(empty, calls[..i], hours), calls[i].msg, d, calls[i].now, hours).Approves() <==> i < 4
  {
    hide StateAfter, Judge, After, Recorded;
    var empty := Alarms(Sent(map[], map[], map[], map[], map[]), map[], map[]);
    var up := alertID + SUFFIX;
    assert |up| > |alertID|;
    assert calls[..0] == [];
    NothingYet(empty, d, alertID, hours);
    OneCall(empty, calls, 0, alertID, up, hours);
    OneCall(empty, calls, 1, up, alertID, hours);
    OneCall(empty, calls, 2, alertID, up, hours);
    OneCall(empty, calls, 3, alertID, up, hours);
    OneCall(empty, calls, 4, up, alertID, hours);
  }

  lemma NothingYet(a: Alarms, d: Dest, id: string, hours: int)
    requires a == Alarms(Sent(map[], map[], map[], map[], map[]), map[], map[])
    ensures StateAfter(a, [], hours) == a && !Recorded(a.sent.To(d), id) && !Recorded(a.sent.To(d), id + SUFFIX)
  {
  }

  /** Call i, of a critical message that reminds of nothing: let through exactly if it changes
      whether its id is held, and then held exactly if it is a firing; another id is as before. */
  lemma OneCall(a: Alarms, calls: seq<Call>, i: nat, id: string, other: string, hours: int)
    requires i < |calls| && calls[i].now != ZERO_TIME && !calls[i].dest.Pd? && calls[i].msg.severity == "critical"
    requires calls[i].msg.uniqueId == id && other != id && !HasPrefix(id, GOVERNANCE)
    ensures var c, s, s' := calls[i], StateAfter(a, calls[..i], hours), StateAfter(a, calls[..i + 1], hours);
      && (Judge(s, c.msg, c.dest, c.now, hours).Approves() <==> Recorded(s.sent.To(c.dest), id) == c.msg.resolved)
      && (Recorded(s'.sent.To(c.dest), id) <==> !c.msg.resolved)
      && (Recorded(s'.sent.To(c.dest), other) <==> Recorded(s.sent.To(c.dest), other))
  {
    var c, s := calls[i], StateAfter(a, calls[..i], hours);
    assert calls[..i + 1][..i] == calls[..i];
    CriticalIsAdmitted(c);
    AfterOnSelf(s, c, hours);
    SameRecord(s, c, c.dest, other, hours);
    hide After, Severities;
  }
}
