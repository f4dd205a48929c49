/** Saving the state on exit and restoring it on start. */
module Restart {
  import opened AlertTypes
  import opened Notify
  import opened Engine
  import opened NodeHealth
  import opened Wrappers

  const STALE: int := 24 * HOUR

  predicate Young(e: Entry, now: Time) {
    now - e.sentTime < STALE
  }

  ghost function Kept(m: Entries, now: Time): Entries {
    map id | id in m && Young(m[id], now) :: m[id]
  }

  /** Drops every record of 24 hours or more. */
  method ClearStale(m: Entries, now: Time) returns (r: Entries)
    ensures r == Kept(m, now)
    ensures forall id :: id in r <==> id in m && now - m[id].sentTime < 86_400_000_000_000
    ensures forall id | id in r :: r[id] == m[id]
  {
    r := m;
    var keys := m.Keys;
    while keys != {}
      invariant keys <= m.Keys
      invariant forall id :: id in r <==> id in m && (id in keys || Young(m[id], now))
      invariant forall id | id in r :: r[id] == m[id]
      decreases |keys|
    {
      var k :| k in keys;
      keys := keys - {k};
      if now - r[k].sentTime >= STALE {
        r := r - {k};
      }
    }
  }

  // ---------------------------------------------------------------------------
  // Alarms
  // ---------------------------------------------------------------------------

  /** The saved alarms; a map the file does not hold is None. PagerDuty's flap memory is
      not part of it. */
  datatype SavedAlarms = SavedAlarms(
    pd: Option<Entries>, tg: Option<Entries>, di: Option<Entries>, slk: Option<Entries>, wh: Option<Entries>,
    all: Option<map<string, Entries>>)
  {
    function To(d: Dest): Option<Entries> {
      match d
      case Pd => pd
      case Tg => tg
      case Di => di
      case Slk => slk
      case Wh => wh
    }
  }

  method SaveAlarms(alarms: AlarmCache) returns (saved: SavedAlarms)
    ensures forall d :: saved.To(d) == Some(alarms.View().sent.To(d))
    ensures saved.all == Some(alarms.View().all)
  {
    saved := SavedAlarms(Some(alarms.SentPdAlarms), Some(alarms.SentTgAlarms), Some(alarms.SentDiAlarms),
                         Some(alarms.SentSlkAlarms), Some(alarms.SentWHAlarms), Some(alarms.AllAlarms));
  }

  ghost function KeptAll(all: map<string, Entries>, now: Time): map<string, Entries> {
    map c | c in all :: Kept(all[c], now)
  }

  method ClearAllStale(all: map<string, Entries>, now: Time) returns (restored: map<string, Entries>)
    ensures restored == KeptAll(all, now)
  {
    hide Kept;
    restored := all;
    var chains := all.Keys;
    while chains != {}
      invariant chains <= all.Keys && restored.Keys == all.Keys
      invariant forall c | c in all :: restored[c] == if c in chains then all[c] else Kept(all[c], now)
      decreases |chains|
    {
      var c :| c in chains;
      chains := chains - {c};
      var young := ClearStale(restored[c], now);
      restored := restored[c := young];
    }
  }

  /** A map the file held replaces the current one, without its stale records. */
  ghost function Reloaded(saved: Option<Entries>, current: Entries, now: Time): Entries {
    if saved.Some? then Kept(saved.value, now) else current
  }

  method Reload(saved: Option<Entries>, current: Entries, now: Time) returns (m: Entries)
    ensures m == Reloaded(saved, current, now)
  {
    m := current;
    if saved.Some? {
      m := ClearStale(saved.value, now);
    }
  }

  method RestoreAlarms(alarms: AlarmCache, saved: SavedAlarms, now: Time)
    modifies alarms
    ensures forall d :: alarms.View().sent.To(d) == Reloaded(saved.To(d), old(alarms.View()).sent.To(d), now)
    ensures alarms.View().all == if saved.all.Some? then KeptAll(saved.all.value, now) else old(alarms.View()).all
    ensures alarms.View().flapping == old(alarms.View()).flapping
  {
    hide Reloaded, KeptAll;
    alarms.SentTgAlarms := Reload(saved.tg, alarms.SentTgAlarms, now);
    alarms.SentPdAlarms := Reload(saved.pd, alarms.SentPdAlarms, now);
    alarms.SentDiAlarms := Reload(saved.di, alarms.SentDiAlarms, now);
    alarms.SentSlkAlarms := Reload(saved.slk, alarms.SentSlkAlarms, now);
    alarms.SentWHAlarms := Reload(saved.wh, alarms.SentWHAlarms, now);
    if saved.all.Some? {
      alarms.AllAlarms := ClearAllStale(saved.all.value, now);
    }
  }

  /** The cache of a new process that loads at time t what this one saved. */
  ghost function Restarted(a: Alarms, t: Time): Alarms {
    Alarms(Sent(Kept(a.sent.pd, t), Kept(a.sent.tg, t), Kept(a.sent.di, t), Kept(a.sent.slk, t), Kept(a.sent.wh, t)),
           KeptAll(a.all, t), map[])
  }

  /** Saving in one process and restoring into the empty cache of the next. */
  method SaveAndRestore(alarms: AlarmCache, t: Time) returns (next: AlarmCache)
    ensures next.View() == Restarted(alarms.View(), t) && fresh(next)
  {
    var saved := SaveAlarms(alarms);
    next := new AlarmCache();
    RestoreAlarms(next, saved, t);
    SentExtensional(next.View().sent, Restarted(alarms.View(), t).sent);
  }

  /** Whether the restart changes what the gate decides about a message: it does for an
      admitted message whose record was dropped as stale, and for a firing that flap
      detection held back; for every other message it does not. */
  lemma RestartIsTransparent(a: Alarms, t: Time, msg: AlertMsg, d: Dest, now: Time, hours: int)
    ensures var m := a.sent.To(d);
      Judge(Restarted(a, t), msg, d, now, hours) == Judge(a, msg, d, now, hours) <==>
        || msg.severity !in Severities(msg.alertConfig.On(d).threshold)
        || if Recorded(m, msg.uniqueId) then Young(m[msg.uniqueId], t)
           else msg.resolved || !(d.Pd? && msg.pd && RecentlyFired(a, msg, now))
  {
    hide Severities;
    assert Restarted(a, t).sent.To(d) == Kept(a.sent.To(d), t);
  }

  /** Over every run after the restart, the first approval of an id on a channel is a new
      firing exactly if the channel held no record of it younger than 24 hours. */
  lemma {:induction false} FirstApprovalAfterRestart(a: Alarms, t: Time, calls: seq<Call>, hours: int, j: nat)
    requires WellFormed(calls) && j < |Log(Restarted(a, t), calls, hours)|
    ensures var log := Log(Restarted(a, t), calls, hours);
      var m := a.sent.To(log[j].dest);
      Previous(log, j, log[j].dest, log[j].id) < 0 ==>
        (log[j].kind.Firing? <==> !(Recorded(m, log[j].id) && Young(m[log[j].id], t)))
  {
    var r := Restarted(a, t);
    NotificationsAreBracketed(r, calls, hours);
    var log := Log(r, calls, hours);
    assert Bracketed(r, log, j, hours);
    assert r.sent.To(log[j].dest) == Kept(a.sent.To(log[j].dest), t);
  }

  ghost predicate Agree(a: Alarms, d: Dest, chain: string) {
    forall id :: id in a.sent.To(d) <==> id in Of(a.all, chain)
  }

  /** A channel that agreed with a chain's AllAlarms still does exactly if no id's two
      records lie on different sides of the 24 hours. */
  lemma RestartKeepsAgreement(a: Alarms, t: Time, d: Dest, chain: string)
    requires Agree(a, d, chain)
    ensures Agree(Restarted(a, t), d, chain) <==>
      forall id | id in a.sent.To(d) :: Young(a.sent.To(d)[id], t) <==> Young(Of(a.all, chain)[id], t)
  {
    var r := Restarted(a, t);
    assert r.sent.To(d) == Kept(a.sent.To(d), t) && Of(r.all, chain) == Kept(Of(a.all, chain), t);
    if Agree(r, d, chain) {
      forall id | id in a.sent.To(d) ensures Young(a.sent.To(d)[id], t) <==> Young(Of(a.all, chain)[id], t) {
        assert id in r.sent.To(d) <==> id in Of(r.all, chain);
      }
    }
  }

  // ---------------------------------------------------------------------------
  // Silence windows
  // ---------------------------------------------------------------------------

  method SaveSilences(td: Config, now: Time) returns (saved: map<string, int>)
    ensures saved.Keys == set k | k in td.Chains && td.Chains[k].silencedUntil > Unix(now)
    ensures forall k | k in saved :: saved[k] == td.Chains[k].silencedUntil
  {
    saved := map[];
    var keys := td.Chains.Keys;
    while keys != {}
      invariant keys <= td.Chains.Keys
      invariant forall k :: k in saved <==> k in td.Chains && k !in keys && td.Chains[k].silencedUntil > Unix(now)
      invariant forall k | k in saved :: saved[k] == td.Chains[k].silencedUntil
      decreases |keys|
    {
      var k :| k in keys;
      keys := keys - {k};
      var u := td.Chains[k].silencedUntil;
      if u > Unix(now) {
        saved := saved[k := u];
      }
    }
  }

  /** A saved window still to come at load time is stored; anything else is left alone. */
  function Resumed(c: ChainView, saved: map<string, int>, k: string, now: Time): ChainView {
    if k in saved && saved[k] > Unix(now) then c.(silencedUntil := saved[k]) else c
  }

  method RestoreSilences(td: Config, saved: map<string, int>, now: Time)
    requires td.Valid()
    modifies td.Chains.Values
    ensures forall k | k in td.Chains :: td.Chains[k].View() == Resumed(old(td.Chains[k].View()), saved, k, now)
  {
    var keys := saved.Keys;
    while keys != {}
      invariant keys <= saved.Keys
      invariant forall k | k in td.Chains ::
          td.Chains[k].View() ==
              if k in keys then old(td.Chains[k].View()) else Resumed(old(td.Chains[k].View()), saved, k, now)
      decreases |keys|
    {
      var k :| k in keys;
      keys := keys - {k};
      if saved[k] > Unix(now) && k in td.Chains {
        td.Chains[k].silencedUntil := saved[k];
      }
    }
  }

  /** What a window ending at u becomes across a save at s and a load at t. */
  function Carried(u: int, s: Time, t: Time): int {
    if u > Unix(s) && u > Unix(t) then u else 0
  }

  /** At every instant from the load on, a chain is silenced as if nothing had happened. */
  lemma SilenceSurvivesRestart(u: int, s: Time, t: Time, x: Time)
    requires s <= t <= x
    ensures Silenced(Carried(u, s, t), x) <==> Silenced(u, x)
  {
    assert Unix(s) <= Unix(t) <= Unix(x);
  }

  /** The two halves together: every chain still configured ends with its carried window. */
  method CarrySilences(td: Config, next: Config, s: Time, t: Time)
    requires next.Valid() && td.Chains.Values !! next.Chains.Values
    requires forall k | k in next.Chains :: next.Chains[k].silencedUntil == 0
    modifies next.Chains.Values
    ensures forall k | k in next.Chains ::
      next.Chains[k].silencedUntil == if k in td.Chains then Carried(td.Chains[k].silencedUntil, s, t) else 0
    ensures s <= t ==> forall k, x | k in next.Chains && k in td.Chains && x >= t ::
      Silenced(next.Chains[k].silencedUntil, x) <==> Silenced(td.Chains[k].silencedUntil, x)
  {
    var saved := SaveSilences(td, s);
    RestoreSilences(next, saved, t);
    forall k | k in next.Chains
      ensures next.Chains[k].View().silencedUntil ==
            if k in td.Chains then Carried(td.Chains[k].silencedUntil, s, t) else 0
    {
    }
    if s <= t {
      forall k, x | k in next.Chains && k in td.Chains && x >= t
        ensures Silenced(next.Chains[k].silencedUntil, x) <==> Silenced(td.Chains[k].silencedUntil, x)
      {
        assert next.Chains[k].View().silencedUntil == Carried(td.Chains[k].silencedUntil, s, t);
        SilenceSurvivesRestart(td.Chains[k].silencedUntil, s, t, x);
      }
    }
  }

  // ---------------------------------------------------------------------------
  // Node health
  // ---------------------------------------------------------------------------

  predicate Failing(n: Node, lag: bool) {
    if lag then n.lagging else n.down
  }

  function Since(n: Node, lag: bool): Time {
    if lag then n.laggingSince else n.downSince
  }

  /** m holds a time for the address of every failing node: the last such node's. */
  ghost predicate Records(ns: seq<Node>, lag: bool, m: map<string, Time>) {
    && (forall u :: u in m <==> exists i | 0 <= i < |ns| :: ns[i].url == u && Failing(ns[i], lag))
    && forall i | 0 <= i < |ns| && Failing(ns[i], lag) :: LastAt(ns, lag, i) ==> m[ns[i].url] == Since(ns[i], lag)
  }

  ghost predicate LastAt(ns: seq<Node>, lag: bool, i: nat)
    requires i < |ns|
  {
    forall j | i < j < |ns| && ns[j].url == ns[i].url :: !Failing(ns[j], lag)
  }

  lemma RecordsMore(ns: seq<Node>, lag: bool, m: map<string, Time>, n: Node)
    requires Records(ns, lag, m)
    ensures Records(ns + [n], lag, if Failing(n, lag) then m[n.url := Since(n, lag)] else m)
  {
    hide Failing, Since;
    var all := ns + [n];
    var m' := if Failing(n, lag) then m[n.url := Since(n, lag)] else m;
    forall u ensures u in m' <==> exists i | 0 <= i < |all| :: all[i].url == u && Failing(all[i], lag) {
      if u in m {
        var i :| 0 <= i < |ns| && ns[i].url == u && Failing(ns[i], lag);
        assert all[i] == ns[i];
      } else if u in m' {
        assert all[|ns|] == n;
      } else if i :| 0 <= i < |all| && all[i].url == u && Failing(all[i], lag) {
        assert false;
      }
    }
    forall i | 0 <= i < |all| && Failing(all[i], lag) && LastAt(all, lag, i)
        ensures m'[all[i].url] == Since(all[i], lag) {
      if i < |ns| {
        assert all[i] == ns[i] && all[|ns|] == n;
        assert forall j | 0 <= j < |ns| :: all[j] == ns[j];
        assert LastAt(ns, lag, i);
      }
    }
  }

  method SaveNodes(nodes: seq<NodeConfig>) returns (down: map<string, Time>, lagging: map<string, Time>)
    ensures Records(NodeViews(nodes), false, down) && Records(NodeViews(nodes), true, lagging)
  {
    hide Records;
    down, lagging := map[], map[];
    ghost var ns := NodeViews(nodes);
    NoRecords();
    assert ns[..0] == [];
    for i := 0 to |nodes|
      invariant Records(ns[..i], false, down) && Records(ns[..i], true, lagging)
    {
      assert ns[..i + 1] == ns[..i] + [ns[i]];
      RecordsMore(ns[..i], false, down, ns[i]);
      RecordsMore(ns[..i], true, lagging, ns[i]);
      if nodes[i].down {
        down := down[nodes[i].Url := nodes[i].downSince];
      }
      if nodes[i].lagging {
        lagging := lagging[nodes[i].Url := nodes[i].laggingSince];
      }
    }
    assert ns[..|nodes|] == ns;
  }

  lemma NoRecords()
    ensures forall lag :: Records([], lag, map[])
  {
  }

  /** A node found in the records, with a real time, starts out failing and as having failed. */
  function Revive(n: Node, records: map<string, Time>, lag: bool): Node {
    if n.url !in records || records[n.url] == ZERO_TIME then n
    else if lag then n.(lagging := true, wasLagging := true, laggingSince := records[n.url])
    else n.(down := true, wasDown := true, downSince := records[n.url])
  }

  method ReviveAll(nodes: seq<NodeConfig>, records: map<string, Time>, lag: bool)
    requires Separate(nodes)
    modifies nodes
    ensures forall i | 0 <= i < |nodes| :: nodes[i].View() == Revive(old(nodes[i].View()), records, lag)
  {
    var urls := records.Keys;
    while urls != {}
      invariant urls <= records.Keys
      invariant forall i | 0 <= i < |nodes| ::
          nodes[i].View() ==
              if nodes[i].Url in urls then old(nodes[i].View()) else Revive(old(nodes[i].View()), records, lag)
      decreases |urls|
    {
      var url :| url in urls;
      ghost var before := NodeViews(nodes);
      for j := 0 to |nodes|
        invariant forall i | 0 <= i < |nodes| ::
            nodes[i].View() == if i < j && nodes[i].Url == url then Revive(before[i], records, lag) else before[i]
      {
        if records[url] != ZERO_TIME && nodes[j].Url == url {
          if lag {
            nodes[j].lagging, nodes[j].wasLagging, nodes[j].laggingSince := true, true, records[url];
          } else {
            nodes[j].down, nodes[j].wasDown, nodes[j].downSince := true, true, records[url];
          }
        }
      }
      urls := urls - {url};
    }
  }

  /** Restores one chain's nodes; noNodes is set if that leaves every one of them down. */
  method RestoreNodes(nodes: seq<NodeConfig>, down: Option<map<string, Time>>, lagging: Option<map<string, Time>>)
      returns (noNodes: bool)
    requires Separate(nodes)
    modifies nodes
    ensures forall i | 0 <= i < |nodes| ::
        var n := if down.Some? then Revive(old(nodes[i].View()), down.value, false) else old(nodes[i].View());
        nodes[i].View() == if lagging.Some? then Revive(n, lagging.value, true) else n
    ensures noNodes <==> down.Some? && forall i | 0 <= i < |nodes| :: nodes[i].down
  {
    hide Revive;
    noNodes := false;
    if down.Some? {
      ReviveAll(nodes, down.value, false);
      var downCount := 0;
      for j := 0 to |nodes|
        invariant downCount <= j && (downCount == j <==> forall i | 0 <= i < j :: nodes[i].View().down)
      {
        if nodes[j].down {
          downCount := downCount + 1;
        }
      }
      noNodes := downCount == |nodes|;
    }
    if lagging.Some? {
      ghost var ns := NodeViews(nodes);
      ReviveAll(nodes, lagging.value, true);
      forall i | 0 <= i < |nodes| ensures nodes[i].View().down == ns[i].down {
        ReviveSide(ns[i], lagging.value);
      }
    }
    assert forall i | 0 <= i < |nodes| :: nodes[i].View().down == nodes[i].down;
  }

  lemma ReviveSide(n: Node, records: map<string, Time>)
    ensures Revive(n, records, true).down == n.down
  {
  }

  /** A node of the next process, if its address was unique in this one. */
  function RestartedNode(n: Node): Node {
    var f := Fresh(n.url, n.alertIfDown);
    var g := if n.down && n.downSince != ZERO_TIME then f.(down := true, wasDown := true, downSince := n.downSince)
        else f;
    if n.lagging && n.laggingSince != ZERO_TIME
        then g.(lagging := true, wasLagging := true, laggingSince := n.laggingSince) else g
  }

  /** The last node of the address that is failing, or -1. */
  ghost function LastFailing(ns: seq<Node>, lag: bool, url: string): (i: int)
    ensures -1 <= i < |ns|
    ensures i >= 0 ==> ns[i].url == url && Failing(ns[i], lag)
    ensures forall k | i < k < |ns| && ns[k].url == url :: !Failing(ns[k], lag)
  {
    if ns == [] then -1
    else if ns[|ns| - 1].url == url && Failing(ns[|ns| - 1], lag) then |ns| - 1
    else LastFailing(ns[..|ns| - 1], lag, url)
  }

  /** There is such a node and it has a real time. */
  ghost predicate OnRecord(ns: seq<Node>, lag: bool, url: string) {
    var i := LastFailing(ns, lag, url);
    i >= 0 && Since(ns[i], lag) != ZERO_TIME
  }

  /** Node i of the next process: restored from the last failing node of its address. */
  ghost function RestartedAmong(ns: seq<Node>, i: nat): Node
    requires i < |ns|
  {
    var n := ns[i];
    var f := Fresh(n.url, n.alertIfDown);
    var g := if OnRecord(ns, false, n.url)
        then f.(down := true, wasDown := true, downSince := ns[LastFailing(ns, false, n.url)].downSince) else f;
    if OnRecord(ns, true, n.url)
        then g.(lagging := true, wasLagging := true, laggingSince := ns[LastFailing(ns, true, n.url)].laggingSince)
            else g
  }

  method SaveAndRestoreNodes(nodes: seq<NodeConfig>, next: seq<NodeConfig>) returns (noNodes: bool)
    requires |next| == |nodes| && Separate(next) && forall n | n in next :: n !in nodes
    requires forall i | 0 <= i < |nodes| :: next[i].View() == Fresh(nodes[i].Url, nodes[i].AlertIfDown)
    modifies next
    ensures forall i | 0 <= i < |nodes| :: next[i].View() == RestartedAmong(NodeViews(nodes), i)
    ensures noNodes <==> forall i | 0 <= i < |nodes| :: OnRecord(NodeViews(nodes), false, nodes[i].Url)
  {
    hide Records, Revive, RestartedAmong, OnRecord, Fresh;
    var down, lagging := SaveNodes(nodes);
    ghost var ns, fs := NodeViews(nodes), NodeViews(next);
    noNodes := RestoreNodes(next, Some(down), Some(lagging));
    assert forall i | 0 <= i < |nodes| :: nodes[i] in nodes;
    assert NodeViews(nodes) == ns;
    forall i | 0 <= i < |nodes|
      ensures next[i].View() == RestartedAmong(ns, i)
      ensures next[i].down <==> OnRecord(ns, false, nodes[i].Url)
    {
      RestartedFromRecords(ns, down, lagging, i);
      assert next[i].View() == Revive(Revive(fs[i], down, false), lagging, true);
      assert next[i].View().down == next[i].down;
    }
  }

  lemma RestartedFromRecords(ns: seq<Node>, down: map<string, Time>, lagging: map<string, Time>, i: nat)
    requires Records(ns, false, down) && Records(ns, true, lagging) && i < |ns|
    ensures var r := Revive(Revive(Fresh(ns[i].url, ns[i].alertIfDown), down, false), lagging, true);
      r == RestartedAmong(ns, i) && (r.down <==> OnRecord(ns, false, ns[i].url))
  {
    RecordFound(ns, false, down, ns[i].url);
    RecordFound(ns, true, lagging, ns[i].url);
    hide Records;
  }

  /** What is on record for an address. */
  lemma RecordFound(ns: seq<Node>, lag: bool, m: map<string, Time>, url: string)
    requires Records(ns, lag, m)
    ensures url in m <==> LastFailing(ns, lag, url) >= 0
    ensures url in m ==> m[url] == Since(ns[LastFailing(ns, lag, url)], lag)
  {
    hide Failing, Since;
    var i := LastFailing(ns, lag, url);
    if i >= 0 {
      assert LastAt(ns, lag, i);
    }
  }

  /** A node whose address is its own is restored from its own record. */
  lemma OwnAddress(ns: seq<Node>, i: nat)
    requires i < |ns| && forall j | 0 <= j < |ns| && j != i :: ns[j].url != ns[i].url
    ensures RestartedAmong(ns, i) == RestartedNode(ns[i])
    ensures OnRecord(ns, false, ns[i].url) <==> ns[i].down && ns[i].downSince != ZERO_TIME
  {
  }

  /** One node and its alarms across a restart; an alarm stays if its record was young. */
  function RestartedWatch(w: Watched, keepDown: bool, keepLag: bool): Watched {
    Watched(RestartedNode(w.node), w.downActive && keepDown, w.lagActive && keepLag)
  }

  /** A restart keeps what every other step keeps exactly if no alarm is carried over that
      the node's recovery has already been recorded for but no pass has cleared yet. */
  lemma RestartKeepsCoherent(w: Watched, keepDown: bool, keepLag: bool)
    requires Coherent(w)
    ensures Coherent(RestartedWatch(w, keepDown, keepLag)) <==>
      && (w.downActive && keepDown ==> w.node.down && w.node.downSince != ZERO_TIME)
      && (w.lagActive && keepLag ==> w.node.lagging && w.node.laggingSince != ZERO_TIME)
    ensures w.node.down && w.node.downSince != ZERO_TIME ==>
      RestartedNode(w.node) == Restored(w.node.url, w.node.alertIfDown, w.node.downSince)
  {
  }

  /** The node answers every probe and is not marked. */
  ghost predicate Answering(events: seq<Event>) {
    forall e | e in events :: !e.Connect? && (e.Probe? ==> e.p.Answers?)
  }

  /** And is never behind. */
  ghost predicate Healthy(events: seq<Event>, stalledMin: int) {
    Answering(events) && forall e | e in events && e.Probe? :: !Behind(e.p.latestBlock, stalledMin, e.at)
  }

  /** A node that is up with no recovery left to evaluate keeps its active down alarm while
      it answers, until `clearAll`. */
  lemma {:induction false} UpKeepsAlarm(w: Watched, events: seq<Event>, stalledMin: int, downMin: int)
    requires !w.node.down && (w.downActive ==> !w.node.wasDown) && Answering(events)
    ensures var w' := Run(w, events, stalledMin, downMin);
      && !w'.node.down && (w.downActive ==> !w'.node.wasDown)
      && (w'.downActive <==> w.downActive && Uncleared(events, 0))
  {
    if events != [] {
      var rest, e := events[..|events| - 1], events[|events| - 1];
      assert events == rest + [e] && e in events;
      UpKeepsAlarm(w, rest, stalledMin, downMin);
      OverdueMore(rest, e, 0, downMin);
      hide LagsLong, Behind, Uncleared;
    }
  }

  lemma {:induction false} CurrentKeepsAlarm(w: Watched, events: seq<Event>, stalledMin: int, downMin: int)
    requires !w.node.lagging && (w.lagActive ==> !w.node.wasLagging) && Healthy(events, stalledMin)
    ensures var w' := Run(w, events, stalledMin, downMin);
      && !w'.node.lagging && (w.lagActive ==> !w'.node.wasLagging)
      && (w'.lagActive <==> w.lagActive && Uncleared(events, 0))
  {
    if events != [] {
      var rest, e := events[..|events| - 1], events[|events| - 1];
      assert events == rest + [e] && e in events;
      CurrentKeepsAlarm(w, rest, stalledMin, downMin);
      OverdueMore(rest, e, 0, downMin);
      hide DownLong, Behind, Uncleared;
    }
  }

  /** One answered probe and one pass after the restart. */
  function Turn(w: Watched, latestBlock: Time, at: Time, now: Time, silenced: bool, stalledMin: int,
                downMin: int): Watched {
    Step(Step(w, Probe(Answers(latestBlock), at), stalledMin, downMin), Pass(now, silenced), stalledMin, downMin)
  }

  lemma DownTurn(w: Watched, keepDown: bool, keepLag: bool, latestBlock: Time, at: Time, now: Time, silenced: bool,
                 stalledMin: int, downMin: int)
    requires Coherent(w)
    ensures var w' := Turn(RestartedWatch(w, keepDown, keepLag), latestBlock, at, now, silenced, stalledMin, downMin);
      && !w'.node.down && (w'.downActive ==> !w'.node.wasDown)
      && (w'.downActive <==> w.downActive && keepDown && !(w.node.down && w.node.downSince != ZERO_TIME))
  {
    hide LagsLong, Behind;
  }

  lemma LagTurn(w: Watched, keepDown: bool, keepLag: bool, latestBlock: Time, at: Time, now: Time, silenced: bool,
                stalledMin: int, downMin: int)
    requires Coherent(w) && !Behind(latestBlock, stalledMin, at)
    ensures var w' := Turn(RestartedWatch(w, keepDown, keepLag), latestBlock, at, now, silenced, stalledMin, downMin);
      && !w'.node.lagging && (w'.lagActive ==> !w'.node.wasLagging)
      && (w'.lagActive <==> w.lagActive && keepLag && !(w.node.lagging && w.node.laggingSince != ZERO_TIME))
  {
    hide DownLong, Behind;
  }

  /** When a carried-over down alarm clears after a recovery: once a probe has been answered and
      a pass has come, and for as long as the node answers, it is active if and only if it was
      carried over by a node not on record as down, and has not been cleared. */
  lemma CarriedDownAlarmClears(w: Watched, keepDown: bool, keepLag: bool, latestBlock: Time, at: Time, now: Time,
                               silenced: bool, events: seq<Event>, stalledMin: int, downMin: int)
    requires Coherent(w) && Answering(events)
    ensures var w1 := Turn(RestartedWatch(w, keepDown, keepLag), latestBlock, at, now, silenced, stalledMin, downMin);
      Run(w1, events, stalledMin, downMin).downActive <==>
        w.downActive && keepDown && !(w.node.down && w.node.downSince != ZERO_TIME) && Uncleared(events, 0)
  {
    hide Turn, Run, Uncleared;
    var w1 := Turn(RestartedWatch(w, keepDown, keepLag), latestBlock, at, now, silenced, stalledMin, downMin);
    DownTurn(w, keepDown, keepLag, latestBlock, at, now, silenced, stalledMin, downMin);
    UpKeepsAlarm(w1, events, stalledMin, downMin);
  }

  /** The same of a carried-over lagging alarm, once the node is no longer behind. */
  lemma CarriedLagAlarmClears(w: Watched, keepDown: bool, keepLag: bool, latestBlock: Time, at: Time, now: Time,
                              silenced: bool, events: seq<Event>, stalledMin: int, downMin: int)
    requires Coherent(w) && !Behind(latestBlock, stalledMin, at) && Healthy(events, stalledMin)
    ensures var w1 := Turn(RestartedWatch(w, keepDown, keepLag), latestBlock, at, now, silenced, stalledMin, downMin);
      Run(w1, events, stalledMin, downMin).lagActive <==>
        w.lagActive && keepLag && !(w.node.lagging && w.node.laggingSince != ZERO_TIME) && Uncleared(events, 0)
  {
    hide Turn, Run, Uncleared, Behind;
    var w1 := Turn(RestartedWatch(w, keepDown, keepLag), latestBlock, at, now, silenced, stalledMin, downMin);
    LagTurn(w, keepDown, keepLag, latestBlock, at, now, silenced, stalledMin, downMin);
    CurrentKeepsAlarm(w1, events, stalledMin, downMin);
  }

  /** So a down alarm whose recovery was recorded and not evaluated before the restart is
      stranded: whatever healthy probes and passes follow, only `clearAll` removes it. */
  lemma StrandedDownAlarm(w: Watched, keepLag: bool, events: seq<Event>, stalledMin: int, downMin: int)
    requires w.downActive && !w.node.down && Answering(events)
    ensures Run(RestartedWatch(w, true, keepLag), events, stalledMin, downMin).downActive <==> Uncleared(events, 0)
  {
    hide Run, Uncleared;
    UpKeepsAlarm(RestartedWatch(w, true, keepLag), events, stalledMin, downMin);
  }

  /** What the restart costs: while the outage goes on unanswered, the alarm is active after it
      only if it was carried over; without the restart also if the minutes were over at some
      later pass. A node that had not been down long enough for an alarm never gets one. */
  lemma RestartLosesOutage(w: Watched, keepDown: bool, keepLag: bool, events: seq<Event>, stalledMin: int, downMin: int)
    requires w.node.down && w.node.downSince != ZERO_TIME
    requires forall e | e in events && e.Probe? :: !e.p.Answers?
    ensures Run(RestartedWatch(w, keepDown, keepLag), events, stalledMin, downMin).downActive <==>
      w.downActive && keepDown && Uncleared(events, 0)
    ensures Run(w, events, stalledMin, downMin).downActive <==>
      || (w.downActive && Uncleared(events, 0))
      || (w.node.alertIfDown && !w.node.wasDown && EverOverdue(events, w.node.downSince, downMin))
  {
    hide EverOverdue, Uncleared, Run;
    OutageIsReported(w, events, stalledMin, downMin);
    OutageIsReported(RestartedWatch(w, keepDown, keepLag), events, stalledMin, downMin);
  }

  /** The same for a lagging node: restored as having lagged before, it raises no lagging
      alarm while it goes on lagging. */
  lemma RestoredLaggingNodeStaysQuiet(w: Watched, keepDown: bool, keepLag: bool, events: seq<Event>, stalledMin: int,
                                      downMin: int)
    requires w.node.lagging && w.node.laggingSince != ZERO_TIME
    requires forall e | e in events && e.Probe? :: e.p.Answers? && Behind(e.p.latestBlock, stalledMin, e.at)
    ensures Run(RestartedWatch(w, keepDown, keepLag), events, stalledMin, downMin).lagActive <==>
      w.lagActive && keepLag && Uncleared(events, 0)
    ensures Run(w, events, stalledMin, downMin).lagActive <==>
      || (w.lagActive && Uncleared(events, 0))
      || (w.node.alertIfDown && !w.node.wasLagging && EverOverdue(events, w.node.laggingSince, downMin))
  {
    hide EverOverdue, Uncleared, Run;
    LagIsReported(w, events, stalledMin, downMin);
    LagIsReported(RestartedWatch(w, keepDown, keepLag), events, stalledMin, downMin);
  }
}
