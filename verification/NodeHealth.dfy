/** RPC node health: probes set down and lagging, evaluators turn them into alarms after a
    debounce time. */
module NodeHealth {
  import opened AlertTypes
  import opened Engine
  import opened Wrappers

  datatype Node = Node(
    url: string, alertIfDown: bool,
    down: bool, wasDown: bool, syncing: bool, downSince: Time,
    lagging: bool, wasLagging: bool, laggingSince: Time)

  /** What one probe of a node finds: no usable answer, an answer saying it is still
      syncing, or an answer with the time of its latest block. */
  datatype Probe = Unusable | Syncing | Answers(latestBlock: Time)

  function Fresh(url: string, alertIfDown: bool): Node {
    Node(url, alertIfDown, false, false, false, ZERO_TIME, false, false, ZERO_TIME)
  }

  /** A failing probe: being down supersedes lagging. */
  function Failed(n: Node, now: Time): Node {
    var m := if n.lagging then n.(lagging := false, laggingSince := 0, wasLagging := true) else n;
    if !m.alertIfDown then m.(down := true)
    else if !m.down then m.(down := true, downSince := now)
    else m
  }

  predicate Behind(latestBlock: Time, stalledMin: int, now: Time) {
    stalledMin > 0 && now - latestBlock > stalledMin * MINUTE
  }

  function Answered(n: Node, latestBlock: Time, stalledMin: int, now: Time): Node {
    var m := n.(wasDown := n.wasDown || n.down, down := false, syncing := false, downSince := 0);
    if Behind(latestBlock, stalledMin, now) then
      if m.lagging then m else m.(lagging := true, laggingSince := now)
    else m.(wasLagging := m.wasLagging || m.lagging, lagging := false, laggingSince := 0)
  }

  /** The mark that looking for a working endpoint leaves on one that cannot be used. Unlike a
      failing probe it does not end lagging. */
  function MarkedConnecting(n: Node, isSyncing: bool, now: Time): Node {
    var m := n.(syncing := isSyncing);
    if n.down then m else m.(down := true, downSince := now)
  }

  function Probed(n: Node, p: Probe, stalledMin: int, now: Time): Node {
    match p
    case Unusable => Failed(n, now)
    case Syncing => Failed(n, now).(syncing := true)
    case Answers(latestBlock) => Answered(n, latestBlock, stalledMin, now)
  }

  class NodeConfig {
    const Url: string
    const AlertIfDown: bool
    var down: bool
    var wasDown: bool
    var syncing: bool
    var downSince: Time
    var lagging: bool
    var wasLagging: bool
    var laggingSince: Time

    constructor (url: string, alertIfDown: bool)
      ensures View() == Fresh(url, alertIfDown)
    {
      Url, AlertIfDown := url, alertIfDown;
      down, wasDown, syncing, downSince := false, false, false, ZERO_TIME;
      lagging, wasLagging, laggingSince := false, false, ZERO_TIME;
    }

    ghost function View(): Node
      reads this
    {
      Node(Url, AlertIfDown, down, wasDown, syncing, downSince, lagging, wasLagging, laggingSince)
    }

    method MarkFailed(now: Time)
      modifies this
      ensures View() == Failed(old(View()), now)
    {
      if lagging {
        lagging := false;
        laggingSince := 0;
        wasLagging := true;
      }
      if !AlertIfDown {
        down := true;
        return;
      }
      if !down {
        down := true;
        downSince := now;
      }
    }

    method MarkConnecting(isSyncing: bool, now: Time)
      modifies this
      ensures View() == MarkedConnecting(old(View()), isSyncing, now)
      ensures down && syncing == isSyncing && downSince == if old(down) then old(downSince) else now
      ensures lagging == old(lagging) && wasDown == old(wasDown) && wasLagging == old(wasLagging)
    {
      syncing := isSyncing;
      if !down {
        down := true;
        downSince := now;
      }
    }

    /** One tick of the health monitor for this node. */
    method Check(p: Probe, stalledMin: int, now: Time)
      modifies this
      ensures View() == Probed(old(View()), p, stalledMin, now)
      ensures p.Answers? ==>
                && !down && !syncing && wasDown == (old(wasDown) || old(down))
                && (lagging <==> stalledMin > 0 && now - p.latestBlock > stalledMin * 60_000_000_000)
                && wasLagging == (old(wasLagging) || (old(lagging) && !lagging))
                && (lagging ==> laggingSince == if old(lagging) then old(laggingSince) else now)
      ensures !p.Answers? ==>
                && down && !lagging && wasDown == old(wasDown) && (p.Syncing? ==> syncing)
                && wasLagging == (old(wasLagging) || old(lagging))
                && downSince == if AlertIfDown && !old(down) then now else old(downSince)
    {
      match p
      case Unusable => MarkFailed(now);
      case Syncing =>
        MarkFailed(now);
        syncing := true;
      case Answers(latestBlock) =>
        if down {
          wasDown := true;
        }
        down := false;
        syncing := false;
        downSince := 0;
        if stalledMin > 0 && now - latestBlock > stalledMin * MINUTE {
          if !lagging {
            lagging := true;
            laggingSince := now;
          }
        } else {
          if lagging {
            wasLagging := true;
          }
          lagging := false;
          laggingSince := 0;
        }
    }
  }

  // ---------------------------------------------------------------------------
  // Evaluators
  // ---------------------------------------------------------------------------

  function DownId(val: string, url: string): string {
    "RPCNodeDown_" + val + "_" + url
  }

  function LagId(val: string, url: string): string {
    "RPCNodeLagging_" + val + "_" + url
  }

  predicate DownLong(n: Node, downMin: int, now: Time) {
    n.alertIfDown && n.down && !n.wasDown && n.downSince != ZERO_TIME && now - n.downSince > downMin * MINUTE
  }

  predicate LagsLong(n: Node, downMin: int, now: Time) {
    n.alertIfDown && n.lagging && !n.wasLagging && n.laggingSince != ZERO_TIME
        && now - n.laggingSince > downMin * MINUTE
  }

  /** The down evaluator's effect on one node, given whether its alarm is active: the node,
      and whether the alarm is raised (Some(false)), resolved (Some(true)) or left. */
  function EvalDown(n: Node, active: bool, downMin: int, now: Time): (Node, Option<bool>) {
    if DownLong(n, downMin, now) then (n, if active then None else Some(false))
    else if n.alertIfDown && !n.down && n.wasDown then (n.(wasDown := false), if active then Some(true) else None)
    else (n, None)
  }

  function EvalLag(n: Node, active: bool, downMin: int, now: Time): (Node, Option<bool>) {
    if LagsLong(n, downMin, now) then (n, if active then None else Some(false))
    else if n.alertIfDown && !n.lagging && n.wasLagging
        then (n.(wasLagging := false), if active then Some(true) else None)
    else (n, None)
  }

  /** When a pass reports, and what it leaves of the node: it raises an inactive alarm once the
      state has lasted, resolves an active one once it is over, and says nothing otherwise; it
      forgets a past state only of a node that is out of it, and nothing of a node nobody wants
      to hear of. */
  lemma ReportsAreTurns(n: Node, active: bool, downMin: int, now: Time)
    ensures var (m, v) := EvalDown(n, active, downMin, now);
      && (v == Some(false) <==>
            !active && n.alertIfDown && n.down && !n.wasDown && n.downSince != ZERO_TIME
            && now > n.downSince + downMin * 60_000_000_000)
      && (v == Some(true) <==> active && n.alertIfDown && !n.down && n.wasDown)
      && m == n.(wasDown := n.wasDown && (n.down || !n.alertIfDown))
    ensures var (m, v) := EvalLag(n, active, downMin, now);
      && (v == Some(false) <==>
            !active && n.alertIfDown && n.lagging && !n.wasLagging && n.laggingSince != ZERO_TIME
            && now > n.laggingSince + downMin * 60_000_000_000)
      && (v == Some(true) <==> active && n.alertIfDown && !n.lagging && n.wasLagging)
      && m == n.(wasLagging := n.wasLagging && (n.lagging || !n.alertIfDown))
  {
  }

  /** Whether the alarm is active after the evaluator's verdict; a silenced firing is not cached. */
  function ActiveAfter(active: bool, verdict: Option<bool>, silenced: bool): bool {
    match verdict
    case None => active
    case Some(resolved) => !resolved && (active || !silenced)
  }

  // ---------------------------------------------------------------------------
  // Runs for one node
  // ---------------------------------------------------------------------------

  /** One node with its two alarms. */
  datatype Watched = Watched(node: Node, downActive: bool, lagActive: bool)

  datatype Event =
    | Probe(p: Probe, at: Time)
    | Connect(isSyncing: bool, at: Time)
    | Pass(now: Time, silenced: bool)
    | Cleared

  function Step(w: Watched, e: Event, stalledMin: int, downMin: int): Watched {
    match e
    case Probe(p, at) => w.(node := Probed(w.node, p, stalledMin, at))
    case Connect(isSyncing, at) => w.(node := MarkedConnecting(w.node, isSyncing, at))
    case Pass(now, silenced) =>
      var (n1, v1) := EvalDown(w.node, w.downActive, downMin, now);
      var (n2, v2) := EvalLag(n1, w.lagActive, downMin, now);
      Watched(n2, ActiveAfter(w.downActive, v1, silenced), ActiveAfter(w.lagActive, v2, silenced))
    case Cleared => w.(downActive := false, lagActive := false)
  }

  ghost function Run(w: Watched, events: seq<Event>, stalledMin: int, downMin: int): Watched {
    if events == [] then w
    else Step(Run(w, events[..|events| - 1], stalledMin, downMin), events[|events| - 1], stalledMin, downMin)
  }

  /** An active alarm is explained by the node's present state or by one the next pass will
      clear. */
  ghost predicate Explained(w: Watched) {
    && (w.downActive ==> w.node.alertIfDown && (w.node.down || w.node.wasDown))
    && (w.lagActive ==> w.node.alertIfDown && (w.node.lagging || w.node.wasLagging))
  }

  /** And a failing node is not lagging. */
  ghost predicate Coherent(w: Watched) {
    !(w.node.down && w.node.lagging) && Explained(w)
  }

  lemma StepKeepsExplained(w: Watched, e: Event, stalledMin: int, downMin: int)
    requires Explained(w)
    ensures var w' := Step(w, e, stalledMin, downMin);
      && Explained(w')
      && (e.Pass? ==> (w'.downActive ==> w'.node.down) && (w'.lagActive ==> w'.node.lagging))
  {
    hide Behind;
  }

  lemma StepKeepsCoherent(w: Watched, e: Event, stalledMin: int, downMin: int)
    requires Coherent(w) && (e.Connect? ==> !w.node.lagging)
    ensures Coherent(Step(w, e, stalledMin, downMin))
    ensures e.Pass? ==>
      var w' := Step(w, e, stalledMin, downMin);
      (w'.downActive ==> w'.node.down) && (w'.lagActive ==> w'.node.lagging) && !(w'.downActive && w'.lagActive)
  {
  }

  /** No mark made while connecting lands on the node while it is lagging. */
  ghost predicate MarksSpareLagging(w: Watched, events: seq<Event>, stalledMin: int, downMin: int) {
    forall k | 0 <= k < |events| && events[k].Connect? :: !Run(w, events[..k], stalledMin, downMin).node.lagging
  }

  /** From a fresh start, over every run of probes, marks made while connecting, passes
      (silenced or not) and `clearAll`, in which no such mark lands on a lagging node: an
      active down alarm means down or wasDown, and after every pass no node holds both a
      down and a lagging alarm. */
  lemma {:induction false} AlarmsExcludeEachOther(url: string, alertIfDown: bool, events: seq<Event>, stalledMin: int,
                                                  downMin: int)
    requires MarksSpareLagging(Watched(Fresh(url, alertIfDown), false, false), events, stalledMin, downMin)
    ensures var w := Run(Watched(Fresh(url, alertIfDown), false, false), events, stalledMin, downMin);
      && Coherent(w)
      && (events != [] && events[|events| - 1].Pass? ==>
            !(w.downActive && w.lagActive) && (w.downActive ==> w.node.down))
  {
    if events != [] {
      hide Step, Coherent;
      var n := |events| - 1;
      var start := Watched(Fresh(url, alertIfDown), false, false);
      assert forall k | 0 <= k <= n :: events[..n][..k] == events[..k];
      AlarmsExcludeEachOther(url, alertIfDown, events[..n], stalledMin, downMin);
      StepKeepsCoherent(Run(start, events[..n], stalledMin, downMin), events[n], stalledMin, downMin);
    }
  }

  /** A probe that is answered, followed by a pass, leaves no down alarm. */
  lemma AnswerThenPassClears(w: Watched, latestBlock: Time, at: Time, now: Time, silenced: bool, stalledMin: int,
                             downMin: int)
    requires Coherent(w)
    ensures var w1 := Step(w, Probe(Answers(latestBlock), at), stalledMin, downMin);
      !Step(w1, Pass(now, silenced), stalledMin, downMin).downActive
  {
  }

  /** Why such a mark must not land on a lagging node: there, and only there, it breaks what
      every step keeps; and if no probe comes in time, the node ends up with both alarms. */
  lemma ConnectingBreaksExclusion(w: Watched, isSyncing: bool, at: Time, now: Time, stalledMin: int, downMin: int)
    requires Coherent(w)
    ensures var marked := Step(w, Connect(isSyncing, at), stalledMin, downMin);
      && (Coherent(marked) <==> !w.node.lagging)
      && (w.node.lagging && w.lagActive && !w.node.wasDown && at != ZERO_TIME && now - at > downMin * MINUTE ==>
            var w' := Step(marked, Pass(now, false), stalledMin, downMin);
            w'.downActive && w'.lagActive)
  {
  }

  // ---------------------------------------------------------------------------
  // Debounce
  // ---------------------------------------------------------------------------

  /** The index of the last answered probe among the first n events, or -1. */
  ghost function LastAnswer(events: seq<Event>, n: nat): (i: int)
    requires n <= |events|
    ensures -1 <= i < n
    ensures i >= 0 ==> events[i].Probe? && events[i].p.Answers?
    ensures forall k | i < k < n :: !(events[k].Probe? && events[k].p.Answers?)
  {
    if n == 0 then -1
    else if events[n - 1].Probe? && events[n - 1].p.Answers? then n - 1
    else LastAnswer(events, n - 1)
  }

  /** The times of probes and marks do not go backwards. */
  ghost predicate Clocked(events: seq<Event>) {
    forall i, j | 0 <= i < j < |events| && Marks(events[i]) && Marks(events[j]) :: events[i].at <= events[j].at
  }

  ghost predicate Marks(e: Event) {
    e.Probe? || e.Connect?
  }

  lemma LastAnswerOfPrefix(events: seq<Event>, m: nat, n: nat)
    requires n <= m <= |events|
    ensures LastAnswer(events[..m], n) == LastAnswer(events, n)
  {
  }

  lemma ProbeDownSince(n: Node, p: Probe, stalledMin: int, at: Time)
    ensures var n' := Probed(n, p, stalledMin, at);
      && n'.alertIfDown == n.alertIfDown
      && (n.alertIfDown && n'.down ==> (n.down && n'.downSince == n.downSince) || n'.downSince == at)
      && (p.Answers? ==> !n'.down)
  {
    hide Behind;
  }

  /** A step leaves a node down only by keeping its mark or by marking it now. */
  lemma DownSinceStep(w: Watched, e: Event, stalledMin: int, downMin: int)
    ensures var n := Step(w, e, stalledMin, downMin).node;
      && n.alertIfDown == w.node.alertIfDown
      && (n.alertIfDown && n.down
          ==> (w.node.down && n.downSince == w.node.downSince) || (Marks(e) && n.downSince == e.at))
      && (e.Probe? && e.p.Answers? ==> !n.down)
  {
    hide DownLong, LagsLong, Probed, ActiveAfter;
    match e
    case Probe(p, at) => ProbeDownSince(w.node, p, stalledMin, at);
    case Connect(_, at) =>
    case Pass(now, silenced) =>
    case Cleared =>
  }

  /** A node marked down has been down since after the last answered probe. */
  lemma {:induction false} DownSinceLastAnswer(url: string, alertIfDown: bool, events: seq<Event>, stalledMin: int,
                                               downMin: int)
    requires Clocked(events)
    ensures var w := Run(Watched(Fresh(url, alertIfDown), false, false), events, stalledMin, downMin);
      var i := LastAnswer(events, |events|);
      && w.node.alertIfDown == alertIfDown
      && (alertIfDown && w.node.down && i >= 0 ==> w.node.downSince >= events[i].at)
  {
    hide Step, Fresh;
    if events == [] {
      StartsUp(url, alertIfDown);
    } else {
      var n := |events| - 1;
      var rest := events[..n];
      assert forall k | 0 <= k < n :: rest[k] == events[k];
      DownSinceLastAnswer(url, alertIfDown, rest, stalledMin, downMin);
      LastAnswerOfPrefix(events, n, n);
      var w := Run(Watched(Fresh(url, alertIfDown), false, false), rest, stalledMin, downMin);
      DownSinceStep(w, events[n], stalledMin, downMin);
    }
  }

  lemma StartsUp(url: string, alertIfDown: bool)
    ensures Fresh(url, alertIfDown).alertIfDown == alertIfDown && !Fresh(url, alertIfDown).down
  {
  }

  /** A down alarm is raised only if every answered probe is more than the configured
      minutes in the past. */
  lemma DownAlarmIsDebounced(url: string, alertIfDown: bool, events: seq<Event>, stalledMin: int, downMin: int,
                             now: Time)
    requires Clocked(events)
    ensures var w := Run(Watched(Fresh(url, alertIfDown), false, false), events, stalledMin, downMin);
      EvalDown(w.node, w.downActive, downMin, now).1 == Some(false) ==>
        forall i | 0 <= i < |events| && events[i].Probe? && events[i].p.Answers? ::
          now - events[i].at > downMin * MINUTE
  {
    DownSinceLastAnswer(url, alertIfDown, events, stalledMin, downMin);
  }

  /** `clearAll` does not occur from position i on. */
  ghost predicate Uncleared(events: seq<Event>, i: nat) {
    forall k | i <= k < |events| :: !events[k].Cleared?
  }

  /** Event i is an unsilenced pass more than downMin minutes after `since`, with no `clearAll`
      after it. */
  ghost predicate Overdue(events: seq<Event>, i: nat, since: Time, downMin: int) {
    && i < |events| && events[i].Pass? && !events[i].silenced && events[i].now - since > downMin * MINUTE
    && Uncleared(events, i + 1)
  }

  ghost predicate EverOverdue(events: seq<Event>, since: Time, downMin: int) {
    exists i: nat :: Overdue(events, i, since, downMin)
  }

  /** The down alarm of a node that stays down: it was active and has not been cleared, or the
      node alerts, has no recovery left to evaluate, and an unsilenced pass came once the
      minutes since it went down were over. */
  ghost predicate DownDue(w: Watched, events: seq<Event>, downMin: int) {
    || (w.downActive && Uncleared(events, 0))
    || (w.node.alertIfDown && !w.node.wasDown && w.node.downSince != ZERO_TIME
        && EverOverdue(events, w.node.downSince, downMin))
  }

  /** The same of the lagging alarm. */
  ghost predicate LagDue(w: Watched, events: seq<Event>, downMin: int) {
    || (w.lagActive && Uncleared(events, 0))
    || (w.node.alertIfDown && !w.node.wasLagging && w.node.laggingSince != ZERO_TIME
        && EverOverdue(events, w.node.laggingSince, downMin))
  }

  lemma OverdueMore(rest: seq<Event>, e: Event, since: Time, downMin: int)
    ensures Uncleared(rest + [e], 0) <==> Uncleared(rest, 0) && !e.Cleared?
    ensures EverOverdue(rest + [e], since, downMin) <==>
      || (EverOverdue(rest, since, downMin) && !e.Cleared?)
      || (e.Pass? && !e.silenced && e.now - since > downMin * MINUTE)
  {
    var all := rest + [e];
    assert all[|rest|] == e && forall k | 0 <= k < |rest| :: all[k] == rest[k];
    if EverOverdue(all, since, downMin) {
      var i: nat :| Overdue(all, i, since, downMin);
      if i < |rest| {
        assert Overdue(rest, i, since, downMin);
      }
    }
    if EverOverdue(rest, since, downMin) && !e.Cleared? {
      var i: nat :| Overdue(rest, i, since, downMin);
      assert Overdue(all, i, since, downMin);
    }
    if e.Pass? && !e.silenced && e.now - since > downMin * MINUTE {
      assert Overdue(all, |rest|, since, downMin);
    }
  }

  lemma FailingKeepsMark(n: Node, p: Probe, stalledMin: int, at: Time)
    requires n.down && !p.Answers?
    ensures var n' := Probed(n, p, stalledMin, at);
      n'.down && n'.alertIfDown == n.alertIfDown && n'.wasDown == n.wasDown && n'.downSince == n.downSince
  {
  }

  lemma LagLeavesDown(n: Node, active: bool, downMin: int, now: Time)
    ensures var n' := EvalLag(n, active, downMin, now).0;
      n'.down == n.down && n'.alertIfDown == n.alertIfDown && n'.wasDown == n.wasDown && n'.downSince == n.downSince
  {
    hide LagsLong;
  }

  lemma OutageStep(w: Watched, e: Event, stalledMin: int, downMin: int)
    requires w.node.down && (e.Probe? ==> !e.p.Answers?)
    ensures var w' := Step(w, e, stalledMin, downMin);
      && w'.node.down && w'.node.alertIfDown == w.node.alertIfDown
      && w'.node.wasDown == w.node.wasDown && w'.node.downSince == w.node.downSince
      && (w'.downActive <==>
            || (w.downActive && !e.Cleared?)
            || (w.node.alertIfDown && !w.node.wasDown && w.node.downSince != ZERO_TIME
                && e.Pass? && !e.silenced && e.now - w.node.downSince > downMin * MINUTE))
  {
    hide Probed, EvalLag;
    match e
    case Probe(p, at) => FailingKeepsMark(w.node, p, stalledMin, at);
    case Connect(_, _) =>
    case Pass(now, silenced) =>
      LagLeavesDown(EvalDown(w.node, w.downActive, downMin, now).0, w.lagActive, downMin, now);
    case Cleared =>
  }

  /** From any node that is down, while no probe is answered, its alarm is active exactly if
      it is due. */
  lemma {:induction false} OutageIsReported(w: Watched, events: seq<Event>, stalledMin: int, downMin: int)
    requires w.node.down && forall e | e in events && e.Probe? :: !e.p.Answers?
    ensures var w' := Run(w, events, stalledMin, downMin);
      && w'.node.down && w'.node.alertIfDown == w.node.alertIfDown
      && w'.node.wasDown == w.node.wasDown && w'.node.downSince == w.node.downSince
      && (w'.downActive <==> DownDue(w, events, downMin))
  {
    hide Step, EverOverdue, Uncleared;
    if events == [] {
      NothingOverdue(w.node.downSince, downMin);
    } else {
      var rest, e := events[..|events| - 1], events[|events| - 1];
      assert events == rest + [e] && e in events;
      OutageIsReported(w, rest, stalledMin, downMin);
      OverdueMore(rest, e, w.node.downSince, downMin);
      OutageStep(Run(w, rest, stalledMin, downMin), e, stalledMin, downMin);
    }
  }

  lemma NothingOverdue(since: Time, downMin: int)
    ensures Uncleared([], 0) && !EverOverdue([], since, downMin)
  {
  }

  lemma LagStep(w: Watched, e: Event, stalledMin: int, downMin: int)
    requires w.node.lagging && (e.Probe? ==> e.p.Answers? && Behind(e.p.latestBlock, stalledMin, e.at))
    ensures var w' := Step(w, e, stalledMin, downMin);
      && w'.node.lagging && w'.node.alertIfDown == w.node.alertIfDown
      && w'.node.wasLagging == w.node.wasLagging && w'.node.laggingSince == w.node.laggingSince
      && (w'.lagActive <==>
            || (w.lagActive && !e.Cleared?)
            || (w.node.alertIfDown && !w.node.wasLagging && w.node.laggingSince != ZERO_TIME
                && e.Pass? && !e.silenced && e.now - w.node.laggingSince > downMin * MINUTE))
  {
    hide DownLong, Behind;
  }

  /** The same of a node that is lagging, while every probe finds it behind. */
  lemma {:induction false} LagIsReported(w: Watched, events: seq<Event>, stalledMin: int, downMin: int)
    requires w.node.lagging
    requires forall e | e in events && e.Probe? :: e.p.Answers? && Behind(e.p.latestBlock, stalledMin, e.at)
    ensures var w' := Run(w, events, stalledMin, downMin);
      && w'.node.lagging && w'.node.alertIfDown == w.node.alertIfDown
      && w'.node.wasLagging == w.node.wasLagging && w'.node.laggingSince == w.node.laggingSince
      && (w'.lagActive <==> LagDue(w, events, downMin))
  {
    hide Step, EverOverdue, Uncleared, Behind;
    if events == [] {
      NothingOverdue(w.node.laggingSince, downMin);
    } else {
      var rest, e := events[..|events| - 1], events[|events| - 1];
      assert events == rest + [e] && e in events;
      LagIsReported(w, rest, stalledMin, downMin);
      OverdueMore(rest, e, w.node.laggingSince, downMin);
      LagStep(Run(w, rest, stalledMin, downMin), e, stalledMin, downMin);
    }
  }

  /** In particular a fresh failure: from a node that is up, with no recovery left to
      evaluate, failing at `at`. */
  lemma FailureIsReported(w: Watched, p: Probe, at: Time, events: seq<Event>, stalledMin: int, downMin: int)
    requires w.node.alertIfDown && !w.node.down && !w.node.wasDown && !p.Answers? && at != ZERO_TIME
    requires forall e | e in events && e.Probe? :: !e.p.Answers?
    ensures Run(Step(w, Probe(p, at), stalledMin, downMin), events, stalledMin, downMin).downActive <==>
      (w.downActive && Uncleared(events, 0)) || EverOverdue(events, at, downMin)
  {
    hide EverOverdue, Uncleared, Run;
    OutageIsReported(Step(w, Probe(p, at), stalledMin, downMin), events, stalledMin, downMin);
  }

  // ---------------------------------------------------------------------------
  // When a node holds both alarms
  // ---------------------------------------------------------------------------

  /** Event k marks the node while it is lagging, and no probe comes after it. */
  ghost predicate Spoils(w: Watched, events: seq<Event>, k: nat, stalledMin: int, downMin: int) {
    && k < |events| && events[k].Connect? && Run(w, events[..k], stalledMin, downMin).node.lagging
    && forall i | k < i < |events| :: !events[i].Probe?
  }

  ghost predicate Spoiled(w: Watched, events: seq<Event>, stalledMin: int, downMin: int) {
    exists k: nat :: Spoils(w, events, k, stalledMin, downMin)
  }

  lemma SpoiledMore(w: Watched, rest: seq<Event>, e: Event, stalledMin: int, downMin: int)
    ensures Spoiled(w, rest + [e], stalledMin, downMin) <==>
      || (e.Connect? && Run(w, rest, stalledMin, downMin).node.lagging)
      || (Spoiled(w, rest, stalledMin, downMin) && !e.Probe?)
  {
    hide Run;
    var all := rest + [e];
    assert all[|rest|] == e && all[..|rest|] == rest;
    assert forall k | 0 <= k < |rest| :: all[k] == rest[k] && all[..k] == rest[..k];
    if k: nat :| Spoils(w, all, k, stalledMin, downMin) {
      if k < |rest| {
        assert Spoils(w, rest, k, stalledMin, downMin);
      }
    }
    if k: nat :| Spoils(w, rest, k, stalledMin, downMin) {
      if !e.Probe? {
        assert Spoils(w, all, k, stalledMin, downMin);
      }
    }
    if e.Connect? && Run(w, rest, stalledMin, downMin).node.lagging {
      assert Spoils(w, all, |rest|, stalledMin, downMin);
    }
  }

  lemma ProbeSeparates(n: Node, p: Probe, stalledMin: int, at: Time)
    ensures var n' := Probed(n, p, stalledMin, at); !(n'.down && n'.lagging)
  {
    hide Behind;
  }

  lemma PassKeepsStates(n: Node, downActive: bool, lagActive: bool, downMin: int, now: Time)
    ensures var n1 := EvalDown(n, downActive, downMin, now).0;
      var n2 := EvalLag(n1, lagActive, downMin, now).0;
      n2.down == n.down && n2.lagging == n.lagging
  {
    hide DownLong, LagsLong;
  }

  lemma BothStatesStep(w: Watched, e: Event, stalledMin: int, downMin: int)
    ensures var w' := Step(w, e, stalledMin, downMin);
      w'.node.down && w'.node.lagging <==>
        (e.Connect? && w.node.lagging) || (w.node.down && w.node.lagging && !e.Probe?)
  {
    hide Probed, EvalDown, EvalLag, ActiveAfter;
    match e
    case Probe(p, at) => ProbeSeparates(w.node, p, stalledMin, at);
    case Connect(_, _) =>
    case Pass(now, silenced) => PassKeepsStates(w.node, w.downActive, w.lagActive, downMin, now);
    case Cleared =>
  }

  /** From a fresh start, over every run: a node is down and lagging at once exactly if it was
      marked while connecting when it was lagging, and has not been probed since; and every
      active alarm is explained. */
  lemma {:induction false} BothStatesExactly(url: string, alertIfDown: bool, events: seq<Event>, stalledMin: int,
                                             downMin: int)
    ensures var start := Watched(Fresh(url, alertIfDown), false, false);
      var w := Run(start, events, stalledMin, downMin);
      && (w.node.down && w.node.lagging <==> Spoiled(start, events, stalledMin, downMin))
      && Explained(w)
  {
    var start := Watched(Fresh(url, alertIfDown), false, false);
    if events == [] {
    } else {
      hide Step, Spoiled, Explained;
      var rest, e := events[..|events| - 1], events[|events| - 1];
      assert events == rest + [e];
      BothStatesExactly(url, alertIfDown, rest, stalledMin, downMin);
      SpoiledMore(start, rest, e, stalledMin, downMin);
      BothStatesStep(Run(start, rest, stalledMin, downMin), e, stalledMin, downMin);
      StepKeepsExplained(Run(start, rest, stalledMin, downMin), e, stalledMin, downMin);
    }
  }

  /** From a mark on a lagging node, over every run without a probe: both alarms are active
      exactly if each was and was not cleared, or became due at a pass. */
  lemma MarkedWhileLagging(w: Watched, isSyncing: bool, at: Time, events: seq<Event>, stalledMin: int, downMin: int)
    requires w.node.lagging && forall e | e in events :: !e.Probe?
    ensures var marked := Step(w, Connect(isSyncing, at), stalledMin, downMin);
      var w' := Run(marked, events, stalledMin, downMin);
      w'.downActive && w'.lagActive <==> DownDue(marked, events, downMin) && LagDue(marked, events, downMin)
  {
    hide Run, DownDue, LagDue;
    var marked := Step(w, Connect(isSyncing, at), stalledMin, downMin);
    OutageIsReported(marked, events, stalledMin, downMin);
    LagIsReported(marked, events, stalledMin, downMin);
  }

  lemma {:induction false} RunInTwo(w: Watched, events: seq<Event>, n: nat, stalledMin: int, downMin: int)
    requires n <= |events|
    ensures Run(w, events, stalledMin, downMin)
         == Run(Run(w, events[..n], stalledMin, downMin), events[n..], stalledMin, downMin)
  {
    hide Step;
    if n == |events| {
      assert events[..n] == events;
    } else {
      var m := |events| - 1;
      assert events[..m][..n] == events[..n] && events[n..][..m - n] == events[..m][n..];
      RunInTwo(w, events[..m], n, stalledMin, downMin);
    }
  }

  /** Event k spoils the node, and from there both alarms are due. */
  ghost predicate BothDueFrom(w: Watched, events: seq<Event>, k: nat, stalledMin: int, downMin: int) {
    && Spoils(w, events, k, stalledMin, downMin)
    && var marked := Run(w, events[..k + 1], stalledMin, downMin);
    DownDue(marked, events[k + 1..], downMin) && LagDue(marked, events[k + 1..], downMin)
  }

  lemma BothFromSpoil(w: Watched, events: seq<Event>, k: nat, stalledMin: int, downMin: int)
    requires Spoils(w, events, k, stalledMin, downMin)
    ensures var w' := Run(w, events, stalledMin, downMin);
      w'.downActive && w'.lagActive <==> BothDueFrom(w, events, k, stalledMin, downMin)
  {
    hide DownDue, LagDue, Step;
    var before, e := Run(w, events[..k], stalledMin, downMin), events[k];
    assert events[..k + 1][..k] == events[..k];
    assert Run(w, events[..k + 1], stalledMin, downMin) == Step(before, e, stalledMin, downMin);
    hide Run;
    RunInTwo(w, events, k + 1, stalledMin, downMin);
    MarkedWhileLagging(before, e.isSyncing, e.at, events[k + 1..], stalledMin, downMin);
  }

  /** The exact condition: from a fresh start, over every run that ends with a pass, the node
      holds both alarms if and only if it was marked while connecting when it was lagging, has
      not been probed since, and both alarms are due from there. */
  lemma {:induction false} BothAlarmsExactly(url: string, alertIfDown: bool, events: seq<Event>, stalledMin: int,
                                             downMin: int)
    requires events != [] && events[|events| - 1].Pass?
    ensures var start := Watched(Fresh(url, alertIfDown), false, false);
      var w := Run(start, events, stalledMin, downMin);
      w.downActive && w.lagActive <==> exists k: nat :: BothDueFrom(start, events, k, stalledMin, downMin)
  {
    var start, n := Watched(Fresh(url, alertIfDown), false, false), |events| - 1;
    var w := Run(start, events, stalledMin, downMin);
    BothStatesExactly(url, alertIfDown, events, stalledMin, downMin);
    BothStatesExactly(url, alertIfDown, events[..n], stalledMin, downMin);
    hide Step, Explained, Spoils, DownDue, LagDue, Fresh;
    StepKeepsExplained(Run(start, events[..n], stalledMin, downMin), events[n], stalledMin, downMin);
    hide Run;
    if w.downActive && w.lagActive {
      var k: nat :| Spoils(start, events, k, stalledMin, downMin);
      BothFromSpoil(start, events, k, stalledMin, downMin);
    }
    if k: nat :| BothDueFrom(start, events, k, stalledMin, downMin) {
      BothFromSpoil(start, events, k, stalledMin, downMin);
    }
  }

  // ---------------------------------------------------------------------------
  // After a restart
  // ---------------------------------------------------------------------------

  /** A node that was down when the state was saved is restored as down and wasDown. */
  function Restored(url: string, alertIfDown: bool, downSince: Time): Node {
    Fresh(url, alertIfDown).(down := true, wasDown := true, downSince := downSince)
  }

  /** Such a node's alarm is active only if it was carried over and not cleared, however long
      the node stays down: it has a recovery left to evaluate, so no pass raises it. */
  lemma RestoredDownNodeStaysQuiet(url: string, alertIfDown: bool, downSince: Time, carried: bool, events: seq<Event>,
                                   stalledMin: int, downMin: int)
    requires forall e | e in events && e.Probe? :: !e.p.Answers?
    ensures var w := Run(Watched(Restored(url, alertIfDown, downSince), carried, false), events, stalledMin, downMin);
      w.node.down && w.node.wasDown && (w.downActive <==> carried && Uncleared(events, 0))
  {
    hide EverOverdue, Uncleared, Run;
    OutageIsReported(Watched(Restored(url, alertIfDown, downSince), carried, false), events, stalledMin, downMin);
  }

  // ---------------------------------------------------------------------------
  // The evaluators over a chain's nodes
  // ---------------------------------------------------------------------------

  lemma IdsDiffer(val: string, u: string, v: string)
    ensures DownId(val, u) != LagId(val, v)
    ensures u != v ==> DownId(val, u) != DownId(val, v) && LagId(val, u) != LagId(val, v)
  {
    assert DownId(val, u)[7] == 'D' && LagId(val, v)[7] == 'L';
    var d, l := "RPCNodeDown_" + val + "_", "RPCNodeLagging_" + val + "_";
    assert DownId(val, u)[|d|..] == u && DownId(val, v)[|d|..] == v;
    assert LagId(val, u)[|l|..] == u && LagId(val, v)[|l|..] == v;
  }

  ghost function NodeViews(nodes: seq<NodeConfig>): (ns: seq<Node>)
    reads nodes
    ensures |ns| == |nodes| && forall i | 0 <= i < |nodes| :: ns[i] == nodes[i].View()
  {
    seq(|nodes|, i requires 0 <= i < |nodes| reads nodes => nodes[i].View())
  }

  ghost predicate Separate(nodes: seq<NodeConfig>) {
    forall i, j | 0 <= i < j < |nodes| :: nodes[i] != nodes[j]
  }

  /** What the node evaluators of one chain read besides its nodes. */
  datatype Setting = Setting(
    views: ChainViews, defaults: AlertConfig, name: string, val: string, severity: string, downMin: int)

  function Reported(b: Board, verdict: Option<bool>, id: string, g: Setting, now: Time): Board {
    if verdict.None? then b
    else Post(b, g.views, g.defaults, g.name, "RPC node", g.severity, verdict.value, id, now)
  }

  ghost predicate Apart(ns: seq<Node>) {
    forall i, j | 0 <= i < j < |ns| :: ns[i].url != ns[j].url
  }

  function SilencedAt(g: Setting, now: Time): bool
    requires g.name in g.views
  {
    Silenced(g.views[g.name].silencedUntil, now)
  }

  /** One id from board b to board b', by the verdict on it: whether it is active, and one
      message of the kind on the queue unless the chain is silenced. */
  ghost predicate OneFollows(b: Board, b': Board, id: string, verdict: Option<bool>, g: Setting, now: Time)
    requires g.name in g.views
  {
    && (id in Of(b'.all, g.name) <==> ActiveAfter(id in Of(b.all, g.name), verdict, SilencedAt(g, now)))
    && forall r :: Count(b'.queue, id, r) == Count(b.queue, id, r) +
         if !SilencedAt(g, now) && verdict == Some(r) then 1 else 0
  }

  ghost predicate Orderly(b: Board, b': Board, g: Setting, now: Time)
    requires g.name in g.views
  {
    AlertsOnly(b, b', g.views[g.name], g.defaults, g.name, g.severity, now)
  }

  lemma NothingFollows(b: Board, g: Setting, now: Time)
    requires g.name in g.views && Stamped(Of(b.all, g.name))
    ensures Orderly(b, b, g, now) && forall id :: OneFollows(b, b, id, None, g, now)
  {
  }

  lemma OrderlyStamps(b: Board, b': Board, g: Setting, now: Time)
    requires g.name in g.views && Orderly(b, b', g, now)
    ensures Stamped(Of(b'.all, g.name))
  {
  }

  lemma OrderlyMore(b: Board, v: Board, verdict: Option<bool>, id: string, g: Setting, now: Time)
    requires g.name in g.views && now != ZERO_TIME && Orderly(b, v, g, now)
    ensures Orderly(b, Reported(v, verdict, id, g, now), g, now)
  {
    hide Post, AlertsOnly;
    if verdict.Some? {
      AlertsOnlyMore(b, v, g.views, g.defaults, g.name, "RPC node", g.severity, verdict.value, id, now);
    }
  }

  /** A report for one id leaves every other id as it was. */
  lemma OthersFollow(b: Board, v: Board, other: string, earlier: Option<bool>, verdict: Option<bool>, id: string,
                     g: Setting,
                     now: Time)
    requires g.name in g.views && now != ZERO_TIME && Stamped(Of(v.all, g.name)) && other != id
    requires OneFollows(b, v, other, earlier, g, now)
    ensures OneFollows(b, Reported(v, verdict, id, g, now), other, earlier, g, now)
  {
    hide Post, Silenced, Count;
    if verdict.Some? {
      RaiseEffect(v, g.views, g.defaults, g.name, "RPC node", g.severity, verdict.value, id, now);
    }
  }

  lemma SelfFollows(b: Board, v: Board, verdict: Option<bool>, id: string, g: Setting, now: Time)
    requires g.name in g.views && now != ZERO_TIME && Stamped(Of(v.all, g.name))
    requires OneFollows(b, v, id, None, g, now)
    ensures OneFollows(b, Reported(v, verdict, id, g, now), id, verdict, g, now)
    ensures id in Of(v.all, g.name) <==> id in Of(b.all, g.name)
  {
    hide Post, Silenced, Count;
    if verdict.Some? {
      RaiseEffect(v, g.views, g.defaults, g.name, "RPC node", g.severity, verdict.value, id, now);
    }
  }

  /** A chain's nodes and its board after its nodes have been evaluated in turn, each seeing
      the alarms that the ones before it left; nodes with one address share an alarm id. */
  function DownPass(ns: seq<Node>, b: Board, g: Setting, now: Time): (r: (seq<Node>, Board))
    ensures |r.0| == |ns|
  {
    if ns == [] then ([], b)
    else
      var rest, n := DownPass(ns[..|ns| - 1], b, g, now), ns[|ns| - 1];
      var e := EvalDown(n, DownId(g.val, n.url) in Of(rest.1.all, g.name), g.downMin, now);
      (rest.0 + [e.0], Reported(rest.1, e.1, DownId(g.val, n.url), g, now))
  }

  lemma DownPassMore(ns: seq<Node>, k: nat, b: Board, g: Setting, now: Time)
    requires k < |ns|
    ensures var before, after, id := DownPass(ns[..k], b, g, now), DownPass(ns[..k + 1], b, g, now),
          DownId(g.val, ns[k].url);
      var e := EvalDown(ns[k], id in Of(before.1.all, g.name), g.downMin, now);
      after == (before.0 + [e.0], Reported(before.1, e.1, id, g, now))
  {
    hide EvalDown, Reported, DownId, Of;
    assert ns[..k + 1][..k] == ns[..k];
  }

  /** What the pass decides for node i if no other node has its address. */
  function DownVerdict(ns: seq<Node>, i: nat, b: Board, g: Setting, now: Time): (Node, Option<bool>)
    requires i < |ns|
  {
    EvalDown(ns[i], DownId(g.val, ns[i].url) in Of(b.all, g.name), g.downMin, now)
  }

  ghost predicate DownFollows(ns: seq<Node>, i: nat, b: Board, b': Board, n: Node, g: Setting, now: Time)
    requires i < |ns| && g.name in g.views
  {
    var id, e := DownId(g.val, ns[i].url), DownVerdict(ns, i, b, g, now);
    n == e.0 && OneFollows(b, b', id, e.1, g, now)
  }

  /** Whatever the addresses, no alarm of another kind moves, and nothing but reports of this
      chain is queued; if the addresses are all different, every node, its alarm and its
      messages follow the per-node rule, as in the runs above. */
  lemma {:induction false} DownPassPerNode(ns: seq<Node>, b: Board, g: Setting, now: Time)
    requires g.name in g.views && now != ZERO_TIME && Stamped(Of(b.all, g.name))
    ensures var r := DownPass(ns, b, g, now);
      && Orderly(b, r.1, g, now)
      && (forall id | (forall i | 0 <= i < |ns| :: id != DownId(g.val, ns[i].url)) ::
                         OneFollows(b, r.1, id, None, g, now))
      && (Apart(ns) ==> forall i | 0 <= i < |ns| :: DownFollows(ns, i, b, r.1, r.0[i], g, now))
      && (forall i | 0 <= i < |ns| && !ns[i].alertIfDown :: r.0[i] == ns[i])
  {
    hide EvalDown, DownId, Orderly, OneFollows, Reported;
    if ns == [] {
      NothingFollows(b, g, now);
    } else {
      var n := |ns| - 1;
      var rest, v, id := ns[..n], DownPass(ns[..n], b, g, now), DownId(g.val, ns[n].url);
      DownPassPerNode(rest, b, g, now);
      OrderlyStamps(b, v.1, g, now);
      var e := EvalDown(ns[n], id in Of(v.1.all, g.name), g.downMin, now);
      ReportsAreTurns(ns[n], id in Of(v.1.all, g.name), g.downMin, now);
      var b' := Reported(v.1, e.1, id, g, now);
      OrderlyMore(b, v.1, e.1, id, g, now);
      forall i | 0 <= i < n && ns[i].url != ns[n].url ensures DownId(g.val, ns[i].url) != id {
        IdsDiffer(g.val, ns[i].url, ns[n].url);
      }
      forall other | other != id && OneFollows(b, v.1, other, None, g, now)
          ensures OneFollows(b, b', other, None, g, now) {
        OthersFollow(b, v.1, other, None, e.1, id, g, now);
      }
      if Apart(ns) {
        forall i | 0 <= i < n ensures DownFollows(ns, i, b, b', v.0[i], g, now) {
          assert rest[i] == ns[i] && DownFollows(rest, i, b, v.1, v.0[i], g, now);
          OthersFollow(b, v.1, DownId(g.val, ns[i].url), DownVerdict(ns, i, b, g, now).1, e.1, id, g, now);
        }
        SelfFollows(b, v.1, e.1, id, g, now);
      }
    }
  }

  function LagPass(ns: seq<Node>, b: Board, g: Setting, now: Time): (r: (seq<Node>, Board))
    ensures |r.0| == |ns|
  {
    if ns == [] then ([], b)
    else
      var rest, n := LagPass(ns[..|ns| - 1], b, g, now), ns[|ns| - 1];
      var e := EvalLag(n, LagId(g.val, n.url) in Of(rest.1.all, g.name), g.downMin, now);
      (rest.0 + [e.0], Reported(rest.1, e.1, LagId(g.val, n.url), g, now))
  }

  lemma LagPassMore(ns: seq<Node>, k: nat, b: Board, g: Setting, now: Time)
    requires k < |ns|
    ensures var before, after, id := LagPass(ns[..k], b, g, now), LagPass(ns[..k + 1], b, g, now),
          LagId(g.val, ns[k].url);
      var e := EvalLag(ns[k], id in Of(before.1.all, g.name), g.downMin, now);
      after == (before.0 + [e.0], Reported(before.1, e.1, id, g, now))
  {
    hide EvalLag, Reported, LagId, Of;
    assert ns[..k + 1][..k] == ns[..k];
  }

  /** What the pass decides for node i if no other node has its address. */
  function LagVerdict(ns: seq<Node>, i: nat, b: Board, g: Setting, now: Time): (Node, Option<bool>)
    requires i < |ns|
  {
    EvalLag(ns[i], LagId(g.val, ns[i].url) in Of(b.all, g.name), g.downMin, now)
  }

  ghost predicate LagFollows(ns: seq<Node>, i: nat, b: Board, b': Board, n: Node, g: Setting, now: Time)
    requires i < |ns| && g.name in g.views
  {
    var id, e := LagId(g.val, ns[i].url), LagVerdict(ns, i, b, g, now);
    n == e.0 && OneFollows(b, b', id, e.1, g, now)
  }

  /** The same of the lagging alarms. */
  lemma {:induction false} LagPassPerNode(ns: seq<Node>, b: Board, g: Setting, now: Time)
    requires g.name in g.views && now != ZERO_TIME && Stamped(Of(b.all, g.name))
    ensures var r := LagPass(ns, b, g, now);
      && Orderly(b, r.1, g, now)
      && (forall id | (forall i | 0 <= i < |ns| :: id != LagId(g.val, ns[i].url)) ::
                         OneFollows(b, r.1, id, None, g, now))
      && (Apart(ns) ==> forall i | 0 <= i < |ns| :: LagFollows(ns, i, b, r.1, r.0[i], g, now))
      && (forall i | 0 <= i < |ns| && !ns[i].alertIfDown :: r.0[i] == ns[i])
  {
    hide EvalLag, LagId, Orderly, OneFollows, Reported;
    if ns == [] {
      NothingFollows(b, g, now);
    } else {
      var n := |ns| - 1;
      var rest, v, id := ns[..n], LagPass(ns[..n], b, g, now), LagId(g.val, ns[n].url);
      LagPassPerNode(rest, b, g, now);
      OrderlyStamps(b, v.1, g, now);
      var e := EvalLag(ns[n], id in Of(v.1.all, g.name), g.downMin, now);
      ReportsAreTurns(ns[n], id in Of(v.1.all, g.name), g.downMin, now);
      var b' := Reported(v.1, e.1, id, g, now);
      OrderlyMore(b, v.1, e.1, id, g, now);
      forall i | 0 <= i < n && ns[i].url != ns[n].url ensures LagId(g.val, ns[i].url) != id {
        IdsDiffer(g.val, ns[i].url, ns[n].url);
      }
      forall other | other != id && OneFollows(b, v.1, other, None, g, now)
          ensures OneFollows(b, b', other, None, g, now) {
        OthersFollow(b, v.1, other, None, e.1, id, g, now);
      }
      if Apart(ns) {
        forall i | 0 <= i < n ensures LagFollows(ns, i, b, b', v.0[i], g, now) {
          assert rest[i] == ns[i] && LagFollows(rest, i, b, v.1, v.0[i], g, now);
          OthersFollow(b, v.1, LagId(g.val, ns[i].url), LagVerdict(ns, i, b, g, now).1, e.1, id, g, now);
        }
        SelfFollows(b, v.1, e.1, id, g, now);
      }
    }
  }

  class Monitor {
    const td: Config
    const cc: ChainConfig
    const nodes: seq<NodeConfig>
    const nodeDownMin: int
    const severity: string

    constructor (td: Config, cc: ChainConfig, nodes: seq<NodeConfig>, nodeDownMin: int, severity: string)
      ensures this.td == td && this.cc == cc && this.nodes == nodes && this.nodeDownMin == nodeDownMin
            && this.severity == severity
    {
      this.td, this.cc, this.nodes, this.nodeDownMin, this.severity := td, cc, nodes, nodeDownMin, severity;
    }

    ghost predicate Valid()
      reads td`Chains
    {
      cc.name in td.Chains && td.Chains[cc.name] == cc && Separate(nodes)
    }

    ghost function Settings(): Setting
      reads td`Chains, td.Chains.Values, td`DefaultAlertConfig
    {
      Setting(td.Views(), td.DefaultAlertConfig, cc.name, cc.ValAddress, severity, nodeDownMin)
    }

    /** The nodes in order, each with the alarms the ones before it have left. */
    method EvaluateRPCNodeDownAlert(now: Time)
      requires Valid()
      modifies nodes, td`alertChan, td.alarms`AllAlarms
      ensures Settings() == old(Settings())
      ensures (NodeViews(nodes), td.View()) == DownPass(old(NodeViews(nodes)), old(td.View()), Settings(), now)
    {
      hide Post, Config.Views, DownId, EvalDown, Of, DownPass, Reported;
      ghost var ns, b, g := NodeViews(nodes), td.View(), Settings();
      assert ns[..0] == [] && DownPass([], b, g, now) == ([], b) by {
        NoPass(b, g, now);
      }
      for k := 0 to |nodes|
        invariant Settings() == g
        invariant var r := DownPass(ns[..k], b, g, now);
          td.View() == r.1 && forall i | 0 <= i < k :: nodes[i].View() == r.0[i]
        invariant forall i | k <= i < |nodes| :: nodes[i].View() == ns[i]
      {
        DownPassMore(ns, k, b, g, now);
        EvaluateOneDown(k, now, g);
      }
      assert ns[..|nodes|] == ns;
      assert NodeViews(nodes) == DownPass(ns, b, g, now).0;
    }

    method EvaluateOneDown(k: nat, now: Time, ghost g: Setting)
      requires Valid() && k < |nodes| && Settings() == g
      modifies nodes[k], td`alertChan, td.alarms`AllAlarms
      ensures Settings() == g
      ensures var id := DownId(cc.ValAddress, nodes[k].Url);
        var e := EvalDown(old(nodes[k].View()), id in Of(old(td.View()).all, cc.name), nodeDownMin, now);
        nodes[k].View() == e.0 && td.View() == Reported(old(td.View()), e.1, id, g, now)
    {
      hide Post, Config.Views;
      var node := nodes[k];
      var alertID := DownId(cc.ValAddress, node.Url);
      if node.AlertIfDown && node.down && !node.wasDown && node.downSince != ZERO_TIME
          && now - node.downSince > nodeDownMin * MINUTE {
        var known := td.alarms.Exist(cc.name, alertID);
        if !known {
          td.Alert(cc.name, "RPC node", severity, false, alertID, now);
        }
      } else if node.AlertIfDown && !node.down && node.wasDown {
        node.wasDown := false;
        var known := td.alarms.Exist(cc.name, alertID);
        if known {
          td.Alert(cc.name, "RPC node", severity, true, alertID, now);
        }
      }
    }

    method EvaluateRPCNodeLaggingAlert(now: Time)
      requires Valid()
      modifies nodes, td`alertChan, td.alarms`AllAlarms
      ensures Settings() == old(Settings())
      ensures (NodeViews(nodes), td.View()) == LagPass(old(NodeViews(nodes)), old(td.View()), Settings(), now)
    {
      hide Post, Config.Views, LagId, EvalLag, Of, LagPass, Reported;
      ghost var ns, b, g := NodeViews(nodes), td.View(), Settings();
      assert ns[..0] == [] && LagPass([], b, g, now) == ([], b) by {
        NoPass(b, g, now);
      }
      for k := 0 to |nodes|
        invariant Settings() == g
        invariant var r := LagPass(ns[..k], b, g, now);
          td.View() == r.1 && forall i | 0 <= i < k :: nodes[i].View() == r.0[i]
        invariant forall i | k <= i < |nodes| :: nodes[i].View() == ns[i]
      {
        LagPassMore(ns, k, b, g, now);
        EvaluateOneLagging(k, now, g);
      }
      assert ns[..|nodes|] == ns;
      assert NodeViews(nodes) == LagPass(ns, b, g, now).0;
    }

    method EvaluateOneLagging(k: nat, now: Time, ghost g: Setting)
      requires Valid() && k < |nodes| && Settings() == g
      modifies nodes[k], td`alertChan, td.alarms`AllAlarms
      ensures Settings() == g
      ensures var id := LagId(cc.ValAddress, nodes[k].Url);
        var e := EvalLag(old(nodes[k].View()), id in Of(old(td.View()).all, cc.name), nodeDownMin, now);
        nodes[k].View() == e.0 && td.View() == Reported(old(td.View()), e.1, id, g, now)
    {
      hide Post, Config.Views;
      var node := nodes[k];
      var alertID := LagId(cc.ValAddress, node.Url);
      if node.AlertIfDown && node.lagging && !node.wasLagging && node.laggingSince != ZERO_TIME
          && now - node.laggingSince > nodeDownMin * MINUTE {
        var known := td.alarms.Exist(cc.name, alertID);
        if !known {
          td.Alert(cc.name, "RPC node", severity, false, alertID, now);
        }
      } else if node.AlertIfDown && !node.lagging && node.wasLagging {
        node.wasLagging := false;
        var known := td.alarms.Exist(cc.name, alertID);
        if known {
          td.Alert(cc.name, "RPC node", severity, true, alertID, now);
        }
      }
    }
  }

  lemma NoPass(b: Board, g: Setting, now: Time)
    ensures DownPass([], b, g, now) == ([], b) && LagPass([], b, g, now) == ([], b)
  {
  }
}
