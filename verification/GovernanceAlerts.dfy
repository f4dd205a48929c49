/** Reconciling governance alarms with the unvoted proposals: fire for what is missing,
    resolve what is no longer awaited. */
module GovernanceAlerts {
  import opened AlertTypes
  import D = Decimal
  import opened Engine
  import opened GovernanceId
  import opened GovernancePoll
  import opened Wrappers

  /** The ranges the ids and deadlines are printed from. */
  ghost predicate InRange(us: seq<Proposal>) {
    forall u | u in us :: u.id <= D.MAX_UINT64 && D.MIN_INT64 <= u.deadline <= D.MAX_INT64
  }

  /** The resolve loop leaves this alarm alone. */
  ghost predicate Stays(id: string, us: seq<Proposal>) {
    ParseId(id).None? || Has(us, ParseId(id).value.proposal)
  }

  ghost function Printed(val: string, us: seq<Proposal>): set<string> {
    set u | u in us :: AlertId(val, u.id, u.deadline)
  }

  /** The chain's alarm ids after a pass. */
  ghost function KeysAfter(val: string, keys: set<string>, us: seq<Proposal>, silenced: bool): set<string> {
    (set id | id in keys && Stays(id, us)) + if silenced then {} else Printed(val, us)
  }

  /** From board b0 to board b: entries and queue differ by exactly the ids gained (fired)
      and lost (resolved). */
  ghost predicate Moved(b0: Board, b: Board, name: string, silenced: bool) {
    var e0, e := Of(b0.all, name), Of(b.all, name);
    && Stamped(e) && (forall c | c != name :: Of(b.all, c) == Of(b0.all, c))
    && (forall i | i in e0 && i in e :: e[i] == e0[i])
    && (forall i :: Count(b.queue, i, false) == Count(b0.queue, i, false) +
          if !silenced && i in e && i !in e0 then 1 else 0)
    && (forall i :: Count(b.queue, i, true) == Count(b0.queue, i, true) +
          if !silenced && i in e0 && i !in e then 1 else 0)
  }

  lemma FireMoves(b0: Board, b: Board, views: ChainViews, defaults: AlertConfig, name: string, message: string,
                  id: string, now: Time)
    requires name in views && now != ZERO_TIME
    requires var silenced := Silenced(views[name].silencedUntil, now); Moved(b0, b, name, silenced)
    requires id !in Of(b.all, name) && id !in Of(b0.all, name)
    ensures var silenced := Silenced(views[name].silencedUntil, now);
      var b' := Post(b, views, defaults, name, message, "warning", false, id, now);
      && Moved(b0, b', name, silenced)
      && Of(b'.all, name).Keys == Of(b.all, name).Keys + (if silenced then {} else {id})
  {
    hide Post, Count, Silenced;
    RaiseEffect(b, views, defaults, name, message, "warning", false, id, now);
  }

  lemma ResolveMoves(b0: Board, b: Board, views: ChainViews, defaults: AlertConfig, name: string, message: string,
                     id: string, now: Time)
    requires name in views && now != ZERO_TIME
    requires var silenced := Silenced(views[name].silencedUntil, now); Moved(b0, b, name, silenced)
    requires id in Of(b.all, name) && id in Of(b0.all, name)
    ensures var silenced := Silenced(views[name].silencedUntil, now);
      var b' := Post(b, views, defaults, name, message, "warning", true, id, now);
      && Moved(b0, b', name, silenced)
      && Of(b'.all, name).Keys == Of(b.all, name).Keys - {id}
  {
    hide Post, Count, Silenced;
    RaiseEffect(b, views, defaults, name, message, "warning", true, id, now);
  }

  lemma NotMoved(b: Board, name: string, silenced: bool)
    requires Stamped(Of(b.all, name))
    ensures Moved(b, b, name, silenced)
  {
  }

  class Evaluator {
    const td: Config
    const cc: ChainConfig

    constructor (td: Config, cc: ChainConfig)
      ensures this.td == td && this.cc == cc
    {
      this.td, this.cc := td, cc;
    }

    ghost predicate Valid()
      reads td`Chains, td.alarms`AllAlarms
    {
      cc.name in td.Chains && td.Chains[cc.name] == cc && Stamped(Of(td.alarms.AllAlarms, cc.name))
    }

    method FireMissing(unvoted: seq<Proposal>, now: Time, ghost views: ChainViews)
      requires Valid() && now != ZERO_TIME && views == td.Views()
      modifies td`alertChan, td.alarms`AllAlarms
      ensures Valid() && views == td.Views()
      ensures var silenced := Silenced(cc.silencedUntil, now);
        && Moved(old(td.View()), td.View(), cc.name, silenced)
        && Of(td.View().all, cc.name).Keys == Of(old(td.View()).all, cc.name).Keys +
            if silenced then {} else Printed(cc.ValAddress, unvoted)
      ensures cc.name in views
            && AlertsOnly(old(td.View()), td.View(), views[cc.name], td.DefaultAlertConfig, cc.name, "warning", now)
    {
      hide Moved, Post, Config.Views, Printed, Silenced, AlertId, AlertsOnly;
      ghost var b0 := td.View();
      ghost var silenced := Silenced(cc.silencedUntil, now);
      ViewOf(td, cc);
      NotMoved(b0, cc.name, silenced);
      NoAlerts(b0, views[cc.name], td.DefaultAlertConfig, cc.name, "warning", now);
      NonePrinted(cc.ValAddress);
      assert unvoted[..0] == [];
      for i := 0 to |unvoted|
        invariant Valid() && views == td.Views()
        invariant Moved(b0, td.View(), cc.name, silenced)
              && AlertsOnly(b0, td.View(), views[cc.name], td.DefaultAlertConfig, cc.name, "warning", now)
        invariant Of(td.View().all, cc.name).Keys == Of(b0.all, cc.name).Keys +
              if silenced then {} else Printed(cc.ValAddress, unvoted[..i])
      {
        var u := unvoted[i];
        var alertID := AlertId(cc.ValAddress, u.id, u.deadline);
        PrintedMore(cc.ValAddress, unvoted, i);
        var known := td.alarms.Exist(cc.name, alertID);
        if !known {
          var text := "open proposal, not yet voted";
          FireMoves(b0, td.View(), views, td.DefaultAlertConfig, cc.name, text, alertID, now);
          AlertsOnlyMore(b0, td.View(), views, td.DefaultAlertConfig, cc.name, text, "warning", false, alertID, now);
          td.Alert(cc.name, text, "warning", false, alertID, now);
          MovedStamps(b0, td.View(), cc.name, silenced);
        }
      }
      assert unvoted[..|unvoted|] == unvoted;
    }

    /** Collects, under the read lock, the parsable governance alarms nobody awaits any more. */
    method Unawaited(unvoted: seq<Proposal>) returns (toResolve: seq<string>)
      ensures forall i, j | 0 <= i < j < |toResolve| :: toResolve[i] != toResolve[j]
      ensures forall id :: id in toResolve <==> id in Of(td.alarms.AllAlarms, cc.name) && !Stays(id, unvoted)
    {
      toResolve := [];
      var unvotedIds := {};
      for i := 0 to |unvoted|
        invariant forall p :: p in unvotedIds <==> Has(unvoted[..i], p)
      {
        assert unvoted[..i + 1] == unvoted[..i] + [unvoted[i]];
        unvotedIds := unvotedIds + {unvoted[i].id};
      }
      assert unvoted[..|unvoted|] == unvoted;
      var entries := Of(td.alarms.AllAlarms, cc.name);
      var keys := entries.Keys;
      hide ParseId, Has;
      while keys != {}
        invariant keys <= entries.Keys
        invariant forall i, j | 0 <= i < j < |toResolve| :: toResolve[i] != toResolve[j]
        invariant forall id :: id in toResolve <==> id in entries && id !in keys && !Stays(id, unvoted)
        decreases |keys|
      {
        var id :| id in keys;
        keys := keys - {id};
        var parsed := ParseId(id);
        if parsed.Some? && parsed.value.proposal !in unvotedIds {
          toResolve := toResolve + [id];
        }
      }
    }

    method ResolveUnawaited(unvoted: seq<Proposal>, now: Time, ghost b0: Board, ghost views: ChainViews)
      requires Valid() && now != ZERO_TIME && views == td.Views()
      requires Moved(b0, td.View(), cc.name, Silenced(cc.silencedUntil, now))
      requires cc.name in views
            && AlertsOnly(b0, td.View(), views[cc.name], td.DefaultAlertConfig, cc.name, "warning", now)
      requires forall id | id in Of(td.View().all, cc.name) && !Stays(id, unvoted) :: id in Of(b0.all, cc.name)
      modifies td`alertChan, td.alarms`AllAlarms
      ensures Valid() && views == td.Views()
      ensures Moved(b0, td.View(), cc.name, Silenced(cc.silencedUntil, now))
            && AlertsOnly(b0, td.View(), views[cc.name], td.DefaultAlertConfig, cc.name, "warning", now)
      ensures forall id :: id in Of(td.View().all, cc.name)
                <==> id in Of(old(td.View()).all, cc.name) && Stays(id, unvoted)
    {
      hide Moved, Post, Config.Views, Silenced, Stays, AlertsOnly;
      ghost var silenced, all0 := Silenced(cc.silencedUntil, now), Of(td.View().all, cc.name);
      ViewOf(td, cc);
      var toResolve := Unawaited(unvoted);
      for k := 0 to |toResolve|
        invariant Valid() && views == td.Views()
        invariant Moved(b0, td.View(), cc.name, silenced)
              && AlertsOnly(b0, td.View(), views[cc.name], td.DefaultAlertConfig, cc.name, "warning", now)
        invariant forall id :: id in Of(td.View().all, cc.name) <==> id in all0 && id !in toResolve[..k]
      {
        var id := toResolve[k];
        assert id in toResolve && id in all0 && id in Of(b0.all, cc.name);
        assert forall i :: i in toResolve[..k + 1] <==> i in toResolve[..k] || i == id;
        var known := td.alarms.Exist(cc.name, id);
        if known {
          var text := "no longer awaiting a vote";
          ResolveMoves(b0, td.View(), views, td.DefaultAlertConfig, cc.name, text, id, now);
          AlertsOnlyMore(b0, td.View(), views, td.DefaultAlertConfig, cc.name, text, "warning", true, id, now);
          td.Alert(cc.name, text, "warning", true, id, now);
          MovedStamps(b0, td.View(), cc.name, silenced);
        }
      }
    }

    /** One evaluation pass: which ids are active afterwards, and which messages were sent. */
    method Evaluate(unvoted: seq<Proposal>, now: Time)
      requires Valid() && now != ZERO_TIME && InRange(unvoted)
      modifies td`alertChan, td.alarms`AllAlarms
      ensures Valid() && td.Views() == old(td.Views())
      ensures var silenced := Silenced(cc.silencedUntil, now);
        && Of(td.View().all, cc.name).Keys
            == KeysAfter(cc.ValAddress, Of(old(td.View()).all, cc.name).Keys, unvoted, silenced)
        && Moved(old(td.View()), td.View(), cc.name, silenced)
        && AlertsOnly(old(td.View()), td.View(), cc.View(), td.DefaultAlertConfig, cc.name, "warning", now)
    {
      assert td.Views()[cc.name] == cc.View();
      hide Moved, Post, Config.Views, Silenced, Stays, AlertsOnly, Printed, KeysAfter;
      ghost var views, b0 := td.Views(), td.View();
      FireMissing(unvoted, now, views);
      PrintedStay(cc.ValAddress, unvoted);
      ghost var fired := Of(td.View().all, cc.name).Keys;
      ResolveUnawaited(unvoted, now, b0, views);
      KeysSettle(cc.ValAddress, Of(b0.all, cc.name).Keys, fired, Of(td.View().all, cc.name).Keys, unvoted,
                 Silenced(cc.silencedUntil, now));
    }
  }

  lemma KeysSettle(val: string, before: set<string>, fired: set<string>, after: set<string>, us: seq<Proposal>,
                   silenced: bool)
    requires forall id | id in Printed(val, us) :: ParseId(id).Some? && Stays(id, us)
    requires fired == before + if silenced then {} else Printed(val, us)
    requires forall id :: id in after <==> id in fired && Stays(id, us)
    ensures after == KeysAfter(val, before, us, silenced)
  {
    hide Printed, Stays, ParseId;
  }

  /** What is printed for an unvoted proposal parses back to it. */
  lemma PrintedStay(val: string, us: seq<Proposal>)
    requires InRange(us)
    ensures forall id | id in Printed(val, us) :: ParseId(id).Some? && Stays(id, us)
  {
    forall u | u in us ensures ParseId(AlertId(val, u.id, u.deadline)) == Some(Parsed(u.id, Some(u.deadline))) {
      PrintedIdParses(val, u.id, u.deadline);
    }
    hide ParseId, AlertId;
  }

  lemma MovedStamps(b0: Board, b: Board, name: string, silenced: bool)
    requires Moved(b0, b, name, silenced)
    ensures Stamped(Of(b.all, name))
  {
  }

  lemma NonePrinted(val: string)
    ensures Printed(val, []) == {}
  {
  }

  lemma ViewOf(td: Config, cc: ChainConfig)
    requires cc.name in td.Chains && td.Chains[cc.name] == cc
    ensures cc.name in td.Views() && td.Views()[cc.name].silencedUntil == cc.silencedUntil
  {
  }

  lemma PrintedMore(val: string, us: seq<Proposal>, i: nat)
    requires i < |us|
    ensures Printed(val, us[..i + 1]) == Printed(val, us[..i]) + {AlertId(val, us[i].id, us[i].deadline)}
  {
    assert us[..i + 1] == us[..i] + [us[i]];
  }

  // ---------------------------------------------------------------------------

  /** The proposals the parsable governance alarms stand for. */
  ghost predicate StandsFor(keys: set<string>, pid: nat) {
    exists id | id in keys :: ParseId(id).Some? && ParseId(id).value.proposal == pid
  }

  /** After an unsilenced pass, from any mix of current and legacy ids, the active parsable
      governance alarms stand for exactly the unvoted proposals; an alarm that is not a
      parsable governance alarm is active exactly if it was before. */
  lemma PassReconciles(val: string, keys: set<string>, us: seq<Proposal>)
    requires InRange(us)
    ensures var after := KeysAfter(val, keys, us, false);
      && (forall pid :: StandsFor(after, pid) <==> Has(us, pid))
      && (forall id | ParseId(id).None? :: id in after <==> id in keys)
  {
    PrintedStay(val, us);
    var after := KeysAfter(val, keys, us, false);
    forall pid | Has(us, pid) ensures StandsFor(after, pid) {
      var u :| u in us && u.id == pid;
      PrintedIdParses(val, u.id, u.deadline);
      assert AlertId(val, u.id, u.deadline) in after;
    }
    hide ParseId, AlertId;
  }

  /** A silenced pass fires nothing new and still drops what is no longer awaited. */
  lemma SilencedPassOnlyDrops(val: string, keys: set<string>, us: seq<Proposal>)
    ensures var after := KeysAfter(val, keys, us, true);
      && after <= keys && (forall pid | StandsFor(after, pid) :: Has(us, pid))
      && forall id | ParseId(id).None? :: id in after <==> id in keys
  {
    hide ParseId;
  }

  // ---------------------------------------------------------------------------
  // Polls and passes interleaved
  // ---------------------------------------------------------------------------

  datatype Event = Poll(reply: Reply) | Pass

  /** The replies so far, the chain's alarm ids, and for one id how often it was dispatched. */
  datatype Watch = Watch(replies: seq<Reply>, keys: set<string>, fires: nat, resolves: nat)

  ghost function Step(w: Watch, e: Event, val: string, id: string): Watch {
    match e
    case Poll(reply) => w.(replies := w.replies + [reply])
    case Pass =>
      var keys := KeysAfter(val, w.keys, UnvotedAfter(true, w.replies), false);
      Watch(w.replies, keys,
            w.fires + (if id in keys && id !in w.keys then 1 else 0),
            w.resolves + (if id in w.keys && id !in keys then 1 else 0))
  }

  ghost function Run(keys: set<string>, events: seq<Event>, val: string, id: string): Watch {
    if events == [] then Watch([], keys, 0, 0)
    else Step(Run(keys, events[..|events| - 1], val, id), events[|events| - 1], val, id)
  }

  ghost predicate ValidReplies(replies: seq<Reply>) {
    forall r, l | r in replies && r.Decoded? && l in r.listings ::
      l.proposal.id <= D.MAX_UINT64 && D.MIN_INT64 <= l.proposal.deadline <= D.MAX_INT64
  }

  /** The proposal is always listed with the same deadline. */
  ghost predicate FixedDeadline(replies: seq<Reply>, p: Proposal) {
    forall r, l | r in replies && r.Decoded? && l in r.listings && l.proposal.id == p.id :: l.proposal == p
  }

  lemma {:induction false} KeptFrom(listings: seq<Listing>, previous: seq<Proposal>)
    ensures forall u | u in Kept(listings, previous) :: exists l | l in listings :: l.proposal == u
  {
    if listings != [] {
      KeptFrom(listings[..|listings| - 1], previous);
      assert listings == listings[..|listings| - 1] + [listings[|listings| - 1]];
    }
  }

  /** Everything in the unvoted list was listed by some reply. */
  lemma {:induction false} UnvotedWasListed(replies: seq<Reply>, p: Proposal)
    requires ValidReplies(replies) && FixedDeadline(replies, p)
    ensures InRange(UnvotedAfter(true, replies))
    ensures forall u | u in UnvotedAfter(true, replies) && u.id == p.id :: u == p
  {
    if replies != [] {
      var rest, r := replies[..|replies| - 1], replies[|replies| - 1];
      assert replies == rest + [r];
      UnvotedWasListed(rest, p);
      if r.Decoded? {
        KeptFrom(r.listings, UnvotedAfter(true, rest));
        forall u | u in Kept(r.listings, UnvotedAfter(true, rest))
          ensures u.id <= D.MAX_UINT64 && D.MIN_INT64 <= u.deadline <= D.MAX_INT64 && (u.id == p.id ==> u == p)
        {
          var l :| l in r.listings && l.proposal == u;
        }
      }
    }
  }

  /** After a pass the proposal's alarm is active exactly if the proposal is unvoted. */
  lemma PassFollowsMembership(val: string, keys: set<string>, us: seq<Proposal>, p: Proposal)
    requires InRange(us) && p.id <= D.MAX_UINT64 && D.MIN_INT64 <= p.deadline <= D.MAX_INT64
    requires forall u | u in us && u.id == p.id :: u == p
    ensures AlertId(val, p.id, p.deadline) in KeysAfter(val, keys, us, false) <==> Has(us, p.id)
  {
    PrintedIdParses(val, p.id, p.deadline);
    PrintedStay(val, us);
    if Has(us, p.id) {
      assert p in us;
      assert AlertId(val, p.id, p.deadline) in Printed(val, us);
    }
    hide ParseId, AlertId;
  }

  /** The proposal was unvoted after some poll and not after a later one. */
  ghost predicate Over(addressOk: bool, replies: seq<Reply>, pid: nat) {
    exists i, j :: 0 <= i < j <= |replies| && Member(addressOk, replies[..i], pid)
        && !Member(addressOk, replies[..j], pid)
  }

  /** Where the proposal's alarm stands: never fired, firing, or fired and resolved. */
  ghost predicate Phase(w: Watch, p: Proposal, id: string) {
    || (id !in w.keys && w.fires == 0 && w.resolves == 0)
    || (id in w.keys && w.fires == 1 && w.resolves == 0
        && exists i :: 0 <= i <= |w.replies| && Member(true, w.replies[..i], p.id))
    || (id !in w.keys && w.fires == 1 && w.resolves == 1 && Over(true, w.replies, p.id))
  }

  lemma PollKeepsPhase(w: Watch, r: Reply, p: Proposal, id: string)
    requires Phase(w, p, id)
    ensures Phase(w.(replies := w.replies + [r]), p, id)
  {
    var all := w.replies + [r];
    assert forall m | 0 <= m <= |w.replies| :: all[..m] == w.replies[..m];
  }

  lemma MemberIsHas(replies: seq<Reply>, pid: nat)
    ensures Member(true, replies, pid) == Has(UnvotedAfter(true, replies), pid)
  {
  }

  lemma OverIsDone(replies: seq<Reply>, pid: nat)
    requires Over(true, replies, pid)
    ensures Member(true, replies, pid) ==> Flaps(true, replies, pid)
  {
    hide Member;
    assert replies[..|replies|] == replies;
    var i, j :| 0 <= i < j <= |replies| && Member(true, replies[..i], pid) && !Member(true, replies[..j], pid);
    if Member(true, replies, pid) {
      assert i < j < |replies|;
    }
  }

  /** What was unvoted at some poll and is not any more is over. */
  lemma GoneIsOver(replies: seq<Reply>, pid: nat, i: nat)
    requires i <= |replies| && Member(true, replies[..i], pid) && !Member(true, replies, pid)
    ensures Over(true, replies, pid)
  {
    hide Member;
    assert replies[..|replies|] == replies;
    assert i < |replies|;
  }

  lemma PassKeepsPhase(w: Watch, val: string, p: Proposal)
    requires p.id <= D.MAX_UINT64 && D.MIN_INT64 <= p.deadline <= D.MAX_INT64
    requires ValidReplies(w.replies) && FixedDeadline(w.replies, p) && !Flaps(true, w.replies, p.id)
    requires var id := AlertId(val, p.id, p.deadline); Phase(w, p, id)
    ensures var id := AlertId(val, p.id, p.deadline); Phase(Step(w, Pass, val, id), p, id)
  {
    var id, us := AlertId(val, p.id, p.deadline), UnvotedAfter(true, w.replies);
    UnvotedWasListed(w.replies, p);
    PassFollowsMembership(val, w.keys, us, p);
    assert w.replies[..|w.replies|] == w.replies;
    hide AlertId, KeysAfter, Member, Flaps, Over;
    if Over(true, w.replies, p.id) {
      OverIsDone(w.replies, p.id);
    }
    MemberIsHas(w.replies, p.id);
    if !Has(us, p.id) && id in w.keys {
      var i :| 0 <= i <= |w.replies| && Member(true, w.replies[..i], p.id);
      GoneIsOver(w.replies, p.id, i);
    }
  }

  /** The conditions of a whole run. */
  ghost predicate Regular(replies: seq<Reply>, p: Proposal) {
    ValidReplies(replies) && FixedDeadline(replies, p) && WellBehaved(replies, p.id)
  }

  /** Under any interleaving of polls and unsilenced passes, with any single vote checks
      failing, one proposal that is not blanked out dispatches at most one firing and at most
      one resolution. */
  lemma {:induction false} OneFiringOneResolution(keys: set<string>, events: seq<Event>, val: string, p: Proposal)
    requires p.id <= D.MAX_UINT64 && D.MIN_INT64 <= p.deadline <= D.MAX_INT64
    requires AlertId(val, p.id, p.deadline) !in keys
    requires var replies := Run(keys, events, val, AlertId(val, p.id, p.deadline)).replies;
      Regular(replies, p) && !BlankedOut(true, replies, p.id)
    ensures var w := Run(keys, events, val, AlertId(val, p.id, p.deadline));
      Phase(w, p, AlertId(val, p.id, p.deadline)) && w.resolves <= w.fires <= 1
  {
    var id := AlertId(val, p.id, p.deadline);
    hide AlertId, BlankedOut;
    if events != [] {
      var rest, e := events[..|events| - 1], events[|events| - 1];
      var w, w' := Run(keys, rest, val, id), Run(keys, events, val, id);
      assert w.replies == w'.replies[..|w.replies|];
      PrefixBehaves(true, w'.replies, |w.replies|, p.id);
      assert forall r | r in w.replies :: r in w'.replies;
      OneFiringOneResolution(keys, rest, val, p);
      match e
      case Poll(r) => PollKeepsPhase(w, r, p, id);
      case Pass =>
        FlapsOnlyIfBlankedOut(true, w.replies, p.id);
        PassKeepsPhase(w, val, p);
    }
  }

  /** Each poll followed by a pass. */
  ghost function EachPassed(replies: seq<Reply>): seq<Event> {
    if replies == [] then [] else EachPassed(replies[..|replies| - 1]) + [Poll(replies[|replies| - 1]), Pass]
  }

  /** How often the proposal has come onto the unvoted list. */
  ghost function Rises(replies: seq<Reply>, pid: nat): nat {
    if replies == [] then 0
    else
      var rest := replies[..|replies| - 1];
      Rises(rest, pid) + if !Member(true, rest, pid) && Member(true, replies, pid) then 1 else 0
  }

  ghost predicate Appeared(replies: seq<Reply>, pid: nat) {
    exists i :: 0 <= i <= |replies| && Member(true, replies[..i], pid)
  }

  lemma AppearedMore(rest: seq<Reply>, r: Reply, pid: nat)
    requires Appeared(rest + [r], pid)
    ensures Appeared(rest, pid) || (!Member(true, rest, pid) && Member(true, rest + [r], pid))
  {
    hide Member;
    var all := rest + [r];
    var i :| 0 <= i <= |all| && Member(true, all[..i], pid);
    assert all[..|all|] == all && rest[..|rest|] == rest;
    if i <= |rest| {
      assert all[..i] == rest[..i];
    }
  }

  lemma FlapsMore(rest: seq<Reply>, r: Reply, pid: nat)
    requires Flaps(true, rest + [r], pid)
    ensures Flaps(true, rest, pid) || (Appeared(rest, pid) && !Member(true, rest, pid) && Member(true, rest + [r], pid))
  {
    hide Member;
    var all := rest + [r];
    var i, j, k :| 0 <= i < j < k <= |all|
                   && Member(true, all[..i], pid) && !Member(true, all[..j], pid) && Member(true, all[..k], pid);
    assert all[..i] == rest[..i] && all[..j] == rest[..j];
    assert all[..|all|] == all && rest[..|rest|] == rest;
    if k <= |rest| {
      assert all[..k] == rest[..k];
    } else if Member(true, rest, pid) {
      assert i < j < |rest|;
    }
  }

  lemma {:induction false} FlapsRiseTwice(replies: seq<Reply>, pid: nat)
    ensures Appeared(replies, pid) ==> Rises(replies, pid) >= 1
    ensures Flaps(true, replies, pid) ==> Rises(replies, pid) >= 2
  {
    hide Member, Flaps;
    if replies == [] {
      NothingUnvoted(pid);
      NoFlaps(pid);
    } else {
      hide Appeared;
      var rest, r := replies[..|replies| - 1], replies[|replies| - 1];
      assert replies == rest + [r];
      FlapsRiseTwice(rest, pid);
      if Appeared(replies, pid) {
        AppearedMore(rest, r, pid);
      }
      if Flaps(true, replies, pid) {
        FlapsMore(rest, r, pid);
      }
    }
  }

  lemma NoFlaps(pid: nat)
    ensures !Flaps(true, [], pid)
  {
  }

  lemma NothingUnvoted(pid: nat)
    ensures !Member(true, [], pid)
  {
  }

  lemma RunTwoMore(keys: set<string>, events: seq<Event>, r: Reply, val: string, id: string)
    ensures Run(keys, events + [Poll(r), Pass], val, id)
          == Step(Step(Run(keys, events, val, id), Poll(r), val, id), Pass, val, id)
  {
    hide Step;
    var all := events + [Poll(r), Pass];
    assert all[..|all| - 1] == events + [Poll(r)] && (events + [Poll(r)])[..|events|] == events;
  }

  /** With a pass after every poll, a firing is dispatched each time the proposal comes onto
      the list. */
  lemma {:induction false} EveryRiseFires(keys: set<string>, replies: seq<Reply>, val: string, p: Proposal)
    requires p.id <= D.MAX_UINT64 && D.MIN_INT64 <= p.deadline <= D.MAX_INT64
    requires AlertId(val, p.id, p.deadline) !in keys
    requires ValidReplies(replies) && FixedDeadline(replies, p)
    ensures var id := AlertId(val, p.id, p.deadline);
      var w := Run(keys, EachPassed(replies), val, id);
      w.replies == replies && (id in w.keys <==> Member(true, replies, p.id)) && w.fires == Rises(replies, p.id)
  {
    var id := AlertId(val, p.id, p.deadline);
    hide AlertId, KeysAfter, Member;
    if replies == [] {
      NothingUnvoted(p.id);
    } else {
      var rest, r := replies[..|replies| - 1], replies[|replies| - 1];
      assert replies == rest + [r];
      EveryRiseFires(keys, rest, val, p);
      RunTwoMore(keys, EachPassed(rest), r, val, id);
      UnvotedWasListed(replies, p);
      PassFollowsMembership(val, Run(keys, EachPassed(rest), val, id).keys, UnvotedAfter(true, replies), p);
      MemberIsHas(replies, p.id);
    }
  }

  /** The exact condition: with a pass after every poll, at most one firing is dispatched if
      and only if the proposal is not blanked out. */
  lemma {:induction false} FiresOnceUnlessBlankedOut(keys: set<string>, replies: seq<Reply>, val: string, p: Proposal)
    requires p.id <= D.MAX_UINT64 && D.MIN_INT64 <= p.deadline <= D.MAX_INT64
    requires AlertId(val, p.id, p.deadline) !in keys && Regular(replies, p)
    ensures Run(keys, EachPassed(replies), val, AlertId(val, p.id, p.deadline)).fires <= 1
          <==> !BlankedOut(true, replies, p.id)
  {
    hide AlertId, BlankedOut, Rises, Run;
    EveryRiseFires(keys, replies, val, p);
    FlapsRiseTwice(replies, p.id);
    FlapsOnlyIfBlankedOut(true, replies, p.id);
    if !BlankedOut(true, replies, p.id) {
      OneFiringOneResolution(keys, EachPassed(replies), val, p);
    }
  }

  // ---------------------------------------------------------------------------
  // Any interleaving
  // ---------------------------------------------------------------------------

  ghost function RepliesOf(events: seq<Event>): seq<Reply> {
    if events == [] then []
    else
      var rest := RepliesOf(events[..|events| - 1]);
      match events[|events| - 1]
      case Poll(reply) => rest + [reply]
      case Pass => rest
  }

  /** Event i is a pass that finds the proposal unvoted, or not. */
  ghost predicate Finds(events: seq<Event>, i: nat, pid: nat, unvoted: bool) {
    i < |events| && events[i].Pass? && Member(true, RepliesOf(events[..i]), pid) == unvoted
  }

  /** The last pass, or -1. */
  ghost function LastPass(events: seq<Event>): (i: int)
    ensures -1 <= i < |events|
    ensures i >= 0 ==> events[i].Pass?
    ensures forall k | i < k < |events| :: !events[k].Pass?
  {
    if events == [] then -1
    else if events[|events| - 1].Pass? then |events| - 1
    else LastPass(events[..|events| - 1])
  }

  /** The last pass found the proposal unvoted. */
  ghost predicate Seen(events: seq<Event>, pid: nat) {
    LastPass(events) >= 0 && Finds(events, LastPass(events), pid, true)
  }

  /** How often a pass found the proposal unvoted when the pass before it, if any, had not, or
      the other way round. */
  ghost function Turns(events: seq<Event>, pid: nat, unvoted: bool): nat {
    if events == [] then 0
    else
      var n := |events| - 1;
      Turns(events[..n], pid, unvoted)
      + if Finds(events, n, pid, unvoted) && Seen(events[..n], pid) != unvoted then 1 else 0
  }

  lemma FindsMore(rest: seq<Event>, e: Event, i: nat, pid: nat, unvoted: bool)
    requires i <= |rest|
    ensures Finds(rest + [e], i, pid, unvoted) <==>
      if i < |rest| then Finds(rest, i, pid, unvoted)
      else e.Pass? && Member(true, RepliesOf(rest), pid) == unvoted
  {
    hide Member, RepliesOf;
    assert (rest + [e])[..i] == rest[..i] && rest[..|rest|] == rest;
  }

  lemma SeenMore(rest: seq<Event>, e: Event, pid: nat)
    ensures Seen(rest + [e], pid) <==> if e.Pass? then Member(true, RepliesOf(rest), pid) else Seen(rest, pid)
  {
    hide Finds;
    var all := rest + [e];
    assert all[..|rest|] == rest;
    FindsMore(rest, e, |rest|, pid, true);
    if !e.Pass? && LastPass(rest) >= 0 {
      FindsMore(rest, e, LastPass(rest), pid, true);
    }
  }

  lemma RepliesMore(rest: seq<Event>, e: Event)
    ensures RepliesOf(rest + [e]) == if e.Poll? then RepliesOf(rest) + [e.reply] else RepliesOf(rest)
  {
    assert (rest + [e])[..|rest|] == rest;
  }

  lemma TurnsMore(rest: seq<Event>, e: Event, pid: nat, unvoted: bool)
    ensures Turns(rest + [e], pid, unvoted) == Turns(rest, pid, unvoted) +
      if e.Pass? && Member(true, RepliesOf(rest), pid) == unvoted && Seen(rest, pid) != unvoted then 1 else 0
  {
    hide Finds, Seen;
    assert (rest + [e])[..|rest|] == rest;
    FindsMore(rest, e, |rest|, pid, unvoted);
  }

  /** Under any interleaving of polls and unsilenced passes, the firings dispatched are the
      turns from voted to unvoted between passes, and the resolutions the turns back. */
  lemma {:induction false} EveryTurnIsDispatched(keys: set<string>, events: seq<Event>, val: string, p: Proposal)
    requires p.id <= D.MAX_UINT64 && D.MIN_INT64 <= p.deadline <= D.MAX_INT64
    requires AlertId(val, p.id, p.deadline) !in keys
    requires ValidReplies(RepliesOf(events)) && FixedDeadline(RepliesOf(events), p)
    ensures var id := AlertId(val, p.id, p.deadline);
      var w := Run(keys, events, val, id);
      && w.replies == RepliesOf(events) && (id in w.keys <==> Seen(events, p.id))
      && w.fires == Turns(events, p.id, true) && w.resolves == Turns(events, p.id, false)
  {
    var id := AlertId(val, p.id, p.deadline);
    hide AlertId, KeysAfter, Member, Seen, Turns, RepliesOf;
    if events == [] {
      NothingTurns(p.id);
    } else {
      var rest, e := events[..|events| - 1], events[|events| - 1];
      assert events == rest + [e];
      RepliesMore(rest, e);
      SeenMore(rest, e, p.id);
      TurnsMore(rest, e, p.id, true);
      TurnsMore(rest, e, p.id, false);
      assert forall r | r in RepliesOf(rest) :: r in RepliesOf(events);
      EveryTurnIsDispatched(keys, rest, val, p);
      if e.Pass? {
        UnvotedWasListed(RepliesOf(rest), p);
        PassFollowsMembership(val, Run(keys, rest, val, id).keys, UnvotedAfter(true, RepliesOf(rest)), p);
        MemberIsHas(RepliesOf(rest), p.id);
      }
    }
  }

  lemma NothingTurns(pid: nat)
    ensures RepliesOf([]) == [] && !Seen([], pid) && Turns([], pid, true) == 0 && Turns([], pid, false) == 0
  {
  }

  /** A pass finds the proposal unvoted, a later one does not, and a still later one does. */
  ghost predicate PassesFlap(events: seq<Event>, pid: nat) {
    exists i: nat, j: nat, k: nat ::
      i < j < k && Finds(events, i, pid, true) && Finds(events, j, pid, false) && Finds(events, k, pid, true)
  }

  ghost predicate FoundAndLost(events: seq<Event>, pid: nat) {
    exists i: nat, j: nat :: i < j && Finds(events, i, pid, true) && Finds(events, j, pid, false)
  }

  ghost predicate Found(events: seq<Event>, pid: nat) {
    exists i: nat :: Finds(events, i, pid, true)
  }

  /** Passes up to the one before find the same; the last event finds what it finds. */
  lemma FindsAll(rest: seq<Event>, e: Event, pid: nat, unvoted: bool)
    ensures forall i: nat :: Finds(rest + [e], i, pid, unvoted) <==>
      || Finds(rest, i, pid, unvoted)
      || (i == |rest| && e.Pass? && Member(true, RepliesOf(rest), pid) == unvoted)
  {
    Bounded(rest + [e], pid);
    Bounded(rest, pid);
    hide Finds, Member, RepliesOf;
    forall i: nat
      ensures Finds(rest + [e], i, pid, unvoted) <==>
        || Finds(rest, i, pid, unvoted)
        || (i == |rest| && e.Pass? && Member(true, RepliesOf(rest), pid) == unvoted)
    {
      if i <= |rest| {
        FindsMore(rest, e, i, pid, unvoted);
      }
    }
  }

  lemma FoundMore(rest: seq<Event>, e: Event, pid: nat)
    ensures Found(rest + [e], pid) <==> Found(rest, pid) || (e.Pass? && Member(true, RepliesOf(rest), pid))
  {
    FindsAll(rest, e, pid, true);
    hide Finds, Member, RepliesOf;
    if e.Pass? && Member(true, RepliesOf(rest), pid) {
      assert Finds(rest + [e], |rest|, pid, true);
    }
  }

  lemma FlapMore(rest: seq<Event>, e: Event, pid: nat)
    ensures PassesFlap(rest + [e], pid) <==>
      PassesFlap(rest, pid) || (e.Pass? && Member(true, RepliesOf(rest), pid) && FoundAndLost(rest, pid))
  {
    var all := rest + [e];
    FindsAll(rest, e, pid, true);
    FindsAll(rest, e, pid, false);
    Bounded(all, pid);
    hide Finds, Member, RepliesOf;
    if PassesFlap(rest, pid) {
      var i: nat, j: nat, k: nat :| i < j < k && Finds(rest, i, pid, true) && Finds(rest, j, pid, false)
          && Finds(rest, k, pid, true);
      assert Finds(all, i, pid, true) && Finds(all, j, pid, false) && Finds(all, k, pid, true);
    }
    if e.Pass? && Member(true, RepliesOf(rest), pid) && FoundAndLost(rest, pid) {
      var i: nat, j: nat :| i < j && Finds(rest, i, pid, true) && Finds(rest, j, pid, false);
      Bounded(rest, pid);
      assert Finds(all, i, pid, true) && Finds(all, j, pid, false) && Finds(all, |rest|, pid, true);
    }
    if PassesFlap(all, pid) {
      var i: nat, j: nat, k: nat :| i < j < k && Finds(all, i, pid, true) && Finds(all, j, pid, false)
          && Finds(all, k, pid, true);
      assert Finds(rest, i, pid, true) && Finds(rest, j, pid, false);
    }
  }

  lemma Bounded(events: seq<Event>, pid: nat)
    ensures forall i: nat, u | Finds(events, i, pid, u) :: i < |events|
  {
  }

  /** The last pass settles what was found before it. */
  lemma SeenDecides(events: seq<Event>, pid: nat)
    ensures Found(events, pid) && !Seen(events, pid) ==> FoundAndLost(events, pid)
    ensures FoundAndLost(events, pid) ==> Found(events, pid)
    ensures FoundAndLost(events, pid) && Seen(events, pid) ==> PassesFlap(events, pid)
  {
    var n := LastPass(events);
    hide Member, RepliesOf;
    if i: nat :| Finds(events, i, pid, true) {
      assert i <= n;
      assert Finds(events, n, pid, Seen(events, pid));
    }
    if i: nat, j: nat :| i < j && Finds(events, i, pid, true) && Finds(events, j, pid, false) {
      assert j <= n;
    }
  }

  lemma {:induction false} TwoTurnsFlap(events: seq<Event>, pid: nat)
    ensures Turns(events, pid, true) >= 1 <==> Found(events, pid)
    ensures Turns(events, pid, true) >= 2 <==> PassesFlap(events, pid)
  {
    hide Finds, Seen, Turns, Member, RepliesOf, Found, FoundAndLost, PassesFlap;
    if events == [] {
      NothingTurns(pid);
      NothingFound(pid);
    } else {
      var rest, e := events[..|events| - 1], events[|events| - 1];
      assert events == rest + [e];
      TwoTurnsFlap(rest, pid);
      TurnsMore(rest, e, pid, true);
      FoundMore(rest, e, pid);
      FlapMore(rest, e, pid);
      SeenDecides(rest, pid);
      SeenIsFound(rest, pid);
    }
  }

  lemma SeenIsFound(events: seq<Event>, pid: nat)
    ensures Seen(events, pid) ==> Found(events, pid)
  {
    hide Finds;
  }

  lemma NothingFound(pid: nat)
    ensures !Found([], pid) && !PassesFlap([], pid)
  {
  }

  /** The exact condition for any interleaving: more than one firing is dispatched for the
      proposal if and only if three passes find it unvoted, not unvoted, and unvoted again. */
  lemma {:induction false} FiresTwiceExactly(keys: set<string>, events: seq<Event>, val: string, p: Proposal)
    requires p.id <= D.MAX_UINT64 && D.MIN_INT64 <= p.deadline <= D.MAX_INT64
    requires AlertId(val, p.id, p.deadline) !in keys
    requires ValidReplies(RepliesOf(events)) && FixedDeadline(RepliesOf(events), p)
    ensures Run(keys, events, val, AlertId(val, p.id, p.deadline)).fires >= 2 <==> PassesFlap(events, p.id)
  {
    hide AlertId, PassesFlap, Turns, Run, Seen;
    EveryTurnIsDispatched(keys, events, val, p);
    TwoTurnsFlap(events, p.id);
  }
}
