/** Any number of escalation sweeps interleaved, at their lock boundaries, with alarms
    being written, resolved and cleared. */
module Interleaving {
  import opened AlertTypes
  import opened Engine
  import opened Escalation

  /** Where a sweep stands: about to look up its first candidate, about to re-lock for it
      with the message built, or about to put the message on the channel. */
  datatype Sweep =
    | Looking(rest: seq<Candidate>)
    | Relocking(cand: Candidate, msg: AlertMsg, rest: seq<Candidate>)
    | Sending(cand: Candidate, msg: AlertMsg, rest: seq<Candidate>)

  /** What happened, in order. */
  datatype Fact =
    | Wrote(chain: string, id: string)
    | Scanned(sweep: nat, at: Time, view: AllAlarms)
    | Marked(sweep: nat, chain: string, id: string, entry: Entry)
    | Emitted(sweep: nat, chain: string, id: string, msg: AlertMsg)

  datatype World = World(all: AllAlarms, sweeps: map<nat, Sweep>, log: seq<Fact>)

  datatype Step =
    | Fire(chain: string, id: string, entry: Entry)
    | Clear(chain: string, id: string)
    | ClearAll(chain: string)
    | Scan(sweep: nat, at: Time, due: seq<Candidate>)
    | Skip(sweep: nat)
    | Lookup(sweep: nat, chains: ChainViews, defaults: AlertConfig, at: Time)
    | Relock(sweep: nat)
    | Send(sweep: nat)

  ghost predicate Enabled(w: World, s: Step, threshold: int) {
    match s
    case Fire(_, _, entry) => !entry.escalated
    case Clear(_, _) => true
    case ClearAll(_) => true
    case Scan(k, at, due) => k !in w.sweeps && Lists(due, w.all, threshold, at)
    case Skip(k) => k in w.sweeps && w.sweeps[k].Looking? && w.sweeps[k].rest != []
    case Lookup(k, chains, defaults, at) =>
      && k in w.sweeps && w.sweeps[k].Looking? && w.sweeps[k].rest != []
      && Passes(w.sweeps[k].rest[0], chains, at)
    case Relock(k) => k in w.sweeps && w.sweeps[k].Relocking?
    case Send(k) => k in w.sweeps && w.sweeps[k].Sending?
  }

  ghost function Do(w: World, s: Step, threshold: int): World
    requires Enabled(w, s, threshold)
  {
    match s
    case Fire(chain, id, entry) =>
      w.(all := w.all[chain := Of(w.all, chain)[id := entry]], log := w.log + [Wrote(chain, id)])
    case Clear(chain, id) => w.(all := w.all[chain := Of(w.all, chain) - {id}])
    case ClearAll(chain) => w.(all := w.all[chain := map[]])
    case Scan(k, at, due) => w.(sweeps := w.sweeps[k := Looking(due)], log := w.log + [Scanned(k, at, w.all)])
    case Skip(k) => w.(sweeps := w.sweeps[k := Looking(w.sweeps[k].rest[1..])])
    case Lookup(k, chains, defaults, at) =>
      var c := w.sweeps[k].rest[0];
      w.(sweeps := w.sweeps[k := Relocking(c, EscalationMsg(chains, defaults, c).value, w.sweeps[k].rest[1..])])
    case Relock(k) =>
      var t := w.sweeps[k];
      var m := Mark(w.all, t.cand.chain, t.cand.alertID);
      if m.None? then w.(sweeps := w.sweeps[k := Looking(t.rest)])
      else World(m.value, w.sweeps[k := Sending(t.cand, t.msg, t.rest)],
                 w.log + [Marked(k, t.cand.chain, t.cand.alertID, w.all[t.cand.chain][t.cand.alertID])])
    case Send(k) =>
      var t := w.sweeps[k];
      w.(sweeps := w.sweeps[k := Looking(t.rest)], log := w.log + [Emitted(k, t.cand.chain, t.cand.alertID, t.msg)])
  }

  /** A run of the system; a step that cannot be taken when its turn comes is passed over. */
  ghost function Run(w: World, steps: seq<Step>, threshold: int): World {
    if steps == [] then w
    else
      var v, s := Run(w, steps[..|steps| - 1], threshold), steps[|steps| - 1];
      if Enabled(v, s, threshold) then Do(v, s, threshold) else v
  }

  // ---------------------------------------------------------------------------
  // At most once
  // ---------------------------------------------------------------------------

  ghost predicate IsMark(f: Fact, chain: string, id: string) {
    f.Marked? && f.chain == chain && f.id == id
  }

  /** A write of the key at or after position i. */
  ghost predicate WrittenSince(log: seq<Fact>, i: nat, chain: string, id: string) {
    exists m :: i <= m < |log| && log[m] == Wrote(chain, id)
  }

  /** Between two marks of a key lies a firing write of it. */
  ghost predicate OncePerWrite(log: seq<Fact>, chain: string, id: string) {
    forall i, j | 0 <= i < j < |log| && IsMark(log[i], chain, id) && IsMark(log[j], chain, id) ::
      WrittenSince(log[..j], i, chain, id)
  }

  /** A key marked since its last write is gone or still marked. */
  ghost predicate MarksHold(w: World, chain: string, id: string) {
    forall i | 0 <= i < |w.log| && IsMark(w.log[i], chain, id) ::
      || WrittenSince(w.log, i, chain, id)
      || !Has(w.all, chain, id)
      || w.all[chain][id].escalated
  }

  lemma WrittenMore(log: seq<Fact>, f: Fact, i: nat, chain: string, id: string)
    requires i <= |log|
    ensures WrittenSince(log + [f], i, chain, id) <==> WrittenSince(log, i, chain, id) || f == Wrote(chain, id)
  {
    assert (log + [f])[|log|] == f;
    if WrittenSince(log, i, chain, id) {
      var m :| i <= m < |log| && log[m] == Wrote(chain, id);
      assert (log + [f])[m] == Wrote(chain, id);
    }
  }

  lemma OnceStep(w: World, s: Step, threshold: int, chain: string, id: string)
    requires Enabled(w, s, threshold) && MarksHold(w, chain, id) && OncePerWrite(w.log, chain, id)
    ensures var w' := Do(w, s, threshold); MarksHold(w', chain, id) && OncePerWrite(w'.log, chain, id)
  {
    hide Lists, EscalationMsg;
    var w' := Do(w, s, threshold);
    if w'.log != w.log {
      var f := w'.log[|w.log|];
      assert w'.log == w.log + [f];
      forall i | 0 <= i <= |w.log| ensures WrittenSince(w'.log, i, chain, id)
          <==> WrittenSince(w.log, i, chain, id) || f == Wrote(chain, id) {
        WrittenMore(w.log, f, i, chain, id);
      }
      forall i, j | 0 <= i < j < |w'.log| && IsMark(w'.log[i], chain, id) && IsMark(w'.log[j], chain, id)
        ensures WrittenSince(w'.log[..j], i, chain, id)
      {
        assert w'.log[..j] == w.log[..j];
        assert w.log[..|w.log|] == w.log;
        assert w'.log[i] == w.log[i];
      }
    }
  }

  /** Under every interleaving, at most one escalation of a key is decided between two
      consecutive firing writes of it. */
  lemma {:induction false} EscalatesOncePerWrite(w: World, steps: seq<Step>, threshold: int, chain: string, id: string)
    requires w.log == []
    ensures var w' := Run(w, steps, threshold); MarksHold(w', chain, id) && OncePerWrite(w'.log, chain, id)
  {
    if steps != [] {
      EscalatesOncePerWrite(w, steps[..|steps| - 1], threshold, chain, id);
      var v, s := Run(w, steps[..|steps| - 1], threshold), steps[|steps| - 1];
      if Enabled(v, s, threshold) {
        OnceStep(v, s, threshold, chain, id);
      }
    }
  }

  // ---------------------------------------------------------------------------
  // Every escalation answers a scan
  // ---------------------------------------------------------------------------

  /** Position i is the sweep's scan, and it saw the key critical, unescalated and old enough. */
  ghost predicate SawDue(log: seq<Fact>, i: nat, k: nat, chain: string, id: string, threshold: int) {
    i < |log| && log[i].Scanned? && log[i].sweep == k && DueAt(log[i].view, chain, id, threshold, log[i].at)
  }

  ghost predicate AnswersScan(log: seq<Fact>, k: nat, chain: string, id: string, threshold: int) {
    exists i :: SawDue(log, i, k, chain, id, threshold)
  }

  /** If the key is still what a scan saw, or has been written or marked since. */
  ghost predicate ViewHolds(w: World, i: nat, chain: string, id: string) {
    i < |w.log| && w.log[i].Scanned? && Has(w.log[i].view, chain, id) ==>
      || WrittenSince(w.log, i, chain, id)
      || !Has(w.all, chain, id)
      || w.all[chain][id].escalated
      || w.all[chain][id] == w.log[i].view[chain][id]
  }

  ghost predicate Pending(t: Sweep, chain: string, id: string) {
    || (exists c | c in t.rest :: c.chain == chain && c.alertID == id)
    || (!t.Looking? && t.cand.chain == chain && t.cand.alertID == id)
  }

  /** A message a sweep may send: the derived id, still firing, critical, not for PagerDuty. */
  ghost predicate Derived(msg: AlertMsg, id: string) {
    !msg.pd && !msg.resolved && msg.severity == "critical" && msg.uniqueId == id + SUFFIX
  }

  ghost predicate Answered(w: World, threshold: int, chain: string, id: string) {
    && (forall k | k in w.sweeps && Pending(w.sweeps[k], chain, id) :: AnswersScan(w.log, k, chain, id, threshold))
    && (forall j | 0 <= j < |w.log| && IsMark(w.log[j], chain, id) ::
          AnswersScan(w.log[..j], w.log[j].sweep, chain, id, threshold))
  }

  ghost predicate AllDerived(w: World) {
    && (forall k | k in w.sweeps && !w.sweeps[k].Looking? :: Derived(w.sweeps[k].msg, w.sweeps[k].cand.alertID))
    && (forall f | f in w.log && f.Emitted? :: Derived(f.msg, f.id))
  }

  lemma AnswersMore(log: seq<Fact>, more: seq<Fact>, k: nat, chain: string, id: string, threshold: int)
    requires AnswersScan(log, k, chain, id, threshold)
    ensures AnswersScan(log + more, k, chain, id, threshold)
  {
    var i :| SawDue(log, i, k, chain, id, threshold);
    assert SawDue(log + more, i, k, chain, id, threshold);
  }

  lemma PendingStep(w: World, s: Step, threshold: int, chain: string, id: string, k: nat)
    requires Enabled(w, s, threshold)
    requires var w' := Do(w, s, threshold); k in w'.sweeps && Pending(w'.sweeps[k], chain, id)
    ensures var w' := Do(w, s, threshold);
      || (k in w.sweeps && Pending(w.sweeps[k], chain, id))
      || (s.Scan? && s.sweep == k && SawDue(w'.log, |w.log|, k, chain, id, threshold))
  {
    hide EscalationMsg, Mark;
  }

  lemma AnsweredStep(w: World, s: Step, threshold: int, chain: string, id: string)
    requires Enabled(w, s, threshold) && Answered(w, threshold, chain, id)
    ensures Answered(Do(w, s, threshold), threshold, chain, id)
  {
    hide Lists, EscalationMsg, Mark;
    var w' := Do(w, s, threshold);
    var more := w'.log[|w.log|..];
    assert w'.log == w.log + more;
    forall k | k in w'.sweeps && Pending(w'.sweeps[k], chain, id) ensures AnswersScan(w'.log, k, chain, id, threshold) {
      PendingStep(w, s, threshold, chain, id, k);
      if k in w.sweeps && Pending(w.sweeps[k], chain, id) {
        AnswersMore(w.log, more, k, chain, id, threshold);
      }
    }
    forall j | 0 <= j < |w'.log| && IsMark(w'.log[j], chain, id)
        ensures AnswersScan(w'.log[..j], w'.log[j].sweep, chain, id, threshold) {
      if j < |w.log| {
        assert w'.log[..j] == w.log[..j] && IsMark(w.log[j], chain, id);
      } else {
        assert w'.log[..j] == w.log;
        assert s.Relock? && Pending(w.sweeps[s.sweep], chain, id);
      }
    }
  }

  lemma DerivedStep(w: World, s: Step, threshold: int)
    requires Enabled(w, s, threshold) && AllDerived(w)
    ensures AllDerived(Do(w, s, threshold))
  {
    hide Lists, Mark;
  }

  /** Every mark answers an earlier scan by the same sweep that saw the key due, and every
      message sent carries the derived id, is critical and never targets PagerDuty. */
  lemma {:induction false} EscalationsAnswerScans(w: World, steps: seq<Step>, threshold: int, chain: string, id: string)
    requires w.log == [] && w.sweeps == map[]
    ensures var w' := Run(w, steps, threshold); Answered(w', threshold, chain, id) && AllDerived(w')
  {
    if steps != [] {
      var rest := steps[..|steps| - 1];
      EscalationsAnswerScans(w, rest, threshold, chain, id);
      var v, s := Run(w, steps[..|steps| - 1], threshold), steps[|steps| - 1];
      if Enabled(v, s, threshold) {
        AnsweredStep(v, s, threshold, chain, id);
        DerivedStep(v, s, threshold);
      }
    }
  }

  // ---------------------------------------------------------------------------
  // Every escalation answers a lookup
  // ---------------------------------------------------------------------------

  /** Step j of the sweep looked the key up, on a known chain that was not silenced, and built
      the message from the configuration it found. */
  ghost predicate LooksUp(steps: seq<Step>, j: nat, k: nat, chain: string, id: string, msg: AlertMsg) {
    && j < |steps| && steps[j].Lookup? && steps[j].sweep == k && chain in steps[j].chains
    && !Silenced(steps[j].chains[chain].silencedUntil, steps[j].at)
    && IsEscalation(msg, steps[j].chains, steps[j].defaults, chain, id)
  }

  ghost predicate FromLookup(steps: seq<Step>, k: nat, chain: string, id: string, msg: AlertMsg) {
    exists j: nat :: LooksUp(steps, j, k, chain, id, msg)
  }

  ghost predicate MarkedFromLookup(steps: seq<Step>, f: Fact)
    requires f.Marked?
  {
    exists msg :: FromLookup(steps, f.sweep, f.chain, f.id, msg)
  }

  ghost predicate AllFromLookup(steps: seq<Step>, w: World) {
    && (forall k | k in w.sweeps && !w.sweeps[k].Looking? ::
          FromLookup(steps, k, w.sweeps[k].cand.chain, w.sweeps[k].cand.alertID, w.sweeps[k].msg))
    && (forall f | f in w.log && f.Emitted? :: FromLookup(steps, f.sweep, f.chain, f.id, f.msg))
    && (forall f | f in w.log && f.Marked? :: MarkedFromLookup(steps, f))
  }

  lemma FromLookupMore(steps: seq<Step>, s: Step, w: World)
    requires AllFromLookup(steps, w)
    ensures AllFromLookup(steps + [s], w)
  {
    hide IsEscalation, Silenced;
    forall k, chain, id, msg | FromLookup(steps, k, chain, id, msg) ensures FromLookup(steps + [s], k, chain, id, msg) {
      var j: nat :| LooksUp(steps, j, k, chain, id, msg);
      assert LooksUp(steps + [s], j, k, chain, id, msg);
    }
    forall f | f in w.log && f.Marked? ensures MarkedFromLookup(steps + [s], f) {
      var msg :| FromLookup(steps, f.sweep, f.chain, f.id, msg);
    }
  }

  lemma LookupStep(steps: seq<Step>, w: World, s: Step, threshold: int)
    requires Enabled(w, s, threshold) && AllFromLookup(steps, w)
    ensures AllFromLookup(steps + [s], Do(w, s, threshold))
  {
    FromLookupMore(steps, s, w);
    hide IsEscalation, Silenced, EscalationMsg, Lists, Mark, FromLookup;
    var all := steps + [s];
    if s.Lookup? {
      var c := w.sweeps[s.sweep].rest[0];
      EscalationIsAddressed(s.chains, s.defaults, c);
      assert LooksUp(all, |steps|, s.sweep, c.chain, c.alertID, EscalationMsg(s.chains, s.defaults, c).value);
      LookedUp(all, |steps|, s.sweep, c.chain, c.alertID, EscalationMsg(s.chains, s.defaults, c).value);
    } else if s.Relock? {
      var t := w.sweeps[s.sweep];
      assert FromLookup(all, s.sweep, t.cand.chain, t.cand.alertID, t.msg);
    }
  }

  lemma LookedUp(steps: seq<Step>, j: nat, k: nat, chain: string, id: string, msg: AlertMsg)
    requires LooksUp(steps, j, k, chain, id, msg)
    ensures FromLookup(steps, k, chain, id, msg)
  {
  }

  /** Over every run, each mark was made, and each message built, by a sweep that had looked the
      key up on a chain it found configured and not silenced; and the message is addressed by
      the configuration found there. */
  lemma {:induction false} EscalationsFollowLookups(w: World, steps: seq<Step>, threshold: int)
    requires w.log == [] && w.sweeps == map[]
    ensures AllFromLookup(steps, Run(w, steps, threshold))
  {
    if steps != [] {
      var rest, s := steps[..|steps| - 1], steps[|steps| - 1];
      EscalationsFollowLookups(w, rest, threshold);
      hide AllFromLookup;
      assert steps == rest + [s];
      FromLookupMore(rest, s, Run(w, rest, threshold));
      if Enabled(Run(w, rest, threshold), s, threshold) {
        LookupStep(rest, Run(w, rest, threshold), s, threshold);
      }
    }
  }

  // ---------------------------------------------------------------------------
  // Messages and marks are one to one, per sweep
  // ---------------------------------------------------------------------------

  ghost function Marks(log: seq<Fact>, k: nat, chain: string, id: string): nat {
    if log == [] then 0
    else
      var f := log[|log| - 1];
      Marks(log[..|log| - 1], k, chain, id) + if IsMark(f, chain, id) && f.sweep == k then 1 else 0
  }

  ghost function Sends(log: seq<Fact>, k: nat, chain: string, id: string): nat {
    if log == [] then 0
    else
      var f := log[|log| - 1];
      Sends(log[..|log| - 1], k, chain, id) +
          if f.Emitted? && f.chain == chain && f.id == id && f.sweep == k then 1 else 0
  }

  /** The sweep has marked the key and not sent its message yet. */
  ghost predicate Owes(w: World, k: nat, chain: string, id: string) {
    k in w.sweeps && w.sweeps[k].Sending? && w.sweeps[k].cand.chain == chain && w.sweeps[k].cand.alertID == id
  }

  ghost predicate Balanced(w: World, k: nat, chain: string, id: string) {
    && Marks(w.log, k, chain, id) == Sends(w.log, k, chain, id) + (if Owes(w, k, chain, id) then 1 else 0)
  }

  lemma CountOneMore(log: seq<Fact>, f: Fact, k: nat, chain: string, id: string)
    ensures Marks(log + [f], k, chain, id) == Marks(log, k, chain, id) +
          if IsMark(f, chain, id) && f.sweep == k then 1 else 0
    ensures Sends(log + [f], k, chain, id) ==
            Sends(log, k, chain, id) + if f.Emitted? && f.chain == chain && f.id == id && f.sweep == k then 1 else 0
  {
    assert (log + [f])[..|log|] == log;
  }

  lemma BalancedStep(w: World, s: Step, threshold: int, k: nat, chain: string, id: string)
    requires Enabled(w, s, threshold) && Balanced(w, k, chain, id)
    ensures Balanced(Do(w, s, threshold), k, chain, id)
  {
    hide Lists, EscalationMsg, Mark, Marks, Sends, Passes;
    var w' := Do(w, s, threshold);
    if w'.log != w.log {
      var f := w'.log[|w'.log| - 1];
      assert w'.log == w.log + [f];
      CountOneMore(w.log, f, k, chain, id);
    }
  }

  /** Each sweep sends one message for each of its marks, and none without. */
  lemma {:induction false} OneMessagePerMark(w: World, steps: seq<Step>, threshold: int, k: nat, chain: string,
                                             id: string)
    requires w.log == [] && w.sweeps == map[]
    ensures Balanced(Run(w, steps, threshold), k, chain, id)
  {
    if steps != [] {
      OneMessagePerMark(w, steps[..|steps| - 1], threshold, k, chain, id);
      var v, s := Run(w, steps[..|steps| - 1], threshold), steps[|steps| - 1];
      if Enabled(v, s, threshold) {
        BalancedStep(v, s, threshold, k, chain, id);
      }
    }
  }

  // ---------------------------------------------------------------------------
  // Messages over all sweeps
  // ---------------------------------------------------------------------------

  ghost predicate IsSend(f: Fact, chain: string, id: string) {
    f.Emitted? && f.chain == chain && f.id == id
  }

  ghost function TotalWrites(log: seq<Fact>, chain: string, id: string): nat {
    if log == [] then 0
    else TotalWrites(log[..|log| - 1], chain, id) + if log[|log| - 1] == Wrote(chain, id) then 1 else 0
  }

  ghost function TotalMarks(log: seq<Fact>, chain: string, id: string): nat {
    if log == [] then 0
    else TotalMarks(log[..|log| - 1], chain, id) + if IsMark(log[|log| - 1], chain, id) then 1 else 0
  }

  ghost function TotalSends(log: seq<Fact>, chain: string, id: string): nat {
    if log == [] then 0
    else TotalSends(log[..|log| - 1], chain, id) + if IsSend(log[|log| - 1], chain, id) then 1 else 0
  }

  lemma TotalsOneMore(log: seq<Fact>, f: Fact, chain: string, id: string)
    ensures TotalWrites(log + [f], chain, id) == TotalWrites(log, chain, id) + if f == Wrote(chain, id) then 1 else 0
    ensures TotalMarks(log + [f], chain, id) == TotalMarks(log, chain, id) + if IsMark(f, chain, id) then 1 else 0
    ensures TotalSends(log + [f], chain, id) == TotalSends(log, chain, id) + if IsSend(f, chain, id) then 1 else 0
  {
    assert (log + [f])[..|log|] == log;
  }

  /** The sweeps that have marked the key and not sent its message yet. */
  ghost function Owing(w: World, chain: string, id: string): set<nat> {
    set k | k in w.sweeps && Owes(w, k, chain, id)
  }

  /** Every mark has its message or a sweep that owes it, and a write to answer for; so does
      a mark still to come. The alarms of the start count as `first` writes. */
  ghost predicate Counted(w: World, first: nat, chain: string, id: string) {
    && TotalMarks(w.log, chain, id) == TotalSends(w.log, chain, id) + |Owing(w, chain, id)|
    && TotalMarks(w.log, chain, id) <= TotalWrites(w.log, chain, id) + first
    && (Has(w.all, chain, id) && !w.all[chain][id].escalated ==>
          TotalMarks(w.log, chain, id) < TotalWrites(w.log, chain, id) + first)
  }

  /** Only a mark makes a sweep owe and only a send settles it. */
  lemma OwingStep(w: World, s: Step, threshold: int, chain: string, id: string)
    requires Enabled(w, s, threshold)
    ensures var w' := Do(w, s, threshold);
      if w'.log != w.log && IsMark(w'.log[|w'.log| - 1], chain, id) && s.Relock?
      then s.sweep !in Owing(w, chain, id) && Owing(w', chain, id) == Owing(w, chain, id) + {s.sweep}
      else if s.Send? && s.sweep in Owing(w, chain, id)
      then IsSend(w'.log[|w'.log| - 1], chain, id) && Owing(w', chain, id) == Owing(w, chain, id) - {s.sweep}
      else Owing(w', chain, id) == Owing(w, chain, id) && (w'.log != w.log ==> !IsSend(w'.log[|w'.log| - 1], chain, id))
  {
    hide Lists, EscalationMsg, Mark, Passes;
  }

  lemma CountedStep(w: World, s: Step, threshold: int, first: nat, chain: string, id: string)
    requires Enabled(w, s, threshold) && Counted(w, first, chain, id)
    ensures Counted(Do(w, s, threshold), first, chain, id)
  {
    hide Lists, EscalationMsg, Passes, Owing, TotalMarks, TotalSends, TotalWrites;
    var w' := Do(w, s, threshold);
    OwingStep(w, s, threshold, chain, id);
    if w'.log != w.log {
      var f := w'.log[|w'.log| - 1];
      assert w'.log == w.log + [f];
      TotalsOneMore(w.log, f, chain, id);
    }
  }

  /** Over all sweeps of a run, however they interleave: at most one escalation message for
      each firing write of the key, and one more for an alarm that was there at the start. */
  lemma {:induction false} OneMessagePerWrite(w: World, steps: seq<Step>, threshold: int, chain: string, id: string)
    requires w.log == [] && w.sweeps == map[]
    ensures var w' := Run(w, steps, threshold);
      var first := if Has(w.all, chain, id) then 1 else 0;
      && Counted(w', first, chain, id)
      && TotalSends(w'.log, chain, id) <= TotalMarks(w'.log, chain, id) <= TotalWrites(w'.log, chain, id) + first
  {
    var first := if Has(w.all, chain, id) then 1 else 0;
    if steps != [] {
      var rest := steps[..|steps| - 1];
      OneMessagePerWrite(w, rest, threshold, chain, id);
      var v, s := Run(w, rest, threshold), steps[|steps| - 1];
      hide Counted;
      if Enabled(v, s, threshold) {
        CountedStep(v, s, threshold, first, chain, id);
      }
      CountedBounds(Run(w, steps, threshold), first, chain, id);
    } else {
      assert Owing(w, chain, id) == {};
    }
  }

  lemma CountedBounds(w: World, first: nat, chain: string, id: string)
    requires Counted(w, first, chain, id)
    ensures TotalSends(w.log, chain, id) <= TotalMarks(w.log, chain, id) <= TotalWrites(w.log, chain, id) + first
  {
  }

  lemma {:induction false} LogGrows(w: World, steps: seq<Step>, n: nat, threshold: int)
    requires n <= |steps|
    ensures Run(w, steps[..n], threshold).log <= Run(w, steps, threshold).log
  {
    if n == |steps| {
      assert steps[..n] == steps;
    } else {
      var m := |steps| - 1;
      assert steps[..m][..n] == steps[..n];
      LogGrows(w, steps[..m], n, threshold);
      var v := Run(w, steps[..m], threshold);
      if Enabled(v, steps[m], threshold) {
        hide Enabled, Lists, EscalationMsg, Mark;
        assert v.log <= Do(v, steps[m], threshold).log;
      }
    }
  }

  /** A mark at j that has another before it, from n on, has a write there too. */
  lemma MarksNeedWrite(log: seq<Fact>, n: nat, j: nat, chain: string, id: string)
    requires n <= j < |log| && OncePerWrite(log, chain, id) && IsMark(log[j], chain, id)
    ensures (exists i :: n <= i < j && IsMark(log[i], chain, id)) ==> WrittenSince(log, n, chain, id)
  {
    if i :| n <= i < j && IsMark(log[i], chain, id) {
      assert WrittenSince(log[..j], i, chain, id);
    }
  }

  /** Where every two marks have a write between them and nothing is written, there is at most
      one mark. */
  lemma {:induction false} OneMarkUnwritten(log: seq<Fact>, n: nat, chain: string, id: string)
    requires n <= |log| && OncePerWrite(log, chain, id) && !WrittenSince(log, n, chain, id)
    ensures TotalMarks(log[..n], chain, id) <= TotalMarks(log, chain, id) <= TotalMarks(log[..n], chain, id) + 1
    ensures TotalMarks(log, chain, id) > TotalMarks(log[..n], chain, id) <==>
      exists i :: n <= i < |log| && IsMark(log[i], chain, id)
  {
    hide IsMark;
    if n == |log| {
      assert log[..n] == log;
    } else {
      var m := |log| - 1;
      var rest := log[..m];
      assert rest[..n] == log[..n];
      assert forall i | 0 <= i < m :: rest[i] == log[i];
      assert forall j | 0 <= j <= m :: rest[..j] == log[..j];
      OneMarkUnwritten(rest, n, chain, id);
      if IsMark(log[m], chain, id) {
        MarksNeedWrite(log, n, m, chain, id);
      }
    }
  }

  /** Between any two points of a run: the messages sent are the marks made, and those owed at
      the first point less those owed at the second. So where the key is not written in between,
      at most one is made, and at most one is sent exactly if no more are paid off than that
      leaves room for; in particular if none is owed at the first point. */
  lemma MessagesBetween(w: World, steps: seq<Step>, n: nat, threshold: int, chain: string, id: string)
    requires w.log == [] && w.sweeps == map[] && n <= |steps|
    ensures var v, v' := Run(w, steps[..n], threshold), Run(w, steps, threshold);
      var sent := TotalSends(v'.log, chain, id) - TotalSends(v.log, chain, id);
      var marked := TotalMarks(v'.log, chain, id) - TotalMarks(v.log, chain, id);
      && sent == marked + |Owing(v, chain, id)| - |Owing(v', chain, id)|
      && (!WrittenSince(v'.log, |v.log|, chain, id) ==>
            && 0 <= marked <= 1
            && (sent <= 1 <==> |Owing(v, chain, id)| <= |Owing(v', chain, id)| + 1 - marked)
            && (Owing(v, chain, id) == {} ==> sent <= 1))
  {
    hide TotalSends, TotalMarks, TotalWrites, Owing, OncePerWrite, MarksHold, Run;
    OneMessagePerWrite(w, steps[..n], threshold, chain, id);
    OneMessagePerWrite(w, steps, threshold, chain, id);
    EscalatesOncePerWrite(w, steps, threshold, chain, id);
    LogGrows(w, steps, n, threshold);
    var v, v' := Run(w, steps[..n], threshold), Run(w, steps, threshold);
    assert v'.log[..|v.log|] == v.log;
    if !WrittenSince(v'.log, |v.log|, chain, id) {
      OneMarkUnwritten(v'.log, |v.log|, chain, id);
    }
  }

  // ---------------------------------------------------------------------------
  // What a mark hits
  // ---------------------------------------------------------------------------

  /** The marked entry is the very one the scan saw, unless the key was written in between. */
  ghost predicate MarksWhatWasSeen(log: seq<Fact>, i: nat, j: nat, chain: string, id: string, threshold: int) {
    j < |log| && i < j && IsMark(log[j], chain, id) && SawDue(log, i, log[j].sweep, chain, id, threshold) ==>
      WrittenSince(log[..j], i, chain, id) || log[j].entry == log[i].view[chain][id]
  }

  ghost predicate Faithful(w: World, chain: string, id: string, threshold: int) {
    && (forall i: nat :: ViewHolds(w, i, chain, id))
    && (forall i: nat, j: nat :: MarksWhatWasSeen(w.log, i, j, chain, id, threshold))
  }

  lemma SeenStep(w: World, s: Step, threshold: int, chain: string, id: string)
    requires Enabled(w, s, threshold)
    requires Faithful(w, chain, id, threshold)
    ensures Faithful(Do(w, s, threshold), chain, id, threshold)
  {
    hide Lists, EscalationMsg;
    var w' := Do(w, s, threshold);
    var more := w'.log[|w.log|..];
    assert w'.log == w.log + more;
    forall i: nat ensures ViewHolds(w', i, chain, id) {
      assert ViewHolds(w, i, chain, id);
      if more != [] && i <= |w.log| {
        assert w'.log == w.log + [more[0]];
        WrittenMore(w.log, more[0], i, chain, id);
      }
    }
    forall i: nat, j: nat ensures MarksWhatWasSeen(w'.log, i, j, chain, id, threshold) {
      if j < |w.log| {
        assert MarksWhatWasSeen(w.log, i, j, chain, id, threshold);
        assert w'.log[..j] == w.log[..j];
      } else if j == |w.log| && i < j {
        assert w'.log[..j] == w.log;
        assert ViewHolds(w, i, chain, id);
      }
    }
  }

  /** Over every run: a mark that follows no new write of its key since the scan marks the
      entry the scan saw, so the alarm really was critical and old enough. */
  lemma {:induction false} UnwrittenMarksAreDue(w: World, steps: seq<Step>, threshold: int, chain: string, id: string)
    requires w.log == []
    ensures Faithful(Run(w, steps, threshold), chain, id, threshold)
  {
    if steps != [] {
      UnwrittenMarksAreDue(w, steps[..|steps| - 1], threshold, chain, id);
      var v, s := Run(w, steps[..|steps| - 1], threshold), steps[|steps| - 1];
      if Enabled(v, s, threshold) {
        SeenStep(v, s, threshold, chain, id);
      }
    }
  }

  /** Clocks do not run back: a firing is stamped no earlier than any scan before it. */
  ghost predicate Timed(w: World, steps: seq<Step>, threshold: int) {
    forall k | 0 <= k < |steps| && steps[k].Fire? ::
      StampedAfterScans(Run(w, steps[..k], threshold).log, steps[k].entry)
  }

  ghost predicate StampedAfterScans(log: seq<Fact>, e: Entry) {
    forall f | f in log && f.Scanned? :: f.at <= e.sentTime
  }

  /** A key written since a scan is, while it is there, no older than the scan. */
  ghost predicate YoungerThan(w: World, i: nat, chain: string, id: string) {
    i < |w.log| && w.log[i].Scanned? && WrittenSince(w.log, i, chain, id) && Has(w.all, chain, id) ==>
      w.all[chain][id].sentTime >= w.log[i].at
  }

  /** A mark made after a write of its key does not hit a due entry. */
  ghost predicate WrittenIsNotDue(log: seq<Fact>, i: nat, j: nat, chain: string, id: string, threshold: int) {
    i < j < |log| && log[i].Scanned? && IsMark(log[j], chain, id) && WrittenSince(log[..j], i, chain, id) ==>
      !Due(log[j].entry, threshold, log[i].at)
  }

  ghost predicate Aged(w: World, chain: string, id: string, threshold: int) {
    && (forall i: nat :: YoungerThan(w, i, chain, id))
    && (forall i: nat, j: nat :: WrittenIsNotDue(w.log, i, j, chain, id, threshold))
  }

  lemma AgedStep(w: World, s: Step, threshold: int, chain: string, id: string)
    requires threshold > 0 && Enabled(w, s, threshold) && Aged(w, chain, id, threshold)
    requires s.Fire? ==> StampedAfterScans(w.log, s.entry)
    ensures Aged(Do(w, s, threshold), chain, id, threshold)
  {
    hide Lists, EscalationMsg;
    var w' := Do(w, s, threshold);
    var more := w'.log[|w.log|..];
    assert w'.log == w.log + more;
    forall i: nat ensures YoungerThan(w', i, chain, id) {
      assert YoungerThan(w, i, chain, id);
      if i < |w.log| {
        assert w'.log[i] == w.log[i] && w.log[i] in w.log;
        if more != [] {
          assert w'.log == w.log + [more[0]];
          WrittenMore(w.log, more[0], i, chain, id);
        }
      }
    }
    forall i: nat, j: nat ensures WrittenIsNotDue(w'.log, i, j, chain, id, threshold) {
      if j < |w.log| {
        assert WrittenIsNotDue(w.log, i, j, chain, id, threshold);
        assert w'.log[..j] == w.log[..j];
      } else if j == |w.log| && i < j {
        assert w'.log[..j] == w.log;
        assert YoungerThan(w, i, chain, id);
      }
    }
  }

  lemma {:induction false} AgedRun(w: World, steps: seq<Step>, threshold: int, chain: string, id: string)
    requires w.log == [] && threshold > 0 && Timed(w, steps, threshold)
    ensures Aged(Run(w, steps, threshold), chain, id, threshold)
  {
    hide Aged, StampedAfterScans;
    if steps == [] {
      NothingAges(w, chain, id, threshold);
    } else {
      var n := |steps| - 1;
      assert forall k | 0 <= k <= n :: steps[..n][..k] == steps[..k];
      AgedRun(w, steps[..n], threshold, chain, id);
      var v := Run(w, steps[..n], threshold);
      if Enabled(v, steps[n], threshold) {
        AgedStep(v, steps[n], threshold, chain, id);
      }
    }
  }

  lemma NothingAges(w: World, chain: string, id: string, threshold: int)
    requires w.log == []
    ensures Aged(w, chain, id, threshold)
  {
  }

  /** Over every run with such clocks: a mark hits an alarm that was critical, unescalated and
      old enough when its sweep scanned if and only if the key was not written in between. */
  lemma {:induction false} MarksAreDueUnlessWritten(w: World, steps: seq<Step>, threshold: int, chain: string,
                                                    id: string, i: nat, j: nat)
    requires w.log == [] && threshold > 0 && Timed(w, steps, threshold)
    requires var log := Run(w, steps, threshold).log;
      i < j < |log| && IsMark(log[j], chain, id) && SawDue(log, i, log[j].sweep, chain, id, threshold)
    ensures var log := Run(w, steps, threshold).log;
      Due(log[j].entry, threshold, log[i].at) <==> !WrittenSince(log[..j], i, chain, id)
  {
    AgedRun(w, steps, threshold, chain, id);
    UnwrittenMarksAreDue(w, steps, threshold, chain, id);
    var log := Run(w, steps, threshold).log;
    hide Run;
    assert WrittenIsNotDue(log, i, j, chain, id, threshold);
    assert MarksWhatWasSeen(log, i, j, chain, id, threshold);
  }

  // ---------------------------------------------------------------------------
  // Two runs that show the limits
  // ---------------------------------------------------------------------------

  ghost predicate Leads(w: World, s: Step, w': World, threshold: int) {
    Enabled(w, s, threshold) && Do(w, s, threshold) == w'
  }

  lemma RunOn(w: World, steps: seq<Step>, v: World, s: Step, v': World, threshold: int)
    requires Run(w, steps, threshold) == v && Leads(v, s, v', threshold)
    ensures Run(w, steps + [s], threshold) == v'
  {
    hide Enabled, Do;
    assert (steps + [s])[..|steps|] == steps;
  }

  /** AllAlarms with one alarm, or none. */
  function Just(chain: string, id: string, e: Entry): AllAlarms {
    map[chain := map[id := e]]
  }

  lemma FireLeads(all: AllAlarms, sweeps: map<nat, Sweep>, log: seq<Fact>, chain: string, id: string, e: Entry,
                  threshold: int)
    requires all.Keys <= {chain} && Of(all, chain).Keys <= {id} && !e.escalated
    ensures Leads(World(all, sweeps, log), Fire(chain, id, e),
                  World(Just(chain, id, e), sweeps, log + [Wrote(chain, id)]), threshold)
  {
    assert Of(all, chain)[id := e] == map[id := e];
    assert all[chain := map[id := e]] == Just(chain, id, e);
  }

  lemma ClearLeads(sweeps: map<nat, Sweep>, log: seq<Fact>, chain: string, id: string, e: Entry, threshold: int)
    ensures Leads(World(Just(chain, id, e), sweeps, log), Clear(chain, id), World(map[chain := map[]], sweeps, log),
          threshold)
  {
    assert map[id := e] - {id} == map[];
    assert Just(chain, id, e)[chain := map[]] == map[chain := map[]];
  }

  lemma ScanLeads(sweeps: map<nat, Sweep>, log: seq<Fact>, k: nat, chain: string, id: string, e: Entry, at: Time,
                  threshold: int)
    requires k !in sweeps && Due(e, threshold, at)
    ensures var a, c := Just(chain, id, e), Candidate(chain, id, e.message);
      Leads(World(a, sweeps, log), Scan(k, at, [c]),
            World(a, sweeps[k := Looking([c])], log + [Scanned(k, at, a)]), threshold)
  {
    assert Lists([Candidate(chain, id, e.message)], Just(chain, id, e), threshold, at);
  }

  lemma LookupLeads(all: AllAlarms, sweeps: map<nat, Sweep>, log: seq<Fact>, k: nat, c: Candidate,
                    chains: ChainViews, defaults: AlertConfig, at: Time, threshold: int) returns (msg: AlertMsg)
    requires k in sweeps && sweeps[k] == Looking([c]) && Passes(c, chains, at)
    ensures Leads(World(all, sweeps, log), Lookup(k, chains, defaults, at),
                  World(all, sweeps[k := Relocking(c, msg, [])], log), threshold)
  {
    msg := EscalationMsg(chains, defaults, c).value;
    assert [c][1..] == [];
  }

  lemma RelockLeads(sweeps: map<nat, Sweep>, log: seq<Fact>, k: nat, c: Candidate, msg: AlertMsg, e: Entry,
                    threshold: int)
    requires k in sweeps && sweeps[k] == Relocking(c, msg, []) && !e.escalated
    ensures Leads(World(Just(c.chain, c.alertID, e), sweeps, log), Relock(k),
                  World(Just(c.chain, c.alertID, e.(escalated := true)), sweeps[k := Sending(c, msg, [])],
                        log + [Marked(k, c.chain, c.alertID, e)]), threshold)
  {
    var e' := e.(escalated := true);
    assert map[c.alertID := e][c.alertID := e'] == map[c.alertID := e'];
    assert Just(c.chain, c.alertID, e)[c.chain := map[c.alertID := e']] == Just(c.chain, c.alertID, e');
  }

  lemma SendLeads(all: AllAlarms, sweeps: map<nat, Sweep>, log: seq<Fact>, k: nat, c: Candidate, msg: AlertMsg,
                  threshold: int)
    requires k in sweeps && sweeps[k] == Sending(c, msg, [])
    ensures Leads(World(all, sweeps, log), Send(k),
                  World(all, sweeps[k := Looking([])], log + [Emitted(k, c.chain, c.alertID, msg)]), threshold)
  {
  }

  /** An alarm resolved and raised afresh, both times critical, between a sweep's scan and its
      second lock is escalated the moment it is raised. */
  lemma StaleScanEscalatesFreshAlarm(threshold: int, chains: ChainViews, defaults: AlertConfig, chain: string,
                                     id: string, text: string)
      returns (steps: seq<Step>)
    requires threshold > 0 && chain in chains && chains[chain].silencedUntil == 0
    ensures var log := Run(World(map[], map[], []), steps, threshold).log;
      && |log| == 4 && SawDue(log, 1, 0, chain, id, threshold) && IsMark(log[3], chain, id) && log[3].sweep == 0
      && log[3].entry == Entry(text, threshold, "critical", false) && log[1].at == threshold
      && !Due(log[3].entry, threshold, log[1].at)
  {
    var c := Candidate(chain, id, text);
    var e0, e1 := Entry(text, 0, "critical", false), Entry(text, threshold, "critical", false);
    var w0 := World(map[], map[], []);
    var w1 := World(Just(chain, id, e0), map[], [] + [Wrote(chain, id)]);
    var w2 := World(w1.all, map[][0 := Looking([c])], w1.log + [Scanned(0, threshold, w1.all)]);
    var w3 := World(map[chain := map[]], w2.sweeps, w2.log);
    var w4 := World(Just(chain, id, e1), w2.sweeps, w2.log + [Wrote(chain, id)]);
    FireLeads(w0.all, w0.sweeps, w0.log, chain, id, e0, threshold);
    ScanLeads(w1.sweeps, w1.log, 0, chain, id, e0, threshold, threshold);
    ClearLeads(w2.sweeps, w2.log, chain, id, e0, threshold);
    FireLeads(w3.all, w3.sweeps, w3.log, chain, id, e1, threshold);
    var msg := LookupLeads(w4.all, w4.sweeps, w4.log, 0, c, chains, defaults, threshold, threshold);
    var w5 := World(w4.all, w4.sweeps[0 := Relocking(c, msg, [])], w4.log);
    RelockLeads(w5.sweeps, w5.log, 0, c, msg, e1, threshold);
    var w6 := World(Just(chain, id, e1.(escalated := true)), w5.sweeps[0 := Sending(c, msg, [])],
                    w5.log + [Marked(0, chain, id, e1)]);
    hide Leads, Just;
    assert Run(w0, [], threshold) == w0;
    hide Run;
    RunOn(w0, [], w0, Fire(chain, id, e0), w1, threshold);
    steps := [] + [Fire(chain, id, e0)];
    RunOn(w0, steps, w1, Scan(0, threshold, [c]), w2, threshold);
    steps := steps + [Scan(0, threshold, [c])];
    RunOn(w0, steps, w2, Clear(chain, id), w3, threshold);
    steps := steps + [Clear(chain, id)];
    RunOn(w0, steps, w3, Fire(chain, id, e1), w4, threshold);
    steps := steps + [Fire(chain, id, e1)];
    RunOn(w0, steps, w4, Lookup(0, chains, defaults, threshold), w5, threshold);
    steps := steps + [Lookup(0, chains, defaults, threshold)];
    RunOn(w0, steps, w5, Relock(0), w6, threshold);
    steps := steps + [Relock(0)];
    JustDue(chain, id, e0, threshold, threshold);
  }

  lemma JustDue(chain: string, id: string, e: Entry, threshold: int, at: Time)
    requires Due(e, threshold, at)
    ensures DueAt(Just(chain, id, e), chain, id, threshold, at)
  {
  }

  /** A sweep that has marked an alarm sends its message only after the alarm has been written
      again; the next sweep, begun after that, escalates the new one. Two messages for the key
      are sent with no write between them. */
  lemma TwoMessagesAfterOneWrite(threshold: int, chains: ChainViews, defaults: AlertConfig, chain: string, id: string,
                                 text: string)
      returns (steps: seq<Step>)
    requires threshold > 0 && chain in chains && chains[chain].silencedUntil == 0
    ensures var log := Run(World(map[], map[], []), steps, threshold).log;
      && |log| == 8 && log[3] == Wrote(chain, id) && !WrittenSince(log, 4, chain, id)
      && IsSend(log[4], chain, id) && log[4].sweep == 0 && IsSend(log[7], chain, id) && log[7].sweep == 1
      && log[5].Scanned? && log[5].sweep == 1
  {
    var c, late := Candidate(chain, id, text), 2 * threshold;
    var e0, e1 := Entry(text, 0, "critical", false), Entry(text, threshold, "critical", false);
    var w0 := World(map[], map[], []);
    var l1 := [] + [Wrote(chain, id)];
    FireLeads(w0.all, w0.sweeps, w0.log, chain, id, e0, threshold);
    hide Leads, Just;
    assert Run(w0, [], threshold) == w0;
    hide Run;
    RunOn(w0, [], w0, Fire(chain, id, e0), World(Just(chain, id, e0), map[], l1), threshold);
    var m0: AlertMsg;
    steps, m0 := SweepMarks(w0, []
        + [Fire(chain, id, e0)], map[], l1, 0, chain, id, e0, threshold, chains, defaults, threshold);
    var s4, l4 := map[][0 := Sending(c, m0, [])], l1
                    + [Scanned(0, threshold, Just(chain, id, e0)), Marked(0, chain, id, e0)];
    var w4, w5 := World(Just(chain, id, e0.(escalated := true)), s4, l4),
        World(Just(chain, id, e1), s4, l4 + [Wrote(chain, id)]);
    OneAlarm(chain, id, e0.(escalated := true));
    FireLeads(w4.all, s4, l4, chain, id, e1, threshold);
    RunOn(w0, steps, w4, Fire(chain, id, e1), w5, threshold);
    steps := steps + [Fire(chain, id, e1)];
    SendLeads(w5.all, s4, w5.log, 0, c, m0, threshold);
    var w6 := World(w5.all, s4[0 := Looking([])], w5.log + [Emitted(0, chain, id, m0)]);
    RunOn(w0, steps, w5, Send(0), w6, threshold);
    steps := steps + [Send(0)];
    var m1: AlertMsg;
    steps, m1 := SweepMarks(w0, steps, w6.sweeps, w6.log, 1, chain, id, e1, late, chains, defaults, threshold);
    var s9 := w6.sweeps[1 := Sending(c, m1, [])];
    var w9 := World(Just(chain, id, e1.(escalated := true)), s9,
                    w6.log + [Scanned(1, late, Just(chain, id, e1)), Marked(1, chain, id, e1)]);
    SendLeads(w9.all, s9, w9.log, 1, c, m1, threshold);
    RunOn(w0, steps, w9, Send(1), World(w9.all, s9[1 := Looking([])], w9.log + [Emitted(1, chain, id, m1)]), threshold);
    steps := steps + [Send(1)];
  }

  lemma OneAlarm(chain: string, id: string, e: Entry)
    ensures Just(chain, id, e).Keys == {chain} && Of(Just(chain, id, e), chain).Keys == {id}
  {
  }

  /** A sweep that scans, looks up and marks the one alarm there is. */
  lemma SweepMarks(w: World, steps: seq<Step>, sweeps: map<nat, Sweep>, log: seq<Fact>, k: nat, chain: string,
                   id: string, e: Entry, at: Time, chains: ChainViews, defaults: AlertConfig, threshold: int)
      returns (more: seq<Step>, msg: AlertMsg)
    requires Run(w, steps, threshold) == World(Just(chain, id, e), sweeps, log)
    requires k !in sweeps && Due(e, threshold, at) && Passes(Candidate(chain, id, e.message), chains, at)
    ensures Run(w, more, threshold) ==
      World(Just(chain, id, e.(escalated := true)), sweeps[k := Sending(Candidate(chain, id, e.message), msg, [])],
            log + [Scanned(k, at, Just(chain, id, e)), Marked(k, chain, id, e)])
  {
    var c, all := Candidate(chain, id, e.message), Just(chain, id, e);
    hide Leads, Just, Run;
    var w1 := World(all, sweeps[k := Looking([c])], log + [Scanned(k, at, all)]);
    ScanLeads(sweeps, log, k, chain, id, e, at, threshold);
    msg := LookupLeads(all, w1.sweeps, w1.log, k, c, chains, defaults, at, threshold);
    var w2 := World(all, w1.sweeps[k := Relocking(c, msg, [])], w1.log);
    RelockLeads(w2.sweeps, w2.log, k, c, msg, e, threshold);
    var w3 := World(Just(chain, id, e.(escalated := true)), w2.sweeps[k := Sending(c, msg, [])],
                    w2.log + [Marked(k, chain, id, e)]);
    RunOn(w, steps, World(all, sweeps, log), Scan(k, at, [c]), w1, threshold);
    more := steps + [Scan(k, at, [c])];
    RunOn(w, more, w1, Lookup(k, chains, defaults, at), w2, threshold);
    more := more + [Lookup(k, chains, defaults, at)];
    RunOn(w, more, w2, Relock(k), w3, threshold);
    more := more + [Relock(k)];
    assert w3.sweeps == sweeps[k := Sending(c, msg, [])];
    assert w3.log == log + [Scanned(k, at, all), Marked(k, chain, id, e)];
  }
}
