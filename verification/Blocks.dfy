/** Signing statistics: a stream of vote and block updates is folded into counters and a
    window of recent results. */
module Blocks {
  import opened Wrappers

  /** Status values in rank order; -1 stands for "nothing seen yet". */
  const NONE := -1
  const MISSED := 0
  const PREVOTE := 1
  const PRECOMMIT := 2
  const SIGNED := 3
  const PROPOSED := 4
  const PROPOSED_EMPTY := 5

  datatype StatusUpdate = StatusUpdate(height: int, status: int, final: bool, empty: bool)

  // ---------------------------------------------------------------------------
  // Where updates come from
  // ---------------------------------------------------------------------------

  datatype Block = Block(height: int, proposer: string, signatures: seq<string>, txs: nat)

  /** Whether a validator's commit was included. */
  method Find(signatures: seq<string>, val: string) returns (found: bool)
    ensures found <==> val in signatures
  {
    for i := 0 to |signatures|
      invariant val !in signatures[..i]
    {
      if signatures[i] == val {
        return true;
      }
    }
    return false;
  }

  method HandleBlock(b: Block, address: string) returns (upd: StatusUpdate)
    ensures upd.final && upd.height == b.height && (upd.empty <==> b.txs == 0)
    ensures upd.status == PROPOSED_EMPTY <==> b.proposer == address && b.txs == 0
    ensures upd.status == PROPOSED <==> b.proposer == address && b.txs > 0
    ensures upd.status == SIGNED <==> b.proposer != address && address in b.signatures
    ensures upd.status == MISSED <==> b.proposer != address && address !in b.signatures
  {
    upd := StatusUpdate(b.height, MISSED, true, b.txs == 0);
    var found := Find(b.signatures, address);
    if b.proposer == address {
      upd := upd.(status := if upd.empty then PROPOSED_EMPTY else PROPOSED);
    } else if found {
      upd := upd.(status := SIGNED);
    }
  }

  /** A vote by our validator; an unnamed type is dropped, an unknown one counts as missed. */
  method HandleVote(kind: string, validator: string, height: int, address: string) returns (r: Option<StatusUpdate>)
    ensures r.Some? <==> validator == address && kind != ""
    ensures r.Some? ==> !r.value.final && r.value.height == height && MISSED <= r.value.status <= PROPOSED
    ensures r.Some? ==>
      && (r.value.status == PREVOTE <==> kind == "SIGNED_MSG_TYPE_PREVOTE")
      && (r.value.status == PRECOMMIT <==> kind == "SIGNED_MSG_TYPE_PRECOMMIT")
      && (r.value.status == PROPOSED <==> kind == "SIGNED_MSG_TYPE_PROPOSAL")
      && r.value.status != SIGNED
  {
    if validator != address || kind == "" {
      return None;
    }
    var upd := StatusUpdate(height, MISSED, false, false);
    if kind == "SIGNED_MSG_TYPE_PREVOTE" {
      upd := upd.(status := PREVOTE);
    } else if kind == "SIGNED_MSG_TYPE_PRECOMMIT" {
      upd := upd.(status := PRECOMMIT);
    } else if kind == "SIGNED_MSG_TYPE_PROPOSAL" {
      upd := upd.(status := PROPOSED);
    }
    return Some(upd);
  }

  // ---------------------------------------------------------------------------
  // The aggregator
  // ---------------------------------------------------------------------------

  datatype Stats = Stats(
    signState: int, window: seq<int>, lastBlock: int,
    totalSigns: nat, totalProps: nat, totalMiss: nat, prevoteMiss: nat, precommitMiss: nat,
    consecutiveMiss: nat, totalPropsEmpty: nat, consecutiveEmpty: nat)

  function Counted(s: Stats, st: int, exclude: bool): Stats {
    if st == MISSED then s.(totalMiss := s.totalMiss + 1, consecutiveMiss := s.consecutiveMiss + 1)
    else if st == PRECOMMIT then
      s.(precommitMiss := s.precommitMiss + 1, totalMiss := s.totalMiss + 1,
         consecutiveMiss := if exclude then 0 else s.consecutiveMiss + 1)
    else if st == PREVOTE then
      s.(prevoteMiss := s.prevoteMiss + 1, totalMiss := s.totalMiss + 1,
         consecutiveMiss := if exclude then 0 else s.consecutiveMiss + 1)
    else if st == SIGNED then s.(totalSigns := s.totalSigns + 1, consecutiveMiss := 0)
    else if st == PROPOSED then
      s.(totalProps := s.totalProps + 1, totalSigns := s.totalSigns + 1, consecutiveMiss := 0, consecutiveEmpty := 0)
    else if st == PROPOSED_EMPTY then
      s.(totalPropsEmpty := s.totalPropsEmpty + 1, totalProps := s.totalProps + 1, totalSigns := s.totalSigns + 1,
         consecutiveMiss := 0, consecutiveEmpty := s.consecutiveEmpty + 1)
    else s
  }

  function Raised(signState: int, u: StatusUpdate, bonded: bool): int {
    if u.status > signState && bonded then u.status else signState
  }

  function Process(s: Stats, u: StatusUpdate, bonded: bool, exclude: bool): Stats
    requires s.window != []
  {
    var st := Raised(s.signState, u, bonded);
    if !u.final then s.(signState := st)
    else Counted(s, st, exclude).(signState := NONE, lastBlock := u.height, window := [st] + s.window[..|s.window| - 1])
  }

  /** Counting touches the counters only. */
  lemma CountedIsLocal(s: Stats, st: int, exclude: bool, signState: int, window: seq<int>, lastBlock: int)
    ensures Counted(s.(signState := signState, window := window, lastBlock := lastBlock), st, exclude)
         == Counted(s, st, exclude).(signState := signState, window := window, lastBlock := lastBlock)
  {
  }

  /** The statistics fields of a chain, updated by the result loop. */
  class SignStats {
    var signState: int
    var blocksResults: seq<int>
    var lastBlockNum: int
    var statTotalSigns: nat
    var statTotalProps: nat
    var statTotalMiss: nat
    var statPrevoteMiss: nat
    var statPrecommitMiss: nat
    var statConsecutiveMiss: nat
    var statTotalPropsEmpty: nat
    var statConsecutiveEmpty: nat
    var lastWarning: string

    ghost function View(): Stats
      reads this
    {
      Stats(signState, blocksResults, lastBlockNum, statTotalSigns, statTotalProps, statTotalMiss, statPrevoteMiss,
            statPrecommitMiss, statConsecutiveMiss, statTotalPropsEmpty, statConsecutiveEmpty)
    }

    constructor (window: seq<int>)
      ensures View() == Fresh(window)
    {
      signState, blocksResults, lastBlockNum := -1, window, 0;
      statTotalSigns, statTotalProps, statTotalMiss, statPrevoteMiss, statPrecommitMiss := 0, 0, 0, 0, 0;
      statConsecutiveMiss, statTotalPropsEmpty, statConsecutiveEmpty, lastWarning := 0, 0, 0, "";
    }

    /** One turn of the loop. The name of a miss is looked up by status, which is safe
        because a bonded validator's status is known by the time the block is final. */
    method Update(update: StatusUpdate, bonded: bool, excludePreactions: bool)
      requires blocksResults != [] && signState >= NONE && update.status >= MISSED
      modifies this
      ensures View() == Process(old(View()), update, bonded, excludePreactions)
      ensures lastWarning != old(lastWarning)
            ==> update.final && bonded && Raised(old(signState), update, bonded) < SIGNED
    {
      hide Counted;
      ghost var before := View();
      if update.status > signState && bonded {
        signState := update.status;
      }
      if update.final {
        lastBlockNum := update.height;
        blocksResults := [signState] + blocksResults[..|blocksResults| - 1];
        if signState < 3 && bonded {
          var missTypes := ["block", "precommit", "prevote"];
          lastWarning := missTypes[signState];
        }
        CountedIsLocal(before, signState, excludePreactions, signState, blocksResults, lastBlockNum);
        Tally(excludePreactions);
        signState := -1;
      }
    }

    method Tally(exclude: bool)
      modifies this`statTotalSigns, this`statTotalProps, this`statTotalMiss, this`statPrevoteMiss,
          this`statPrecommitMiss
      modifies this`statConsecutiveMiss, this`statTotalPropsEmpty, this`statConsecutiveEmpty
      ensures View() == Counted(old(View()), signState, exclude)
    {
      if signState == MISSED {
        statTotalMiss := statTotalMiss + 1;
        statConsecutiveMiss := statConsecutiveMiss + 1;
      } else if signState == PRECOMMIT {
        statPrecommitMiss := statPrecommitMiss + 1;
        statTotalMiss := statTotalMiss + 1;
        statConsecutiveMiss := if !exclude then statConsecutiveMiss + 1 else 0;
      } else if signState == PREVOTE {
        statPrevoteMiss := statPrevoteMiss + 1;
        statTotalMiss := statTotalMiss + 1;
        statConsecutiveMiss := if !exclude then statConsecutiveMiss + 1 else 0;
      } else if signState == SIGNED {
        statTotalSigns := statTotalSigns + 1;
        statConsecutiveMiss := 0;
      } else if signState == PROPOSED {
        statTotalProps := statTotalProps + 1;
        statTotalSigns := statTotalSigns + 1;
        statConsecutiveMiss := 0;
        statConsecutiveEmpty := 0;
      } else if signState == PROPOSED_EMPTY {
        statTotalPropsEmpty := statTotalPropsEmpty + 1;
        statTotalProps := statTotalProps + 1;
        statTotalSigns := statTotalSigns + 1;
        statConsecutiveMiss := 0;
        statConsecutiveEmpty := statConsecutiveEmpty + 1;
      }
    }
  }

  // ---------------------------------------------------------------------------
  // Whole histories
  // ---------------------------------------------------------------------------

  function Fresh(window: seq<int>): Stats {
    Stats(NONE, window, 0, 0, 0, 0, 0, 0, 0, 0, 0)
  }

  /** An update, with whether the validator was bonded when it arrived, or the loop being
      restarted by a new connection. */
  datatype Event = Arrived(u: StatusUpdate, bonded: bool) | Reconnected

  ghost predicate Final(e: Event) {
    e.Arrived? && e.u.final
  }

  ghost predicate Ranked(events: seq<Event>) {
    forall e | e in events && e.Arrived? :: MISSED <= e.u.status <= PROPOSED_EMPTY
  }

  ghost function Run(window: seq<int>, events: seq<Event>, exclude: bool): (s: Stats)
    requires window != []
    ensures |s.window| == |window|
  {
    if events == [] then Fresh(window)
    else
      var s := Run(window, events[..|events| - 1], exclude);
      match events[|events| - 1]
      case Arrived(u, bonded) => Process(s, u, bonded, exclude)
      case Reconnected => s.(signState := NONE)
  }

  /** Where the block in progress at position n began: after the last final update or
      reconnection before n. */
  ghost function Began(events: seq<Event>, n: nat): (q: nat)
    requires n <= |events|
    ensures q <= n
    ensures q == 0 || Final(events[q - 1]) || events[q - 1].Reconnected?
    ensures forall k | q <= k < n :: !Final(events[k]) && events[k].Arrived?
  {
    if n == 0 then 0
    else if Final(events[n - 1]) || events[n - 1].Reconnected? then n
    else Began(events, n - 1)
  }

  /** st is the highest status seen while bonded in events[q..n], or NONE if there was none. */
  ghost predicate IsBest(events: seq<Event>, q: nat, n: nat, st: int)
    requires q <= n <= |events|
  {
    && (forall k | q <= k < n && events[k].Arrived? && events[k].bonded :: events[k].u.status <= st)
    && (st == NONE || exists k :: q <= k < n && events[k].Arrived? && events[k].bonded && events[k].u.status == st)
  }

  /** The statuses recorded for the finalized blocks of a history, oldest first. */
  ghost predicate IsRecord(events: seq<Event>, record: seq<int>) {
    if events == [] then record == []
    else
      var n := |events| - 1;
      if Final(events[n]) then
        record != [] && IsRecord(events[..n], record[..|record| - 1])
            && IsBest(events, Began(events, n), n + 1, record[|record| - 1])
      else IsRecord(events[..n], record)
  }

  ghost function CountIf(record: seq<int>, p: int -> bool): nat {
    if record == [] then 0
    else CountIf(record[..|record| - 1], p) + if p(record[|record| - 1]) then 1 else 0
  }

  /** n is the length of the trailing run of statuses with p, looking only at those with
      relevant: the record splits so that everything relevant in its tail has p, and the
      last relevant status before the tail has not. */
  ghost predicate IsTrailingRun(record: seq<int>, relevant: int -> bool, p: int -> bool, n: nat) {
    exists k: nat :: SplitsAt(record, k, relevant, p, n)
  }

  ghost predicate SplitsAt(record: seq<int>, k: nat, relevant: int -> bool, p: int -> bool, n: nat) {
    && k <= |record|
    && (forall i | k <= i < |record| && relevant(record[i]) :: p(record[i]))
    && (k > 0 ==> relevant(record[k - 1]) && !p(record[k - 1]))
    && n == CountIf(record[k..], relevant)
  }

  ghost predicate IsMiss(exclude: bool, st: int) {
    if exclude then st == MISSED else MISSED <= st <= PRECOMMIT
  }

  ghost predicate Totals(s: Stats, record: seq<int>) {
    && s.totalSigns == CountIf(record, st => st >= SIGNED)
    && s.totalProps == CountIf(record, st => st >= PROPOSED)
    && s.totalPropsEmpty == CountIf(record, st => st == PROPOSED_EMPTY)
    && s.totalMiss == CountIf(record, st => MISSED <= st < SIGNED)
    && s.prevoteMiss == CountIf(record, st => st == PREVOTE)
    && s.precommitMiss == CountIf(record, st => st == PRECOMMIT)
  }

  ghost predicate Runs(s: Stats, record: seq<int>, exclude: bool) {
    && IsTrailingRun(record, st => st >= MISSED, st => IsMiss(exclude, st), s.consecutiveMiss)
    && IsTrailingRun(record, st => st >= PROPOSED, st => st == PROPOSED_EMPTY, s.consecutiveEmpty)
  }

  /** The newest results come first; what they push out is the oldest end of the window. */
  ghost predicate Shows(s: Stats, window: seq<int>, record: seq<int>) {
    && |s.window| == |window|
    && forall i | 0 <= i < |window| :: s.window[i] ==
         if i < |record| then record[|record| - 1 - i] else window[i - |record|]
  }

  lemma CountMore(record: seq<int>, st: int, p: int -> bool)
    ensures CountIf(record + [st], p) == CountIf(record, p) + if p(st) then 1 else 0
  {
    assert (record + [st])[..|record|] == record;
  }

  lemma TotalsStep(s: Stats, record: seq<int>, st: int, exclude: bool)
    requires Totals(s, record) && NONE <= st <= PROPOSED_EMPTY
    ensures Totals(Counted(s, st, exclude), record + [st])
  {
    CountMore(record, st, st => st >= SIGNED);
    CountMore(record, st, st => st >= PROPOSED);
    CountMore(record, st, st => st == PROPOSED_EMPTY);
    CountMore(record, st, st => MISSED <= st < SIGNED);
    CountMore(record, st, st => st == PREVOTE);
    CountMore(record, st, st => st == PRECOMMIT);
  }

  lemma TrailingStep(record: seq<int>, st: int, relevant: int -> bool, p: int -> bool, n: nat)
    requires IsTrailingRun(record, relevant, p, n)
    ensures IsTrailingRun(record + [st], relevant, p, if !relevant(st) then n else if p(st) then n + 1 else 0)
  {
    var k: nat :| SplitsAt(record, k, relevant, p, n);
    var r' := record + [st];
    if relevant(st) && !p(st) {
      assert r'[|r'|..] == [];
      assert SplitsAt(r', |r'|, relevant, p, 0);
    } else {
      CountMore(record[k..], st, relevant);
      assert r'[k..] == record[k..] + [st];
      assert forall i | k <= i < |r'| && relevant(r'[i]) :: p(r'[i]);
      assert k > 0 ==> r'[k - 1] == record[k - 1];
      assert SplitsAt(r', k, relevant, p, if relevant(st) then n + 1 else n);
    }
  }

  lemma RunsStep(s: Stats, record: seq<int>, st: int, exclude: bool)
    requires Runs(s, record, exclude) && NONE <= st <= PROPOSED_EMPTY
    ensures Runs(Counted(s, st, exclude), record + [st], exclude)
  {
    hide IsTrailingRun;
    TrailingStep(record, st, st => st >= MISSED, st => IsMiss(exclude, st), s.consecutiveMiss);
    TrailingStep(record, st, st => st >= PROPOSED, st => st == PROPOSED_EMPTY, s.consecutiveEmpty);
  }

  /** The status kept while a block is in progress is the best seen since it began. */
  lemma BestStep(events: seq<Event>, q: nat, n: nat, st: int)
    requires q <= n < |events| && events[n].Arrived? && events[n].u.status >= MISSED && st >= NONE
    requires IsBest(events, q, n, st)
    ensures IsBest(events, q, n + 1, Raised(st, events[n].u, events[n].bonded))
  {
    if !(events[n].u.status > st && events[n].bonded) && st != NONE {
      var k :| q <= k < n && events[k].Arrived? && events[k].bonded && events[k].u.status == st;
      assert q <= k < n + 1;
    }
  }

  lemma BeganMore(events: seq<Event>, more: seq<Event>, n: nat)
    requires n <= |events|
    ensures Began(events + more, n) == Began(events, n)
  {
  }

  lemma BestMore(events: seq<Event>, more: seq<Event>, q: nat, n: nat, st: int)
    requires q <= n <= |events|
    ensures IsBest(events + more, q, n, st) <==> IsBest(events, q, n, st)
  {
    assert forall k | q <= k < n :: (events + more)[k] == events[k];
    if IsBest(events, q, n, st) && st != NONE {
      var k :| q <= k < n && events[k].Arrived? && events[k].bonded && events[k].u.status == st;
      assert (events + more)[k] == events[k];
    }
    if IsBest(events + more, q, n, st) && st != NONE {
      var k :| q <= k < n && (events + more)[k].Arrived? && (events + more)[k].bonded
          && (events + more)[k].u.status == st;
      assert (events + more)[k] == events[k];
    }
  }

  ghost predicate Matches(s: Stats, window: seq<int>, events: seq<Event>, record: seq<int>, exclude: bool) {
    && IsRecord(events, record)
    && NONE <= s.signState <= PROPOSED_EMPTY && IsBest(events, Began(events, |events|), |events|, s.signState)
    && Totals(s, record) && Runs(s, record, exclude) && Shows(s, window, record)
  }

  lemma ArrivalStep(s: Stats, window: seq<int>, events: seq<Event>, e: Event, record: seq<int>, exclude: bool)
    requires window != [] && s.window != [] && Matches(s, window, events, record, exclude)
    requires e.Arrived? && MISSED <= e.u.status <= PROPOSED_EMPTY
    ensures var s', st := Process(s, e.u, e.bonded, exclude), Raised(s.signState, e.u, e.bonded);
      Matches(s', window, events + [e], if e.u.final then record + [st] else record, exclude)
  {
    hide Totals, Runs, Shows, Counted, IsRecord, IsBest, Began, Raised;
    var st := Raised(s.signState, e.u, e.bonded);
    ProgressStep(s.signState, events, e, record);
    if e.u.final {
      var s1 := Counted(s, st, exclude);
      TotalsStep(s, record, st, exclude);
      RunsStep(s, record, st, exclude);
      CountersOnly(s1, Process(s, e.u, e.bonded, exclude), record + [st], exclude);
      ShowsStep(s, window, record, st, exclude, e.u.height);
    } else {
      CountersOnly(s, s.(signState := st), record, exclude);
      assert Shows(s.(signState := st), window, record) by { SameWindow(s, s.(signState := st), window, record); }
    }
  }

  lemma SameWindow(s: Stats, s': Stats, window: seq<int>, record: seq<int>)
    requires Shows(s, window, record) && s'.window == s.window
    ensures Shows(s', window, record)
  {
  }

  /** The counter claims read nothing but the counters. */
  lemma CountersOnly(s: Stats, s': Stats, record: seq<int>, exclude: bool)
    requires Totals(s, record) && Runs(s, record, exclude)
    requires s' == s.(signState := s'.signState, lastBlock := s'.lastBlock, window := s'.window)
    ensures Totals(s', record) && Runs(s', record, exclude)
  {
    hide IsTrailingRun, CountIf;
  }

  lemma ShowsStep(s: Stats, window: seq<int>, record: seq<int>, st: int, exclude: bool, height: int)
    requires window != [] && Shows(s, window, record)
    ensures var shifted := [st] + s.window[..|s.window| - 1];
      Shows(Counted(s, st, exclude).(signState := NONE, lastBlock := height, window := shifted), window, record + [st])
  {
  }

  /** The record and the status of the block in progress. */
  lemma ProgressStep(signState: int, events: seq<Event>, e: Event, record: seq<int>)
    requires e.Arrived? && MISSED <= e.u.status <= PROPOSED_EMPTY && NONE <= signState <= PROPOSED_EMPTY
    requires IsRecord(events, record) && IsBest(events, Began(events, |events|), |events|, signState)
    ensures var st, events' := Raised(signState, e.u, e.bonded), events + [e];
      && NONE <= st <= PROPOSED_EMPTY
      && IsRecord(events', if e.u.final then record + [st] else record)
      && IsBest(events', Began(events', |events'|), |events'|, if e.u.final then NONE else st)
  {
    var n, events' := |events|, events + [e];
    var q, st := Began(events, n), Raised(signState, e.u, e.bonded);
    assert events'[..n] == events && events'[n] == e;
    BeganMore(events, [e], n);
    BestMore(events, [e], q, n, signState);
    BestStep(events', q, n, signState);
    hide IsBest;
    assert (record + [st])[..|record|] == record;
    NothingIsBest(events', |events'|);
  }

  lemma NothingIsBest(events: seq<Event>, n: nat)
    requires n <= |events|
    ensures IsBest(events, n, n, NONE)
  {
  }

  lemma ReconnectStep(s: Stats, window: seq<int>, events: seq<Event>, record: seq<int>, exclude: bool)
    requires Matches(s, window, events, record, exclude)
    ensures Matches(s.(signState := NONE), window, events + [Reconnected], record, exclude)
  {
    assert (events + [Reconnected])[..|events|] == events;
  }

  /** Over every history, with votes, blocks, bonding changes and reconnections in any
      order: the counters count the recorded statuses, the consecutive counters are their
      trailing runs, and the window shows the newest of them first. */
  lemma {:induction false} StatisticsMatchHistory(window: seq<int>, events: seq<Event>, exclude: bool)
      returns (record: seq<int>)
    requires window != [] && Ranked(events)
    ensures Matches(Run(window, events, exclude), window, events, record, exclude)
  {
    if events == [] {
      record := [];
      assert SplitsAt([], 0, st => st >= MISSED, st => IsMiss(exclude, st), 0);
      assert SplitsAt([], 0, st => st >= PROPOSED, st => st == PROPOSED_EMPTY, 0);
    } else {
      var rest, e := events[..|events| - 1], events[|events| - 1];
      assert events == rest + [e] && e in events;
      record := StatisticsMatchHistory(window, rest, exclude);
      var s := Run(window, rest, exclude);
      if e.Arrived? {
        ArrivalStep(s, window, rest, e, record, exclude);
        if e.u.final {
          record := record + [Raised(s.signState, e.u, e.bonded)];
        }
      } else {
        ReconnectStep(s, window, rest, record, exclude);
      }
    }
  }

  /** The record of a history is unique, so the statement above fixes every counter. */
  lemma {:induction false} RecordIsUnique(events: seq<Event>, r1: seq<int>, r2: seq<int>)
    requires Ranked(events) && IsRecord(events, r1) && IsRecord(events, r2)
    ensures r1 == r2
  {
    if events != [] {
      var n := |events| - 1;
      if Final(events[n]) {
        RecordIsUnique(events[..n], r1[..|r1| - 1], r2[..|r2| - 1]);
        BestIsUnique(events, Began(events, n), n + 1, r1[|r1| - 1], r2[|r2| - 1]);
        assert r1 == r1[..|r1| - 1] + [r1[|r1| - 1]];
        assert r2 == r2[..|r2| - 1] + [r2[|r2| - 1]];
      } else {
        RecordIsUnique(events[..n], r1, r2);
      }
    }
  }

  lemma BestIsUnique(events: seq<Event>, q: nat, n: nat, a: int, b: int)
    requires q <= n <= |events| && Ranked(events) && IsBest(events, q, n, a) && IsBest(events, q, n, b)
    ensures a == b
  {
    if a != NONE {
      var k :| q <= k < n && events[k].Arrived? && events[k].bonded && events[k].u.status == a;
      assert events[k] in events;
    }
    if b != NONE {
      var k :| q <= k < n && events[k].Arrived? && events[k].bonded && events[k].u.status == b;
      assert events[k] in events;
    }
  }

  /** While the validator stays bonded no finalized block is recorded as "nothing seen". */
  lemma BondedBlocksAreRecorded(events: seq<Event>, n: nat, st: int)
    requires n < |events| && Ranked(events) && Final(events[n]) && events[n].bonded
    requires IsBest(events, Began(events, n), n + 1, st)
    ensures events[n].u.status <= st <= PROPOSED_EMPTY
  {
    assert events[n] in events;
    if st != NONE {
      var k :| Began(events, n) <= k < n + 1 && events[k].Arrived? && events[k].bonded && events[k].u.status == st;
      assert events[k] in events;
    }
  }
}
