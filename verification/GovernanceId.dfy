/** Governance alert ids: `UnvotedGovernanceProposal_<validator>_<proposal>_<deadline>`,
    and the older form without the deadline. */
module GovernanceId {
  import opened Decimal
  import opened AlertTypes
  import opened Wrappers

  /** Splits at every underscore; the result is never empty. */
  function Split(s: string): (r: seq<string>)
    ensures r != []
  {
    if s == [] then [[]]
    else
      var rest := Split(s[1..]);
      if s[0] == '_' then [[]] + rest else [[s[0]] + rest[0]] + rest[1..]
  }

  lemma SplitUnfold(s: string)
    requires s != []
    ensures var rest := Split(s[1..]); Split(s) == if s[0] == '_' then [[]] + rest else [[s[0]] + rest[0]] + rest[1..]
  {
  }

  lemma {:induction false} SplitAtUnderscore(a: string, b: string)
    ensures Split(a + "_" + b) == Split(a) + Split(b)
  {
    assert Split([]) == [[]];
    hide Split;
    var s := a + "_" + b;
    SplitUnfold(s);
    if a == [] {
      assert s[1..] == b;
    } else {
      SplitAtUnderscore(a[1..], b);
      assert s[1..] == a[1..] + "_" + b && s[0] == a[0];
      SplitUnfold(a);
      PrependToConcat(a[0], Split(a[1..]), Split(b));
    }
  }

  lemma PrependToConcat(c: char, x: seq<string>, y: seq<string>)
    requires x != []
    ensures [[]] + (x + y) == ([[]] + x) + y
    ensures [[c] + (x + y)[0]] + (x + y)[1..] == ([[c] + x[0]] + x[1..]) + y
  {
  }

  lemma {:induction false} SplitPlain(s: string)
    requires '_' !in s
    ensures Split(s) == [s]
  {
    if s != [] {
      SplitPlain(s[1..]);
      assert s[0] in s && s == [s[0]] + s[1..];
    }
  }

  function LastSegment(s: string): string {
    Split(s)[|Split(s)| - 1]
  }

  function AlertId(val: string, proposal: nat, deadline: int): string {
    GOVERNANCE + "_" + val + "_" + Itoa(proposal) + "_" + ItoaInt(deadline)
  }

  function LegacyId(val: string, proposal: nat): string {
    GOVERNANCE + "_" + val + "_" + Itoa(proposal)
  }

  datatype Parsed = Parsed(proposal: nat, deadline: Option<int>)

  /** What the resolve loop reads out of an alarm's id; None means it leaves the alarm alone. */
  function ParseId(id: string): Option<Parsed> {
    var parts := Split(id);
    if !HasPrefix(id, GOVERNANCE) || |parts| < 2 then None
    else
      var pid, dl := ParseUint(parts[|parts| - 2]), ParseInt(parts[|parts| - 1]);
      if pid.Some? && dl.Some? then Some(Parsed(pid.value, Some(dl.value)))
      else
        match ParseUint(parts[|parts| - 1])
        case None => None
        case Some(p) => Some(Parsed(p, None))
  }

  lemma PlainNumerals(n: nat, i: int)
    ensures '_' !in Itoa(n) && '_' !in ItoaInt(i)
  {
  }

  lemma Shape(val: string, proposal: nat)
    ensures Split(LegacyId(val, proposal)) == [GOVERNANCE] + Split(val) + [Itoa(proposal)]
    ensures HasPrefix(LegacyId(val, proposal), GOVERNANCE)
  {
    PlainNumerals(proposal, 0);
    hide Split, Itoa;
    SplitAtUnderscore(GOVERNANCE + "_" + val, Itoa(proposal));
    SplitAtUnderscore(GOVERNANCE, val);
    SplitPlain(GOVERNANCE);
    SplitPlain(Itoa(proposal));
  }

  /** The parser inverts the printer for every validator string, underscores and all. */
  lemma PrintedIdParses(val: string, proposal: nat, deadline: int)
    requires proposal <= MAX_UINT64 && MIN_INT64 <= deadline <= MAX_INT64
    ensures ParseId(AlertId(val, proposal, deadline)) == Some(Parsed(proposal, Some(deadline)))
  {
    SplitAtUnderscore(LegacyId(val, proposal), ItoaInt(deadline));
    Shape(val, proposal);
    PlainNumerals(proposal, deadline);
    SplitPlain(ItoaInt(deadline));
    UintRoundTrip(proposal);
    IntRoundTrip(deadline);
    hide ParseUint, ParseInt, Split;
    assert HasPrefix(AlertId(val, proposal, deadline), GOVERNANCE);
  }

  /** A legacy id gives its proposal back with no deadline, except exactly when the address
      ends in a segment that is itself a uint64 numeral and the proposal fits an int64: then
      that segment is taken for the proposal, and the proposal for a deadline. */
  lemma LegacyIdParses(val: string, proposal: nat)
    requires proposal <= MAX_UINT64
    ensures var confused := ParseUint(LastSegment(val)).Some? && proposal <= MAX_INT64;
      && (ParseId(LegacyId(val, proposal)) == Some(Parsed(proposal, None)) <==> !confused)
      && (confused ==>
            var segment := ParseUint(LastSegment(val)).value;
            ParseId(LegacyId(val, proposal)) == Some(Parsed(segment, Some(proposal))))
  {
    Shape(val, proposal);
    UintRoundTrip(proposal);
    IntRoundTrip(proposal);
    hide ParseUint, ParseInt, Split;
  }

  /** Two printed ids are equal only if every part of them is. */
  lemma PrintedIdsAreInjective(v: string, p: nat, d: int, w: string, q: nat, e: int)
    requires p <= MAX_UINT64 && MIN_INT64 <= d <= MAX_INT64 && q <= MAX_UINT64 && MIN_INT64 <= e <= MAX_INT64
    requires AlertId(v, p, d) == AlertId(w, q, e)
    ensures v == w && p == q && d == e
  {
    PrintedIdParses(v, p, d);
    PrintedIdParses(w, q, e);
    hide Itoa, ItoaInt, ParseId;
    var tail := "_" + Itoa(p) + "_" + ItoaInt(d);
    assert AlertId(v, p, d) == GOVERNANCE + "_" + v + tail;
    assert AlertId(w, q, e) == GOVERNANCE + "_" + w + tail;
    CutEnds(GOVERNANCE + "_", v, w, tail);
  }

  lemma CutEnds(head: string, v: string, w: string, tail: string)
    requires head + v + tail == head + w + tail
    ensures v == w
  {
    var s := head + v + tail;
    assert v == s[|head|..|head| + |v|];
    assert |v| == |w| && w == (head + w + tail)[|head|..|head| + |w|];
  }
}
