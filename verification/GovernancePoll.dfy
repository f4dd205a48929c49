/** Polling for open proposals the validator has not voted on. Single vote checks may
    fail; a failed check keeps what the last successful poll knew. */
module GovernancePoll {
  import opened Wrappers

  datatype Proposal = Proposal(id: nat, deadline: int)

  datatype VoteCheck = Voted | NotVoted | CheckFailed

  datatype Listing = Listing(proposal: Proposal, check: VoteCheck)

  /** The reply to the proposals query: no value, a value that does not decode, or a list. */
  datatype Reply = Failed | Undecodable | Decoded(listings: seq<Listing>)

  ghost predicate Has(unvoted: seq<Proposal>, pid: nat) {
    exists u | u in unvoted :: u.id == pid
  }

  ghost predicate Unvoted(l: Listing, previous: seq<Proposal>) {
    l.check.NotVoted? || (l.check.CheckFailed? && Has(previous, l.proposal.id))
  }

  ghost function Kept(listings: seq<Listing>, previous: seq<Proposal>): seq<Proposal> {
    if listings == [] then []
    else
      var rest, l := Kept(listings[..|listings| - 1], previous), listings[|listings| - 1];
      if Unvoted(l, previous) then rest + [l.proposal] else rest
  }

  /** The list keeps the order of the reply, and of each listing the whole proposal: an
      unvoted one, or one whose check failed and that was unvoted before. */
  lemma {:induction false} KeptInOrder(x: seq<Listing>, y: seq<Listing>, previous: seq<Proposal>)
    ensures Kept(x + y, previous) == Kept(x, previous) + Kept(y, previous)
    ensures |y| == 1 ==> Kept(y, previous) ==
                         if y[0].check.NotVoted?
                             || (y[0].check.CheckFailed? && exists u | u in previous :: u.id == y[0].proposal.id)
                         then [y[0].proposal] else []
  {
    if y == [] {
      assert x + y == x;
    } else {
      KeptInOrder(x, y[..|y| - 1], previous);
      assert (x + y)[..|x + y| - 1] == x + y[..|y| - 1];
      assert |y| == 1 ==> Kept(y[..|y| - 1], previous) == [];
    }
  }

  /** The new unvoted list, or None when the old one stays. A reply that does not decode
      counts as an empty list: the decoding error is lost to shadowing. */
  ghost function Polled(addressOk: bool, previous: seq<Proposal>, reply: Reply): Option<seq<Proposal>> {
    match reply
    case Failed => None
    case Undecodable => Some([])
    case Decoded(listings) => Some(if addressOk then Kept(listings, previous) else [])
  }

  /** The governance part of a chain and its provider. */
  class Poller {
    const addressOk: bool
    var unvotedOpenGovProposals: seq<Proposal>

    constructor (addressOk: bool)
      ensures this.addressOk == addressOk && unvotedOpenGovProposals == []
    {
      this.addressOk, unvotedOpenGovProposals := addressOk, [];
    }

    method WasPreviouslyUnvoted(pid: nat) returns (r: bool)
      ensures r == Has(unvotedOpenGovProposals, pid)
    {
      for i := 0 to |unvotedOpenGovProposals|
        invariant !Has(unvotedOpenGovProposals[..i], pid)
      {
        if unvotedOpenGovProposals[i].id == pid {
          return true;
        }
      }
      assert unvotedOpenGovProposals[..|unvotedOpenGovProposals|] == unvotedOpenGovProposals;
      return false;
    }

    method QueryUnvotedOpenProposals(reply: Reply) returns (r: Option<seq<Proposal>>)
      ensures r == Polled(addressOk, unvotedOpenGovProposals, reply)
    {
      match reply
      case Failed => r := None;
      case Undecodable => r := Some([]);
      case Decoded(listings) =>
        var unvoted: seq<Proposal> := [];
        for i := 0 to |listings|
          invariant unvoted == if addressOk then Kept(listings[..i], unvotedOpenGovProposals) else []
        {
          assert listings[..i + 1][..i] == listings[..i];
          if !addressOk {
            continue;
          }
          var hasVoted := listings[i].check.Voted?;
          if listings[i].check.CheckFailed? {
            var before := WasPreviouslyUnvoted(listings[i].proposal.id);
            hasVoted := !before;
          }
          if !hasVoted {
            unvoted := unvoted + [listings[i].proposal];
          }
        }
        assert listings[..|listings|] == listings;
        r := Some(unvoted);
    }

    /** The step of a validator refresh that replaces the list, on success only. */
    method Refresh(reply: Reply)
      modifies this
      ensures unvotedOpenGovProposals == Next(addressOk, old(unvotedOpenGovProposals), reply)
    {
      var r := QueryUnvotedOpenProposals(reply);
      if r.Some? {
        unvotedOpenGovProposals := r.value;
      }
    }
  }

  // ---------------------------------------------------------------------------
  // Sequences of polls
  // ---------------------------------------------------------------------------

  ghost function Next(addressOk: bool, unvoted: seq<Proposal>, reply: Reply): seq<Proposal> {
    var r := Polled(addressOk, unvoted, reply);
    if r.Some? then r.value else unvoted
  }

  /** The unvoted list after a sequence of polls from a fresh start. */
  ghost function UnvotedAfter(addressOk: bool, replies: seq<Reply>): seq<Proposal> {
    if replies == [] then []
        else Next(addressOk, UnvotedAfter(addressOk, replies[..|replies| - 1]), replies[|replies| - 1])
  }

  ghost predicate Member(addressOk: bool, replies: seq<Reply>, pid: nat) {
    Has(UnvotedAfter(addressOk, replies), pid)
  }

  ghost predicate Lists(r: Reply, pid: nat) {
    r.Decoded? && exists l | l in r.listings :: l.proposal.id == pid
  }

  ghost predicate Says(r: Reply, pid: nat, check: VoteCheck) {
    r.Decoded? && exists l | l in r.listings :: l.proposal.id == pid && l.check == check
  }

  /** A cast vote never reverts: once seen it is never seen missing. */
  ghost predicate VoteStays(replies: seq<Reply>, pid: nat) {
    forall i, j | 0 <= i <= j < |replies| && Says(replies[i], pid, Voted) :: !Says(replies[j], pid, NotVoted)
  }

  /** Among decoded replies the proposal is listed over one contiguous stretch. */
  ghost predicate OpenOnce(replies: seq<Reply>, pid: nat) {
    forall i, j, k | 0 <= i < j < k < |replies| && Lists(replies[i], pid) && replies[j].Decoded?
        && Lists(replies[k], pid) ::
      Lists(replies[j], pid)
  }

  /** The chain behaves: votes stay and the proposal is open over one stretch. */
  ghost predicate WellBehaved(replies: seq<Reply>, pid: nat) {
    VoteStays(replies, pid) && OpenOnce(replies, pid)
  }

  /** An undecodable reply arrives while the proposal is unvoted, and a later reply still
      says it is not voted on. */
  ghost predicate BlankedOut(addressOk: bool, replies: seq<Reply>, pid: nat) {
    exists m, n ::
      && 0 <= m < n < |replies| && replies[m].Undecodable?
      && Member(addressOk, replies[..m], pid) && Says(replies[n], pid, NotVoted)
  }

  /** Both carry over to the polls so far. */
  lemma PrefixBehaves(addressOk: bool, replies: seq<Reply>, n: nat, pid: nat)
    requires n <= |replies| && WellBehaved(replies, pid)
    ensures WellBehaved(replies[..n], pid)
    ensures BlankedOut(addressOk, replies[..n], pid) ==> BlankedOut(addressOk, replies, pid)
  {
    assert forall i | 0 <= i < n :: replies[..n][i] == replies[i];
    assert forall i | 0 <= i < n :: replies[..n][..i] == replies[..i];
  }

  lemma {:induction false} KeptHas(listings: seq<Listing>, previous: seq<Proposal>, pid: nat)
    ensures Has(Kept(listings, previous), pid)
          <==> exists l | l in listings :: l.proposal.id == pid && Unvoted(l, previous)
  {
    if listings != [] {
      var rest, l := listings[..|listings| - 1], listings[|listings| - 1];
      assert listings == rest + [l];
      KeptHas(rest, previous, pid);
      if Unvoted(l, previous) {
        assert l.proposal in Kept(listings, previous);
      }
    }
  }

  /** What one decoded reply does to membership. */
  lemma MemberStep(unvoted: seq<Proposal>, r: Reply, pid: nat)
    requires r.Decoded?
    ensures Has(Next(true, unvoted, r), pid)
          <==> Says(r, pid, NotVoted) || (Says(r, pid, CheckFailed) && Has(unvoted, pid))
    ensures Lists(r, pid) <==> Says(r, pid, Voted) || Says(r, pid, NotVoted) || Says(r, pid, CheckFailed)
  {
    KeptHas(r.listings, unvoted, pid);
  }

  /** The proposal is unvoted over more than one interval of polls. */
  ghost predicate Flaps(addressOk: bool, replies: seq<Reply>, pid: nat) {
    exists i, j, k ::
      && 0 <= i < j < k <= |replies|
      && Member(addressOk, replies[..i], pid) && !Member(addressOk, replies[..j], pid)
          && Member(addressOk, replies[..k], pid)
  }

  /** Membership that differs between two polls changes at some poll between them. */
  lemma {:induction false} ChangesAt(addressOk: bool, replies: seq<Reply>, pid: nat, i: nat, j: nat) returns (a: nat)
    requires i < j <= |replies| && Member(addressOk, replies[..i], pid) != Member(addressOk, replies[..j], pid)
    ensures i <= a < j
    ensures Member(addressOk, replies[..a], pid) == Member(addressOk, replies[..i], pid)
    ensures Member(addressOk, replies[..a + 1], pid) == Member(addressOk, replies[..j], pid)
  {
    hide Member;
    if Member(addressOk, replies[..j - 1], pid) == Member(addressOk, replies[..i], pid) {
      a := j - 1;
    } else {
      a := ChangesAt(addressOk, replies, pid, i, j - 1);
    }
  }

  /** What can take a proposal off the list, and what can put it there. */
  lemma ReasonToChange(replies: seq<Reply>, a: nat, pid: nat)
    requires a < |replies|
    ensures var r, before, after := replies[a], Member(true, replies[..a], pid), Member(true, replies[..a + 1], pid);
      && (before && !after ==> r.Undecodable? || (r.Decoded? && (Lists(r, pid) ==> Says(r, pid, Voted))))
      && (!before && after ==> Says(r, pid, NotVoted))
      && (Says(r, pid, NotVoted) ==> after)
      && (r.Undecodable? ==> !after)
  {
    assert replies[..a + 1][..a] == replies[..a];
    if replies[a].Decoded? {
      MemberStep(UnvotedAfter(true, replies[..a]), replies[a], pid);
    }
  }

  /** A proposal on the list was listed by a reply. */
  lemma {:induction false} MemberWasListed(replies: seq<Reply>, n: nat, pid: nat) returns (i: nat)
    requires n <= |replies| && Member(true, replies[..n], pid)
    ensures i < n && Lists(replies[i], pid)
  {
    assert replies[..0] == [];
    i := ChangesAt(true, replies, pid, 0, n);
    ReasonToChange(replies, i, pid);
  }

  /** Polling flaps exactly when an undecodable reply blanks out an unvoted proposal that is
      still reported as not voted on later, whatever single vote checks fail. */
  lemma FlapsOnlyIfBlankedOut(addressOk: bool, replies: seq<Reply>, pid: nat)
    requires WellBehaved(replies, pid)
    ensures Flaps(addressOk, replies, pid) <==> BlankedOut(addressOk, replies, pid)
  {
    if !addressOk {
      forall i | 0 <= i <= |replies| ensures !Member(false, replies[..i], pid) {
        NoAddressNoMembers(replies[..i]);
      }
    } else {
      if Flaps(true, replies, pid) {
        FlapIsBlankOut(replies, pid);
      }
      if BlankedOut(true, replies, pid) {
        var m, n :| 0 <= m < n < |replies| && replies[m].Undecodable?
                    && Member(true, replies[..m], pid) && Says(replies[n], pid, NotVoted);
        ReasonToChange(replies, m, pid);
        ReasonToChange(replies, n, pid);
        hide Member;
        assert m < m + 1 < n + 1;
      }
    }
  }

  lemma FlapIsBlankOut(replies: seq<Reply>, pid: nat)
    requires WellBehaved(replies, pid) && Flaps(true, replies, pid)
    ensures BlankedOut(true, replies, pid)
  {
    hide Member, Lists, Says;
    var i, j, k :| 0 <= i < j < k <= |replies|
                   && Member(true, replies[..i], pid) && !Member(true, replies[..j], pid)
                       && Member(true, replies[..k], pid);
    var a := ChangesAt(true, replies, pid, i, j);
    var b := ChangesAt(true, replies, pid, j, k);
    var l := MemberWasListed(replies, a, pid);
    ReasonToChange(replies, a, pid);
    ReasonToChange(replies, b, pid);
    NotVotedIsListed(replies[b], pid);
    if !replies[a].Undecodable? {
      assert false;
    }
  }

  lemma NotVotedIsListed(r: Reply, pid: nat)
    requires Says(r, pid, NotVoted)
    ensures Lists(r, pid)
  {
  }

  /** So without such a blank-out the proposal is unvoted over one interval at most. */
  lemma UnvotedOverOneInterval(addressOk: bool, replies: seq<Reply>, pid: nat, i: nat, j: nat, k: nat)
    requires WellBehaved(replies, pid) && !BlankedOut(addressOk, replies, pid) && i < j < k <= |replies|
    requires Member(addressOk, replies[..i], pid) && !Member(addressOk, replies[..j], pid)
    ensures !Member(addressOk, replies[..k], pid)
  {
    FlapsOnlyIfBlankedOut(addressOk, replies, pid);
  }

  /** With an address that does not convert, nothing is ever reported unvoted. */
  lemma {:induction false} NoAddressNoMembers(replies: seq<Reply>)
    ensures UnvotedAfter(false, replies) == []
  {
    if replies != [] {
      NoAddressNoMembers(replies[..|replies| - 1]);
    }
  }

  /** The smallest case: between two identical good replies one that does not decode empties
      the list, although nothing about the proposal has changed. */
  lemma UndecodableReplyFlaps(p: Proposal)
    ensures var open := Decoded([Listing(p, NotVoted)]);
      var replies := [open, Undecodable, open];
      WellBehaved(replies, p.id) && Flaps(true, replies, p.id)
  {
    var open := Decoded([Listing(p, NotVoted)]);
    var replies := [open, Undecodable, open];
    assert Listing(p, NotVoted) in open.listings;
    ReasonToChange(replies, 0, p.id);
    assert Says(replies[0], p.id, NotVoted) && Says(replies[2], p.id, NotVoted);
    assert Member(true, replies[..1], p.id);
    FlapsOnlyIfBlankedOut(true, replies, p.id);
  }
}
