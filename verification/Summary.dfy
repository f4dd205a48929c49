/** The text summary of a digest: messages grouped by chain, firing before resolved. */
module Summary {
  import opened AlertTypes

  datatype Line = FiringHeader(chain: string) | ResolvedHeader(chain: string) | Item(msg: AlertMsg)

  /** The messages of one chain and kind, in input order. */
  ghost function Select(msgs: seq<AlertMsg>, chain: string, resolved: bool): seq<AlertMsg> {
    if msgs == [] then []
    else
      var m := msgs[|msgs| - 1];
      var rest := Select(msgs[..|msgs| - 1], chain, resolved);
      if m.chain == chain && m.resolved == resolved then rest + [m] else rest
  }

  /** The chains, each at the place of its first message. */
  ghost function FirstSeen(msgs: seq<AlertMsg>): seq<string> {
    if msgs == [] then []
    else
      var rest, c := FirstSeen(msgs[..|msgs| - 1]), msgs[|msgs| - 1].chain;
      if c in rest then rest else rest + [c]
  }

  ghost function Block(header: Line, msgs: seq<AlertMsg>): seq<Line> {
    if msgs == [] then [] else [header] + Items(msgs)
  }

  ghost function Items(msgs: seq<AlertMsg>): seq<Line> {
    seq(|msgs|, i requires 0 <= i < |msgs| => Item(msgs[i]))
  }

  ghost function Section(chain: string, msgs: seq<AlertMsg>): seq<Line> {
    Block(FiringHeader(chain), Select(msgs, chain, false)) + Block(ResolvedHeader(chain), Select(msgs, chain, true))
  }

  ghost function Layout(chains: seq<string>, msgs: seq<AlertMsg>): seq<Line> {
    if chains == [] then [] else Layout(chains[..|chains| - 1], msgs) + Section(chains[|chains| - 1], msgs)
  }

  function Lookup(m: map<string, seq<AlertMsg>>, chain: string): seq<AlertMsg> {
    if chain in m then m[chain] else []
  }

  lemma NoItems()
    ensures Items([]) == []
  {
  }

  lemma ItemsMore(msgs: seq<AlertMsg>, m: AlertMsg)
    ensures Items(msgs + [m]) == Items(msgs) + [Item(m)]
  {
  }

  method AppendItems(lines: seq<Line>, header: Line, msgs: seq<AlertMsg>) returns (r: seq<Line>)
    ensures r == lines + Block(header, msgs)
  {
    hide Items;
    r := lines;
    if |msgs| > 0 {
      r := r + [header];
      NoItems();
      assert msgs[..0] == [];
      for i := 0 to |msgs|
        invariant r == lines + [header] + Items(msgs[..i])
      {
        assert msgs[..i + 1] == msgs[..i] + [msgs[i]];
        ItemsMore(msgs[..i], msgs[i]);
        r := r + [Item(msgs[i])];
      }
      assert msgs[..|msgs|] == msgs;
      assert lines + [header] + Items(msgs) == lines + ([header] + Items(msgs));
    }
  }

  method AppendSection(lines: seq<Line>, c: string, firing: seq<AlertMsg>, resolved: seq<AlertMsg>,
                       ghost msgs: seq<AlertMsg>)
    returns (r: seq<Line>)
    requires firing == Select(msgs, c, false) && resolved == Select(msgs, c, true)
    ensures r == lines + Section(c, msgs)
  {
    hide Select, Block;
    r := AppendItems(lines, FiringHeader(c), firing);
    r := AppendItems(r, ResolvedHeader(c), resolved);
  }

  /** What the first pass has collected from the messages so far. */
  ghost predicate Grouped(msgs: seq<AlertMsg>, firing: map<string, seq<AlertMsg>>,
                          resolved: map<string, seq<AlertMsg>>) {
    forall c :: Lookup(firing, c) == Select(msgs, c, false) && Lookup(resolved, c) == Select(msgs, c, true)
  }

  lemma GroupOneMore(msgs: seq<AlertMsg>, m: AlertMsg, firing: map<string, seq<AlertMsg>>,
                     resolved: map<string, seq<AlertMsg>>)
    requires Grouped(msgs, firing, resolved)
    ensures m.resolved ==> Grouped(msgs + [m], firing, resolved[m.chain := Lookup(resolved, m.chain) + [m]])
    ensures !m.resolved ==> Grouped(msgs + [m], firing[m.chain := Lookup(firing, m.chain) + [m]], resolved)
  {
    assert (msgs + [m])[..|msgs|] == msgs;
    forall c, r ensures Select(msgs + [m], c, r) ==
        if m.chain == c && m.resolved == r then Select(msgs, c, r) + [m] else Select(msgs, c, r) {
    }
    hide Select;
  }

  method Group(msgs: seq<AlertMsg>)
    returns (firing: map<string, seq<AlertMsg>>, resolved: map<string, seq<AlertMsg>>, chainOrder: seq<string>,
          nf: nat, nr: nat)
    ensures Grouped(msgs, firing, resolved) && chainOrder == FirstSeen(msgs)
    ensures nf == CountFiring(msgs) && nf + nr == |msgs|
  {
    hide Grouped, Lookup;
    firing, resolved, chainOrder, nf, nr := map[], map[], [], 0, 0;
    GroupNone();
    var seen: set<string> := {};
    for i := 0 to |msgs|
      invariant chainOrder == FirstSeen(msgs[..i]) && forall c :: c in seen <==> c in chainOrder
      invariant Grouped(msgs[..i], firing, resolved)
      invariant nf == CountFiring(msgs[..i]) && nf + nr == i
    {
      var m := msgs[i];
      assert msgs[..i + 1] == msgs[..i] + [m] && msgs[..i + 1][..i] == msgs[..i];
      GroupOneMore(msgs[..i], m, firing, resolved);
      if m.chain !in seen {
        seen := seen + {m.chain};
        chainOrder := chainOrder + [m.chain];
      }
      if m.resolved {
        resolved := resolved[m.chain := Lookup(resolved, m.chain) + [m]];
        nr := nr + 1;
      } else {
        firing := firing[m.chain := Lookup(firing, m.chain) + [m]];
        nf := nf + 1;
      }
    }
    assert msgs[..|msgs|] == msgs;
  }

  lemma GroupNone()
    ensures Grouped([], map[], map[])
  {
  }

  method DigestSummary(msgs: seq<AlertMsg>) returns (firing: nat, resolved: nat, lines: seq<Line>)
    ensures lines == Layout(FirstSeen(msgs), msgs)
    ensures firing == CountFiring(msgs) && firing + resolved == |msgs|
  {
    var firingByChain, resolvedByChain, chainOrder, nf, nr := Group(msgs);
    firing, resolved, lines := nf, nr, [];
    hide Section, Select, FirstSeen, CountFiring, Lookup;
    for k := 0 to |chainOrder|
      invariant lines == Layout(chainOrder[..k], msgs)
    {
      var c := chainOrder[k];
      lines := AppendSection(lines, c, Lookup(firingByChain, c), Lookup(resolvedByChain, c), msgs);
      assert chainOrder[..k + 1][..k] == chainOrder[..k];
    }
    assert chainOrder[..|chainOrder|] == chainOrder;
  }

  /** The number of messages that are not resolved. */
  ghost function CountFiring(msgs: seq<AlertMsg>): (n: nat)
    ensures n <= |msgs|
  {
    if msgs == [] then 0
    else CountFiring(msgs[..|msgs| - 1]) + if msgs[|msgs| - 1].resolved then 0 else 1
  }

  // ---------------------------------------------------------------------------

  /** c occurs among the messages. */
  ghost predicate Occurs(msgs: seq<AlertMsg>, c: string) {
    exists p :: 0 <= p < |msgs| && msgs[p].chain == c
  }

  /** c has a message before the first message of d. */
  ghost predicate Before(msgs: seq<AlertMsg>, c: string, d: string) {
    forall q | 0 <= q < |msgs| && msgs[q].chain == d :: Occurs(msgs[..q], c)
  }

  lemma OccursMore(msgs: seq<AlertMsg>, m: AlertMsg, c: string)
    ensures Occurs(msgs + [m], c) <==> Occurs(msgs, c) || c == m.chain
  {
    if Occurs(msgs, c) {
      var p :| 0 <= p < |msgs| && msgs[p].chain == c;
      assert (msgs + [m])[p].chain == c;
    }
    assert (msgs + [m])[|msgs|] == m;
  }

  lemma BeforeMore(msgs: seq<AlertMsg>, m: AlertMsg, c: string, d: string)
    requires Before(msgs, c, d) && Occurs(msgs, c)
    ensures Before(msgs + [m], c, d)
  {
    forall q | 0 <= q < |msgs + [m]| && (msgs + [m])[q].chain == d ensures Occurs((msgs + [m])[..q], c) {
      assert (msgs + [m])[..q] == msgs[..q];
      assert msgs[..|msgs|] == msgs;
    }
  }

  /** Chain order: no repeats, exactly the chains that occur, and an earlier chain has a
      message before the first message of any later one. */
  lemma {:induction false} ChainOrder(msgs: seq<AlertMsg>)
    ensures var cs := FirstSeen(msgs);
      && (forall i, j | 0 <= i < j < |cs| :: cs[i] != cs[j])
      && (forall c :: c in cs <==> Occurs(msgs, c))
      && (forall i, j | 0 <= i < j < |cs| :: Before(msgs, cs[i], cs[j]))
  {
    if msgs != [] {
      var rest, m := msgs[..|msgs| - 1], msgs[|msgs| - 1];
      assert msgs == rest + [m];
      ChainOrder(rest);
      var ds, cs := FirstSeen(rest), FirstSeen(msgs);
      forall c ensures c in cs <==> Occurs(msgs, c) {
        OccursMore(rest, m, c);
      }
      forall i, j | 0 <= i < j < |cs| ensures Before(msgs, cs[i], cs[j]) {
        assert cs[i] == ds[i] && ds[i] in ds && Occurs(rest, ds[i]);
        if j == |ds| {
          assert cs[j] !in ds && !Occurs(rest, cs[j]);
        }
        BeforeMore(rest, m, cs[i], cs[j]);
      }
    }
  }

  /** The messages among the lines. */
  ghost function Shown(lines: seq<Line>): seq<AlertMsg> {
    if lines == [] then []
    else Shown(lines[..|lines| - 1]) + if lines[|lines| - 1].Item? then [lines[|lines| - 1].msg] else []
  }

  lemma {:induction false} ShownConcat(a: seq<Line>, b: seq<Line>)
    ensures Shown(a + b) == Shown(a) + Shown(b)
  {
    if b == [] {
      assert a + b == a;
    } else {
      ShownConcat(a, b[..|b| - 1]);
      assert (a + b)[..|a + b| - 1] == a + b[..|b| - 1];
    }
  }

  lemma {:induction false} ShownItems(msgs: seq<AlertMsg>)
    ensures Shown(Items(msgs)) == msgs
  {
    if msgs != [] {
      ShownItems(msgs[..|msgs| - 1]);
      assert Items(msgs)[..|msgs| - 1] == Items(msgs[..|msgs| - 1]);
    }
  }

  lemma ShownBlock(header: Line, msgs: seq<AlertMsg>)
    requires !header.Item?
    ensures Shown(Block(header, msgs)) == msgs
  {
    if msgs != [] {
      ShownConcat([header], Items(msgs));
      ShownItems(msgs);
      assert [header][..0] == [];
    }
  }

  lemma {:induction false} SelectCounts(msgs: seq<AlertMsg>, chain: string, resolved: bool, m: AlertMsg)
    ensures multiset(Select(msgs, chain, resolved))[m] ==
          if m.chain == chain && m.resolved == resolved then multiset(msgs)[m] else 0
  {
    if msgs != [] {
      SelectCounts(msgs[..|msgs| - 1], chain, resolved, m);
      assert msgs == msgs[..|msgs| - 1] + [msgs[|msgs| - 1]];
    }
  }

  /** Within a chain, a firing line never follows a resolved one, and lines of one kind keep
      the order of the input. */
  lemma SectionOrder(chain: string, msgs: seq<AlertMsg>)
    ensures Shown(Section(chain, msgs)) == Select(msgs, chain, false) + Select(msgs, chain, true)
  {
    ShownConcat(Block(FiringHeader(chain), Select(msgs, chain, false)),
        Block(ResolvedHeader(chain), Select(msgs, chain, true)));
    ShownBlock(FiringHeader(chain), Select(msgs, chain, false));
    ShownBlock(ResolvedHeader(chain), Select(msgs, chain, true));
  }

  /** The lines of a section: each header over the messages of its kind, and no header over
      none. */
  lemma SectionLines(chain: string, msgs: seq<AlertMsg>)
    ensures var f, r, lines := Select(msgs, chain, false), Select(msgs, chain, true), Section(chain, msgs);
      var n := if f == [] then 0 else 1 + |f|;
      && |lines| == n + (if r == [] then 0 else 1 + |r|)
      && (f != [] ==> lines[0] == FiringHeader(chain))
      && (forall i | 0 <= i < |f| :: lines[1 + i] == Item(f[i]))
      && (r != [] ==> lines[n] == ResolvedHeader(chain))
      && (forall i | 0 <= i < |r| :: lines[n + 1 + i] == Item(r[i]))
  {
    hide Select;
  }

  /** Selecting keeps the order of the input. */
  lemma {:induction false} SelectOfBoth(a: seq<AlertMsg>, b: seq<AlertMsg>, chain: string, resolved: bool)
    ensures Select(a + b, chain, resolved) == Select(a, chain, resolved) + Select(b, chain, resolved)
    ensures |b| == 1 ==>
              Select(b, chain, resolved) == if b[0].chain == chain && b[0].resolved == resolved then b else []
  {
    if b == [] {
      assert a + b == a;
    } else {
      SelectOfBoth(a, b[..|b| - 1], chain, resolved);
      assert (a + b)[..|a + b| - 1] == a + b[..|b| - 1];
      assert |b| == 1 ==> Select(b[..|b| - 1], chain, resolved) == [];
    }
  }

  /** The sections stand in the order of the chains. */
  lemma {:induction false} LayoutOfBoth(a: seq<string>, b: seq<string>, msgs: seq<AlertMsg>)
    ensures Layout(a + b, msgs) == Layout(a, msgs) + Layout(b, msgs)
    ensures |b| == 1 ==> Layout(b, msgs) == Section(b[0], msgs)
  {
    hide Section;
    if b == [] {
      assert a + b == a;
    } else {
      LayoutOfBoth(a, b[..|b| - 1], msgs);
      assert (a + b)[..|a + b| - 1] == a + b[..|b| - 1];
      assert |b| == 1 ==> Layout(b[..|b| - 1], msgs) == [];
    }
  }

  lemma {:induction false} FiringIsCounted(msgs: seq<AlertMsg>)
    ensures CountFiring(msgs) == |set i | 0 <= i < |msgs| && !msgs[i].resolved|
  {
    if msgs != [] {
      var n := |msgs| - 1;
      FiringIsCounted(msgs[..n]);
      var before := set i | 0 <= i < |msgs[..n]| && !msgs[..n][i].resolved;
      var all := set i | 0 <= i < |msgs| && !msgs[i].resolved;
      assert all == if msgs[n].resolved then before else before + {n};
    }
  }

  lemma SectionCounts(chain: string, msgs: seq<AlertMsg>, m: AlertMsg)
    ensures multiset(Shown(Section(chain, msgs)))[m] == if m.chain == chain then multiset(msgs)[m] else 0
  {
    hide Shown, Select, Section;
    SelectCounts(msgs, chain, false, m);
    SelectCounts(msgs, chain, true, m);
    SectionOrder(chain, msgs);
  }

  lemma LayoutMore(chains: seq<string>, msgs: seq<AlertMsg>)
    requires chains != []
    ensures var rest, c := chains[..|chains| - 1], chains[|chains| - 1];
      Shown(Layout(chains, msgs)) == Shown(Layout(rest, msgs)) + Shown(Section(c, msgs))
  {
    hide Shown, Section;
    ShownConcat(Layout(chains[..|chains| - 1], msgs), Section(chains[|chains| - 1], msgs));
  }

  lemma {:induction false} ShownLayout(chains: seq<string>, msgs: seq<AlertMsg>, m: AlertMsg)
    requires forall i, j | 0 <= i < j < |chains| :: chains[i] != chains[j]
    ensures multiset(Shown(Layout(chains, msgs)))[m] == if m.chain in chains then multiset(msgs)[m] else 0
  {
    if chains == [] {
      assert Shown(Layout(chains, msgs)) == [];
    } else {
      hide Shown, Layout, Section;
      var rest, c := chains[..|chains| - 1], chains[|chains| - 1];
      assert chains == rest + [c] && c !in rest;
      ShownLayout(rest, msgs, m);
      SectionCounts(c, msgs, m);
      LayoutMore(chains, msgs);
    }
  }

  /** Every message is shown exactly as often as it occurs in the input. */
  lemma SummaryConserves(msgs: seq<AlertMsg>)
    ensures multiset(Shown(Layout(FirstSeen(msgs), msgs))) == multiset(msgs)
  {
    ChainOrder(msgs);
    forall m ensures multiset(Shown(Layout(FirstSeen(msgs), msgs)))[m] == multiset(msgs)[m] {
      ShownLayout(FirstSeen(msgs), msgs, m);
      if m in msgs {
        assert Occurs(msgs, m.chain);
      }
    }
  }
}
