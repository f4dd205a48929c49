/** Digest mode: notifications are gated when they are enqueued and sent in batches,
    one per destination, at the next flush. */
module Digest {
  import opened AlertTypes
  import opened Notify
  import opened Dispatch

  type Buckets = map<string, seq<AlertMsg>>

  /** The channels that are batched, in the order `enqueue` tries them. */
  const BATCHED: seq<Dest> := [Di, Tg, Slk, Wh]

  /** The bucket a message goes to on channel d. */
  function Key(msg: AlertMsg, d: Dest): string {
    var c := msg.alertConfig;
    match d
    case Pd => c.pdKey
    case Di => c.discHook
    case Tg => c.tgKey + "|" + c.tgChannel
    case Slk => c.slkHook
    case Wh => c.whURL
  }

  function Bucket(b: Buckets, key: string): seq<AlertMsg> {
    if key in b then b[key] else []
  }

  function Append(b: Buckets, key: string, msg: AlertMsg): Buckets {
    b[key := Bucket(b, key) + [msg]]
  }

  /** A combined message for a non-empty bucket, sent to the first message's address. */
  datatype Batch = Batch(dest: Dest, key: string, addr: Address, msgs: seq<AlertMsg>)

  /** The batches for one bucket, joined in the order they were sent. */
  function Flushed(sent: seq<Batch>, d: Dest, key: string): seq<AlertMsg> {
    if sent == [] then []
    else
      var b := sent[|sent| - 1];
      Flushed(sent[..|sent| - 1], d, key) + if b.dest == d && b.key == key then b.msgs else []
  }

  class Digester {
    const alarms: AlarmCache
    const reminderHours: int
    var disc: Buckets
    var tg: Buckets
    var slk: Buckets
    var wh: Buckets
    var outbox: seq<Batch>

    constructor (alarms: AlarmCache, reminderHours: int)
      ensures this.alarms == alarms && this.reminderHours == reminderHours && outbox == []
      ensures forall d, key :: Bucket(Buffer(d), key) == []
    {
      this.alarms, this.reminderHours := alarms, reminderHours;
      disc, tg, slk, wh, outbox := map[], map[], map[], map[], [];
    }

    function Buffer(d: Dest): Buckets
      reads this
    {
      match d
      case Pd => map[]
      case Di => disc
      case Tg => tg
      case Slk => slk
      case Wh => wh
    }

    /** Everything a destination has been or will be sent, oldest first. */
    ghost function Stream(d: Dest, key: string): seq<AlertMsg>
      reads this
    {
      Flushed(outbox, d, key) + Bucket(Buffer(d), key)
    }

    method Buffered(d: Dest, msg: AlertMsg)
      requires !d.Pd?
      modifies this`disc, this`tg, this`slk, this`wh
      ensures forall e: Dest :: Buffer(e) == if e == d then Append(old(Buffer(e)), Key(msg, d), msg) else old(Buffer(e))
    {
      match d
      case Di => disc := Append(disc, msg.alertConfig.discHook, msg);
      case Tg => tg := Append(tg, msg.alertConfig.tgKey + "|" + msg.alertConfig.tgChannel, msg);
      case Slk => slk := Append(slk, msg.alertConfig.slkHook, msg);
      case Wh => wh := Append(wh, msg.alertConfig.whURL, msg);
    }

    /** One channel's turn in `enqueue`. */
    method Admit(d: Dest, msg: AlertMsg, now: Time)
      requires !d.Pd?
      modifies this`disc, this`tg, this`slk, this`wh, alarms
      ensures alarms.View() == Gate(old(alarms.View()), msg, d, now, reminderHours)
      ensures forall e: Dest, key ::
        Bucket(Buffer(e), key)
            == old(Bucket(Buffer(e), key)) + Buffers(old(alarms.View()), msg, d, e, key, now, reminderHours)
    {
      hide After, Judge, Digester.Buffer, AddressOf;
      if !msg.Wants(d) {
        return;
      }
      var ok := alarms.ShouldNotify(msg, d, now, reminderHours);
      if !ok {
        return;
      }
      if d == Wh && msg.resolved && msg.alertConfig.whDisableResolve {
        return;
      }
      Buffered(d, msg);
    }

    method Enqueue(msg: AlertMsg, now: Time)
      modifies this`disc, this`tg, this`slk, this`wh, alarms
      ensures alarms.View() == PlainGates(old(alarms.View()), msg, BATCHED, now, reminderHours)
      ensures forall e: Dest, key ::
        Stream(e, key) == old(Stream(e, key))
            + PlainBuffers(old(alarms.View()), msg, BATCHED, e, key, now, reminderHours)
    {
      hide Gate, Buffers, Flushed, Bucket, Digester.Buffer;
      ghost var a0 := alarms.View();
      Admit(Di, msg, now);
      NextPlain(a0, msg, Di, [Tg, Slk, Wh], now, reminderHours);
      ghost var a1 := alarms.View();
      Admit(Tg, msg, now);
      NextPlain(a1, msg, Tg, [Slk, Wh], now, reminderHours);
      ghost var a2 := alarms.View();
      Admit(Slk, msg, now);
      NextPlain(a2, msg, Slk, [Wh], now, reminderHours);
      ghost var a3 := alarms.View();
      Admit(Wh, msg, now);
      NextPlain(a3, msg, Wh, [], now, reminderHours);
    }

    /** Sends one batch per non-empty bucket, in no particular order. */
    method SendAll(buckets: Buckets, d: Dest)
      modifies this`outbox
      ensures old(outbox) <= outbox
      ensures OnePerBucket(outbox[|old(outbox)|..], d, buckets)
      ensures forall e, key :: Flushed(outbox, e, key) == old(Flushed(outbox, e, key)) +
                if e == d then Bucket(buckets, key) else []
    {
      hide OnePerBucket, AddressOf, Flushed, Bucket;
      var keys := buckets.Keys;
      assert buckets - keys == map[];
      NoneSent(d);
      assert outbox[|outbox|..] == [];
      forall key | key !in keys ensures Bucket(buckets, key) == [] {
        NoBucket(buckets, key);
      }
      while keys != {}
        invariant keys <= buckets.Keys
        invariant old(outbox) <= outbox
        invariant OnePerBucket(outbox[|old(outbox)|..], d, buckets - keys)
        invariant forall e, key ::
          Flushed(outbox, e, key) == old(Flushed(outbox, e, key)) +
              if e == d && key !in keys then Bucket(buckets, key) else []
        decreases |keys|
      {
        var key :| key in keys;
        var msgs := buckets[key];
        ABucket(buckets, key);
        ghost var before, done := outbox, buckets - keys;
        if msgs != [] {
          var batch := Batch(d, key, AddressOf(msgs[0], d), msgs);
          outbox := outbox + [batch];
          FlushedMore(before, batch);
          assert outbox[|old(outbox)|..] == before[|old(outbox)|..] + [batch];
        }
        BucketSent(before[|old(outbox)|..], d, done, key, msgs);
        keys := keys - {key};
        assert buckets - keys == done[key := msgs];
      }
      assert buckets - {} == buckets;
    }

    /** Swaps every buffer for an empty one, then sends what was in them: for every destination
        one batch of all its bucket holds, or none if that is nothing. */
    method Flush()
      modifies this
      ensures forall e, key :: Bucket(Buffer(e), key) == []
      ensures forall e: Dest, key :: Stream(e, key) == old(Stream(e, key))
      ensures old(outbox) <= outbox
      ensures forall b | b in outbox[|old(outbox)|..] :: Headed(b) && b.msgs == Bucket(old(Buffer(b.dest)), b.key)
      ensures forall i, j | |old(outbox)| <= i < j < |outbox| ::
        outbox[i].dest != outbox[j].dest || outbox[i].key != outbox[j].key
      ensures forall e: Dest, key | Bucket(old(Buffer(e)), key) != [] ::
        HasBatch(outbox[|old(outbox)|..], e, key)
    {
      hide Flushed, AddressOf, OnePerBucket, HasBatch;
      var d0, t0, s0, w0 := disc, tg, slk, wh;
      ghost var o0 := outbox;
      disc, tg, slk, wh := map[], map[], map[], map[];
      SendAll(d0, Di);
      ghost var o1 := outbox;
      SendAll(t0, Tg);
      ghost var o2 := outbox;
      SendAll(s0, Slk);
      ghost var o3 := outbox;
      SendAll(w0, Wh);
      forall e: Dest, key ensures Stream(e, key) == old(Stream(e, key)) {
      }
      ghost var n0, n1, n2, n3 := o1[|o0|..], o2[|o1|..], o3[|o2|..], outbox[|o3|..];
      assert outbox == o0 + (n0 + n1 + n2 + n3);
      AllSent(n0, n1, n2, n3, d0, t0, s0, w0);
      assert outbox[|o0|..] == n0 + n1 + n2 + n3;
    }
  }

  /** The batches are for channel d: one for each non-empty bucket, of all that is in it, to
      the first message's address. */
  ghost predicate OnePerBucket(batches: seq<Batch>, d: Dest, buckets: Buckets) {
    && (forall i | 0 <= i < |batches| ::
          batches[i].dest == d && Headed(batches[i]) && batches[i].msgs == Bucket(buckets, batches[i].key))
    && (forall i, j | 0 <= i < j < |batches| :: batches[i].key != batches[j].key)
    && (forall key | Bucket(buckets, key) != [] :: HasBatch(batches, d, key))
  }

  ghost predicate HasBatch(batches: seq<Batch>, d: Dest, key: string) {
    exists i :: 0 <= i < |batches| && batches[i].dest == d && batches[i].key == key
  }

  lemma NoneSent(d: Dest)
    ensures OnePerBucket([], d, map[])
  {
  }

  lemma NoBucket(buckets: Buckets, key: string)
    requires key !in buckets
    ensures Bucket(buckets, key) == []
  {
  }

  lemma ABucket(buckets: Buckets, key: string)
    requires key in buckets
    ensures Bucket(buckets, key) == buckets[key]
  {
  }

  lemma FlushedMore(sent: seq<Batch>, b: Batch)
    ensures forall e, key ::
      Flushed(sent + [b], e, key) == Flushed(sent, e, key) + if b.dest == e && b.key == key then b.msgs else []
  {
    assert (sent + [b])[..|sent|] == sent;
  }

  lemma BucketSent(batches: seq<Batch>, d: Dest, buckets: Buckets, key: string, msgs: seq<AlertMsg>)
    requires OnePerBucket(batches, d, buckets) && key !in buckets
    ensures OnePerBucket(if msgs == [] then batches else batches + [Batch(d, key, AddressOf(msgs[0], d), msgs)], d,
                         buckets[key := msgs])
  {
    var more := if msgs == [] then batches else batches + [Batch(d, key, AddressOf(msgs[0], d), msgs)];
    var buckets' := buckets[key := msgs];
    assert msgs != [] ==> Headed(more[|batches|]);
    hide Headed, HasBatch;
    forall i | 0 <= i < |batches| ensures more[i] == batches[i] && batches[i].key in buckets {
      InBucket(batches, d, buckets, i);
    }
    forall k | Bucket(buckets', k) != [] ensures HasBatch(more, d, k) {
      if k != key {
        assert Bucket(buckets, k) == Bucket(buckets', k);
        BatchStays(batches, more[|batches|..], d, k);
        assert more == batches + more[|batches|..];
      } else {
        LastBatch(batches, more[|batches|], d, key);
      }
    }
  }

  lemma InBucket(batches: seq<Batch>, d: Dest, buckets: Buckets, i: nat)
    requires OnePerBucket(batches, d, buckets) && i < |batches|
    ensures batches[i].key in buckets
  {
    assert Headed(batches[i]);
  }

  lemma BatchStays(batches: seq<Batch>, more: seq<Batch>, d: Dest, key: string)
    requires HasBatch(batches, d, key)
    ensures HasBatch(batches + more, d, key)
  {
    var i :| 0 <= i < |batches| && batches[i].dest == d && batches[i].key == key;
    assert (batches + more)[i] == batches[i];
  }

  lemma LastBatch(batches: seq<Batch>, b: Batch, d: Dest, key: string)
    requires b.dest == d && b.key == key
    ensures HasBatch(batches + [b], d, key)
  {
    assert (batches + [b])[|batches|] == b;
  }

  /** What the four channels are sent, together. */
  lemma AllSent(n0: seq<Batch>, n1: seq<Batch>, n2: seq<Batch>, n3: seq<Batch>, d0: Buckets, t0: Buckets, s0: Buckets,
                w0: Buckets)
    requires OnePerBucket(n0, Di, d0) && OnePerBucket(n1, Tg, t0) && OnePerBucket(n2, Slk, s0)
          && OnePerBucket(n3, Wh, w0)
    ensures var all := n0 + n1 + n2 + n3;
      && (forall i | 0 <= i < |all| ::
            Headed(all[i]) && !all[i].dest.Pd? && all[i].msgs == Bucket(Held(all[i].dest, d0, t0, s0, w0), all[i].key))
      && (forall i, j | 0 <= i < j < |all| :: all[i].dest != all[j].dest || all[i].key != all[j].key)
      && (forall e, key | Bucket(Held(e, d0, t0, s0, w0), key) != [] :: HasBatch(all, e, key))
  {
    hide Headed;
    var all := n0 + n1 + n2 + n3;
    SentAmong([], n0, n1 + n2 + n3);
    SentAmong(n0, n1, n2 + n3);
    SentAmong(n0 + n1, n2, n3);
    SentAmong(n0 + n1 + n2, n3, []);
    assert all == [] + n0 + (n1 + n2 + n3) == n0 + n1 + (n2 + n3) == n0 + n1 + n2 + n3 + [];
    hide HasBatch;
  }

  lemma SentAmong(a: seq<Batch>, b: seq<Batch>, c: seq<Batch>)
    ensures forall d, key | HasBatch(b, d, key) :: HasBatch(a + b + c, d, key)
  {
    forall d, key | HasBatch(b, d, key) ensures HasBatch(a + b + c, d, key) {
      var i :| 0 <= i < |b| && b[i].dest == d && b[i].key == key;
      assert (a + b + c)[|a| + i] == b[i];
    }
  }

  function Held(e: Dest, d0: Buckets, t0: Buckets, s0: Buckets, w0: Buckets): Buckets {
    match e
    case Pd => map[]
    case Di => d0
    case Tg => t0
    case Slk => s0
    case Wh => w0
  }

  /** Digest mode: PagerDuty at once, the other channels through the digester. */
  method DispatchBatched(pager: Dispatcher, digester: Digester, msg: AlertMsg, now: Time)
    requires pager.alarms == digester.alarms && pager.reminderHours == digester.reminderHours
    modifies pager`outbox, pager.alarms, digester`disc, digester`tg, digester`slk, digester`wh
    ensures pager.outbox == old(pager.outbox) + Outgoing(old(pager.alarms.View()), msg, Pd, now, pager.reminderHours)
    ensures var a := Gate(old(pager.alarms.View()), msg, Pd, now, pager.reminderHours);
      && pager.alarms.View() == PlainGates(a, msg, BATCHED, now, pager.reminderHours)
      && forall e, key :: digester.Stream(e, key)
           == old(digester.Stream(e, key)) + PlainBuffers(a, msg, BATCHED, e, key, now, pager.reminderHours)
  {
    hide Gate, Outgoing, PlainGates, PlainBuffers;
    var _ := pager.NotifyOn(Pd, msg, now);
    digester.Enqueue(msg, now);
  }

  /** A batch is non-empty and goes where its first message goes. */
  predicate Headed(b: Batch) {
    b.msgs != [] && b.addr == AddressOf(b.msgs[0], b.dest)
  }

  /** What gating msg on channel d adds to bucket (e, key). */
  ghost function Buffers(a: Alarms, msg: AlertMsg, d: Dest, e: Dest, key: string, now: Time,
                         hours: int): seq<AlertMsg> {
    if e == d && key == Key(msg, d) && Sends(a, msg, d, now, hours) then [msg] else []
  }

  /** The gates of `enqueue`, without Slack's rewriting in between. */
  function PlainGates(a: Alarms, msg: AlertMsg, ds: seq<Dest>, now: Time, hours: int): Alarms
    decreases |ds|
  {
    if ds == [] then a else PlainGates(Gate(a, msg, ds[0], now, hours), msg, ds[1..], now, hours)
  }

  ghost function PlainBuffers(a: Alarms, msg: AlertMsg, ds: seq<Dest>, e: Dest, key: string, now: Time,
                              hours: int): seq<AlertMsg>
    decreases |ds|
  {
    if ds == [] then []
    else Buffers(a, msg, ds[0], e, key, now, hours)
         + PlainBuffers(Gate(a, msg, ds[0], now, hours), msg, ds[1..], e, key, now, hours)
  }

  lemma NextPlain(a: Alarms, msg: AlertMsg, d: Dest, rest: seq<Dest>, now: Time, hours: int)
    ensures var a1 := Gate(a, msg, d, now, hours);
      && PlainGates(a, msg, [d] + rest, now, hours) == PlainGates(a1, msg, rest, now, hours)
      && forall e, key ::
           PlainBuffers(a, msg, [d] + rest, e, key, now, hours)
           == Buffers(a, msg, d, e, key, now, hours) + PlainBuffers(a1, msg, rest, e, key, now, hours)
  {
    hide Gate, Buffers;
    assert ([d] + rest)[0] == d && ([d] + rest)[1..] == rest;
  }

  // ---------------------------------------------------------------------------
  // Digest mode sends what immediate mode would have sent
  // ---------------------------------------------------------------------------

  datatype Op = Message(msg: AlertMsg, now: Time) | Flush

  /** Digest mode seen from outside: the cache, and per bucket what has been flushed and
      what is still pending. */
  datatype Batching = Batching(alarms: Alarms, flushed: (Dest, string) -> seq<AlertMsg>,
      pending: (Dest, string) -> seq<AlertMsg>)
  {
    ghost function Stream(e: Dest, key: string): seq<AlertMsg> {
      flushed(e, key) + pending(e, key)
    }
  }

  ghost function BatchStep(s: Batching, op: Op, hours: int): Batching {
    match op
    case Message(msg, now) =>
      var a := Gate(s.alarms, msg, Pd, now, hours);
      Batching(PlainGates(a, msg, BATCHED, now, hours), s.flushed,
               (e: Dest, key: string) => s.pending(e, key) + PlainBuffers(a, msg, BATCHED, e, key, now, hours))
    case Flush =>
      Batching(s.alarms, (e: Dest, key: string) => s.flushed(e, key) + s.pending(e, key), (e: Dest, key: string) => [])
  }

  ghost function BatchRun(s: Batching, ops: seq<Op>, hours: int): Batching {
    if ops == [] then s else BatchStep(BatchRun(s, ops[..|ops| - 1], hours), ops[|ops| - 1], hours)
  }

  /** Immediate mode on the same inputs at the same times; flushes mean nothing to it. */
  ghost function ImmediateRun(a: Alarms, ops: seq<Op>, hours: int): (Alarms, seq<Delivery>) {
    if ops == [] then (a, [])
    else
      var (b, out) := ImmediateRun(a, ops[..|ops| - 1], hours);
      match ops[|ops| - 1]
      case Message(msg, now) =>
        (GatesThrough(b, msg, ORDER, now, hours), out + OutgoingThrough(b, msg, ORDER, now, hours))
      case Flush => (b, out)
  }

  function Notes(msgs: seq<AlertMsg>): seq<Note> {
    seq(|msgs|, i requires 0 <= i < |msgs| => NoteOf(msgs[i]))
  }

  /** The bucket an address belongs to. */
  function KeyOf(addr: Address): string {
    match addr
    case Routing(key) => key
    case Bot(key, channel) => key + "|" + channel
    case Hook(url) => url
  }

  /** What immediate mode sent on channel e to the addresses of one bucket, in order. */
  ghost function NotesTo(out: seq<Delivery>, e: Dest, key: string): seq<Note> {
    if out == [] then []
    else
      var d := out[|out| - 1];
      NotesTo(out[..|out| - 1], e, key) + if d.dest == e && KeyOf(d.addr) == key then d.notes else []
  }

  lemma {:induction false} NotesToAppend(s: seq<Delivery>, t: seq<Delivery>, e: Dest, key: string)
    ensures NotesTo(s + t, e, key) == NotesTo(s, e, key) + NotesTo(t, e, key)
  {
    if t == [] {
      assert s + t == s;
    } else {
      NotesToAppend(s, t[..|t| - 1], e, key);
      assert (s + t)[..|s + t| - 1] == s + t[..|t| - 1];
    }
  }

  /** The same message up to the text of a resolution. */
  ghost predicate SameButText(m: AlertMsg, m1: AlertMsg) {
    m1 == m || (m.resolved && m1 == m.(message := m1.message))
  }

  lemma GatesIgnoreText(a: Alarms, m: AlertMsg, m1: AlertMsg, d: Dest, now: Time, hours: int)
    requires SameButText(m, m1)
    ensures Gate(a, m1, d, now, hours) == Gate(a, m, d, now, hours)
    ensures Sends(a, m1, d, now, hours) == Sends(a, m, d, now, hours)
    ensures SameButText(m, Rewritten(a, m1, d, now, hours))
  {
    hide Severities, Sent.To, Sent.With;
  }

  lemma KeyIsOfAddress(m: AlertMsg, m1: AlertMsg, d: Dest)
    requires SameButText(m, m1)
    ensures KeyOf(AddressOf(m1, d)) == Key(m, d) && NoteOf(m1) == NoteOf(m)
  {
  }

  lemma OneChannel(a: Alarms, m: AlertMsg, m1: AlertMsg, d: Dest, e: Dest, key: string, now: Time, hours: int)
    requires SameButText(m, m1)
    ensures Notes(Buffers(a, m, d, e, key, now, hours)) == NotesTo(Outgoing(a, m1, d, now, hours), e, key)
  {
    hide Sends, Gate, Rewritten, SameButText, Key, KeyOf, AddressOf, NoteOf;
    GatesIgnoreText(a, m, m1, d, now, hours);
    KeyIsOfAddress(m, m1, d);
    if Sends(a, m, d, now, hours) {
      var one := [Delivery(d, AddressOf(m1, d), [NoteOf(m1)])];
      assert one[..|one| - 1] == [];
    }
  }

  lemma NotesOfConcat(s: seq<AlertMsg>, t: seq<AlertMsg>)
    ensures Notes(s + t) == Notes(s) + Notes(t)
  {
  }

  lemma {:induction false} SameGates(a: Alarms, m: AlertMsg, m1: AlertMsg, ds: seq<Dest>, now: Time, hours: int)
    requires SameButText(m, m1)
    ensures PlainGates(a, m, ds, now, hours) == GatesThrough(a, m1, ds, now, hours)
    decreases |ds|
  {
    if ds != [] {
      GatesIgnoreText(a, m, m1, ds[0], now, hours);
      hide Gate, Rewritten, SameButText;
      SameGates(Gate(a, m, ds[0], now, hours), m, Rewritten(a, m1, ds[0], now, hours), ds[1..], now, hours);
    }
  }

  lemma {:induction false} OneMessage(a: Alarms, m: AlertMsg, m1: AlertMsg, ds: seq<Dest>, e: Dest, key: string,
                                      now: Time, hours: int)
    requires SameButText(m, m1)
    ensures Notes(PlainBuffers(a, m, ds, e, key, now, hours)) == NotesTo(OutgoingThrough(a, m1, ds, now, hours), e, key)
    decreases |ds|
  {
    if ds != [] {
      var d := ds[0];
      GatesIgnoreText(a, m, m1, d, now, hours);
      OneChannel(a, m, m1, d, e, key, now, hours);
      var a1, m2 := Gate(a, m, d, now, hours), Rewritten(a, m1, d, now, hours);
      OneMessage(a1, m, m2, ds[1..], e, key, now, hours);
      hide Gate, Outgoing, Rewritten, Buffers, SameButText, Notes, NotesTo;
      NotesToAppend(Outgoing(a, m1, d, now, hours), OutgoingThrough(a1, m2, ds[1..], now, hours), e, key);
      NotesOfConcat(Buffers(a, m, d, e, key, now, hours), PlainBuffers(a1, m, ds[1..], e, key, now, hours));
    } else {
      assert NotesTo([], e, key) == [];
    }
  }

  /** For every interleaving of messages and flushes, from any cache: what each bucket has
      flushed and holds is, in order, what immediate mode sends to the bucket's addresses,
      and both modes end with the same cache. */
  lemma {:induction false} DigestRefinesImmediate(s: Batching, ops: seq<Op>, e: Dest, key: string, hours: int)
    requires !e.Pd?
    requires s.Stream(e, key) == []
    ensures var s', i := BatchRun(s, ops, hours), ImmediateRun(s.alarms, ops, hours);
      && s'.alarms == i.0
      && Notes(s'.Stream(e, key)) == NotesTo(i.1, e, key)
  {
    if ops != [] {
      var rest := ops[..|ops| - 1];
      DigestRefinesImmediate(s, rest, e, key, hours);
      match ops[|ops| - 1]
      case Flush =>
      case Message(msg, now) =>
        MessageRefines(BatchRun(s, rest, hours), msg, now, e, key, ImmediateRun(s.alarms, rest, hours).1, hours);
    }
  }

  lemma MessageOut(a: Alarms, msg: AlertMsg, now: Time, e: Dest, key: string, out: seq<Delivery>, hours: int)
    requires !e.Pd?
    ensures var a1 := Gate(a, msg, Pd, now, hours);
      && PlainGates(a1, msg, BATCHED, now, hours) == GatesThrough(a, msg, ORDER, now, hours)
      && NotesTo(out + OutgoingThrough(a, msg, ORDER, now, hours), e, key)
         == NotesTo(out, e, key) + Notes(PlainBuffers(a1, msg, BATCHED, e, key, now, hours))
  {
    hide Gate, Outgoing, Rewritten, PlainGates, GatesThrough, OutgoingThrough, PlainBuffers, Notes, NotesTo;
    var a1 := Gate(a, msg, Pd, now, hours);
    NotPagerDuty(a, msg, now, e, key, hours);
    SameGates(a1, msg, msg, BATCHED, now, hours);
    OneMessage(a1, msg, msg, BATCHED, e, key, now, hours);
    NextChannel(a, msg, Pd, BATCHED, now, hours);
    assert ORDER == [Pd] + BATCHED;
    var first, rest := Outgoing(a, msg, Pd, now, hours), OutgoingThrough(a1, msg, BATCHED, now, hours);
    NotesToAppend(out, first + rest, e, key);
    NotesToAppend(first, rest, e, key);
  }

  lemma MessageRefines(s: Batching, msg: AlertMsg, now: Time, e: Dest, key: string, out: seq<Delivery>, hours: int)
    requires !e.Pd? && Notes(s.Stream(e, key)) == NotesTo(out, e, key)
    ensures var s' := BatchStep(s, Message(msg, now), hours);
      && s'.alarms == GatesThrough(s.alarms, msg, ORDER, now, hours)
      && Notes(s'.Stream(e, key)) == NotesTo(out + OutgoingThrough(s.alarms, msg, ORDER, now, hours), e, key)
  {
    hide Gate, PlainGates, GatesThrough, OutgoingThrough, PlainBuffers, Notes, NotesTo;
    MessageOut(s.alarms, msg, now, e, key, out, hours);
    var more := PlainBuffers(Gate(s.alarms, msg, Pd, now, hours), msg, BATCHED, e, key, now, hours);
    NotesOfConcat(s.Stream(e, key), more);
    assert BatchStep(s, Message(msg, now), hours).Stream(e, key) == s.Stream(e, key) + more;
  }

  lemma NotPagerDuty(a: Alarms, msg: AlertMsg, now: Time, e: Dest, key: string, hours: int)
    requires !e.Pd?
    ensures NotesTo(Outgoing(a, msg, Pd, now, hours), e, key) == []
    ensures Rewritten(a, msg, Pd, now, hours) == msg
  {
    hide Sends;
    var out := Outgoing(a, msg, Pd, now, hours);
    if out != [] {
      assert out[..|out| - 1] == [];
    }
  }

  /** One bot key, with the separator after it, begins the other. */
  predicate Overlap(k: string, l: string) {
    k != l && (k + "|" <= l + "|" || l + "|" <= k + "|")
  }

  /** Two bot keys can share a bucket, for some channels, exactly if they are equal or overlap. */
  lemma SharedBucketExactly(k: string, l: string)
    ensures (exists c: string, d: string :: k + "|" + c == l + "|" + d) <==> k == l || Overlap(k, l)
  {
    var x, y := k + "|", l + "|";
    if c: string, d: string :| x + c == y + d {
      assert x == (x + c)[..|x|] && y == (y + d)[..|y|];
      if |x| <= |y| {
        assert x == y[..|x|];
      } else {
        assert y == x[..|y|];
      }
      assert x == y ==> k == x[..|x| - 1] == y[..|y| - 1] == l;
    }
    if x <= y {
      assert x + y[|x|..] == y + "";
    }
    if y <= x {
      assert x + "" == y + x[|y|..];
    }
  }

  /** Two messages share a bucket exactly when they share an address; on Telegram if their bot
      keys do not overlap. */
  lemma BucketsAreAddresses(m: AlertMsg, n: AlertMsg, d: Dest)
    requires d.Tg? ==> !Overlap(m.alertConfig.tgKey, n.alertConfig.tgKey)
    ensures Key(m, d) == Key(n, d) <==> AddressOf(m, d) == AddressOf(n, d)
  {
    if d.Tg? && Key(m, d) == Key(n, d) {
      var k, l := m.alertConfig.tgKey, n.alertConfig.tgKey;
      SharedBucketExactly(k, l);
      assert k + "|" + m.alertConfig.tgChannel == l + "|" + n.alertConfig.tgChannel;
      assert Key(m, d)[|k| + 1..] == m.alertConfig.tgChannel && Key(n, d)[|l| + 1..] == n.alertConfig.tgChannel;
    }
  }

  /** The condition is exact: whatever channels two bots post to, buckets tell their addresses
      apart, if and only if their keys do not overlap. */
  lemma KeysTellApartExactly(m: AlertMsg, n: AlertMsg)
    ensures (forall c, d :: Key(On(m, c), Tg) == Key(On(n, d), Tg)
               ==> AddressOf(On(m, c), Tg) == AddressOf(On(n, d), Tg))
            <==> !Overlap(m.alertConfig.tgKey, n.alertConfig.tgKey)
  {
    var k, l := m.alertConfig.tgKey, n.alertConfig.tgKey;
    if Overlap(k, l) {
      SharedBucketExactly(k, l);
      var c: string, d: string :| k + "|" + c == l + "|" + d;
      assert Key(On(m, c), Tg) == Key(On(n, d), Tg) && AddressOf(On(m, c), Tg) != AddressOf(On(n, d), Tg);
    } else {
      forall c, d | Key(On(m, c), Tg) == Key(On(n, d), Tg) ensures AddressOf(On(m, c), Tg) == AddressOf(On(n, d), Tg) {
        BucketsAreAddresses(On(m, c), On(n, d), Tg);
      }
    }
  }

  /** The message, for another Telegram channel of the same bot. */
  function On(m: AlertMsg, channel: string): AlertMsg {
    m.(alertConfig := m.alertConfig.(tgChannel := channel))
  }

  /** No key without a "|" overlaps another such key. */
  lemma PlainKeysDoNotOverlap(k: string, l: string)
    requires '|' !in k && '|' !in l
    ensures !Overlap(k, l)
  {
    var x, y := k + "|", l + "|";
    assert x[|k|] == '|' && y[|l|] == '|';
    assert k == x[..|x| - 1] && l == y[..|y| - 1];
  }

  lemma {:induction false} BuffersHoldTheirKey(a: Alarms, msg: AlertMsg, ds: seq<Dest>, e: Dest, key: string,
                                               now: Time, hours: int)
    ensures forall m | m in PlainBuffers(a, msg, ds, e, key, now, hours) :: Key(m, e) == key
    decreases |ds|
  {
    hide Sends, Gate;
    if ds != [] {
      BuffersHoldTheirKey(Gate(a, msg, ds[0], now, hours), msg, ds[1..], e, key, now, hours);
    }
  }

  lemma {:induction false} StreamsHoldTheirKey(s: Batching, ops: seq<Op>, e: Dest, key: string, hours: int)
    requires s.Stream(e, key) == []
    ensures forall m | m in BatchRun(s, ops, hours).Stream(e, key) :: Key(m, e) == key
  {
    hide PlainBuffers, PlainGates, Gate;
    if ops != [] {
      var rest := ops[..|ops| - 1];
      StreamsHoldTheirKey(s, rest, e, key, hours);
      match ops[|ops| - 1]
      case Flush =>
      case Message(msg, now) =>
        var r := BatchRun(s, rest, hours);
        BuffersHoldTheirKey(Gate(r.alarms, msg, Pd, now, hours), msg, BATCHED, e, key, now, hours);
        var more := PlainBuffers(Gate(r.alarms, msg, Pd, now, hours), msg, BATCHED, e, key, now, hours);
        assert BatchRun(s, ops, hours).Stream(e, key) == r.Stream(e, key) + more;
    }
  }

  /** Over every run, sending a bucket to its first message's address sends each of its
      messages where it belongs, if no two of its bot keys overlap. */
  lemma BatchesReachEveryAddress(s: Batching, ops: seq<Op>, e: Dest, key: string, hours: int, m: AlertMsg, n: AlertMsg)
    requires s.Stream(e, key) == []
    requires var sent := BatchRun(s, ops, hours).Stream(e, key); m in sent && n in sent
    requires e.Tg? ==> !Overlap(m.alertConfig.tgKey, n.alertConfig.tgKey)
    ensures AddressOf(m, e) == AddressOf(n, e)
  {
    hide BatchRun, Key, AddressOf;
    StreamsHoldTheirKey(s, ops, e, key, hours);
    BucketsAreAddresses(m, n, e);
  }

  /** The smallest case: one bot's key begins another's up to a "|", and messages for the
      two bots share a bucket. */
  lemma SeparatorInKeyMergesBuckets(m: AlertMsg, n: AlertMsg)
    requires m.alertConfig.tgKey == "a|b" && m.alertConfig.tgChannel == "c"
    requires n.alertConfig.tgKey == "a" && n.alertConfig.tgChannel == "b|c"
    ensures Overlap(m.alertConfig.tgKey, n.alertConfig.tgKey)
    ensures Key(m, Tg) == Key(n, Tg) && AddressOf(m, Tg) != AddressOf(n, Tg)
  {
    assert Key(m, Tg) == "a|b|c" == Key(n, Tg);
    assert "a" + "|" <= "a|b" + "|";
  }
}
