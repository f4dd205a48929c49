/** The values the alert engine passes around: times, alarm records, alert
    messages and the channels they can be sent to. */
module AlertTypes {

  /** Nanoseconds since the Unix epoch. */
  type Time = int

  const SECOND: int := 1_000_000_000
  const MINUTE: int := 60 * SECOND
  const HOUR: int := 60 * MINUTE

  /** The zero value of a Go time (1 January of year 1), which `IsZero` tests for.
      It is not the Unix epoch. */
  const ZERO_TIME: Time := -62135596800 * SECOND

  /** Whole seconds since the epoch, rounded towards the past. */
  function Unix(t: Time): int {
    t / SECOND
  }

  /** One cached alarm, in a channel's sent map or in AllAlarms. */
  datatype Entry = Entry(message: string, sentTime: Time, severity: string, escalated: bool)

  type Entries = map<string, Entry>

  /** Reading a missing key gives a zero record, so "was sent" is "has a non-zero time". */
  predicate Recorded(m: Entries, id: string) {
    id in m && m[id].sentTime != ZERO_TIME
  }

  /** Every record carries a real time; the engine writes no other. */
  ghost predicate Stamped(m: Entries) {
    forall id | id in m :: m[id].sentTime != ZERO_TIME
  }

  /** The entries of one chain; a missing chain reads as an empty map. */
  function Of(all: map<string, Entries>, chain: string): Entries {
    if chain in all then all[chain] else map[]
  }

  datatype Dest = Pd | Tg | Di | Slk | Wh

  datatype Channel = Channel(enabled: bool, threshold: string)

  /** The part of an alert configuration that notification depends on. */
  datatype AlertConfig = AlertConfig(
    pd: Channel, tg: Channel, di: Channel, slk: Channel, wh: Channel,
    pdKey: string, tgKey: string, tgChannel: string, discHook: string, slkHook: string, whURL: string,
    whDisableResolve: bool)
  {
    function On(d: Dest): Channel {
      match d
      case Pd => pd
      case Tg => tg
      case Di => di
      case Slk => slk
      case Wh => wh
    }
  }

  datatype AlertMsg = AlertMsg(
    pd: bool, tg: bool, disc: bool, slk: bool, wh: bool,
    severity: string, resolved: bool, chain: string, message: string, uniqueId: string,
    alertConfig: AlertConfig)
  {
    predicate Wants(d: Dest) {
      match d
      case Pd => pd
      case Tg => tg
      case Di => disc
      case Slk => slk
      case Wh => wh
    }
  }

  /** The five per-channel sent maps. */
  datatype Sent = Sent(pd: Entries, tg: Entries, di: Entries, slk: Entries, wh: Entries) {
    function To(d: Dest): Entries {
      match d
      case Pd => pd
      case Tg => tg
      case Di => di
      case Slk => slk
      case Wh => wh
    }

    function With(d: Dest, m: Entries): (r: Sent)
      ensures forall e :: r.To(e) == if e == d then m else To(e)
    {
      match d
      case Pd => this.(pd := m)
      case Tg => this.(tg := m)
      case Di => this.(di := m)
      case Slk => this.(slk := m)
      case Wh => this.(wh := m)
    }
  }

  /** A snapshot of the alarm cache. */
  datatype Alarms = Alarms(sent: Sent, all: map<string, Entries>, flapping: map<string, Entries>)

  /** Two snapshots that agree on every sent map agree as a whole. */
  lemma SentExtensional(s: Sent, t: Sent)
    requires forall d :: s.To(d) == t.To(d)
    ensures s == t
  {
    assert s.To(Pd) == t.To(Pd) && s.To(Tg) == t.To(Tg) && s.To(Di) == t.To(Di);
    assert s.To(Slk) == t.To(Slk) && s.To(Wh) == t.To(Wh);
  }

  const GOVERNANCE: string := "UnvotedGovernanceProposal"

  predicate HasPrefix(s: string, prefix: string) {
    prefix <= s
  }

  /** Lower case as far as comparing with an ASCII word can tell: besides A-Z, the only
      code points that lower to an ASCII letter are U+0130 and U+212A. */
  function LowerChar(c: char): char {
    if 'A' <= c <= 'Z' then (c as int - 'A' as int + 'a' as int) as char
    else if c == '\U{0130}' then 'i'
    else if c == '\U{212A}' then 'k'
    else c
  }

  function ToLower(s: string): string {
    seq(|s|, i requires 0 <= i < |s| => LowerChar(s[i]))
  }

  /** The severities a threshold lets through; anything unknown lets all three through. */
  function Severities(threshold: string): (r: seq<string>)
    ensures "critical" in r && forall x | x in r :: x == "critical" || x == "warning" || x == "info"
    ensures "info" in r ==> "warning" in r
    ensures "warning" in r <==> ToLower(threshold) != "critical"
    ensures "info" in r <==> ToLower(threshold) != "critical" && ToLower(threshold) != "warning"
  {
    var t := ToLower(threshold);
    if t == "critical" then ["critical"]
    else if t == "warning" then ["critical", "warning"]
    else ["critical", "warning", "info"]
  }

  /** The same character, or the two cases of one ASCII letter. */
  predicate SameLetter(c: char, d: char) {
    || c == d
    || ('A' <= c <= 'Z' && d as int == c as int + 32)
    || ('A' <= d <= 'Z' && c as int == d as int + 32)
  }

  /** A threshold means the same in any mix of cases, and its three words mean what they say. */
  lemma ThresholdsIgnoreCase(t: string, word: string)
    requires |t| == |word| && forall i | 0 <= i < |t| :: SameLetter(t[i], word[i])
    ensures Severities(t) == Severities(word)
    ensures word == "critical" ==> Severities(t) == ["critical"]
    ensures word == "warning" ==> Severities(t) == ["critical", "warning"]
    ensures word == "info" ==> Severities(t) == ["critical", "warning", "info"]
  {
    assert ToLower(t) == ToLower(word);
    LowerStays("critical");
    LowerStays("warning");
    LowerStays("info");
    hide ToLower;
  }

  lemma LowerStays(s: string)
    requires forall c | c in s :: 'a' <= c <= 'z'
    ensures ToLower(s) == s
  {
    forall i | 0 <= i < |s| ensures LowerChar(s[i]) == s[i] {
      assert s[i] in s;
    }
  }

  /** A stable name for one message that ignores its text: notifying Slack rewrites the
      text of a resolved message, so streams are compared by these fields. */
  datatype Note = Note(id: string, chain: string, severity: string, resolved: bool)

  function NoteOf(msg: AlertMsg): Note {
    Note(msg.uniqueId, msg.chain, msg.severity, msg.resolved)
  }
}
