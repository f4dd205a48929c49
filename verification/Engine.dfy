/** Raising alerts: `alert`, silencing, and the configuration they read. */
module Engine {
  import opened AlertTypes
  import opened Notify
  import opened Wrappers

  datatype ChainView = ChainView(chainId: string, silencedUntil: int, alerts: AlertConfig)

  type ChainViews = map<string, ChainView>

  predicate Silenced(until: int, now: Time) {
    until > 0 && Unix(now) < until
  }

  /** A channel is used when both the defaults and the chain enable it. */
  function BuildAlertMsg(chains: ChainViews, defaults: AlertConfig, name: string, message: string,
                         severity: string, resolved: bool, id: string): Option<AlertMsg>
  {
    if name !in chains then None
    else
      var cc := chains[name];
      Some(AlertMsg(
             defaults.pd.enabled && cc.alerts.pd.enabled,
             defaults.tg.enabled && cc.alerts.tg.enabled,
             defaults.di.enabled && cc.alerts.di.enabled,
             defaults.slk.enabled && cc.alerts.slk.enabled,
             defaults.wh.enabled && cc.alerts.wh.enabled,
             severity, resolved, name + " (" + cc.chainId + ")", message, id, cc.alerts))
  }

  /** AllAlarms and the messages waiting on the alert channel, oldest first. */
  datatype Board = Board(all: map<string, Entries>, queue: seq<AlertMsg>)

  /** What AllAlarms holds for the chain once an alert has been raised. */
  function Filed(e: Entries, message: string, severity: string, resolved: bool, id: string, silenced: bool,
                 now: Time): Entries {
    if resolved then (if Recorded(e, id) then e - {id} else e)
    else if silenced then e
    else e[id := Entry(message, now, severity, false)]
  }

  function Post(b: Board, chains: ChainViews, defaults: AlertConfig, name: string, message: string,
                severity: string, resolved: bool, id: string, now: Time): Board
  {
    var m := BuildAlertMsg(chains, defaults, name, message, severity, resolved, id);
    if m.None? then b
    else
      var silenced := Silenced(chains[name].silencedUntil, now);
      Board(b.all[name := Filed(Of(b.all, name), message, severity, resolved, id, silenced, now)],
            if silenced then b.queue else b.queue + [m.value])
  }

  /** Messages for an id, of one kind, among those on the alert channel. */
  ghost function Count(queue: seq<AlertMsg>, id: string, resolved: bool): nat {
    if queue == [] then 0
    else
      var m := queue[|queue| - 1];
      Count(queue[..|queue| - 1], id, resolved) + if m.uniqueId == id && m.resolved == resolved then 1 else 0
  }

  /** What raising one alert for a known chain does to its active ids and to the queue. */
  lemma RaiseEffect(b: Board, views: ChainViews, defaults: AlertConfig, name: string, message: string, severity: string,
                    resolved: bool, id: string, now: Time)
    requires name in views && now != ZERO_TIME && Stamped(Of(b.all, name))
    ensures var b' := Post(b, views, defaults, name, message, severity, resolved, id, now);
      var silenced := Silenced(views[name].silencedUntil, now);
      var e, e' := Of(b.all, name), Of(b'.all, name);
      && Stamped(e') && (forall c | c != name :: Of(b'.all, c) == Of(b.all, c))
      && e'.Keys == (if resolved then e.Keys - {id} else if silenced then e.Keys else e.Keys + {id})
      && (forall i | i in e && i in e' && i != id :: e'[i] == e[i])
      && (forall i, r :: Count(b'.queue, i, r) == Count(b.queue, i, r) +
            if !silenced && i == id && r == resolved then 1 else 0)
  {
    var b' := Post(b, views, defaults, name, message, severity, resolved, id, now);
    if !Silenced(views[name].silencedUntil, now) {
      assert b'.queue[..|b.queue|] == b.queue;
    }
  }

  /** The message for one alert of the chain: it names chain and alert, carries the chain's own
      configuration, and wants exactly the channels that the defaults and the chain enable. */
  ghost predicate IsAlert(m: AlertMsg, c: ChainView, defaults: AlertConfig, name: string, severity: string,
                          resolved: bool, id: string)
  {
    && m.uniqueId == id && m.severity == severity && m.resolved == resolved
    && m.chain == name + " (" + c.chainId + ")" && m.alertConfig == c.alerts
    && (m.pd <==> defaults.pd.enabled && c.alerts.pd.enabled)
    && (m.tg <==> defaults.tg.enabled && c.alerts.tg.enabled)
    && (m.disc <==> defaults.di.enabled && c.alerts.di.enabled)
    && (m.slk <==> defaults.slk.enabled && c.alerts.slk.enabled)
    && (m.wh <==> defaults.wh.enabled && c.alerts.wh.enabled)
  }

  /** The queue has gained one such message at its end, or nothing if the chain is silenced. */
  ghost predicate AlertTold(q: seq<AlertMsg>, q': seq<AlertMsg>, c: ChainView, defaults: AlertConfig, name: string,
                       severity: string, resolved: bool, id: string, now: Time)
  {
    if Silenced(c.silencedUntil, now) then q' == q
    else |q'| == |q| + 1 && q' == q + [q'[|q|]] && IsAlert(q'[|q|], c, defaults, name, severity, resolved, id)
  }

  /** One alert raised for a known chain: its id is gone, or has a fresh, unescalated record of
      the severity, or in silence is as before; nothing else in AllAlarms has moved; and its
      message is on the queue. */
  ghost predicate AlertRaised(b: Board, b': Board, c: ChainView, defaults: AlertConfig, name: string, severity: string,
                         resolved: bool, id: string, now: Time)
  {
    var e, e' := Of(b.all, name), Of(b'.all, name);
    && (forall n | n != name :: Of(b'.all, n) == Of(b.all, n))
    && (forall i | i != id :: (i in e' <==> i in e) && (i in e ==> e'[i] == e[i]))
    && (if resolved then id !in e'
        else if Silenced(c.silencedUntil, now) then (id in e' <==> id in e) && (id in e ==> e'[id] == e[id])
        else id in e' && e'[id].sentTime == now && e'[id].severity == severity && !e'[id].escalated)
    && AlertTold(b.queue, b'.queue, c, defaults, name, severity, resolved, id, now)
  }

  /** This is what `Alert` does for a known chain; for an unknown one it does nothing. */
  lemma RaiseRecords(b: Board, views: ChainViews, defaults: AlertConfig, name: string, message: string,
                     severity: string, resolved: bool, id: string, now: Time)
    requires Stamped(Of(b.all, name))
    ensures var b' := Post(b, views, defaults, name, message, severity, resolved, id, now);
      if name in views then AlertRaised(b, b', views[name], defaults, name, severity, resolved, id, now) else b' == b
    ensures var b' := Post(b, views, defaults, name, message, severity, resolved, id, now);
      name in views && !Silenced(views[name].silencedUntil, now) ==>
        b'.queue[|b.queue|].message == message && (!resolved ==> Of(b'.all, name)[id].message == message)
  {
    hide Silenced;
  }

  /** From b to b' by alerts of one severity for one chain: other chains have not moved; every
      entry is as it was or fresh; and the queue has gained such alerts only, none in silence. */
  ghost predicate AlertsOnly(b: Board, b': Board, c: ChainView, defaults: AlertConfig, name: string, severity: string,
                             now: Time)
  {
    var e, e' := Of(b.all, name), Of(b'.all, name);
    && Stamped(e') && (forall n | n != name :: Of(b'.all, n) == Of(b.all, n))
    && (forall i | i in e' ::
          (i in e && e'[i] == e[i]) || (e'[i].sentTime == now && e'[i].severity == severity && !e'[i].escalated))
    && b.queue <= b'.queue && (Silenced(c.silencedUntil, now) ==> b'.queue == b.queue)
    && forall i | |b.queue| <= i < |b'.queue| ::
         IsAlert(b'.queue[i], c, defaults, name, severity, b'.queue[i].resolved, b'.queue[i].uniqueId)
  }

  lemma AlertsOnlyMore(b: Board, v: Board, views: ChainViews, defaults: AlertConfig, name: string, message: string,
                       severity: string, resolved: bool, id: string, now: Time)
    requires name in views && now != ZERO_TIME && AlertsOnly(b, v, views[name], defaults, name, severity, now)
    ensures AlertsOnly(b, Post(v, views, defaults, name, message, severity, resolved, id, now), views[name], defaults,
          name,
                       severity, now)
  {
    hide Post, Silenced, Count;
    RaiseEffect(v, views, defaults, name, message, severity, resolved, id, now);
    RaiseRecords(v, views, defaults, name, message, severity, resolved, id, now);
  }

  lemma NoAlerts(b: Board, c: ChainView, defaults: AlertConfig, name: string, severity: string, now: Time)
    requires Stamped(Of(b.all, name))
    ensures AlertsOnly(b, b, c, defaults, name, severity, now)
  {
  }

  class ChainConfig {
    const name: string
    const ChainId: string
    const ValAddress: string
    var silencedUntil: int
    var Alerts: AlertConfig

    constructor (name: string, chainId: string, valAddress: string, alerts: AlertConfig)
      ensures this.name == name && ChainId == chainId && ValAddress == valAddress
      ensures View() == ChainView(chainId, 0, alerts)
    {
      this.name, ChainId, ValAddress := name, chainId, valAddress;
      silencedUntil, Alerts := 0, alerts;
    }

    ghost function View(): ChainView
      reads this
    {
      ChainView(ChainId, silencedUntil, Alerts)
    }

    method SilenceStatus(now: Time) returns (silenced: bool, until: int)
      ensures silenced == Silenced(silencedUntil, now)
      ensures silenced <==> silencedUntil > 0 && now < silencedUntil * 1_000_000_000
      ensures until == if silenced then silencedUntil else 0
    {
      if silencedUntil > 0 && Unix(now) < silencedUntil {
        return true, silencedUntil;
      }
      return false, 0;
    }
  }

  const MAX_SILENCE_MINUTES := 24 * 60

  class Config {
    const alarms: AlarmCache
    var Chains: map<string, ChainConfig>
    var DefaultAlertConfig: AlertConfig
    var alertChan: seq<AlertMsg>

    constructor (alarms: AlarmCache, chains: map<string, ChainConfig>, defaults: AlertConfig)
      ensures this.alarms == alarms && Chains == chains && DefaultAlertConfig == defaults && alertChan == []
    {
      this.alarms := alarms;
      Chains, DefaultAlertConfig, alertChan := chains, defaults, [];
    }

    /** Chains are separate objects. */
    ghost predicate Valid()
      reads this`Chains
    {
      forall k, k' | k in Chains && k' in Chains && k != k' :: Chains[k] != Chains[k']
    }

    ghost function Views(): ChainViews
      reads this`Chains, Chains.Values
    {
      map k | k in Chains :: Chains[k].View()
    }

    ghost function View(): Board
      reads this`alertChan, alarms`AllAlarms
    {
      Board(alarms.AllAlarms, alertChan)
    }

    method Build(name: string, message: string, severity: string, resolved: bool, id: string)
        returns (m: Option<AlertMsg>)
      ensures m == BuildAlertMsg(Views(), DefaultAlertConfig, name, message, severity, resolved, id)
      ensures m.None? <==> name !in Chains
    {
      if name !in Chains {
        return None;
      }
      var cc := Chains[name];
      assert Views()[name] == cc.View();
      hide Config.Views;
      m := Some(AlertMsg(
                  DefaultAlertConfig.pd.enabled && cc.Alerts.pd.enabled,
                  DefaultAlertConfig.tg.enabled && cc.Alerts.tg.enabled,
                  DefaultAlertConfig.di.enabled && cc.Alerts.di.enabled,
                  DefaultAlertConfig.slk.enabled && cc.Alerts.slk.enabled,
                  DefaultAlertConfig.wh.enabled && cc.Alerts.wh.enabled,
                  severity, resolved, name + " (" + cc.ChainId + ")", message, id, cc.Alerts));
    }

    /** The part of `Alert` done under the cache's lock. */
    method File(name: string, message: string, severity: string, resolved: bool, id: string, silenced: bool, now: Time)
      modifies alarms`AllAlarms
      ensures alarms.AllAlarms
            == old(alarms.AllAlarms)[name := Filed(Of(old(alarms.AllAlarms), name), message, severity, resolved, id,
                silenced, now)]
      ensures resolved && !Recorded(Of(old(alarms.AllAlarms), name), id) ==>
                Of(alarms.AllAlarms, name) == Of(old(alarms.AllAlarms), name)
    {
      var entries := Of(alarms.AllAlarms, name);
      if name !in alarms.AllAlarms {
        alarms.AllAlarms := alarms.AllAlarms[name := map[]];
      }
      if resolved && Recorded(entries, id) {
        alarms.AllAlarms := alarms.AllAlarms[name := entries - {id}];
        return;
      } else if resolved {
        return;
      }
      if silenced {
        return;
      }
      alarms.AllAlarms := alarms.AllAlarms[name := entries[id := Entry(message, now, severity, false)]];
    }

    method Alert(name: string, message: string, severity: string, resolved: bool, id: string, now: Time)
      modifies this`alertChan, alarms`AllAlarms
      ensures View() == Post(old(View()), Views(), DefaultAlertConfig, name, message, severity, resolved, id, now)
    {
      hide BuildAlertMsg, Filed, Silenced;
      var a := Build(name, message, severity, resolved, id);
      if a.None? {
        return;
      }
      var silenced, _ := Chains[name].SilenceStatus(now);
      if !silenced {
        alertChan := alertChan + [a.value];
      }
      File(name, message, severity, resolved, id, silenced, now);
    }

    /** Silences a chain for 1 to 1440 minutes; the window ends on a whole second. */
    method SilenceChain(chain: string, minutes: int, now: Time) returns (until: Option<Time>)
      requires Valid() && now >= 0
      modifies if chain in Chains then {Chains[chain]} else {}
      ensures until.Some? <==> 1 <= minutes <= 1440 && chain in Chains
      ensures until.None? ==> Views() == old(Views())
      ensures until.Some? ==>
                && until.value == now + minutes * 60_000_000_000
                && (forall t :: Silenced(Views()[chain].silencedUntil, t) <==>
                      t < until.value - until.value % 1_000_000_000)
                && (forall c | c in Chains && c != chain :: Views()[c] == old(Views())[c])
                && Views()[chain] == old(Views())[chain].(silencedUntil := Views()[chain].silencedUntil)
    {
      if minutes < 1 || minutes > MAX_SILENCE_MINUTES {
        return None;
      }
      if chain !in Chains {
        return None;
      }
      var end := now + minutes * MINUTE;
      Chains[chain].silencedUntil := Unix(end);
      return Some(end);
    }

    method UnsilenceChain(chain: string) returns (ok: bool)
      requires Valid()
      modifies if chain in Chains then {Chains[chain]} else {}
      ensures ok <==> chain in Chains
      ensures ok ==> forall t :: !Silenced(Views()[chain].silencedUntil, t)
      ensures forall c | c in Chains && c != chain :: Views()[c] == old(Views())[c]
      ensures ok ==> Views()[chain] == old(Views())[chain].(silencedUntil := 0)
    {
      if chain !in Chains {
        return false;
      }
      Chains[chain].silencedUntil := 0;
      return true;
    }
  }
}
