/** The notification list of the intake form: what an alert is, how removal by id
    filters the list, and what the pending expiry timers do to it. */
module Alerts {
  import opened Wrappers

  /** The alert variants the alert component knows. */
  datatype Variant = Default | Success | Error | Warning | Info

  /** What a caller hands to `addAlert`; `persistent` is false when the caller omits it. */
  datatype Notice = Notice(variant: Variant, title: Option<string>, description: string, persistent: bool)

  /** A notice in the list, stamped with the id `addAlert` gave it (a clock reading, so
      two alerts may carry the same id). */
  datatype Alert = Alert(id: int, notice: Notice)

  /** `alerts.filter(a => a.id !== id)`: every alert carrying `id` is dropped. */
  function WithoutId(alerts: seq<Alert>, id: int): (kept: seq<Alert>)
    ensures |kept| <= |alerts|
    ensures forall a :: a in kept ==> a in alerts && a.id != id
  {
    if alerts == [] then []
    else if alerts[0].id == id then WithoutId(alerts[1..], id)
    else [alerts[0]] + WithoutId(alerts[1..], id)
  }

  /** Every alert with another id survives the removal, as many times as it occurred. */
  lemma {:induction false} WithoutIdCount(alerts: seq<Alert>, id: int, a: Alert)
    ensures multiset(WithoutId(alerts, id))[a] == if a.id == id then 0 else multiset(alerts)[a]
  {
    if alerts != [] {
      WithoutIdCount(alerts[1..], id, a);
      assert alerts == [alerts[0]] + alerts[1..];
    }
  }

  /** Removal works piece by piece: the survivors keep their relative order. */
  lemma {:induction false} WithoutIdAppend(s: seq<Alert>, t: seq<Alert>, id: int)
    ensures WithoutId(s + t, id) == WithoutId(s, id) + WithoutId(t, id)
  {
    if s != [] {
      assert (s + t)[1..] == s[1..] + t;
      WithoutIdAppend(s[1..], t, id);
    } else {
      assert s + t == t;
    }
  }

  /** Removing an id no alert carries leaves the list as it was. */
  lemma {:induction false} WithoutIdAbsent(alerts: seq<Alert>, id: int)
    requires forall a :: a in alerts ==> a.id != id
    ensures WithoutId(alerts, id) == alerts
  {
    if alerts != [] {
      assert alerts[0] in alerts;
      assert forall a :: a in alerts[1..] ==> a in alerts;
      WithoutIdAbsent(alerts[1..], id);
    }
  }

  /** Removing the same id twice is the same as removing it once. */
  lemma {:induction false} WithoutIdIdempotent(alerts: seq<Alert>, id: int)
    ensures WithoutId(WithoutId(alerts, id), id) == WithoutId(alerts, id)
  {
    WithoutIdAbsent(WithoutId(alerts, id), id);
  }

  /** Dismissing an alert right after adding it restores the earlier alerts that carry
      another id; earlier alerts that share its id go too. */
  lemma RemoveAfterAdd(alerts: seq<Alert>, notice: Notice, id: int)
    ensures WithoutId(alerts + [Alert(id, notice)], id) == WithoutId(alerts, id)
  {
    WithoutIdAppend(alerts, [Alert(id, notice)], id);
    assert WithoutId([Alert(id, notice)], id) == [];
  }

  /** Every transient (non-persistent) alert in the list has a pending expiry timer. */
  ghost predicate Scheduled(alerts: seq<Alert>, timers: seq<int>)
  {
    forall a :: a in alerts && !a.notice.persistent ==> a.id in timers
  }

  /** The list left once the given timers have fired, oldest first, each removing the
      alerts that carry its id. */
  function AfterTimers(alerts: seq<Alert>, timers: seq<int>): (left: seq<Alert>)
    ensures forall a :: a in left ==> a in alerts && a.id !in timers
    decreases |timers|
  {
    if timers == [] then alerts else AfterTimers(WithoutId(alerts, timers[0]), timers[1..])
  }

  /** Once every pending timer has fired, no transient alert is left, and every alert
      whose id no timer carries (a persistent one, unless it shares an id) is still there. */
  lemma {:induction false} TimersClearTransients(alerts: seq<Alert>, timers: seq<int>)
    requires Scheduled(alerts, timers)
    ensures forall a :: a in AfterTimers(alerts, timers) ==> a.notice.persistent
    ensures forall a :: a in alerts && a.id !in timers ==> a in AfterTimers(alerts, timers)
    decreases |timers|
  {
    if timers != [] {
      var rest := WithoutId(alerts, timers[0]);
      assert Scheduled(rest, timers[1..]) by {
        forall a | a in rest && !a.notice.persistent ensures a.id in timers[1..] {
          assert a.id in timers && a.id != timers[0];
        }
      }
      forall a | a in alerts && a.id !in timers ensures a in rest {
        WithoutIdCount(alerts, timers[0], a);
        assert a in multiset(alerts);
      }
      TimersClearTransients(rest, timers[1..]);
    }
  }
}
