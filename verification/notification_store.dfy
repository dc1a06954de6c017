/**
 The persisted store of price-alert rules: the list of thresholds and the
 global "alerts enabled" flag, with the reducers the screens call. Each
 reducer is a pure function from the old state to the new one; the fresh id
 that `addNotification` draws from the clock and a random number is a parameter.
 */
module NotificationStore {
  import opened Options

  /** Whether a rule watches for prices above or below its threshold. */
  datatype Kind = Above | Below

  /** One user-defined alert rule (a `NotificationThreshold` record). */
  datatype Threshold = Threshold(id: string, kind: Kind, price: real, enabled: bool)

  /** The fields of a new rule, before the store gives it an id. */
  datatype Draft = Draft(kind: Kind, price: real, enabled: bool)

  /** A partial record: every field that is present overrides the record's own. */
  datatype Patch = Patch(id: Option<string>, kind: Option<Kind>, price: Option<real>, enabled: Option<bool>)

  datatype State = State(notifications: seq<Threshold>, isNotificationsEnabled: bool)

  /** The state before anything was stored: no rules, alerts switched off. */
  function Initial(): (s: State)
    ensures |s.notifications| == 0 && !s.isNotificationsEnabled
  {
    State([], false)
  }

  /** The ids in use. */
  function Ids(rules: seq<Threshold>): set<string>
  {
    set t | t in rules :: t.id
  }

  /** The invariant the store is meant to keep: no id occurs twice. */
  predicate UniqueIds(rules: seq<Threshold>)
  {
    forall i, j :: 0 <= i < j < |rules| ==> rules[i].id != rules[j].id
  }

  /** How many rules carry the given id. */
  function CountId(rules: seq<Threshold>, id: string): (n: nat)
    ensures n <= |rules|
    ensures n == 0 <==> id !in Ids(rules)
  {
    if |rules| == 0 then 0
    else (if rules[0].id == id then 1 else 0) + CountId(rules[1..], id)
  }

  // ---------------------------------------------------------------------------
  // setNotificationsEnabled

  function SetNotificationsEnabled(s: State, enabled: bool): (r: State)
    ensures r.isNotificationsEnabled == enabled
    ensures r.notifications == s.notifications
  {
    s.(isNotificationsEnabled := enabled)
  }

  // ---------------------------------------------------------------------------
  // addNotification

  function WithId(d: Draft, id: string): Threshold
  {
    Threshold(id, d.kind, d.price, d.enabled)
  }

  function AddNotification(s: State, d: Draft, freshId: string): (r: State)
    ensures |r.notifications| == |s.notifications| + 1
    ensures r.notifications[..|s.notifications|] == s.notifications
    ensures var t := r.notifications[|s.notifications|];
      t.id == freshId && t.kind == d.kind && t.price == d.price && t.enabled == d.enabled
    ensures r.isNotificationsEnabled == s.isNotificationsEnabled
  {
    s.(notifications := s.notifications + [WithId(d, freshId)])
  }

  // ---------------------------------------------------------------------------
  // updateNotification

  /** The record with the patch spread over it: the fields present in the patch win. */
  function ApplyPatch(t: Threshold, p: Patch): Threshold
  {
    Threshold(
      if p.id.Some? then p.id.value else t.id,
      if p.kind.Some? then p.kind.value else t.kind,
      if p.price.Some? then p.price.value else t.price,
      if p.enabled.Some? then p.enabled.value else t.enabled)
  }

  function UpdateAll(rules: seq<Threshold>, id: string, p: Patch): (r: seq<Threshold>)
    ensures |r| == |rules|
    ensures forall i :: 0 <= i < |rules| && rules[i].id != id ==> r[i] == rules[i]
    ensures forall i :: 0 <= i < |rules| && rules[i].id == id ==> r[i] == ApplyPatch(rules[i], p)
  {
    if |rules| == 0 then []
    else [if rules[0].id == id then ApplyPatch(rules[0], p) else rules[0]] + UpdateAll(rules[1..], id, p)
  }

  function UpdateNotification(s: State, id: string, p: Patch): (r: State)
    ensures |r.notifications| == |s.notifications|
    ensures forall i :: 0 <= i < |s.notifications| ==>
      var t, u := s.notifications[i], r.notifications[i];
      if t.id == id then
        && u.id == (if p.id.Some? then p.id.value else t.id)
        && u.kind == (if p.kind.Some? then p.kind.value else t.kind)
        && u.price == (if p.price.Some? then p.price.value else t.price)
        && u.enabled == (if p.enabled.Some? then p.enabled.value else t.enabled)
      else u == t
    ensures r.isNotificationsEnabled == s.isNotificationsEnabled
  {
    s.(notifications := UpdateAll(s.notifications, id, p))
  }

  // ---------------------------------------------------------------------------
  // removeNotification

  function RemoveAll(rules: seq<Threshold>, id: string): (r: seq<Threshold>)
    ensures forall t :: t in r <==> t in rules && t.id != id
    ensures |r| == |rules| - CountId(rules, id)
  {
    if |rules| == 0 then []
    else if rules[0].id == id then RemoveAll(rules[1..], id)
    else [rules[0]] + RemoveAll(rules[1..], id)
  }

  function RemoveNotification(s: State, id: string): (r: State)
    ensures forall t :: t in r.notifications <==> t in s.notifications && t.id != id
    ensures |r.notifications| == |s.notifications| - CountId(s.notifications, id)
    ensures r.isNotificationsEnabled == s.isNotificationsEnabled
  {
    s.(notifications := RemoveAll(s.notifications, id))
  }

  // ---------------------------------------------------------------------------
  // toggleNotification

  function Flip(t: Threshold): Threshold
  {
    t.(enabled := !t.enabled)
  }

  function ToggleAll(rules: seq<Threshold>, id: string): (r: seq<Threshold>)
    ensures |r| == |rules|
    ensures forall i :: 0 <= i < |rules| ==>
      && r[i].id == rules[i].id && r[i].kind == rules[i].kind && r[i].price == rules[i].price
      && (r[i].enabled != rules[i].enabled <==> rules[i].id == id)
  {
    if |rules| == 0 then []
    else [if rules[0].id == id then Flip(rules[0]) else rules[0]] + ToggleAll(rules[1..], id)
  }

  function ToggleNotification(s: State, id: string): (r: State)
    ensures |r.notifications| == |s.notifications|
    ensures forall i :: 0 <= i < |s.notifications| ==>
      var t, u := s.notifications[i], r.notifications[i];
      && u.id == t.id && u.kind == t.kind && u.price == t.price
      && (u.enabled == !t.enabled <==> t.id == id)
    ensures r.isNotificationsEnabled == s.isNotificationsEnabled
  {
    s.(notifications := ToggleAll(s.notifications, id))
  }

  // ---------------------------------------------------------------------------
  // Properties relating several calls

  /** Removing keeps the survivors in their original order: it distributes over concatenation. */
  lemma {:induction false} RemoveAppend(a: seq<Threshold>, b: seq<Threshold>, id: string)
    ensures RemoveAll(a + b, id) == RemoveAll(a, id) + RemoveAll(b, id)
  {
    if |a| == 0 {
      assert a + b == b;
    } else {
      assert (a + b)[0] == a[0];
      assert (a + b)[1..] == a[1..] + b;
      RemoveAppend(a[1..], b, id);
      var ra, rb := RemoveAll(a[1..], id), RemoveAll(b, id);
      if a[0].id != id {
        assert [a[0]] + (ra + rb) == ([a[0]] + ra) + rb;
      }
    }
  }

  /** Removing an id nobody carries changes nothing. */
  lemma {:induction false} RemoveUnknownId(rules: seq<Threshold>, id: string)
    requires id !in Ids(rules)
    ensures RemoveAll(rules, id) == rules
  {
    if |rules| > 0 {
      assert rules[0] in rules;
      assert Ids(rules[1..]) <= Ids(rules) by {
        forall x | x in Ids(rules[1..]) ensures x in Ids(rules) {
          var t :| t in rules[1..] && t.id == x;
          assert t in rules;
        }
      }
      RemoveUnknownId(rules[1..], id);
      assert rules == [rules[0]] + rules[1..];
    }
  }

  /** Removing twice is removing once. */
  lemma RemoveIdempotent(s: State, id: string)
    ensures RemoveNotification(RemoveNotification(s, id), id) == RemoveNotification(s, id)
  {
    var r := RemoveNotification(s, id);
    assert id !in Ids(r.notifications);
    RemoveUnknownId(r.notifications, id);
  }

  /** Adding a rule under a fresh id and then removing that id restores the state. */
  lemma AddThenRemove(s: State, d: Draft, freshId: string)
    requires freshId !in Ids(s.notifications)
    ensures RemoveNotification(AddNotification(s, d, freshId), freshId) == s
  {
    RemoveAppend(s.notifications, [WithId(d, freshId)], freshId);
    RemoveUnknownId(s.notifications, freshId);
    assert RemoveAll([WithId(d, freshId)], freshId) == [];
  }

  /** Toggling the same id twice is the identity. */
  lemma ToggleTwice(s: State, id: string)
    ensures ToggleNotification(ToggleNotification(s, id), id) == s
  {
    var r := ToggleNotification(ToggleNotification(s, id), id).notifications;
    assert |r| == |s.notifications|;
    forall i | 0 <= i < |r| ensures r[i] == s.notifications[i] {
    }
  }

  /** Updating an id nobody carries changes nothing. */
  lemma UpdateUnknownId(s: State, id: string, p: Patch)
    requires id !in Ids(s.notifications)
    ensures UpdateNotification(s, id, p) == s
  {
    var r := UpdateNotification(s, id, p).notifications;
    forall i | 0 <= i < |r| ensures r[i] == s.notifications[i] {
      assert s.notifications[i] in s.notifications;
    }
  }

  /**
   Applying the same patch twice is applying it once. A patch that moves the
   matching records to another id leaves nothing for the second call to match.
   */
  lemma UpdateIdempotent(s: State, id: string, p: Patch)
    ensures UpdateNotification(UpdateNotification(s, id, p), id, p) == UpdateNotification(s, id, p)
  {
    var once := UpdateNotification(s, id, p).notifications;
    var twice := UpdateNotification(UpdateNotification(s, id, p), id, p).notifications;
    forall i | 0 <= i < |twice| ensures twice[i] == once[i] {
    }
  }

  /** Toggling is the update that negates `enabled`, record by record. */
  lemma ToggleIsPointwiseUpdate(s: State, id: string, i: nat)
    requires i < |s.notifications| && s.notifications[i].id == id
    ensures ToggleNotification(s, id).notifications[i]
         == UpdateNotification(s, id, Patch(None, None, None, Some(!s.notifications[i].enabled))).notifications[i]
  {
  }

  // ---------------------------------------------------------------------------
  // The unique-id invariant

  lemma AddKeepsUnique(s: State, d: Draft, freshId: string)
    requires UniqueIds(s.notifications) && freshId !in Ids(s.notifications)
    ensures UniqueIds(AddNotification(s, d, freshId).notifications)
  {
    var r := AddNotification(s, d, freshId).notifications;
    forall i, j | 0 <= i < j < |r| ensures r[i].id != r[j].id {
      if j == |s.notifications| {
        assert r[i] == s.notifications[i];
        assert s.notifications[i] in s.notifications;
      }
    }
  }

  /** In a list with unique ids, no later record shares the first record's id. */
  lemma HeadIdNotLater(rules: seq<Threshold>)
    requires UniqueIds(rules) && |rules| > 0
    ensures forall x :: x in rules[1..] ==> x.id != rules[0].id
  {
    forall x | x in rules[1..] ensures x.id != rules[0].id {
      var m :| 0 <= m < |rules[1..]| && rules[1..][m] == x;
      assert rules[m + 1] == x;
    }
  }

  /** A record whose id is new to a unique list can be put in front of it. */
  lemma ConsUnique(t: Threshold, tail: seq<Threshold>)
    requires UniqueIds(tail)
    requires forall x :: x in tail ==> x.id != t.id
    ensures UniqueIds([t] + tail)
  {
    var r := [t] + tail;
    forall i, j | 0 <= i < j < |r| ensures r[i].id != r[j].id {
      assert r[j] == tail[j - 1];
      if i == 0 {
        assert tail[j - 1] in tail;
      } else {
        assert r[i] == tail[i - 1];
      }
    }
  }

  lemma {:induction false} RemoveKeepsUnique(rules: seq<Threshold>, id: string)
    requires UniqueIds(rules)
    ensures UniqueIds(RemoveAll(rules, id))
  {
    if |rules| > 0 {
      assert UniqueIds(rules[1..]);
      RemoveKeepsUnique(rules[1..], id);
      if rules[0].id != id {
        HeadIdNotLater(rules);
        ConsUnique(rules[0], RemoveAll(rules[1..], id));
      }
    }
  }

  lemma ToggleKeepsUnique(s: State, id: string)
    requires UniqueIds(s.notifications)
    ensures UniqueIds(ToggleNotification(s, id).notifications)
  {
  }

  lemma UpdateKeepsUnique(s: State, id: string, p: Patch)
    requires UniqueIds(s.notifications)
    requires p.id.None? || p.id == Some(id)
    ensures UniqueIds(UpdateNotification(s, id, p).notifications)
  {
  }
}
