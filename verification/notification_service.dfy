/**
 The alert decision logic: resolving the "current price" from a fetched price
 series, and deciding which notifications the stored rules ask for at that
 price. Scheduling a notification is abstracted to emitting an `Intent`;
 the wall clock is the parameter `now` (milliseconds).
 */
module NotificationService {
  import opened Options
  import opened NotificationStore

  /** One quote of the price series, as `getCurrentPrice` sees it. */
  datatype Sample = Sample(value: real, date: int)

  // ---------------------------------------------------------------------------
  // getCurrentPrice

  /**
   The length of the longest prefix of `history` whose samples are dated at or
   before `now`: the samples the resolver's loop visits before it breaks.
   */
  function LeadingRun(history: seq<Sample>, now: int): (k: nat)
    ensures k <= |history|
    ensures forall j :: 0 <= j < k ==> history[j].date <= now
    ensures k < |history| ==> history[k].date > now
  {
    if |history| > 0 && history[0].date <= now then 1 + LeadingRun(history[1..], now) else 0
  }

  /** The prefix length is determined by the three facts `LeadingRun` promises. */
  lemma {:induction false} LeadingRunUnique(history: seq<Sample>, now: int, k: nat)
    requires k <= |history|
    requires forall j :: 0 <= j < k ==> history[j].date <= now
    requires k < |history| ==> history[k].date > now
    ensures LeadingRun(history, now) == k
  {
    if k > 0 {
      assert history[0].date <= now;
      LeadingRunUnique(history[1..], now, k - 1);
    }
  }

  /** The loop of `getCurrentPrice`: remember each visited value, stop at the first future sample. */
  function Scan(history: seq<Sample>, now: int, acc: Option<real>): (r: Option<real>)
    ensures var k := LeadingRun(history, now);
      r == if k == 0 then acc else Some(history[k - 1].value)
  {
    if |history| == 0 then acc
    else if history[0].date <= now then Scan(history[1..], now, Some(history[0].value))
    else acc
  }

  /**
   The price in force at `now`: the value of the last sample of the leading
   run of samples dated at or before `now`; absent when that run is empty.
   */
  function GetCurrentPrice(history: seq<Sample>, now: int): (r: Option<real>)
    ensures |history| == 0 ==> r == None
    ensures |history| > 0 && history[0].date > now ==> r == None
    ensures r.None? <==> LeadingRun(history, now) == 0
    ensures r.Some? ==> r.value == history[LeadingRun(history, now) - 1].value
  {
    if |history| == 0 then None else Scan(history, now, None)
  }

  /** When every sample is dated at or before `now`, the last sample's value is the price. */
  lemma AllPastGivesLast(history: seq<Sample>, now: int)
    requires |history| > 0
    requires forall j :: 0 <= j < |history| ==> history[j].date <= now
    ensures GetCurrentPrice(history, now) == Some(history[|history| - 1].value)
  {
  }

  /**
   Samples after the first future sample are never looked at: whatever
   follows a sample dated after `now` can be replaced without changing the price.
   */
  lemma IgnoresAfterFuture(history: seq<Sample>, now: int, i: nat, rest: seq<Sample>)
    requires i < |history| && history[i].date > now
    ensures GetCurrentPrice(history[..i + 1] + rest, now) == GetCurrentPrice(history, now)
  {
    var k := LeadingRun(history, now);
    var other := history[..i + 1] + rest;
    assert k <= i;
    forall j | 0 <= j <= i ensures other[j] == history[j] {
    }
    LeadingRunUnique(other, now, k);
  }

  /** An ascending series. */
  predicate Sorted(history: seq<Sample>)
  {
    forall i, j :: 0 <= i < j < |history| ==> history[i].date <= history[j].date
  }

  /** On an ascending series the price is the one of the latest sample dated at or before `now`. */
  lemma SortedGivesLatestPast(history: seq<Sample>, now: int)
    requires Sorted(history)
    ensures var r := GetCurrentPrice(history, now);
      && (r.Some? <==> exists j :: 0 <= j < |history| && history[j].date <= now)
      && (r.Some? ==> exists i :: 0 <= i < |history| && history[i].date <= now && r.value == history[i].value
                                && forall j :: i < j < |history| ==> history[j].date > now)
  {
    var k := LeadingRun(history, now);
    if k == 0 {
      forall j | 0 <= j < |history| ensures history[j].date > now {
        assert history[0].date <= history[j].date;
      }
    } else {
      assert history[k - 1].date <= now;
      forall j | k - 1 < j < |history| ensures history[j].date > now {
        assert history[k].date <= history[j].date;
      }
    }
  }

  /** The worked example: at the middle sample's own instant, its value is the price. */
  lemma MiddleSampleExample()
    ensures GetCurrentPrice([Sample(10.0, 0), Sample(20.0, 900000), Sample(30.0, 1800000)], 900000) == Some(20.0)
  {
    var h := [Sample(10.0, 0), Sample(20.0, 900000), Sample(30.0, 1800000)];
    LeadingRunUnique(h, 900000, 2);
  }

  // ---------------------------------------------------------------------------
  // checkPriceThresholds

  const HighTitle: string := "High Electricity Price Alert"
  const LowTitle: string := "Low Electricity Price Alert"

  /**
   A notification to schedule. The body text names the rule's threshold and
   the current price (rendered with two decimals); the model keeps the two numbers.
   */
  datatype Intent = Intent(title: string, threshold: real, current: real)

  /** The strict comparison a rule of the given kind makes against its threshold. */
  predicate Crosses(kind: Kind, threshold: real, current: real)
  {
    match kind
    case Above => current > threshold
    case Below => current < threshold
  }

  /** The title of the notification a rule of the given kind sends. */
  function TitleOf(kind: Kind): string
  {
    match kind
    case Above => HighTitle
    case Below => LowTitle
  }

  /** The notification one rule asks for at the given price, if any. */
  function RuleIntent(rule: Threshold, current: real): (r: Option<Intent>)
    ensures r.Some? <==> rule.enabled && Crosses(rule.kind, rule.price, current)
    ensures r.Some? ==> r.value == Intent(TitleOf(rule.kind), rule.price, current)
  {
    if !rule.enabled then None
    else if rule.kind == Above && current > rule.price then Some(Intent(HighTitle, rule.price, current))
    else if rule.kind == Below && current < rule.price then Some(Intent(LowTitle, rule.price, current))
    else None
  }

  /** The rules visited in order, each contributing its notification if it fires. */
  function Emit(rules: seq<Threshold>, current: real): (r: seq<Intent>)
    ensures |r| <= |rules|
    ensures forall k :: 0 <= k < |r| ==> exists i :: 0 <= i < |rules| && RuleIntent(rules[i], current) == Some(r[k])
    ensures forall i :: 0 <= i < |rules| && RuleIntent(rules[i], current).Some? ==> RuleIntent(rules[i], current).value in r
  {
    if |rules| == 0 then []
    else
      var head := RuleIntent(rules[0], current);
      var tail := Emit(rules[1..], current);
      assert forall k :: 0 <= k < |tail| ==> exists i :: 0 <= i < |rules| && RuleIntent(rules[i], current) == Some(tail[k]) by {
        forall k | 0 <= k < |tail| ensures exists i :: 0 <= i < |rules| && RuleIntent(rules[i], current) == Some(tail[k]) {
          var i :| 0 <= i < |rules[1..]| && RuleIntent(rules[1..][i], current) == Some(tail[k]);
          assert rules[i + 1] == rules[1..][i];
        }
      }
      assert forall i :: 1 <= i < |rules| && RuleIntent(rules[i], current).Some? ==> RuleIntent(rules[i], current).value in tail by {
        forall i | 1 <= i < |rules| && RuleIntent(rules[i], current).Some? ensures RuleIntent(rules[i], current).value in tail {
          assert rules[1..][i - 1] == rules[i];
        }
      }
      if head.Some? then [head.value] + tail else tail
  }

  /** The positions of the rules that fire at `current`, in increasing order. */
  function Firing(rules: seq<Threshold>, current: real): (idx: seq<nat>)
    ensures forall k :: 0 <= k < |idx| ==> idx[k] < |rules|
    ensures forall k, l :: 0 <= k < l < |idx| ==> idx[k] < idx[l]
    ensures forall i :: 0 <= i < |rules| ==> (i in idx <==> RuleIntent(rules[i], current).Some?)
  {
    if |rules| == 0 then []
    else
      var t := Firing(rules[1..], current);
      var shifted := seq(|t|, k requires 0 <= k < |t| => t[k] + 1);
      assert forall i :: 1 <= i < |rules| ==> (i in shifted <==> i - 1 in t) by {
        forall i | 1 <= i < |rules| ensures i in shifted <==> i - 1 in t {
          if i - 1 in t {
            var k :| 0 <= k < |t| && t[k] == i - 1;
            assert shifted[k] == i;
          }
        }
      }
      assert forall i :: 1 <= i < |rules| ==> rules[1..][i - 1] == rules[i];
      if RuleIntent(rules[0], current).Some? then [0] + shifted else shifted
  }

  /** The notifications `checkPriceThresholds` schedules, in scheduling order. */
  function CheckPriceThresholds(isNotificationsEnabled: bool, rules: seq<Threshold>, current: real): (r: seq<Intent>)
    ensures !isNotificationsEnabled ==> r == []
    ensures |r| <= |rules|
    ensures forall k :: 0 <= k < |r| ==> exists i :: 0 <= i < |rules| && RuleIntent(rules[i], current) == Some(r[k])
    ensures isNotificationsEnabled ==>
      forall i :: 0 <= i < |rules| && RuleIntent(rules[i], current).Some? ==> RuleIntent(rules[i], current).value in r
  {
    if !isNotificationsEnabled then [] else Emit(rules, current)
  }

  /**
   With notifications on, the schedule is exactly the firing rules' notifications,
   one per firing rule, in rule order.
   */
  lemma CheckFollowsFiring(rules: seq<Threshold>, current: real)
    ensures var r := CheckPriceThresholds(true, rules, current);
      var idx := Firing(rules, current);
      && |r| == |idx|
      && forall k :: 0 <= k < |r| ==> RuleIntent(rules[idx[k]], current) == Some(r[k])
  {
    EmitFollowsFiring(rules, current);
  }

  /** The recursion behind `CheckFollowsFiring`: one step peels off the first rule. */
  lemma {:induction false} EmitFollowsFiring(rules: seq<Threshold>, current: real)
    ensures |Emit(rules, current)| == |Firing(rules, current)|
    ensures forall k :: 0 <= k < |Emit(rules, current)| ==>
      RuleIntent(rules[Firing(rules, current)[k]], current) == Some(Emit(rules, current)[k])
  {
    if |rules| > 0 {
      EmitFollowsFiring(rules[1..], current);
      FiringStep(rules, current, Emit(rules[1..], current), Firing(rules[1..], current));
    }
  }

  /** Given the claim for the rules after the first, it holds for all of them. */
  lemma FiringStep(rules: seq<Threshold>, current: real, tail: seq<Intent>, t: seq<nat>)
    requires |rules| > 0 && tail == Emit(rules[1..], current) && t == Firing(rules[1..], current)
    requires |tail| == |t| && forall k :: 0 <= k < |t| ==> RuleIntent(rules[1..][t[k]], current) == Some(tail[k])
    ensures |Emit(rules, current)| == |Firing(rules, current)|
    ensures forall k :: 0 <= k < |Emit(rules, current)| ==>
      RuleIntent(rules[Firing(rules, current)[k]], current) == Some(Emit(rules, current)[k])
  {
    var head := RuleIntent(rules[0], current);
    var shifted := seq(|t|, k requires 0 <= k < |t| => t[k] + 1);
    var pre: seq<Intent>, front: seq<nat> := if head.Some? then [head.value] else [], if head.Some? then [0] else [];
    assert Emit(rules, current) == pre + tail;
    assert Firing(rules, current) == front + shifted;
    ShiftedStep(rules, current, pre, front, tail, t);
  }

  /** The index arithmetic of `FiringStep`, kept apart from the recursive definitions. */
  lemma ShiftedStep(rules: seq<Threshold>, current: real, pre: seq<Intent>, front: seq<nat>, tail: seq<Intent>, t: seq<nat>)
    requires |rules| > 0 && |pre| == |front| <= 1
    requires |pre| == 1 ==> front[0] == 0 && RuleIntent(rules[0], current) == Some(pre[0])
    requires |tail| == |t| && forall k :: 0 <= k < |t| ==> t[k] < |rules| - 1 && RuleIntent(rules[1..][t[k]], current) == Some(tail[k])
    ensures var r, idx := pre + tail, front + seq(|t|, k requires 0 <= k < |t| => t[k] + 1);
      |r| == |idx| && forall k :: 0 <= k < |r| ==> idx[k] < |rules| && RuleIntent(rules[idx[k]], current) == Some(r[k])
  {
    var r, idx := pre + tail, front + seq(|t|, k requires 0 <= k < |t| => t[k] + 1);
    var d := |pre|;
    forall k | 0 <= k < |r|
      ensures idx[k] < |rules| && RuleIntent(rules[idx[k]], current) == Some(r[k])
    {
      if k >= d {
        assert r[k] == tail[k - d] && idx[k] == t[k - d] + 1;
        assert rules[idx[k]] == rules[1..][t[k - d]];
      }
    }
  }

  /** Emissions follow rule order: evaluating a concatenation concatenates the notifications. */
  lemma {:induction false} CheckAppend(enabled: bool, a: seq<Threshold>, b: seq<Threshold>, current: real)
    ensures CheckPriceThresholds(enabled, a + b, current)
         == CheckPriceThresholds(enabled, a, current) + CheckPriceThresholds(enabled, b, current)
  {
    if enabled && |a| > 0 {
      assert (a + b)[0] == a[0];
      assert (a + b)[1..] == a[1..] + b;
      CheckAppend(enabled, a[1..], b, current);
      var head := RuleIntent(a[0], current);
      var ta, tb := Emit(a[1..], current), Emit(b, current);
      if head.Some? {
        assert [head.value] + (ta + tb) == ([head.value] + ta) + tb;
      }
    } else if |a| == 0 {
      assert a + b == b;
    }
  }

  /** A single enabled rule: exactly one notification when its strict comparison holds, none otherwise. */
  lemma SingleRule(rule: Threshold, current: real)
    ensures var r := CheckPriceThresholds(true, [rule], current);
      && (rule.kind == Above ==>
            r == (if rule.enabled && current > rule.price then [Intent(HighTitle, rule.price, current)] else []))
      && (rule.kind == Below ==>
            r == (if rule.enabled && current < rule.price then [Intent(LowTitle, rule.price, current)] else []))
  {
    assert [rule][1..] == [];
  }

  /** At a price equal to a rule's threshold, that rule stays silent, whatever its kind. */
  lemma EqualityNeverFires(rule: Threshold)
    ensures CheckPriceThresholds(true, [rule], rule.price) == []
  {
    SingleRule(rule, rule.price);
  }

  /** A disabled rule can be inserted anywhere without changing what is scheduled. */
  lemma DisabledRuleSilent(a: seq<Threshold>, rule: Threshold, b: seq<Threshold>, current: real)
    requires !rule.enabled
    ensures CheckPriceThresholds(true, a + [rule] + b, current) == CheckPriceThresholds(true, a + b, current)
  {
    CheckAppend(true, a + [rule], b, current);
    CheckAppend(true, a, [rule], current);
    CheckAppend(true, a, b, current);
    SingleRule(rule, current);
  }

  /** Two enabled rules, above 10 and below 100, both fire at 50, in rule order. */
  lemma BothKindsFireExample()
    ensures CheckPriceThresholds(true, [Threshold("a", Above, 10.0, true), Threshold("b", Below, 100.0, true)], 50.0)
         == [Intent(HighTitle, 10.0, 50.0), Intent(LowTitle, 100.0, 50.0)]
  {
    var a := Threshold("a", Above, 10.0, true);
    var b := Threshold("b", Below, 100.0, true);
    CheckAppend(true, [a], [b], 50.0);
    SingleRule(a, 50.0);
    SingleRule(b, 50.0);
    assert [a] + [b] == [a, b];
  }

  // ---------------------------------------------------------------------------
  // The check both the screen and the background task run after a fetch

  /**
   Resolve the current price of `history` at `now` and, when there is one,
   evaluate the stored rules against it.
   */
  function AlertsFor(store: State, history: seq<Sample>, now: int): (r: seq<Intent>)
    ensures !store.isNotificationsEnabled ==> r == []
    ensures GetCurrentPrice(history, now).None? ==> r == []
    ensures forall k :: 0 <= k < |r| ==>
      && r[k].current == history[LeadingRun(history, now) - 1].value
      && exists i :: 0 <= i < |store.notifications| && RuleIntent(store.notifications[i], r[k].current) == Some(r[k])
    ensures store.isNotificationsEnabled && GetCurrentPrice(history, now).Some? ==>
      var p := GetCurrentPrice(history, now).value;
      forall i :: 0 <= i < |store.notifications| && RuleIntent(store.notifications[i], p).Some? ==>
        RuleIntent(store.notifications[i], p).value in r
  {
    match GetCurrentPrice(history, now)
    case None => []
    case Some(p) => CheckPriceThresholds(store.isNotificationsEnabled, store.notifications, p)
  }
}
