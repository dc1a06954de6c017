/**
 The logic of the price screen: building the feed URLs' date text, merging
 today's and tomorrow's records into chart points, picking the point nearest
 to the clock, and deriving the chart window, the extremes and the "NOW"
 marker. Local clock fields of each record (its hour and minute) are given
 with the record instead of being read from a time zone.
 */
module PriceScreen {
  import opened Options
  import opened Decimal
  import opened NotificationStore
  import opened NotificationService

  // ---------------------------------------------------------------------------
  // formatDate

  /** `YYYY-MM-DD` from the year, the 0-based month index and the day of the month. */
  function FormatDate(year: nat, monthIndex: nat, day: nat): (s: string)
    ensures |s| == |NatToString(year)| + |PadStart2(NatToString(monthIndex + 1))| + |PadStart2(NatToString(day))| + 2
  {
    NatToString(year) + "-" + PadStart2(NatToString(monthIndex + 1)) + "-" + PadStart2(NatToString(day))
  }

  /** Where the fields of `<year>-<mm>-<dd>` sit when both trailing fields have two characters. */
  lemma DateFields(y: string, m: string, d: string)
    requires |m| == 2 && |d| == 2
    ensures var s := y + "-" + m + "-" + d;
      && |s| == |y| + 6
      && s[..|s| - 6] == y
      && s[|s| - 6] == '-' && s[|s| - 3] == '-'
      && s[|s| - 5..|s| - 3] == m
      && s[|s| - 2..] == d
  {
    var s := y + "-" + m + "-" + d;
    assert s == y + ("-" + m + "-" + d);
  }

  /** For calendar values the text has the fixed shape `<year>-MM-DD` and reads back as its fields. */
  lemma FormatDateReadsBack(year: nat, monthIndex: nat, day: nat)
    requires monthIndex < 12 && 1 <= day <= 31
    ensures var s := FormatDate(year, monthIndex, day);
      && |s| == |NatToString(year)| + 6
      && s[..|s| - 6] == NatToString(year)
      && s[|s| - 6] == '-' && s[|s| - 3] == '-'
      && AllDigits(s[|s| - 5..|s| - 3]) && ParseDigits(s[|s| - 5..|s| - 3]) == monthIndex + 1
      && AllDigits(s[|s| - 2..]) && ParseDigits(s[|s| - 2..]) == day
  {
    var y, m, d := NatToString(year), PadStart2(NatToString(monthIndex + 1)), PadStart2(NatToString(day));
    TwoDigits(monthIndex + 1);
    TwoDigits(day);
    var s := FormatDate(year, monthIndex, day);
    assert s == y + "-" + m + "-" + d;
    DateFields(y, m, d);
    assert s[|s| - 5..|s| - 3] == m && s[|s| - 2..] == d;
  }

  // ---------------------------------------------------------------------------
  // Chart points

  /** One record of the feed: its price, its instant, and the local hour and minute of that instant. */
  datatype Quote = Quote(price: real, date: int, hours: nat, minutes: nat)

  /** A chart point; only points on the hour or half hour carry a label. */
  datatype Point = Point(value: real, labelText: Option<string>, date: int)

  /** The `HH:MM` label of a point, given on the hour and on the half hour only. */
  function Label(hours: nat, minutes: nat): (l: Option<string>)
    ensures l.Some? <==> minutes == 0 || minutes == 30
  {
    if minutes == 0 || minutes == 30 then Some(PadStart2(NatToString(hours)) + ":" + PadStart2(NatToString(minutes)))
    else None
  }

  /** Where the fields of `<hh>:<mm>` sit when both have two characters. */
  lemma LabelFields(h: string, m: string)
    requires |h| == 2 && |m| == 2
    ensures var l := h + ":" + m;
      |l| == 5 && l[..2] == h && l[2] == ':' && l[3..] == m
  {
    var l := h + ":" + m;
    assert l[..2] == h;
    assert l[3..] == m;
  }

  /** The two minute fields a label can show. */
  lemma MinuteTexts()
    ensures PadStart2(NatToString(0)) == "00"
    ensures PadStart2(NatToString(30)) == "30"
  {
    assert NatToString(0) == "0";
    assert NatToString(30) == NatToString(3) + [DigitChar(0)];
  }

  /** A label is five characters, the hour in two digits, a colon, then `00` or `30`. */
  lemma LabelShape(hours: nat, minutes: nat)
    requires hours < 24 && (minutes == 0 || minutes == 30)
    ensures var l := Label(hours, minutes).value;
      && |l| == 5 && l[2] == ':'
      && AllDigits(l[..2]) && ParseDigits(l[..2]) == hours
      && l[3..] == (if minutes == 0 then "00" else "30")
  {
    var h, m := PadStart2(NatToString(hours)), PadStart2(NatToString(minutes));
    TwoDigits(hours);
    MinuteTexts();
    assert |m| == 2;
    assert Label(hours, minutes).value == h + ":" + m;
    LabelFields(h, m);
  }

  function ToPoint(q: Quote): Point
  {
    Point(q.price, Label(q.hours, q.minutes), q.date)
  }

  /** `formattedData`: one point per record, same order. */
  function FormatData(quotes: seq<Quote>): (ps: seq<Point>)
    ensures |ps| == |quotes|
    ensures forall i :: 0 <= i < |quotes| ==>
      && ps[i].value == quotes[i].price && ps[i].date == quotes[i].date
      && (ps[i].labelText.Some? <==> quotes[i].minutes % 30 == 0 && quotes[i].minutes < 60)
    ensures forall i :: 0 <= i < |quotes| ==> ps[i].labelText == Label(quotes[i].hours, quotes[i].minutes)
  {
    seq(|quotes|, i requires 0 <= i < |quotes| => ToPoint(quotes[i]))
  }

  /** The points as the resolver sees them. */
  function Samples(ps: seq<Point>): (ss: seq<Sample>)
    ensures |ss| == |ps|
    ensures forall i :: 0 <= i < |ps| ==> ss[i] == Sample(ps[i].value, ps[i].date)
  {
    seq(|ps|, i requires 0 <= i < |ps| => Sample(ps[i].value, ps[i].date))
  }

  // ---------------------------------------------------------------------------
  // Fetching both days

  /** How one day's fetch went. */
  datatype DayResponse = NotOk | Unparsable | Parsed(records: seq<Quote>)

  /** Both fetches together: either one of them rejected, or both produced a response. */
  datatype Fetch = Rejected(message: string) | Responded(current: DayResponse, next: DayResponse)

  const NoDataMessage: string := "Could not fetch electricity price data for today or tomorrow."

  /** A day's contribution: its records when it parsed, nothing otherwise. */
  function DayRecords(d: DayResponse): seq<Quote>
  {
    if d.Parsed? then d.records else []
  }

  /**
   The combined history the screen shows, or the error it shows instead.
   Today's records come before tomorrow's; the error is raised exactly when
   neither day contributed a record.
   */
  function LoadPrices(f: Fetch): (r: Result<seq<Point>>)
    ensures f.Rejected? ==> r == Err(f.message)
    ensures f.Responded? ==>
      (r.Err? <==> |DayRecords(f.current)| == 0 && |DayRecords(f.next)| == 0)
    ensures f.Responded? && r.Err? ==> r.message == NoDataMessage
    ensures f.Responded? && r.Ok? ==>
      && |r.value| == |DayRecords(f.current)| + |DayRecords(f.next)|
      && r.value[..|DayRecords(f.current)|] == FormatData(DayRecords(f.current))
      && r.value[|DayRecords(f.current)|..] == FormatData(DayRecords(f.next))
  {
    match f
    case Rejected(message) => Err(message)
    case Responded(current, next) =>
      var all := DayRecords(current) + DayRecords(next);
      if |all| == 0 then Err(NoDataMessage)
      else
        var ps := FormatData(all);
        assert ps[..|DayRecords(current)|] == FormatData(DayRecords(current));
        assert ps[|DayRecords(current)|..] == FormatData(DayRecords(next));
        Ok(ps)
  }

  /** What the screen holds after loading, and the notifications the load scheduled. */
  datatype Loaded = Loaded(history: seq<Point>, error: Option<string>, alerts: seq<Intent>)

  /**
   `fetchElectricityPrices`, run once when the screen mounts: on success the
   history is shown and the stored rules are checked against its current price;
   on failure the history stays empty and the message is shown.
   */
  function FetchElectricityPrices(f: Fetch, store: State, now: int): (l: Loaded)
    ensures l.error.Some? <==> LoadPrices(f).Err?
    ensures l.error.Some? ==> l.error.value == LoadPrices(f).message
    ensures l.error.Some? ==> l.history == [] && l.alerts == []
    ensures l.error.None? ==> l.history == LoadPrices(f).value
    ensures l.alerts == (if l.error.None? then AlertsFor(store, Samples(l.history), now) else [])
  {
    match LoadPrices(f)
    case Err(message) => Loaded([], Some(message), [])
    case Ok(ps) => Loaded(ps, None, AlertsFor(store, Samples(ps), now))
  }

  // ---------------------------------------------------------------------------
  // Extremes

  /** The smallest price, 0 on an empty history. */
  function MinPrice(history: seq<Point>): (m: real)
    ensures |history| == 0 ==> m == 0.0
    ensures |history| > 0 ==> exists i :: 0 <= i < |history| && history[i].value == m
    ensures forall i :: 0 <= i < |history| ==> m <= history[i].value
  {
    if |history| == 0 then 0.0
    else if |history| == 1 then history[0].value
    else
      var rest := MinPrice(history[1..]);
      assert forall i :: 1 <= i < |history| ==> rest <= history[i].value by {
        forall i | 1 <= i < |history| ensures rest <= history[i].value {
          assert history[i] == history[1..][i - 1];
        }
      }
      if history[0].value <= rest then history[0].value
      else
        var j :| 0 <= j < |history[1..]| && history[1..][j].value == rest;
        assert history[j + 1].value == rest;
        rest
  }

  /** The largest price, 0 on an empty history. */
  function MaxPrice(history: seq<Point>): (m: real)
    ensures |history| == 0 ==> m == 0.0
    ensures |history| > 0 ==> exists i :: 0 <= i < |history| && history[i].value == m
    ensures forall i :: 0 <= i < |history| ==> history[i].value <= m
  {
    if |history| == 0 then 0.0
    else if |history| == 1 then history[0].value
    else
      var rest := MaxPrice(history[1..]);
      assert forall i :: 1 <= i < |history| ==> history[i].value <= rest by {
        forall i | 1 <= i < |history| ensures history[i].value <= rest {
          assert history[i] == history[1..][i - 1];
        }
      }
      if history[0].value >= rest then history[0].value
      else
        var j :| 0 <= j < |history[1..]| && history[1..][j].value == rest;
        assert history[j + 1].value == rest;
        rest
  }

  // ---------------------------------------------------------------------------
  // getCurrentDataPoint

  /** The point `getCurrentDataPoint` picks: its position and its price. */
  datatype CurrentPoint = CurrentPoint(index: nat, price: real)

  /** The absolute time difference between two instants. */
  function Distance(a: int, b: int): nat
  {
    if a >= b then a - b else b - a
  }

  /** Position `i` is at the least distance from `now`, and no earlier position is as close. */
  ghost predicate IsNearest(history: seq<Point>, now: int, i: nat)
  {
    && i < |history|
    && (forall j :: 0 <= j < |history| ==> Distance(now, history[i].date) <= Distance(now, history[j].date))
    && (forall j :: 0 <= j < i ==> Distance(now, history[i].date) < Distance(now, history[j].date))
  }

  /** The point nearest to `now` by absolute time difference, the first on ties; absent on an empty history. */
  method GetCurrentDataPoint(history: seq<Point>, now: int) returns (cp: Option<CurrentPoint>)
    ensures cp.None? <==> |history| == 0
    ensures cp.Some? ==> IsNearest(history, now, cp.value.index) && cp.value.price == history[cp.value.index].value
  {
    if |history| == 0 {
      return None;
    }
    var closestIndex: int := -1;
    var smallestDiff: Option<nat> := None;  // `Infinity` until the first point is seen
    var i := 0;
    while i < |history|
      invariant 0 <= i <= |history|
      invariant -1 <= closestIndex < i
      invariant smallestDiff.None? <==> i == 0
      invariant closestIndex == -1 <==> i == 0
      invariant smallestDiff.Some? ==> smallestDiff.value == Distance(now, history[closestIndex].date)
      invariant smallestDiff.Some? ==> forall j :: 0 <= j < i ==> smallestDiff.value <= Distance(now, history[j].date)
      invariant smallestDiff.Some? ==> forall j :: 0 <= j < closestIndex ==> smallestDiff.value < Distance(now, history[j].date)
    {
      var diff := Distance(now, history[i].date);
      if smallestDiff.None? || diff < smallestDiff.value {
        smallestDiff := Some(diff);
        closestIndex := i;
      }
      i := i + 1;
    }
    cp := Some(CurrentPoint(closestIndex, history[closestIndex].value));
  }

  /** The nearest position is unique. */
  lemma NearestUnique(history: seq<Point>, now: int, i: nat, j: nat)
    requires IsNearest(history, now, i) && IsNearest(history, now, j)
    ensures i == j
  {
    var di, dj := Distance(now, history[i].date), Distance(now, history[j].date);
    assert di == dj;
    assert i < j ==> dj < di;
    assert j < i ==> di < dj;
  }

  /**
   The screen's "current" price and the price the alerts use can differ: at
   60 ms past the first of two samples dated 0 and 100 ms, the screen shows the
   second (nearer) sample while the alert check uses the first (the latest one
   already started).
   */
  lemma NearestDiffersFromAlertPrice()
    ensures var history := [Point(10.0, None, 0), Point(20.0, None, 100)];
      && GetCurrentPrice(Samples(history), 60) == Some(10.0)
      && IsNearest(history, 60, 1)
      && history[1].value == 20.0
  {
    var history := [Point(10.0, None, 0), Point(20.0, None, 100)];
    LeadingRunUnique(Samples(history), 60, 1);
  }

  // ---------------------------------------------------------------------------
  // Derived display values

  /** The price card and the index the chart uses: 0 and -1 when there is no current point. */
  datatype Readout = Readout(currentPrice: real, currentPriceIndex: int)

  function ReadoutOf(cp: Option<CurrentPoint>): (r: Readout)
    ensures cp.None? ==> r == Readout(0.0, -1)
    ensures cp.Some? ==> r.currentPriceIndex >= 0 && r.currentPriceIndex == cp.value.index && r.currentPrice == cp.value.price
  {
    match cp
    case None => Readout(0.0, -1)
    case Some(p) => Readout(p.price, p.index)
  }

  /** Where the chart window starts: three positions before the current one, but not before the first. */
  function WindowStart(currentPriceIndex: int): nat
  {
    if currentPriceIndex - 3 > 0 then currentPriceIndex - 3 else 0
  }

  /** The points whose position, counted from `offset`, is at least `start`. */
  function KeepFrom(points: seq<Point>, offset: nat, start: nat): (r: seq<Point>)
    ensures start <= offset ==> r == points
    ensures offset < start <= offset + |points| ==> r == points[start - offset..]
    ensures offset + |points| < start ==> r == []
    decreases |points|
  {
    if |points| == 0 then []
    else if offset >= start then [points[0]] + KeepFrom(points[1..], offset + 1, start)
    else KeepFrom(points[1..], offset + 1, start)
  }

  /** `filteredPriceHistory`: up to three points before the current one, the current one, and all later ones. */
  function FilteredPriceHistory(history: seq<Point>, currentPriceIndex: int): (w: seq<Point>)
    ensures currentPriceIndex == -1 ==> w == history
    ensures currentPriceIndex != -1 && WindowStart(currentPriceIndex) <= |history| ==> w == history[WindowStart(currentPriceIndex)..]
    ensures currentPriceIndex != -1 && WindowStart(currentPriceIndex) > |history| ==> w == []
  {
    if currentPriceIndex == -1 then history else KeepFrom(history, 0, WindowStart(currentPriceIndex))
  }

  /** For a valid current index the window holds the current point, preceded by min(index, 3) points. */
  lemma WindowHoldsCurrent(history: seq<Point>, currentPriceIndex: nat)
    requires currentPriceIndex < |history|
    ensures var w := FilteredPriceHistory(history, currentPriceIndex);
      var before := currentPriceIndex - WindowStart(currentPriceIndex);
      && before == (if currentPriceIndex < 3 then currentPriceIndex else 3)
      && before < |w| && w[before] == history[currentPriceIndex]
      && |w| == |history| - WindowStart(currentPriceIndex)
  {
  }

  // ---------------------------------------------------------------------------
  // The "NOW" marker

  /** The first position carrying the given instant, or -1 when none does. */
  function FindIndexByDate(history: seq<Point>, date: int): (i: int)
    ensures -1 <= i < |history|
    ensures i >= 0 ==> history[i].date == date && forall j :: 0 <= j < i ==> history[j].date != date
    ensures i == -1 ==> forall j :: 0 <= j < |history| ==> history[j].date != date
  {
    if |history| == 0 then -1
    else if history[0].date == date then 0
    else
      var rest := FindIndexByDate(history[1..], date);
      if rest == -1 then -1 else rest + 1
  }

  /** A chart point, with the vertical "NOW" line or without. */
  datatype ChartPoint = ChartPoint(point: Point, showVerticalLine: bool)

  /** `chartDataWithIndicator`: every window point, marked when its date's first position is the current index. */
  function ChartData(history: seq<Point>, window: seq<Point>, currentPriceIndex: int): (c: seq<ChartPoint>)
    ensures |c| == |window|
    ensures forall k :: 0 <= k < |window| ==> c[k].point == window[k]
    ensures forall k :: 0 <= k < |window| ==>
      (c[k].showVerticalLine <==> FindIndexByDate(history, window[k].date) == currentPriceIndex)
  {
    seq(|window|, k requires 0 <= k < |window| =>
      ChartPoint(window[k], FindIndexByDate(history, window[k].date) == currentPriceIndex))
  }

  predicate DistinctDates(history: seq<Point>)
  {
    forall i, j :: 0 <= i < j < |history| ==> history[i].date != history[j].date
  }

  /** With distinct instants, exactly the current point of the window carries the marker. */
  lemma MarkerOnCurrentOnly(history: seq<Point>, currentPriceIndex: nat)
    requires DistinctDates(history) && currentPriceIndex < |history|
    ensures var w := FilteredPriceHistory(history, currentPriceIndex);
      var c := ChartData(history, w, currentPriceIndex);
      forall k :: 0 <= k < |c| ==> (c[k].showVerticalLine <==> k == currentPriceIndex - WindowStart(currentPriceIndex))
  {
    var start := WindowStart(currentPriceIndex);
    assert FilteredPriceHistory(history, currentPriceIndex) == history[start..];
    MarkedAtOwnPosition(history, start, currentPriceIndex);
  }

  /** With distinct instants, a suffix's point is marked exactly when its own position is the current index. */
  lemma MarkedAtOwnPosition(history: seq<Point>, start: nat, currentPriceIndex: int)
    requires DistinctDates(history) && start <= |history|
    ensures var c := ChartData(history, history[start..], currentPriceIndex);
      forall k :: 0 <= k < |c| ==> (c[k].showVerticalLine <==> k + start == currentPriceIndex)
  {
    var w := history[start..];
    var c := ChartData(history, w, currentPriceIndex);
    forall k | 0 <= k < |c|
      ensures c[k].showVerticalLine <==> k + start == currentPriceIndex
    {
      assert w[k] == history[k + start];
      FoundAtOwnPosition(history, k + start);
    }
  }

  /** With distinct instants, looking up a point's instant finds that point's own position. */
  lemma FoundAtOwnPosition(history: seq<Point>, i: nat)
    requires DistinctDates(history) && i < |history|
    ensures FindIndexByDate(history, history[i].date) == i
  {
    var found := FindIndexByDate(history, history[i].date);
    assert found != -1;
    assert history[found].date == history[i].date;
  }

  /** With integer instants and no current point nothing is marked: every window date is found at a position, never at -1. */
  lemma NoMarkerWithoutCurrent(history: seq<Point>)
    ensures var c := ChartData(history, FilteredPriceHistory(history, -1), -1);
      forall k :: 0 <= k < |c| ==> !c[k].showVerticalLine
  {
    var c := ChartData(history, history, -1);
    forall k | 0 <= k < |c| ensures !c[k].showVerticalLine {
      assert history[k].date == history[k].date;
      assert FindIndexByDate(history, history[k].date) != -1;
    }
  }

  /** The first of two points sharing an instant is the nearest one, and both get the marker. */
  lemma SharedInstantMarksBoth()
    ensures var history := [Point(10.0, None, 0), Point(20.0, None, 0)];
      var c := ChartData(history, FilteredPriceHistory(history, 0), 0);
      && IsNearest(history, 0, 0)
      && |c| == 2 && c[0].showVerticalLine && c[1].showVerticalLine
  {
  }
}
