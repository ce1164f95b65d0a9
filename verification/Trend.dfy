/** The hourly series of `trend/path/anomaly` (`propagation/trend.py`): distinct decoded slots per
    hour over a window, band by band, against the median of the same hours of the day. The time
    zone is an arbitrary function from times to hours of the day. */
module Trend {
  import opened Text
  import opened Sets
  import opened Locator
  import Channel

  const HOUR := 3600
  const SLOTS_PER_HOUR := 240
  const SLOT_SECONDS := 15

  datatype Item = Item(time: int, openness: real, baseline: real, deviation: real, observations: nat)

  /** The hour a time falls into; Python's floor division. */
  function HourOf(t: int): int {
    t / HOUR * HOUR
  }

  /** `range(first, last + 3600, 3600)`. */
  function HourRange(first: int, last: int): seq<int>
    decreases last - first
  {
    if first > last then [] else [first] + HourRange(first + HOUR, last)
  }

  function Hours(start: int, end: int): seq<int> {
    HourRange(HourOf(start), HourOf(end))
  }

  function SlotsIn(obs: seq<int>, hour: int): set<int> {
    set t | t in obs && HourOf(t) == hour :: t
  }

  /** Openness in hundredths: the share of an hour's slots, rounded. */
  function Hundredths(slots: nat): int {
    RoundHalfEven(Channel.RealMin(1.0, slots as real / SLOTS_PER_HOUR as real) * 100.0)
  }

  function Openness(slots: nat): real {
    Hundredths(slots) as real / 100.0
  }

  /** The openness, in hundredths, of the hours that fall into the same hour of the day. */
  function SameHourOfDay(obs: seq<int>, hours: seq<int>, hourOfDay: int -> int, h: int): seq<int> {
    if hours == [] then []
    else
      var n := |hours| - 1;
      var before := SameHourOfDay(obs, hours[..n], hourOfDay, h);
      if hourOfDay(hours[n]) == h then before + [Hundredths(|SlotsIn(obs, hours[n])|)] else before
  }

  /** The normal for an hour of the day; 0 if no hour of the window falls into it. */
  function Baseline(obs: seq<int>, hours: seq<int>, hourOfDay: int -> int, h: int): real {
    var shares := SameHourOfDay(obs, hours, hourOfDay, h);
    if shares == [] then 0.0 else Channel.Round2(Channel.Median(shares) / 100.0)
  }

  function ItemAt(obs: seq<int>, hours: seq<int>, hourOfDay: int -> int, hour: int): Item {
    var slots, baseline := |SlotsIn(obs, hour)|, Baseline(obs, hours, hourOfDay, hourOfDay(hour));
    Item(hour, Openness(slots), baseline, Channel.Round2(Openness(slots) - baseline), slots)
  }

  /** The items for the first few hours of a window. */
  function ItemsFor(obs: seq<int>, hours: seq<int>, hourOfDay: int -> int, todo: seq<int>): seq<Item> {
    if todo == [] then []
    else
      var n := |todo| - 1;
      ItemsFor(obs, hours, hourOfDay, todo[..n]) + [ItemAt(obs, hours, hourOfDay, todo[n])]
  }

  lemma {:induction false} ItemsForAt(obs: seq<int>, hours: seq<int>, hourOfDay: int -> int, todo: seq<int>)
    ensures |ItemsFor(obs, hours, hourOfDay, todo)| == |todo|
    ensures forall i :: 0 <= i < |todo| ==>
              ItemsFor(obs, hours, hourOfDay, todo)[i] == ItemAt(obs, hours, hourOfDay, todo[i])
  {
    if todo != [] {
      ItemsForAt(obs, hours, hourOfDay, todo[..|todo| - 1]);
    }
  }

  /** `_anomaly_series`: slots are collected per hour, their shares per hour of the day, and then
      one item is made for every hour of the window. */
  method AnomalySeries(obs: seq<int>, hours: seq<int>, hourOfDay: int -> int) returns (items: seq<Item>)
    ensures items == ItemsFor(obs, hours, hourOfDay, hours)
  {
    var byHour := SlotsByHour(obs);
    var byHourOfDay := SharesByHourOfDay(obs, byHour, hours, hourOfDay);
    items := [];
    for i := 0 to |hours|
      invariant items == ItemsFor(obs, hours, hourOfDay, hours[..i])
    {
      assert hours[..i + 1][..i] == hours[..i];
      var h := hourOfDay(hours[i]);
      HasShare(obs, hours, hourOfDay, i);
      var slots := if hours[i] in byHour then byHour[hours[i]] else {};
      var item := MakeItem(obs, hours, hourOfDay, hours[i], slots, byHourOfDay[h]);
      items := items + [item];
    }
    assert hours[..|hours|] == hours;
  }

  method MakeItem(ghost obs: seq<int>, ghost hours: seq<int>, ghost hourOfDay: int -> int,
                  hour: int, slots: set<int>, shares: seq<int>)
    returns (item: Item)
    requires slots == SlotsIn(obs, hour) && shares == SameHourOfDay(obs, hours, hourOfDay, hourOfDay(hour))
    requires shares != []
    ensures item == ItemAt(obs, hours, hourOfDay, hour)
  {
    var baseline := Channel.Round2(Channel.Median(shares) / 100.0);
    item := Item(hour, Openness(|slots|), baseline, Channel.Round2(Openness(|slots|) - baseline), |slots|);
  }

  lemma {:induction false} HasShare(obs: seq<int>, hours: seq<int>, hourOfDay: int -> int, i: nat)
    requires i < |hours|
    ensures SameHourOfDay(obs, hours, hourOfDay, hourOfDay(hours[i])) != []
  {
    if i < |hours| - 1 {
      HasShare(obs, hours[..|hours| - 1], hourOfDay, i);
    }
  }

  method SlotsByHour(obs: seq<int>) returns (byHour: map<int, set<int>>)
    ensures forall h :: SlotsIn(obs, h) == if h in byHour then byHour[h] else {}
  {
    byHour := map[];
    for i := 0 to |obs|
      invariant forall h :: SlotsIn(obs[..i], h) == if h in byHour then byHour[h] else {}
    {
      var h := HourOf(obs[i]);
      forall g
        ensures SlotsIn(obs[..i + 1], g) == if g == h then SlotsIn(obs[..i], g) + {obs[i]} else SlotsIn(obs[..i], g)
      {
        assert obs[..i + 1] == obs[..i] + [obs[i]];
      }
      byHour := byHour[h := (if h in byHour then byHour[h] else {}) + {obs[i]}];
    }
    assert obs[..|obs|] == obs;
  }

  method SharesByHourOfDay(obs: seq<int>, byHour: map<int, set<int>>, hours: seq<int>, hourOfDay: int -> int)
    returns (shares: map<int, seq<int>>)
    requires forall h :: SlotsIn(obs, h) == if h in byHour then byHour[h] else {}
    ensures forall h :: SameHourOfDay(obs, hours, hourOfDay, h) == if h in shares then shares[h] else []
  {
    shares := map[];
    for i := 0 to |hours|
      invariant forall h :: SameHourOfDay(obs, hours[..i], hourOfDay, h) == if h in shares then shares[h] else []
    {
      assert hours[..i + 1][..i] == hours[..i];
      var h, slots := hourOfDay(hours[i]), if hours[i] in byHour then byHour[hours[i]] else {};
      assert slots == SlotsIn(obs, hours[i]);
      shares := shares[h := (if h in shares then shares[h] else []) + [Hundredths(|slots|)]];
    }
    assert hours[..|hours|] == hours;
  }

  // --- the hours --------------------------------------------------------------

  lemma {:induction false} HourRangeAt(first: int, last: int)
    requires first % HOUR == 0 && last % HOUR == 0
    ensures |HourRange(first, last)| == if first > last then 0 else (last - first) / HOUR + 1
    ensures forall i :: 0 <= i < |HourRange(first, last)| ==> HourRange(first, last)[i] == first + HOUR * i
    decreases last - first
  {
    if first <= last {
      HourRangeAt(first + HOUR, last);
      assert (last - (first + HOUR)) / HOUR == (last - first) / HOUR - 1;
    }
  }

  /** The items of a series are the consecutive hours from that of the start to that of the end,
      and every time in the window falls into one of them. */
  lemma HoursCoverWindow(start: int, end: int)
    ensures var hours := Hours(start, end);
            && (forall i :: 0 <= i < |hours| ==> hours[i] == HourOf(start) + HOUR * i)
            && (start <= end ==>
                hours != [] && hours[0] <= start && hours[|hours| - 1] <= end < hours[|hours| - 1] + HOUR)
            && (forall t :: start <= t <= end ==> HourOf(t) in hours)
  {
    HourRangeAt(HourOf(start), HourOf(end));
    var hours := Hours(start, end);
    forall t | start <= t <= end ensures HourOf(t) in hours {
      var i := t / HOUR - start / HOUR;
      assert hours[i] == HourOf(t);
    }
  }

  // --- conservation -----------------------------------------------------------

  function Distinct(obs: seq<int>): set<int> {
    set t | t in obs
  }

  function TotalObservations(obs: seq<int>, hours: seq<int>): nat {
    if hours == [] then 0
    else TotalObservations(obs, hours[..|hours| - 1]) + |SlotsIn(obs, hours[|hours| - 1])|
  }

  function SlotsInAny(obs: seq<int>, hours: seq<int>): set<int> {
    set t | t in obs && HourOf(t) in hours :: t
  }

  lemma {:induction false} TotalIsUnion(obs: seq<int>, hours: seq<int>)
    requires forall i, j :: 0 <= i < j < |hours| ==> hours[i] != hours[j]
    ensures TotalObservations(obs, hours) == |SlotsInAny(obs, hours)|
  {
    if hours != [] {
      var n := |hours| - 1;
      TotalIsUnion(obs, hours[..n]);
      var a, b := SlotsInAny(obs, hours[..n]), SlotsIn(obs, hours[n]);
      assert hours == hours[..n] + [hours[n]];
      assert SlotsInAny(obs, hours) == a + b;
      assert hours[n] !in hours[..n];
      assert a !! b;
    }
  }

  /** Over the whole window no timestamp is lost or counted twice: the items' observations add up
      to the number of distinct timestamps. */
  lemma ObservationsAddUp(obs: seq<int>, start: int, end: int)
    requires forall t :: t in obs ==> start <= t <= end
    ensures TotalObservations(obs, Hours(start, end)) == |Distinct(obs)|
  {
    HoursCoverWindow(start, end);
    TotalIsUnion(obs, Hours(start, end));
    forall t ensures t in SlotsInAny(obs, Hours(start, end)) <==> t in Distinct(obs) {
      assert t in obs ==> HourOf(t) in Hours(start, end);
    }
    assert SlotsInAny(obs, Hours(start, end)) == Distinct(obs);
  }

  // --- the bound --------------------------------------------------------------

  function FirstSlots(hour: int, n: nat): set<int> {
    if n == 0 then {} else FirstSlots(hour, n - 1) + {hour + SLOT_SECONDS * (n - 1)}
  }

  lemma {:induction false} FirstSlotsBound(hour: int, n: nat)
    ensures |FirstSlots(hour, n)| <= n
    ensures forall i :: 0 <= i < n ==> hour + SLOT_SECONDS * i in FirstSlots(hour, n)
  {
    if n > 0 {
      FirstSlotsBound(hour, n - 1);
    }
  }

  /** Timestamps on slot boundaries, as the monitor makes them, fill an hour with at most 240
      distinct slots, so the cap at one never changes the openness. */
  lemma SlotsFitTheHour(obs: seq<int>, hour: int)
    requires forall t :: t in obs ==> t % SLOT_SECONDS == 0
    ensures |SlotsIn(obs, hour)| <= SLOTS_PER_HOUR
    ensures Openness(|SlotsIn(obs, hour)|) == Channel.Round2(|SlotsIn(obs, hour)| as real / SLOTS_PER_HOUR as real)
  {
    var slots, all := SlotsIn(obs, hour), FirstSlots(hour, SLOTS_PER_HOUR);
    FirstSlotsBound(hour, SLOTS_PER_HOUR);
    forall t | t in slots ensures t in all {
      var slot := t / SLOT_SECONDS;
      assert t == SLOT_SECONDS * slot;
      assert hour == SLOT_SECONDS * (SLOTS_PER_HOUR * (t / HOUR));
      var i := slot - SLOTS_PER_HOUR * (t / HOUR);
      assert t == hour + SLOT_SECONDS * i && 0 <= t - hour < HOUR;
      assert 0 <= i < SLOTS_PER_HOUR;
    }
    SubsetSize(slots, all);
  }

  // --- the whole endpoint -----------------------------------------------------

  function SumObservations(items: seq<Item>): nat {
    if items == [] then 0 else SumObservations(items[..|items| - 1]) + items[|items| - 1].observations
  }

  lemma {:induction false} SumIsTotal(obs: seq<int>, hours: seq<int>, items: seq<Item>)
    requires |items| == |hours| && forall i :: 0 <= i < |items| ==> items[i].observations == |SlotsIn(obs, hours[i])|
    ensures SumObservations(items) == TotalObservations(obs, hours)
  {
    if items != [] {
      var n := |items| - 1;
      SumIsTotal(obs, hours[..n], items[..n]);
    }
  }

  /** A stored row of the path, as far as the series looks at it. */
  datatype PathRow = PathRow(band: string, observedAt: int)

  predicate Wanted(r: PathRow, bands: Option<set<string>>, start: int, end: int) {
    start <= r.observedAt <= end && (bands.Some? ==> r.band in bands.value)
  }

  /** The distinct times of a band's rows in the window. */
  function BandTimes(rows: seq<PathRow>, band: string, start: int, end: int): set<int> {
    set r | r in rows && r.band == band && start <= r.observedAt <= end :: r.observedAt
  }

  function BandTimesIn(rows: seq<PathRow>, band: string, start: int, end: int, hour: int): set<int> {
    set t | t in BandTimes(rows, band, start, end) && HourOf(t) == hour :: t
  }

  /** The rows of the window that are asked for, split into bands. */
  method SplitBands(rows: seq<PathRow>, bands: Option<set<string>>, start: int, end: int)
    returns (byBand: map<string, seq<int>>)
    ensures forall b :: b in byBand <==> exists r :: r in rows && r.band == b && Wanted(r, bands, start, end)
    ensures forall b :: b in byBand ==> Distinct(byBand[b]) == BandTimes(rows, b, start, end)
  {
    byBand := map[];
    for i := 0 to |rows|
      invariant forall b :: b in byBand <==> exists r :: r in rows[..i] && r.band == b && Wanted(r, bands, start, end)
      invariant forall b :: b in byBand ==> Distinct(byBand[b]) == BandTimes(rows[..i], b, start, end)
    {
      var r := rows[i];
      assert rows[..i + 1] == rows[..i] + [r];
      if start <= r.observedAt <= end && !(bands.Some? && r.band !in bands.value) {
        var before := if r.band in byBand then byBand[r.band] else [];
        assert r.band !in byBand ==> BandTimes(rows[..i], r.band, start, end) == {};
        assert Distinct(before + [r.observedAt]) == Distinct(before) + {r.observedAt};
        byBand := byBand[r.band := before + [r.observedAt]];
      }
    }
    assert rows[..|rows|] == rows;
  }

  /** The series of one band: consecutive hours over the window, each with the distinct times in
      it, their share of the hour, the normal for its hour of the day and the difference. The
      counts add up to the distinct times in the window. */
  ghost predicate IsSeries(items: seq<Item>, rows: seq<PathRow>, band: string, start: int, end: int,
                           hourOfDay: int -> int)
  {
    && |items| == |Hours(start, end)|
    && (forall i :: 0 <= i < |items| ==> items[i].time == HourOf(start) + HOUR * i)
    && (forall i :: 0 <= i < |items| ==>
        IsSeriesItem(items[i], items, BandTimesIn(rows, band, start, end, items[i].time), hourOfDay))
    && SumObservations(items) == |BandTimes(rows, band, start, end)|
  }

  ghost predicate IsSeriesItem(item: Item, items: seq<Item>, times: set<int>, hourOfDay: int -> int) {
    && item.observations == |times| && item.openness == Openness(item.observations)
    && item.deviation == Channel.Round2(item.openness - item.baseline)
    && IsNormal(items, item.baseline, hourOfDay, hourOfDay(item.time))
  }

  /** The openness, in hundredths, of the items in an hour of the day. */
  function SharesOf(items: seq<Item>, hourOfDay: int -> int, h: int): seq<int> {
    if items == [] then []
    else
      var n := |items| - 1;
      var before := SharesOf(items[..n], hourOfDay, h);
      if hourOfDay(items[n].time) == h then before + [Hundredths(items[n].observations)] else before
  }

  /** `baseline` is, but for rounding, a value that at most half of the items in the hour of the
      day exceed, and that at most half stay below. */
  ghost predicate IsNormal(items: seq<Item>, baseline: real, hourOfDay: int -> int, h: int) {
    exists m: real :: baseline == Channel.Round2(m / 100.0) && InTheMiddle(SharesOf(items, hourOfDay, h), m)
  }

  ghost predicate InTheMiddle(shares: seq<int>, m: real) {
    && 2 * Channel.Count(shares, x => x as real > m) <= |shares|
    && 2 * Channel.Count(shares, x => (x as real) < m) <= |shares|
  }

  lemma {:induction false} SharesAreSame(obs: seq<int>, hours: seq<int>, hourOfDay: int -> int, h: int,
                                         items: seq<Item>)
    requires |items| == |hours|
    requires forall i :: 0 <= i < |items| ==>
               items[i].time == hours[i] && items[i].observations == |SlotsIn(obs, hours[i])|
    ensures SharesOf(items, hourOfDay, h) == SameHourOfDay(obs, hours, hourOfDay, h)
  {
    if items != [] {
      var n := |items| - 1;
      SharesAreSame(obs, hours[..n], hourOfDay, h, items[..n]);
    }
  }

  lemma BaselineIsNormal(obs: seq<int>, hours: seq<int>, hourOfDay: int -> int, items: seq<Item>, i: nat)
    requires i < |items| == |hours| && items[i] == ItemAt(obs, hours, hourOfDay, hours[i])
    requires forall j :: 0 <= j < |items| ==>
               items[j].time == hours[j] && items[j].observations == |SlotsIn(obs, hours[j])|
    ensures IsNormal(items, items[i].baseline, hourOfDay, hourOfDay(items[i].time))
  {
    var h := hourOfDay(hours[i]);
    SharesAreSame(obs, hours, hourOfDay, h, items);
    HasShare(obs, hours, hourOfDay, i);
    var shares := SharesOf(items, hourOfDay, h);
    var m := Channel.Median(shares);
    Channel.MedianSplits(shares, m);
    assert InTheMiddle(shares, m);
  }

  lemma SlotsAreTimes(obs: seq<int>, times: set<int>, hour: int)
    requires Distinct(obs) == times
    ensures SlotsIn(obs, hour) == set t | t in times && HourOf(t) == hour :: t
  {
    assert forall t :: t in obs <==> t in Distinct(obs);
  }

  lemma ItemIsSeriesItem(obs: seq<int>, hours: seq<int>, hourOfDay: int -> int, items: seq<Item>, i: nat)
    requires i < |items| == |hours| && items[i] == ItemAt(obs, hours, hourOfDay, hours[i])
    requires forall j :: 0 <= j < |items| ==>
               items[j].time == hours[j] && items[j].observations == |SlotsIn(obs, hours[j])|
    ensures IsSeriesItem(items[i], items, SlotsIn(obs, hours[i]), hourOfDay)
  {
    BaselineIsNormal(obs, hours, hourOfDay, items, i);
  }

  lemma SeriesOfBand(rows: seq<PathRow>, band: string, start: int, end: int, hourOfDay: int -> int, obs: seq<int>,
                     items: seq<Item>)
    requires Distinct(obs) == BandTimes(rows, band, start, end)
    requires items == ItemsFor(obs, Hours(start, end), hourOfDay, Hours(start, end))
    ensures IsSeries(items, rows, band, start, end, hourOfDay)
  {
    var hours := Hours(start, end);
    HoursCoverWindow(start, end);
    ItemsForAt(obs, hours, hourOfDay, hours);
    SumIsTotal(obs, hours, items);
    forall t | t in obs ensures start <= t <= end {
      assert t in Distinct(obs);
    }
    ObservationsAddUp(obs, start, end);
    forall i | 0 <= i < |items|
      ensures IsSeriesItem(items[i], items, BandTimesIn(rows, band, start, end, items[i].time), hourOfDay)
    {
      SlotsAreTimes(obs, BandTimes(rows, band, start, end), items[i].time);
      assert SlotsIn(obs, items[i].time) == BandTimesIn(rows, band, start, end, items[i].time);
      ItemIsSeriesItem(obs, hours, hourOfDay, items, i);
    }
  }

  /** `path_anomaly`: a series for exactly the bands asked for that have a row in the window. */
  method PathAnomaly(rows: seq<PathRow>, bands: Option<set<string>>, start: int, end: int, hourOfDay: int -> int)
    returns (result: map<string, seq<Item>>)
    ensures forall b :: b in result <==> exists r :: r in rows && r.band == b && Wanted(r, bands, start, end)
    ensures forall b :: b in result ==> IsSeries(result[b], rows, b, start, end, hourOfDay)
  {
    var byBand := SplitBands(rows, bands, start, end);
    var hours := Hours(start, end);
    result := map[];
    var todo := byBand.Keys;
    while todo != {}
      invariant todo <= byBand.Keys && result.Keys == byBand.Keys - todo
      invariant forall b :: b in result ==> IsSeries(result[b], rows, b, start, end, hourOfDay)
      decreases todo
    {
      var b :| b in todo;
      var items := AnomalySeries(byBand[b], hours, hourOfDay);
      SeriesOfBand(rows, b, start, end, hourOfDay, byBand[b], items);
      result := result[b := items];
      todo := todo - {b};
    }
  }
}
