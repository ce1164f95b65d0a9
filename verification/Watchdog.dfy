/** The no-decode watchdog of `monitor/monitor.py`: once per flush, a receiver that stayed silent
    for long enough has its child process bounced. */
module Watchdog {

  function Get(m: map<string, nat>, name: string): nat {
    if name in m then m[name] else 0
  }

  /** One receiver's check: its silence in seconds afterwards and whether it is bounced. */
  function Tick(silent: nat, decodes: nat, interval: nat, limit: int): (nat, bool) {
    if limit <= 0 then (silent, false)
    else if decodes > 0 then (0, false)
    else if silent + interval >= limit then (0, true)
    else (silent + interval, false)
  }

  /** Seconds of silence after which a receiver is bounced, 0 for never. */
  function LimitOf(limits: map<string, int>, name: string): int {
    if name in limits then limits[name] else 0
  }

  predicate Distinct(names: seq<string>) {
    forall i, j :: 0 <= i < j < |names| ==> names[i] != names[j]
  }

  /** The silences after checking the named receivers, and who is bounced. */
  function Checked(silent: map<string, nat>, decodes: map<string, nat>, names: seq<string>, interval: nat,
                   limits: map<string, int>)
    : map<string, nat>
  {
    if names == [] then silent
    else
      var n := |names| - 1;
      var name, before := names[n], Checked(silent, decodes, names[..n], interval, limits);
      var limit := LimitOf(limits, name);
      if limit <= 0 then before
      else before[name := Tick(Get(before, name), Get(decodes, name), interval, limit).0]
  }

  function Bounced(silent: map<string, nat>, decodes: map<string, nat>, names: seq<string>, interval: nat,
                   limits: map<string, int>)
    : seq<string>
  {
    if names == [] then []
    else
      var n := |names| - 1;
      var name, before := names[n], Bounced(silent, decodes, names[..n], interval, limits);
      if Tick(Get(silent, name), Get(decodes, name), interval, LimitOf(limits, name)).1 then before + [name] else before
  }

  /** Every receiver checked gets its own tick, once; the others keep their silence. */
  lemma {:induction false} CheckedAt(silent: map<string, nat>, decodes: map<string, nat>, names: seq<string>,
                                     interval: nat, limits: map<string, int>, name: string)
    requires Distinct(names)
    ensures var after := Tick(Get(silent, name), Get(decodes, name), interval, LimitOf(limits, name));
            && Get(Checked(silent, decodes, names, interval, limits), name)
                 == (if name in names then after.0 else Get(silent, name))
            && (name in Bounced(silent, decodes, names, interval, limits) <==> name in names && after.1)
  {
    if names != [] {
      var n := |names| - 1;
      CheckedAt(silent, decodes, names[..n], interval, limits, name);
      assert names == names[..n] + [names[n]];
      assert name == names[n] ==> name !in names[..n];
    }
  }

  class Guard {
    const interval: nat
    const silentLimit: map<string, int>
    var windowDecodes: map<string, nat>
    var silentSec: map<string, nat>

    constructor (interval: nat, silentLimit: map<string, int>)
      ensures this.interval == interval && this.silentLimit == silentLimit
      ensures windowDecodes == map[] && silentSec == map[]
    {
      this.interval, this.silentLimit := interval, silentLimit;
      windowDecodes, silentSec := map[], map[];
    }

    method NoteDecode(name: string)
      modifies this`windowDecodes
      ensures windowDecodes == old(windowDecodes)[name := Get(old(windowDecodes), name) + 1]
    {
      windowDecodes := windowDecodes[name := Get(windowDecodes, name) + 1];
    }

    /** `_check_watchdog` over the receivers that have a driver; returns the bounced ones. */
    method Check(names: seq<string>) returns (bounced: seq<string>)
      requires Distinct(names)
      modifies this
      ensures windowDecodes == map[]
      ensures silentSec == Checked(old(silentSec), old(windowDecodes), names, interval, silentLimit)
      ensures bounced == Bounced(old(silentSec), old(windowDecodes), names, interval, silentLimit)
    {
      var decodes := windowDecodes;
      windowDecodes := map[];
      bounced := [];
      for i := 0 to |names|
        invariant windowDecodes == map[]
        invariant silentSec == Checked(old(silentSec), decodes, names[..i], interval, silentLimit)
        invariant bounced == Bounced(old(silentSec), decodes, names[..i], interval, silentLimit)
      {
        assert names[..i + 1][..i] == names[..i];
        var name := names[i];
        CheckedAt(old(silentSec), decodes, names[..i], interval, silentLimit, name);
        assert name !in names[..i];
        var limit := LimitOf(silentLimit, name);
        if limit > 0 {
          if Get(decodes, name) > 0 {
            silentSec := silentSec[name := 0];
          } else {
            var elapsed := Get(silentSec, name) + interval;
            silentSec := silentSec[name := elapsed];
            if elapsed >= limit {
              bounced := bounced + [name];
              silentSec := silentSec[name := 0];
            }
          }
        }
      }
      assert names[..|names|] == names;
    }
  }

  // --- runs of one receiver ---------------------------------------------------

  /** The silence after a run of windows with these numbers of decodes. */
  function Silence(windows: seq<nat>, interval: nat, limit: int): nat {
    if windows == [] then 0
    else Tick(Silence(windows[..|windows| - 1], interval, limit), windows[|windows| - 1], interval, limit).0
  }

  predicate BouncedLast(windows: seq<nat>, interval: nat, limit: int)
    requires windows != []
  {
    Tick(Silence(windows[..|windows| - 1], interval, limit), windows[|windows| - 1], interval, limit).1
  }

  /** How many windows without a decode the run ends with. */
  function QuietWindows(windows: seq<nat>): (q: nat)
    ensures q <= |windows|
    ensures forall i :: |windows| - q <= i < |windows| ==> windows[i] == 0
    ensures q < |windows| ==> windows[|windows| - q - 1] > 0
  {
    if windows == [] || windows[|windows| - 1] > 0 then 0 else 1 + QuietWindows(windows[..|windows| - 1])
  }

  function CeilDiv(a: int, b: int): int
    requires b > 0
  {
    (a + b - 1) / b
  }

  lemma MulMonotone(a: int, b: int, c: nat)
    requires a <= b
    ensures a * c <= b * c
  {
    assert b * c - a * c == (b - a) * c;
  }

  lemma CeilDivBounds(limit: int, interval: nat)
    requires limit > 0 && interval > 0
    ensures CeilDiv(limit, interval) >= 1
    ensures forall r: nat :: r * interval < limit <==> r < CeilDiv(limit, interval)
  {
    var k := CeilDiv(limit, interval);
    assert limit <= k * interval < limit + interval by {
      var a := limit + interval - 1;
      assert a == (a / interval) * interval + a % interval && 0 <= a % interval < interval;
    }
    assert (k - 1) * interval == k * interval - interval;
    forall r: nat ensures r * interval < limit <==> r < k {
      if r < k {
        MulMonotone(r, k - 1, interval);
      } else {
        MulMonotone(k, r, interval);
      }
    }
  }

  /** With the watchdog on, the silence is the interval times the quiet windows since the last
      decode or bounce and stays below the limit; the receiver is bounced exactly on every
      ceil(limit / interval)-th consecutive quiet window. */
  lemma {:induction false} SilenceCountsQuietWindows(windows: seq<nat>, interval: nat, limit: int)
    requires interval > 0 && limit > 0
    ensures var k := CeilDiv(limit, interval);
            var q := QuietWindows(windows);
            && k >= 1
            && Silence(windows, interval, limit) == (q % k) * interval < limit
            && (windows != [] ==> (BouncedLast(windows, interval, limit) <==> q > 0 && q % k == 0))
  {
    var k := CeilDiv(limit, interval);
    CeilDivBounds(limit, interval);
    if windows == [] {
      assert 0 % k == 0 && 0 * interval < limit;
    } else {
      var before := windows[..|windows| - 1];
      SilenceCountsQuietWindows(before, interval, limit);
      if windows[|windows| - 1] == 0 {
        var q := QuietWindows(before);
        var r := q % k;
        NextRemainder(q, k);
        assert (r + 1) * interval == r * interval + interval;
        assert (r + 1) * interval < limit <==> r + 1 < k;
        assert 0 * interval < limit;
      } else {
        assert 0 % k == 0 && 0 * interval < limit;
      }
    }
  }

  lemma NextRemainder(q: nat, k: int)
    requires k >= 1
    ensures (q + 1) % k == if q % k + 1 == k then 0 else q % k + 1
  {
    var m, r := q / k, q % k;
    assert q == m * k + r;
    if r + 1 == k {
      assert q + 1 == (m + 1) * k;
      DivUnique(q + 1, k, m + 1, 0);
    } else {
      DivUnique(q + 1, k, m, r + 1);
    }
  }

  lemma MulAtLeast(x: int, k: int)
    requires x >= 1 && k >= 1
    ensures x * k >= k
  {
  }

  lemma DivUnique(a: int, k: int, m: int, r: int)
    requires k >= 1 && 0 <= r < k && a == m * k + r
    ensures a % k == r
  {
    QuotientUnique(k, m, r, a / k, a % k);
  }

  lemma QuotientUnique(k: int, m: int, r: int, m': int, r': int)
    requires k >= 1 && 0 <= r < k && 0 <= r' < k && m * k + r == m' * k + r'
    ensures r == r'
  {
    assert (m - m') * k == m * k - m' * k == r' - r;
    assert (m' - m) * k == m' * k - m * k;
    if m > m' {
      MulAtLeast(m - m', k);
    } else if m < m' {
      MulAtLeast(m' - m, k);
    }
  }

  /** A receiver with the watchdog off is never bounced. */
  lemma WatchdogOff(windows: seq<nat>, interval: nat, limit: int)
    requires limit <= 0 && windows != []
    ensures !BouncedLast(windows, interval, limit) && Silence(windows, interval, limit) == 0
  {
  }

  // --- runs of the guard --------------------------------------------------------

  /** What happens to the guard: a receiver decodes something, or the timer checks. */
  datatype Act = NoteDecode(name: string) | Check(names: seq<string>)

  function DecodesAfter(acts: seq<Act>): map<string, nat> {
    if acts == [] then map[]
    else
      var before := DecodesAfter(acts[..|acts| - 1]);
      match acts[|acts| - 1]
      case NoteDecode(name) => before[name := Get(before, name) + 1]
      case Check(_) => map[]
  }

  function SilentAfter(acts: seq<Act>, interval: nat, limits: map<string, int>): map<string, nat> {
    if acts == [] then map[]
    else
      var n := |acts| - 1;
      var silent := SilentAfter(acts[..n], interval, limits);
      match acts[n]
      case NoteDecode(_) => silent
      case Check(names) => Checked(silent, DecodesAfter(acts[..n]), names, interval, limits)
  }

  /** The receivers bounced by each check of the run. */
  function BouncesOf(acts: seq<Act>, interval: nat, limits: map<string, int>): seq<seq<string>> {
    if acts == [] then []
    else
      var n := |acts| - 1;
      var bounces := BouncesOf(acts[..n], interval, limits);
      match acts[n]
      case NoteDecode(_) => bounces
      case Check(names) =>
        bounces + [Bounced(SilentAfter(acts[..n], interval, limits), DecodesAfter(acts[..n]), names, interval, limits)]
  }

  ghost predicate ChecksAreDistinct(acts: seq<Act>) {
    forall i :: 0 <= i < |acts| && acts[i].Check? ==> Distinct(acts[i].names)
  }

  /** The whole run on a new guard. */
  method Watch(acts: seq<Act>, interval: nat, limits: map<string, int>)
    returns (guard: Guard, bounces: seq<seq<string>>)
    requires ChecksAreDistinct(acts)
    ensures fresh(guard) && guard.windowDecodes == DecodesAfter(acts)
    ensures guard.silentSec == SilentAfter(acts, interval, limits)
    ensures bounces == BouncesOf(acts, interval, limits)
  {
    guard := new Guard(interval, limits);
    bounces := [];
    for i := 0 to |acts|
      invariant fresh(guard) && guard.interval == interval && guard.silentLimit == limits
      invariant guard.windowDecodes == DecodesAfter(acts[..i])
      invariant guard.silentSec == SilentAfter(acts[..i], interval, limits)
      invariant bounces == BouncesOf(acts[..i], interval, limits)
    {
      assert acts[..i + 1][..i] == acts[..i];
      match acts[i]
      case NoteDecode(name) => guard.NoteDecode(name);
      case Check(names) =>
        var bounced := guard.Check(names);
        bounces := bounces + [bounced];
    }
    assert acts[..|acts|] == acts;
  }

  // --- the same told from what each receiver did --------------------------------

  /** Where in the run the receiver decoded something that no check has come after. */
  function Unseen(acts: seq<Act>, name: string): set<int> {
    set p | 0 <= p < |acts| && acts[p] == NoteDecode(name) && NoCheckFrom(acts, p)
  }

  predicate NoCheckFrom(acts: seq<Act>, p: int)
    requires 0 <= p
  {
    forall q :: p <= q < |acts| ==> !acts[q].Check?
  }

  /** For every check of the receiver, how many decodes came before it and after the one before. */
  function WindowsOf(acts: seq<Act>, name: string): seq<nat> {
    if acts == [] then []
    else
      var n := |acts| - 1;
      var before := WindowsOf(acts[..n], name);
      if acts[n].Check? && name in acts[n].names then before + [|Unseen(acts[..n], name)|] else before
  }

  lemma UnseenAppend(before: seq<Act>, act: Act, name: string)
    ensures Unseen(before + [act], name)
            == if act.Check? then {}
               else if act.name == name then Unseen(before, name) + {|before|}
               else Unseen(before, name)
  {
    var acts := before + [act];
    forall p ensures p in Unseen(acts, name)
                     <==> !act.Check? && (p in Unseen(before, name) || (act.name == name && p == |before|))
    {
      assert acts[|before|] == act;
      if 0 <= p < |before| {
        assert acts[p] == before[p];
        assert NoCheckFrom(acts, p) <==> NoCheckFrom(before, p) && !act.Check? by {
          assert forall q :: p <= q < |before| ==> acts[q] == before[q];
        }
      }
    }
  }

  lemma {:induction false} CountsAreUnseen(acts: seq<Act>, name: string)
    ensures Get(DecodesAfter(acts), name) == |Unseen(acts, name)|
  {
    if acts != [] {
      var n := |acts| - 1;
      CountsAreUnseen(acts[..n], name);
      UnseenAppend(acts[..n], acts[n], name);
      assert acts == acts[..n] + [acts[n]];
    }
  }

  /** Whatever the order of decodes and checks: what the guard's maps hold for a receiver is the
      number of its decodes no check has seen, and the silence of the windows between its checks;
      a check bounces it exactly if that run of windows calls for it. */
  lemma {:induction false} GuardFollowsWindows(acts: seq<Act>, interval: nat, limits: map<string, int>, name: string)
    requires ChecksAreDistinct(acts)
    ensures Get(DecodesAfter(acts), name) == |Unseen(acts, name)|
    ensures Get(SilentAfter(acts, interval, limits), name)
              == Silence(WindowsOf(acts, name), interval, LimitOf(limits, name))
    ensures acts != [] && acts[|acts| - 1].Check? ==>
              var bounces := BouncesOf(acts, interval, limits);
              && bounces != []
              && (name in bounces[|bounces| - 1]
                  <==> && name in acts[|acts| - 1].names
                       && BouncedLast(WindowsOf(acts, name), interval, LimitOf(limits, name)))
  {
    CountsAreUnseen(acts, name);
    if acts != [] {
      var n := |acts| - 1;
      var before, windows := acts[..n], WindowsOf(acts, name);
      GuardFollowsWindows(before, interval, limits, name);
      if acts[n].Check? {
        CheckedAt(SilentAfter(before, interval, limits), DecodesAfter(before), acts[n].names, interval, limits, name);
        if name in acts[n].names {
          assert windows[..|windows| - 1] == WindowsOf(before, name);
        }
      }
    }
  }

  // --- no decode is lost or counted twice ---------------------------------------

  function DecodesOf(acts: seq<Act>, name: string): nat {
    if acts == [] then 0
    else DecodesOf(acts[..|acts| - 1], name) + if acts[|acts| - 1] == NoteDecode(name) then 1 else 0
  }

  function Sum(windows: seq<nat>): nat {
    if windows == [] then 0 else Sum(windows[..|windows| - 1]) + windows[|windows| - 1]
  }

  /** What checks that do not name the receiver wipe out of its count. */
  function WipedBy(acts: seq<Act>, name: string): nat {
    if acts == [] then 0
    else
      var n := |acts| - 1;
      WipedBy(acts[..n], name) + if acts[n].Check? && name !in acts[n].names then |Unseen(acts[..n], name)| else 0
  }

  /** Every decode of a receiver is in exactly one place: in one of the windows its own checks
      judge it by, in the guard's count, or wiped by a check that does not name it. */
  lemma {:induction false} DecodesAddUp(acts: seq<Act>, name: string)
    ensures DecodesOf(acts, name) == Sum(WindowsOf(acts, name)) + WipedBy(acts, name) + Get(DecodesAfter(acts), name)
  {
    if acts != [] {
      var n := |acts| - 1;
      DecodesAddUp(acts[..n], name);
      CountsAreUnseen(acts[..n], name);
      if acts[n].Check? && name in acts[n].names {
        SumAppend(WindowsOf(acts[..n], name), |Unseen(acts[..n], name)|);
      }
    }
  }

  lemma SumAppend(windows: seq<nat>, last: nat)
    ensures Sum(windows + [last]) == Sum(windows) + last
  {
    assert (windows + [last])[..|windows|] == windows;
  }

  /** If every check names the receiver, as the program's do, nothing is wiped. */
  lemma {:induction false} NothingWiped(acts: seq<Act>, name: string)
    requires forall i :: 0 <= i < |acts| && acts[i].Check? ==> name in acts[i].names
    ensures WipedBy(acts, name) == 0
  {
    if acts != [] {
      NothingWiped(acts[..|acts| - 1], name);
    }
  }
}
