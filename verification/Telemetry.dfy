/** The monitor's outgoing side (`monitor/telemetry.py`, `monitor/transport.py`): rows gather in
    a batcher, a flush sends them together with the rows still pending from failed sends, and a
    bounded queue drops the oldest rows and counts them. */
module Telemetry {
  import opened Text
  import opened Observations

  datatype Row = Row(
    ts: int, mode: string, band: string, freq: int,
    txLat: real, txLon: real, txGrid: string,
    rxLat: real, rxLon: real, rxGrid: string,
    snr: int, kind: PathKind,
    txCall: Option<string>, rxCall: Option<string>, powerDbm: Option<int>)

  function MakeRow(o: Observation, ts: int, freqHz: int, band: string, mode: string, includeCallsigns: bool): Row {
    Row(ts, mode, band, freqHz, o.txLat, o.txLon, o.txGrid, o.rxLat, o.rxLon, o.rxGrid, o.snrDb, o.kind,
        if includeCallsigns then o.txCall else None, if includeCallsigns then o.rxCall else None, o.powerDbm)
  }

  datatype Stats = Stats(decodesSeen: nat, obsEmitted: nat, obsDroppedQueue: nat, cacheSize: nat)

  /** The block that tells the collector about the monitor. */
  datatype Meta = Meta(grid: string, lat: real, lon: real, swVersion: string)

  datatype Batch = Batch(version: int, monitor: Meta, windowStart: int, windowEnd: int, stats: Stats,
                         observations: seq<Row>)

  const TELEMETRY_VERSION := 1

  function BuildBatch(monitor: Meta, windowStart: int, windowEnd: int, rows: seq<Row>,
                      decodesSeen: nat, dropped: nat, cacheSize: nat): Batch
  {
    Batch(TELEMETRY_VERSION, monitor, windowStart, windowEnd, Stats(decodesSeen, |rows|, dropped, cacheSize), rows)
  }

  class Batcher {
    const includeCallsigns: bool
    var obs: seq<Row>
    var decodesSeen: nat

    constructor (includeCallsigns: bool)
      ensures this.includeCallsigns == includeCallsigns && obs == [] && decodesSeen == 0
    {
      this.includeCallsigns := includeCallsigns;
      obs, decodesSeen := [], 0;
    }

    method NoteDecode()
      modifies this`decodesSeen
      ensures decodesSeen == old(decodesSeen) + 1
    {
      decodesSeen := decodesSeen + 1;
    }

    method Add(o: Observation, ts: int, freqHz: int, band: string, mode: string)
      modifies this`obs
      ensures obs == old(obs) + [MakeRow(o, ts, freqHz, band, mode, includeCallsigns)]
    {
      obs := obs + [MakeRow(o, ts, freqHz, band, mode, includeCallsigns)];
    }

    method Take() returns (rows: seq<Row>)
      modifies this`obs
      ensures rows == old(obs) && obs == []
    {
      rows, obs := obs, [];
    }

    method ResetCounters()
      modifies this`decodesSeen
      ensures decodesSeen == 0
    {
      decodesSeen := 0;
    }
  }

  /** The rows a bounded queue keeps of `rows`: the newest `max`. */
  function Kept(rows: seq<Row>, max: nat): seq<Row> {
    if |rows| > max then rows[|rows| - max..] else rows
  }

  class PendingQueue {
    const maxObservations: nat
    var items: seq<Row>
    var dropped: nat

    constructor (maxObservations: nat)
      ensures this.maxObservations == maxObservations && items == [] && dropped == 0
    {
      this.maxObservations := maxObservations;
      items, dropped := [], 0;
    }

    method AddMany(rows: seq<Row>)
      modifies this
      ensures items == Kept(old(items) + rows, maxObservations)
      ensures dropped - old(dropped) == |old(items)| + |rows| - |items|
    {
      items := items + rows;
      var overflow := |items| - maxObservations;
      if overflow > 0 {
        items := items[overflow..];
        dropped := dropped + overflow;
      }
    }

    method Drain() returns (rows: seq<Row>)
      modifies this`items
      ensures rows == old(items) && items == []
    {
      rows, items := items, [];
    }
  }

  // --- the flush on values ----------------------------------------------------

  /** The batcher's rows and decode counter, and the queue's rows and drop counter. */
  datatype Link = Link(obs: seq<Row>, decodesSeen: nat, queue: seq<Row>, dropped: nat)

  const NEW_LINK := Link([], 0, [], 0)

  predicate Skips(link: Link, sendEmpty: bool) {
    link.queue + link.obs == [] && !sendEmpty
  }

  function Flushed(link: Link, max: nat, sendEmpty: bool, sent: bool): Link {
    var rows := link.queue + link.obs;
    if Skips(link, sendEmpty) then Link([], 0, [], link.dropped)
    else if sent then Link([], 0, [], 0)
    else Link([], 0, Kept(rows, max), link.dropped + |rows| - |Kept(rows, max)|)
  }

  /** `flush_window`. The sender's answer is `sent`; `batch` is what it was given, if anything. */
  method FlushWindow(batcher: Batcher, queue: PendingQueue, sent: bool, monitor: Meta, windowStart: int, windowEnd: int,
                     cacheSize: nat, sendEmpty: bool)
    returns (ok: bool, batch: Option<Batch>)
    modifies batcher, queue
    ensures var before := old(Link(batcher.obs, batcher.decodesSeen, queue.items, queue.dropped));
            && Link(batcher.obs, batcher.decodesSeen, queue.items, queue.dropped)
               == Flushed(before, queue.maxObservations, sendEmpty, sent)
            && ok == (Skips(before, sendEmpty) || sent)
            && batch == if Skips(before, sendEmpty) then None
                        else Some(BuildBatch(monitor, windowStart, windowEnd, before.queue + before.obs,
                                             before.decodesSeen, before.dropped, cacheSize))
  {
    var pending := queue.Drain();
    var current := batcher.Take();
    var rows := pending + current;
    if rows == [] && !sendEmpty {
      batcher.ResetCounters();
      return true, None;
    }
    batch := Some(BuildBatch(monitor, windowStart, windowEnd, rows, batcher.decodesSeen, queue.dropped, cacheSize));
    if sent {
      queue.dropped := 0;
    } else {
      queue.AddMany(rows);
      assert [] + rows == rows;
    }
    batcher.ResetCounters();
    return sent, batch;
  }

  // --- runs -------------------------------------------------------------------

  datatype Event = Emit(row: Row) | Decode | Flush(sent: bool)

  function Apply(link: Link, max: nat, sendEmpty: bool, e: Event): Link {
    match e
    case Emit(row) => link.(obs := link.obs + [row])
    case Decode => link.(decodesSeen := link.decodesSeen + 1)
    case Flush(sent) => Flushed(link, max, sendEmpty, sent)
  }

  function Run(events: seq<Event>, max: nat, sendEmpty: bool): Link {
    if events == [] then NEW_LINK
    else Apply(Run(events[..|events| - 1], max, sendEmpty), max, sendEmpty, events[|events| - 1])
  }

  function ApplyAll(link: Link, max: nat, sendEmpty: bool, events: seq<Event>): Link {
    if events == [] then link
    else Apply(ApplyAll(link, max, sendEmpty, events[..|events| - 1]), max, sendEmpty, events[|events| - 1])
  }

  lemma {:induction false} RunAppend(before: seq<Event>, more: seq<Event>, max: nat, sendEmpty: bool)
    ensures Run(before + more, max, sendEmpty) == ApplyAll(Run(before, max, sendEmpty), max, sendEmpty, more)
  {
    if more == [] {
      assert before + more == before;
    } else {
      var n := |more| - 1;
      RunAppend(before, more[..n], max, sendEmpty);
      assert (before + more)[..|before + more| - 1] == before + more[..n];
    }
  }

  lemma ApplyOne(link: Link, max: nat, sendEmpty: bool, e: Event)
    ensures ApplyAll(link, max, sendEmpty, [e]) == Apply(link, max, sendEmpty, e)
  {
    assert [e][..0] == [];
  }

  function EmitAll(rows: seq<Row>): (r: seq<Event>)
    ensures |r| == |rows| && forall i :: 0 <= i < |r| ==> r[i] == Emit(rows[i])
  {
    seq(|rows|, i requires 0 <= i < |rows| => Emit(rows[i]))
  }

  lemma {:induction false} ApplyAppend(link: Link, max: nat, sendEmpty: bool, before: seq<Event>, more: seq<Event>)
    ensures ApplyAll(link, max, sendEmpty, before + more)
            == ApplyAll(ApplyAll(link, max, sendEmpty, before), max, sendEmpty, more)
  {
    if more == [] {
      assert before + more == before;
    } else {
      var n := |more| - 1;
      ApplyAppend(link, max, sendEmpty, before, more[..n]);
      assert (before + more)[..|before + more| - 1] == before + more[..n];
    }
  }

  lemma {:induction false} ApplyEmits(link: Link, max: nat, sendEmpty: bool, rows: seq<Row>)
    ensures ApplyAll(link, max, sendEmpty, EmitAll(rows)) == link.(obs := link.obs + rows)
  {
    if rows == [] {
      assert link.obs + rows == link.obs;
    } else {
      var n := |rows| - 1;
      ApplyEmits(link, max, sendEmpty, rows[..n]);
      assert EmitAll(rows)[..n] == EmitAll(rows[..n]);
      assert link.obs + rows == link.obs + rows[..n] + [rows[n]];
    }
  }

  /** A decode and its rows move the link as noting and adding them one by one. */
  lemma ApplyDecoded(link: Link, max: nat, sendEmpty: bool, rows: seq<Row>)
    ensures ApplyAll(link, max, sendEmpty, [Decode] + EmitAll(rows))
            == link.(obs := link.obs + rows, decodesSeen := link.decodesSeen + 1)
  {
    ApplyAppend(link, max, sendEmpty, [Decode], EmitAll(rows));
    ApplyOne(link, max, sendEmpty, Decode);
    ApplyEmits(link.(decodesSeen := link.decodesSeen + 1), max, sendEmpty, rows);
  }

  /** The rows emitted by a run, in order. */
  function EmittedRows(events: seq<Event>): seq<Row> {
    if events == [] then []
    else
      var before, e := EmittedRows(events[..|events| - 1]), events[|events| - 1];
      if e.Emit? then before + [e.row] else before
  }

  /** A batch handed to the sender: its rows, the two counters it carries and the answer. */
  datatype Attempt = Attempt(rows: seq<Row>, dropped: nat, decodesSeen: nat, acked: bool)

  function AttemptOf(link: Link, sent: bool): Attempt {
    Attempt(link.queue + link.obs, link.dropped, link.decodesSeen, sent)
  }

  function Attempts(events: seq<Event>, max: nat, sendEmpty: bool): seq<Attempt> {
    if events == [] then []
    else
      var n := |events| - 1;
      var before, link := Attempts(events[..n], max, sendEmpty), Run(events[..n], max, sendEmpty);
      if events[n].Flush? && !Skips(link, sendEmpty)
      then before + [AttemptOf(link, events[n].sent)]
      else before
  }

  lemma {:induction false} NoAttempts(before: seq<Event>, more: seq<Event>, max: nat, sendEmpty: bool)
    requires forall i :: 0 <= i < |more| ==> !more[i].Flush?
    ensures Attempts(before + more, max, sendEmpty) == Attempts(before, max, sendEmpty)
  {
    if more == [] {
      assert before + more == before;
    } else {
      var n := |more| - 1;
      NoAttempts(before, more[..n], max, sendEmpty);
      assert (before + more)[..|before + more| - 1] == before + more[..n];
    }
  }

  lemma {:induction false} EmittedByEvents(events: seq<Event>, more: seq<Event>)
    ensures EmittedRows(events + more) == EmittedRows(events) + EmittedRows(more)
  {
    if more == [] {
      assert events + more == events;
    } else {
      var n := |more| - 1;
      EmittedByEvents(events, more[..n]);
      assert (events + more)[..|events + more| - 1] == events + more[..n];
    }
  }

  lemma {:induction false} EmittedByEmits(rows: seq<Row>)
    ensures EmittedRows(EmitAll(rows)) == rows
  {
    if rows != [] {
      var n := |rows| - 1;
      EmittedByEmits(rows[..n]);
      assert EmitAll(rows)[..n] == EmitAll(rows[..n]);
      assert rows == rows[..n] + [rows[n]];
    }
  }

  lemma EmittedByDecode(rows: seq<Row>)
    ensures EmittedRows([Decode] + EmitAll(rows)) == rows
  {
    EmittedByEvents([Decode], EmitAll(rows));
    assert [Decode][..0] == [] && EmittedRows([Decode][..0]) == [];
    EmittedByEmits(rows);
  }

  function Acked(attempts: seq<Attempt>): seq<Attempt> {
    if attempts == [] then []
    else
      var before, last := Acked(attempts[..|attempts| - 1]), attempts[|attempts| - 1];
      if last.acked then before + [last] else before
  }

  /** `emitted`, read from the front: for each acknowledged batch as many lost rows as it reports
      and then its rows; after the last one `dropped` lost rows and then exactly `rest`. */
  ghost predicate Accounts(emitted: seq<Row>, acks: seq<Attempt>, dropped: nat, rest: seq<Row>) {
    if acks == [] then
      |emitted| == dropped + |rest| && emitted[dropped..] == rest
    else
      var a := acks[0];
      && |emitted| >= a.dropped + |a.rows|
      && emitted[a.dropped..a.dropped + |a.rows|] == a.rows
      && Accounts(emitted[a.dropped + |a.rows|..], acks[1..], dropped, rest)
  }

  lemma {:induction false} AccountsEmit(emitted: seq<Row>, acks: seq<Attempt>, dropped: nat, rest: seq<Row>, row: Row)
    requires Accounts(emitted, acks, dropped, rest)
    ensures Accounts(emitted + [row], acks, dropped, rest + [row])
  {
    if acks != [] {
      var k := acks[0].dropped + |acks[0].rows|;
      assert (emitted + [row])[k..] == emitted[k..] + [row];
      AccountsEmit(emitted[k..], acks[1..], dropped, rest, row);
    }
  }

  lemma {:induction false} AccountsDrop(emitted: seq<Row>, acks: seq<Attempt>, dropped: nat, rest: seq<Row>, k: nat)
    requires Accounts(emitted, acks, dropped, rest) && k <= |rest|
    ensures Accounts(emitted, acks, dropped + k, rest[k..])
  {
    if acks != [] {
      AccountsDrop(emitted[acks[0].dropped + |acks[0].rows|..], acks[1..], dropped, rest, k);
    }
  }

  lemma {:induction false} AccountsAck(emitted: seq<Row>, acks: seq<Attempt>, a: Attempt)
    requires Accounts(emitted, acks, a.dropped, a.rows)
    ensures Accounts(emitted, acks + [a], 0, [])
  {
    if acks != [] {
      assert (acks + [a])[1..] == acks[1..] + [a];
      AccountsAck(emitted[acks[0].dropped + |acks[0].rows|..], acks[1..], a);
    }
  }

  lemma FailureAccounts(emitted: seq<Row>, acks: seq<Attempt>, dropped: nat, rows: seq<Row>, max: nat)
    requires Accounts(emitted, acks, dropped, rows)
    ensures Accounts(emitted, acks, dropped + |rows| - |Kept(rows, max)|, Kept(rows, max))
  {
    var k := |rows| - |Kept(rows, max)|;
    assert Kept(rows, max) == rows[k..];
    AccountsDrop(emitted, acks, dropped, rows, k);
  }

  lemma FlushAccounts(emitted: seq<Row>, acks: seq<Attempt>, link: Link, max: nat, sendEmpty: bool, sent: bool)
    requires Accounts(emitted, acks, link.dropped, link.queue + link.obs) && |link.queue| <= max
    ensures var link' := Flushed(link, max, sendEmpty, sent);
            var a := AttemptOf(link, sent);
            && Accounts(emitted, if sent && !Skips(link, sendEmpty) then acks + [a] else acks,
                        link'.dropped, link'.queue + link'.obs)
            && |link'.queue| <= max
  {
    var rows := link.queue + link.obs;
    if !Skips(link, sendEmpty) {
      if sent {
        AccountsAck(emitted, acks, Attempt(rows, link.dropped, link.decodesSeen, sent));
      } else {
        FailureAccounts(emitted, acks, link.dropped, rows, max);
        assert Kept(rows, max) + [] == Kept(rows, max);
      }
    }
  }

  lemma AckedAppend(attempts: seq<Attempt>, a: Attempt)
    ensures Acked(attempts + [a]) == if a.acked then Acked(attempts) + [a] else Acked(attempts)
  {
    assert (attempts + [a])[..|attempts|] == attempts;
  }

  /** Exact loss accounting: after every run, the rows still pending are the tail of what was
      emitted, the acknowledged batches are its segments in order, and before each of them lie
      exactly as many lost rows as it reports. The queue respects its bound. */
  lemma {:induction false} LossAccounting(events: seq<Event>, max: nat, sendEmpty: bool)
    ensures var link := Run(events, max, sendEmpty);
            && Accounts(EmittedRows(events), Acked(Attempts(events, max, sendEmpty)),
                        link.dropped, link.queue + link.obs)
            && |link.queue| <= max
  {
    if events != [] {
      var n := |events| - 1;
      LossAccounting(events[..n], max, sendEmpty);
      var link := Run(events[..n], max, sendEmpty);
      var emitted, attempts := EmittedRows(events[..n]), Attempts(events[..n], max, sendEmpty);
      var rows := link.queue + link.obs;
      match events[n]
      case Emit(row) =>
        AccountsEmit(emitted, Acked(attempts), link.dropped, rows, row);
        assert link.queue + (link.obs + [row]) == rows + [row];
      case Decode =>
      case Flush(sent) =>
        FlushAccounts(emitted, Acked(attempts), link, max, sendEmpty, sent);
        AckedAppend(attempts, Attempt(rows, link.dropped, link.decodesSeen, sent));
    }
  }

  function TotalRows(acks: seq<Attempt>): nat {
    if acks == [] then 0 else |acks[0].rows| + TotalRows(acks[1..])
  }

  function TotalDropped(acks: seq<Attempt>): nat {
    if acks == [] then 0 else acks[0].dropped + TotalDropped(acks[1..])
  }

  lemma {:induction false} AccountsTotals(emitted: seq<Row>, acks: seq<Attempt>, dropped: nat, rest: seq<Row>)
    requires Accounts(emitted, acks, dropped, rest)
    ensures |emitted| == TotalRows(acks) + TotalDropped(acks) + dropped + |rest|
  {
    if acks != [] {
      AccountsTotals(emitted[acks[0].dropped + |acks[0].rows|..], acks[1..], dropped, rest);
    }
  }

  /** In numbers: every emitted row is acknowledged, reported as lost, counted as lost but not yet
      reported, or still pending. */
  lemma RowsConserved(events: seq<Event>, max: nat, sendEmpty: bool)
    ensures var link := Run(events, max, sendEmpty);
            var acks := Acked(Attempts(events, max, sendEmpty));
            |EmittedRows(events)| == TotalRows(acks) + TotalDropped(acks) + link.dropped + |link.queue| + |link.obs|
  {
    LossAccounting(events, max, sendEmpty);
    var link := Run(events, max, sendEmpty);
    AccountsTotals(EmittedRows(events), Acked(Attempts(events, max, sendEmpty)), link.dropped, link.queue + link.obs);
  }

  lemma {:induction false} AccountsTail(emitted: seq<Row>, acks: seq<Attempt>, dropped: nat, rest: seq<Row>)
    requires Accounts(emitted, acks, dropped, rest)
    ensures |rest| <= |emitted| && emitted[|emitted| - |rest|..] == rest
  {
    if acks != [] {
      var k := acks[0].dropped + |acks[0].rows|;
      AccountsTail(emitted[k..], acks[1..], dropped, rest);
    }
  }

  ghost predicate IsSegment(rows: seq<Row>, emitted: seq<Row>) {
    exists i, j :: 0 <= i <= j <= |emitted| && emitted[i..j] == rows
  }

  lemma SegmentOfLonger(rows: seq<Row>, emitted: seq<Row>, more: seq<Row>)
    requires IsSegment(rows, emitted)
    ensures IsSegment(rows, emitted + more)
  {
    var i, j :| 0 <= i <= j <= |emitted| && emitted[i..j] == rows;
    assert (emitted + more)[i..j] == rows;
  }

  /** Nothing is invented: the rows of every batch handed to the sender are a segment of what was
      emitted before; this covers batches whose send was reported as failed but arrived anyway. */
  lemma {:induction false} AttemptsAreEmitted(events: seq<Event>, max: nat, sendEmpty: bool)
    ensures forall k :: 0 <= k < |Attempts(events, max, sendEmpty)| ==>
              IsSegment(Attempts(events, max, sendEmpty)[k].rows, EmittedRows(events))
  {
    if events != [] {
      var n := |events| - 1;
      AttemptsAreEmitted(events[..n], max, sendEmpty);
      LossAccounting(events[..n], max, sendEmpty);
      var link := Run(events[..n], max, sendEmpty);
      var emitted, attempts := EmittedRows(events[..n]), Attempts(events[..n], max, sendEmpty);
      var rows := link.queue + link.obs;
      AccountsTail(emitted, Acked(attempts), link.dropped, rows);
      assert emitted[|emitted| - |rows|..|emitted|] == rows;
      var more := if events[n].Emit? then [events[n].row] else [];
      assert EmittedRows(events) == emitted + more;
      var attempts' := Attempts(events, max, sendEmpty);
      forall k | 0 <= k < |attempts'| ensures IsSegment(attempts'[k].rows, emitted + more) {
        assert attempts'[k].rows == if k < |attempts| then attempts[k].rows else rows;
        SegmentOfLonger(attempts'[k].rows, emitted, more);
      }
    }
  }

  // --- decode counting --------------------------------------------------------

  function DecodesNoted(events: seq<Event>): nat {
    if events == [] then 0
    else DecodesNoted(events[..|events| - 1]) + if events[|events| - 1].Decode? then 1 else 0
  }

  function DecodesReported(attempts: seq<Attempt>): nat {
    if attempts == [] then 0 else DecodesReported(attempts[..|attempts| - 1]) + attempts[|attempts| - 1].decodesSeen
  }

  /** The decodes of windows that ended without a batch. */
  function DecodesUnreported(events: seq<Event>, max: nat, sendEmpty: bool): nat {
    if events == [] then 0
    else
      var n := |events| - 1;
      var link := Run(events[..n], max, sendEmpty);
      DecodesUnreported(events[..n], max, sendEmpty)
        + if events[n].Flush? && Skips(link, sendEmpty) then link.decodesSeen else 0
  }

  /** Every decode counts in exactly one window: in one batch handed to the sender, in a window
      closed without a batch, or in the open window. When empty batches are sent, the second
      kind does not occur. */
  lemma {:induction false} DecodesCountedOnce(events: seq<Event>, max: nat, sendEmpty: bool)
    ensures DecodesNoted(events) == DecodesReported(Attempts(events, max, sendEmpty))
                                    + DecodesUnreported(events, max, sendEmpty)
                                    + Run(events, max, sendEmpty).decodesSeen
    ensures sendEmpty ==> DecodesUnreported(events, max, sendEmpty) == 0
  {
    if events != [] {
      var n := |events| - 1;
      DecodesCountedOnce(events[..n], max, sendEmpty);
      var link, attempts := Run(events[..n], max, sendEmpty), Attempts(events[..n], max, sendEmpty);
      if events[n].Flush? && !Skips(link, sendEmpty) {
        var attempts' := Attempts(events, max, sendEmpty);
        assert attempts'[..|attempts|] == attempts;
      }
    }
  }
}
