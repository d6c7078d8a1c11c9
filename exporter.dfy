/** The exporter: the per-query coordinator of VAST.  For one query it asks
    the index which partitions qualify, forwards the index's hits to the
    archive, filters the slices the archive returns against the query,
    buffers the results and ships them to its sink as the sink demands.

    The actor is a class with one method per message handler.  Messages the
    exporter sends are appended, in order, to `outbox`; a handler that
    returns `caf::skip` leaves the state untouched and reports `Skipped`, so
    that the runtime may deliver the message again later. */
module Exporter {
  import opened Slices

  datatype Option<T> = None | Some(value: T)

  /** `max_events`, the sentinel for "all events": the largest 64-bit
      unsigned value. */
  const MaxEvents: nat := 0xFFFF_FFFF_FFFF_FFFF

  /** The number of values of a 64-bit unsigned integer. */
  const U64: nat := 0x1_0000_0000_0000_0000

  function Min(a: nat, b: nat): nat {
    if a <= b then a else b
  }

  /** A tailored query expression, specialised to one layout; it is only ever
      handed to `evaluate`, so a handle stands for it. */
  type Checker = nat

  /** `query_status`, the per-query ledger. */
  datatype QueryStatus = QueryStatus(
    expected: nat,         // partitions the index qualified
    scheduled: nat,        // partitions asked for in the latest request
    received: nat,         // partitions whose hits have been folded in
    lookupsIssued: nat,    // hit sets forwarded to the archive
    lookupsComplete: nat,  // archive lookups that reported done
    processed: nat,        // rows checked against the query
    shipped: nat,          // rows sent to the sink
    requested: nat,        // rows the sink still asks for
    cached: nat)           // rows buffered, waiting for demand

  const Initial := QueryStatus(0, 0, 0, 0, 0, 0, 0, 0, 0)

  /** `finished`: all qualified partitions received and no archive lookup
      outstanding. */
  predicate Finished(q: QueryStatus) {
    q.received == q.expected && q.lookupsIssued == q.lookupsComplete
  }

  /** The ledger invariants the exporter maintains. */
  predicate Consistent(q: QueryStatus) {
    && q.requested <= MaxEvents
    && q.received <= q.expected
    && q.lookupsComplete <= q.lookupsIssued
    // While an archive lookup is outstanding, some partition has not been
    // received yet: its hits are being materialised.
    && (q.lookupsIssued > q.lookupsComplete ==> q.received < q.expected)
  }

  datatype ExitReason = Normal | Kill | Failure(error: string)

  /** The messages the exporter sends. */
  datatype Command =
    | ToSink(slice: Slice)                      // a result slice for the sink
    | ToIndex(partitions: nat, urgent: bool)    // "process this many more partitions"
    | ToArchive(hits: Ids)                      // a lookup of these ids
    | QueryIndex                                // the initial query to the index
    | RegisterAtArchive                         // announce self to the archive
    | ReportStatistics                          // statistics to subscriber/accountant
    | ExitSelf(reason: ExitReason)              // `send_exit(self, reason)`

  /** How a handler disposed of its message. */
  datatype Disposition = Handled | Ignored | Skipped

  /** The ship messages for a sequence of slices, in order. */
  function ToSinks(ss: seq<Slice>): seq<Command> {
    if ss == [] then [] else [ToSink(ss[0])] + ToSinks(ss[1..])
  }

  lemma {:induction false} ToSinksAppend(ss: seq<Slice>, s: Slice)
    ensures ToSinks(ss + [s]) == ToSinks(ss) + [ToSink(s)]
  {
    if ss == [] {
      assert ss + [s] == [s];
    } else {
      assert (ss + [s])[0] == ss[0];
      assert (ss + [s])[1..] == ss[1..] + [s];
      ToSinksAppend(ss[1..], s);
    }
  }

  // ---------------------------------------------------------------------
  // ship_results

  /** One round of the `ship_results` loop against a positive demand: the
      head slice is shipped whole when it fits the demand; otherwise it is
      split, its first `demand` rows are shipped and the remainder replaces
      it at the head.  The result is the slice shipped and the buffer left. */
  function ShipHead(results: seq<Slice>, demand: nat): (r: (Slice, seq<Slice>))
    requires demand > 0 && results != []
    ensures Rows(r.0) <= demand
    ensures Rows(r.0) == demand || |r.1| < |results|
    ensures Rows(r.0) + TotalRows(r.1) == TotalRows(results)
  {
    if Rows(results[0]) <= demand then
      (results[0], results[1..])
    else
      var parts := Split(results[0], demand);
      assert ([parts.1] + results[1..])[1..] == results[1..];
      (parts.0, [parts.1] + results[1..])
  }

  /** What `ship_results` ships from the buffer `results` against a demand
      of `demand` rows: the slices sent, in order, and the buffer left.
      Rounds are repeated while there is demand and a buffered slice. */
  function Ship(results: seq<Slice>, demand: nat): (seq<Slice>, seq<Slice>)
    decreases |results|, demand
  {
    if demand == 0 || results == [] then ([], results)
    else
      var head := ShipHead(results, demand);
      var next := Ship(head.1, demand - Rows(head.0));
      ([head.0] + next.0, next.1)
  }

  /** `Ship` is its first round followed by shipping the rest: the loop
      invariant of `ship_results` survives one round. */
  lemma ShipRound(plan: (seq<Slice>, seq<Slice>), sent: seq<Slice>, results: seq<Slice>, demand: nat)
    requires demand > 0 && results != []
    requires plan.0 == sent + Ship(results, demand).0 && plan.1 == Ship(results, demand).1
    ensures var head := ShipHead(results, demand);
      && plan.0 == (sent + [head.0]) + Ship(head.1, demand - Rows(head.0)).0
      && plan.1 == Ship(head.1, demand - Rows(head.0)).1
  {
    var head := ShipHead(results, demand);
    var next := Ship(head.1, demand - Rows(head.0));
    assert Ship(results, demand).0 == [head.0] + next.0;
    assert sent + ([head.0] + next.0) == (sent + [head.0]) + next.0;
  }

  /** Every slice of `ss` holds at least one row. */
  predicate NonEmptySlices(ss: seq<Slice>) {
    forall i :: 0 <= i < |ss| ==> Rows(ss[i]) > 0
  }

  /** Every slice of `ss` holds at least one and at most `demand` rows. */
  predicate SlicesFit(ss: seq<Slice>, demand: nat) {
    forall i :: 0 <= i < |ss| ==> 0 < Rows(ss[i]) <= demand
  }

  /** A buffer of non-empty slices holds no row exactly when it is empty:
      the loop condition `cached > 0` is `!results.empty()`. */
  lemma NoRowsNoSlices(ss: seq<Slice>)
    requires NonEmptySlices(ss)
    ensures TotalRows(ss) == 0 <==> ss == []
  {
    if ss != [] {
      RowsAtMostTotal(ss, 0);
    }
  }

  /** A round on non-empty slices ships a non-empty slice and keeps the
      remaining slices non-empty. */
  lemma ShipHeadNonEmpty(results: seq<Slice>, demand: nat)
    requires demand > 0 && results != [] && NonEmptySlices(results)
    ensures 0 < Rows(ShipHead(results, demand).0)
    ensures NonEmptySlices(ShipHead(results, demand).1)
  {
    var rest := ShipHead(results, demand).1;
    if Rows(results[0]) <= demand {
      forall i | 0 <= i < |rest| ensures Rows(rest[i]) > 0 {
        assert rest[i] == results[i + 1];
      }
    } else {
      forall i | 0 <= i < |rest| ensures Rows(rest[i]) > 0 {
        if i > 0 {
          assert rest[i] == results[i];
        }
      }
    }
  }

  /** Shipping loses and invents no rows: the rows shipped and the rows left
      add up to the rows buffered; no more than the demand is shipped, and
      either the demand or the buffer is used up. */
  lemma {:induction false} ShipAccounting(results: seq<Slice>, demand: nat)
    ensures TotalRows(Ship(results, demand).0) + TotalRows(Ship(results, demand).1) == TotalRows(results)
    ensures TotalRows(Ship(results, demand).0) <= demand
    ensures TotalRows(Ship(results, demand).0) == demand || Ship(results, demand).1 == []
    decreases |results|, demand
  {
    if demand > 0 && results != [] {
      var head := ShipHead(results, demand);
      var next := Ship(head.1, demand - Rows(head.0));
      ShipAccounting(head.1, demand - Rows(head.0));
      TotalRowsAppend([head.0], next.0);
    }
  }

  /** The rows shipped followed by the rows left are the rows buffered, in
      their original order. */
  lemma {:induction false} ShipKeepsOrder(results: seq<Slice>, demand: nat)
    ensures Flatten(Ship(results, demand).0) + Flatten(Ship(results, demand).1) == Flatten(results)
    decreases |results|, demand
  {
    if demand > 0 && results != [] {
      var head := ShipHead(results, demand);
      var next := Ship(head.1, demand - Rows(head.0));
      ShipKeepsOrder(head.1, demand - Rows(head.0));
      FlattenAppend([head.0], next.0);
      assert Flatten([head.0]) == head.0.rows;
      assert Flatten(results) == results[0].rows + Flatten(results[1..]);
      if Rows(results[0]) > demand {
        var parts := Split(results[0], demand);
        FlattenAppend([parts.1], results[1..]);
        assert Flatten([parts.1]) == parts.1.rows;
      }
    }
  }

  /** Every shipped slice fits the demand, and a buffer of non-empty slices
      keeps only non-empty slices. */
  lemma {:induction false} ShipSlicesFit(results: seq<Slice>, demand: nat)
    requires NonEmptySlices(results)
    ensures SlicesFit(Ship(results, demand).0, demand)
    ensures NonEmptySlices(Ship(results, demand).1)
    decreases |results|, demand
  {
    if demand > 0 && results != [] {
      var head := ShipHead(results, demand);
      var d := demand - Rows(head.0);
      var next := Ship(head.1, d);
      ShipHeadNonEmpty(results, demand);
      ShipSlicesFit(head.1, d);
      var sent := [head.0] + next.0;
      assert Ship(results, demand).0 == sent;
      forall i | 0 <= i < |sent| ensures 0 < Rows(sent[i]) <= demand {
        if i > 0 {
          assert sent[i] == next.0[i - 1];
        }
      }
    }
  }

  /** A head slice larger than the demand is split: exactly `demand` rows
      are shipped and the remainder replaces the head. */
  lemma ShipSplitsHead(results: seq<Slice>, demand: nat)
    requires 0 < demand && results != [] && Rows(results[0]) > demand
    ensures Ship(results, demand).0 == [Slice(results[0].layout, results[0].rows[..demand])]
    ensures Ship(results, demand).1 == [Slice(results[0].layout, results[0].rows[demand..])] + results[1..]
  {
    assert Ship(ShipHead(results, demand).1, 0) == ([], ShipHead(results, demand).1);
  }

  /** The ledger after `sent` rows were shipped. */
  function AfterShip(q: QueryStatus, sent: nat): QueryStatus
    requires sent <= q.cached && sent <= q.requested
  {
    q.(cached := q.cached - sent, requested := q.requested - sent, shipped := q.shipped + sent)
  }

  /** The outcome of one `ship_results`. */
  datatype Shipment = Shipment(query: QueryStatus, results: seq<Slice>, sent: seq<Slice>)

  function ShipStep(q: QueryStatus, results: seq<Slice>): (s: Shipment)
    requires q.cached == TotalRows(results)
    ensures s.query.cached == TotalRows(s.results)
    ensures s.query.cached + s.query.shipped == q.cached + q.shipped
    ensures s.query.requested + s.query.shipped == q.requested + q.shipped
    ensures s.query.requested == 0 || s.query.cached == 0
    ensures s.query == q.(cached := s.query.cached, requested := s.query.requested, shipped := s.query.shipped)
    ensures Consistent(q) ==> Consistent(s.query)
  {
    var r := Ship(results, q.requested);
    ShipAccounting(results, q.requested);
    Shipment(AfterShip(q, TotalRows(r.0)), r.1, r.0)
  }

  /** `ShipStep` in terms of what `Ship` sends and leaves. */
  lemma ShipStepOf(q: QueryStatus, results: seq<Slice>, sent: seq<Slice>, rest: seq<Slice>)
    requires q.cached == TotalRows(results)
    requires Ship(results, q.requested) == (sent, rest)
    requires TotalRows(sent) <= q.cached && TotalRows(sent) <= q.requested
    ensures ShipStep(q, results) == Shipment(AfterShip(q, TotalRows(sent)), rest, sent)
  {
  }

  /** The loop of `ship_results` on the ledger `q` and the buffer `results`:
      while there is demand and a buffered row, ship the head slice whole
      or, when it exceeds the demand, its first `requested` rows, and
      account for the rows shipped. */
  method ShipLoop(q: QueryStatus, results: seq<Slice>) returns (sent: seq<Slice>, rest: seq<Slice>, q': QueryStatus)
    requires q.cached == TotalRows(results) && NonEmptySlices(results)
    ensures (sent, rest) == Ship(results, q.requested)
    ensures TotalRows(sent) <= q.cached && TotalRows(sent) <= q.requested
    ensures q' == AfterShip(q, TotalRows(sent))
    ensures q'.cached == TotalRows(rest) && NonEmptySlices(rest)
    ensures q'.requested == 0 || q'.cached == 0
  {
    var buffer, cached, requested, shipped := results, q.cached, q.requested, q.shipped;
    sent := [];
    ghost var plan := Ship(buffer, requested);
    while requested > 0 && cached > 0
      invariant cached == TotalRows(buffer) && NonEmptySlices(buffer)
      invariant plan.0 == sent + Ship(buffer, requested).0
      invariant plan.1 == Ship(buffer, requested).1
      invariant TotalRows(sent) + cached == q.cached
      invariant TotalRows(sent) + requested == q.requested
      invariant shipped == q.shipped + TotalRows(sent)
      decreases |buffer|, requested
    {
      NoRowsNoSlices(buffer);
      ShipHeadNonEmpty(buffer, requested);
      ShipRound(plan, sent, buffer, requested);
      ghost var step := ShipHead(buffer, requested);
      var slice: Slice;
      if Rows(buffer[0]) <= requested {
        slice := buffer[0];
        buffer := buffer[1..];
      } else {
        var parts := Split(buffer[0], requested);
        slice := parts.0;
        buffer := [parts.1] + buffer[1..];
      }
      assert slice == step.0 && buffer == step.1;
      var rows := Rows(slice);
      TotalRowsAppend(sent, [slice]);
      cached, requested, shipped := cached - rows, requested - rows, shipped + rows;
      sent := sent + [slice];
    }
    NoRowsNoSlices(buffer);
    assert Ship(buffer, requested) == ([], buffer);
    assert sent == plan.0;
    rest := buffer;
    q' := q.(cached := cached, requested := requested, shipped := shipped);
  }

  // ---------------------------------------------------------------------
  // request_more_hits

  /** The guard chain of `request_more_hits`: the number of partitions to
      ask the index for, or None when nothing is to be asked. */
  function HitRequest(q: QueryStatus, historical: bool): (r: Option<nat>)
    requires Consistent(q)
    ensures r.Some? <==>
      historical && q.requested > 0 && q.lookupsIssued == q.lookupsComplete && q.received < q.expected
    ensures r.Some? ==> 1 <= r.value <= 2 && r.value <= q.expected - q.received
    ensures r.Some? && r.value < 2 ==> r.value == q.expected - q.received
  {
    if !historical then None
    else if q.requested == 0 then None
    else if q.lookupsIssued > q.lookupsComplete then None
    else if q.received == q.expected then None
    else Some(Min(q.expected - q.received, 2))
  }

  /** A finished query asks the index for nothing more. */
  lemma FinishedAsksNothing(q: QueryStatus, historical: bool)
    requires Consistent(q) && Finished(q)
    ensures HitRequest(q, historical) == None
  {
  }

  /** The ledger after `request_more_hits`. */
  function AfterHitRequest(q: QueryStatus, historical: bool): QueryStatus
    requires Consistent(q)
  {
    match HitRequest(q, historical)
    case None => q
    case Some(n) => q.(scheduled := n)
  }

  /** The messages `request_more_hits` sends. */
  function HitRequestCommands(q: QueryStatus, historical: bool): seq<Command>
    requires Consistent(q)
  {
    match HitRequest(q, historical)
    case None => []
    case Some(n) => [ToIndex(n, false)]
  }

  /** A request schedules no more partitions than remain. */
  lemma HitRequestKeepsConsistent(q: QueryStatus, historical: bool)
    requires Consistent(q)
    ensures Consistent(AfterHitRequest(q, historical))
    ensures AfterHitRequest(q, historical).received + AfterHitRequest(q, historical).scheduled <= q.expected
      || AfterHitRequest(q, historical).scheduled == q.scheduled
  {
  }

  // ---------------------------------------------------------------------
  // extract(n)

  /** The increment of `requested` for `extract(n)`:
      `min(max_events - n, n)`. */
  function Increment(n: nat): (inc: nat)
    requires n <= MaxEvents
    ensures inc <= n && inc <= MaxEvents - n
    ensures inc == n <==> 2 * n <= MaxEvents
    ensures inc < n ==> inc == MaxEvents - n
  {
    Min(MaxEvents - n, n)
  }

  /** Addition of two 64-bit unsigned values, wrapping around. */
  function AddU64(a: nat, b: nat): (r: nat)
    requires a < U64 && b < U64
    ensures r < U64
    ensures a + b < U64 ==> r == a + b
    ensures a + b >= U64 ==> r == a + b - U64
  {
    (a + b) % U64
  }

  /** The new `requested` after `extract(n)` took effect. */
  function ExtendDemand(requested: nat, n: nat): (r: nat)
    requires requested <= MaxEvents && n <= MaxEvents
    ensures r <= MaxEvents
  {
    AddU64(requested, Increment(n))
  }

  /** Without wrap-around, `extract(n)` raises the demand by the increment,
      and the demand stays within `max_events`. */
  lemma ExtendDemandExact(requested: nat, n: nat)
    requires n <= MaxEvents && requested + Increment(n) <= MaxEvents
    ensures ExtendDemand(requested, n) == requested + Increment(n)
    ensures requested < ExtendDemand(requested, n) <==> 0 < n < MaxEvents
  {
  }

  /** The 64-bit sum wraps: a demand of `max_events - 1` rows extended by
      `extract(2)` becomes zero. */
  lemma ExtendDemandWraps()
    ensures ExtendDemand(MaxEvents - 1, 2) == 0
  {
  }

  // ---------------------------------------------------------------------
  // handle_batch

  /** Buffering a non-empty selection adds its rows to the buffer's total
      and keeps every buffered slice non-empty. */
  lemma BufferSelected(results: seq<Slice>, slice: Slice, sel: Selection)
    requires NonEmptySlices(results) && Rank(sel, Rows(slice)) > 0
    ensures TotalRows(results + [Select(slice, sel)]) == TotalRows(results) + Rank(sel, Rows(slice))
    ensures NonEmptySlices(results + [Select(slice, sel)])
  {
    var selected := Select(slice, sel);
    SelectRows(slice, sel);
    TotalRowsAppend(results, [selected]);
    assert TotalRows([selected]) == Rows(selected);
    forall i | 0 <= i < |results + [selected]| ensures Rows((results + [selected])[i]) > 0 {
      if i < |results| {
        assert (results + [selected])[i] == results[i];
      }
    }
  }

  /** What `handle_batch` does with a slice once it has a checker whose
      evaluation selected `sel`: count the slice's rows as processed, buffer
      the selected rows, unless there are none, and ship. */
  function BatchStep(q: QueryStatus, results: seq<Slice>, slice: Slice, sel: Selection): (s: Shipment)
    requires q.cached == TotalRows(results)
    ensures s.query.processed == q.processed + Rows(slice)
    ensures s.query.cached + s.query.shipped == q.cached + q.shipped + Rank(sel, Rows(slice))
    ensures s.query.cached == TotalRows(s.results)
    ensures Rank(sel, Rows(slice)) == 0 ==>
      s == Shipment(q.(processed := q.processed + Rows(slice)), results, [])
  {
    var k := Rank(sel, Rows(slice));
    var q1 := q.(processed := q.processed + Rows(slice));
    if k == 0 then Shipment(q1, results, [])
    else
      SelectRows(slice, sel);
      TotalRowsAppend(results, [Select(slice, sel)]);
      assert TotalRows([Select(slice, sel)]) == k;
      ShipStep(q1.(cached := q1.cached + k), results + [Select(slice, sel)])
  }

  /** `shutdown(self)`: continuous queries never exit on their own. */
  function ShutdownCommands(continuous: bool): seq<Command> {
    if continuous then [] else [ExitSelf(Normal)]
  }

  class Exporter {
    const historical: bool
    const continuous: bool
    /** `tailor(expr, layout)` for this query's expression. */
    const tailor: Layout -> Option<Checker>
    /** `evaluate(checker, slice)`: the offsets of the rows that qualify. */
    const evaluate: (Checker, Slice) -> Selection

    var query: QueryStatus
    var results: seq<Slice>
    var checkers: map<Layout, Checker>
    var hits: Ids
    var outbox: seq<Command>
    var exited: Option<ExitReason>

    /** The hit sets forwarded to the archive, in order. */
    ghost var forwarded: seq<Ids>
    /** The sum of all rows the sink has asked for. */
    ghost var asked: nat

    ghost predicate Valid()
      reads this
    {
      && Consistent(query)
      && query.cached == TotalRows(results)
      && NonEmptySlices(results)
      && hits == UnionAll(forwarded)
      && PairwiseDisjoint(forwarded)
      && |forwarded| == query.lookupsIssued
      && query.shipped + query.requested <= asked
      // Before the index reply nothing is scheduled, received or looked up.
      && (query.expected == 0 ==>
            query.scheduled == 0 && query.received == 0 && query.lookupsIssued == 0)
    }

    constructor (historical: bool, continuous: bool,
                 tailor: Layout -> Option<Checker>,
                 evaluate: (Checker, Slice) -> Selection)
      ensures Valid()
      ensures this.historical == historical && this.continuous == continuous
      ensures this.tailor == tailor && this.evaluate == evaluate
      ensures query == Initial && results == [] && checkers == map[]
      ensures hits == {} && outbox == [] && exited == None
    {
      this.historical := historical;
      this.continuous := continuous;
      this.tailor := tailor;
      this.evaluate := evaluate;
      query := Initial;
      results := [];
      checkers := map[];
      hits := {};
      outbox := [];
      exited := None;
      forwarded := [];
      asked := 0;
    }

    /** `ship_results`: ship buffered slices while the sink has demand. */
    method ShipResults()
      requires Valid()
      modifies this`query, this`results, this`outbox
      ensures Valid()
      ensures var s := ShipStep(old(query), old(results));
        query == s.query && results == s.results && outbox == old(outbox) + ToSinks(s.sent)
    {
      var sent, rest, q := ShipLoop(query, results);
      ShipStepOf(query, results, sent, rest);
      query, results := q, rest;
      outbox := outbox + ToSinks(sent);
    }

    /** `request_more_hits`: ask the index for at most two more partitions
        when the sink wants data, no lookup is outstanding and partitions
        remain. */
    method RequestMoreHits()
      requires Valid()
      modifies this
      ensures Valid()
      ensures query == AfterHitRequest(old(query), historical)
      ensures outbox == old(outbox) + HitRequestCommands(old(query), historical)
      ensures results == old(results) && checkers == old(checkers) && hits == old(hits)
      ensures exited == old(exited) && forwarded == old(forwarded) && asked == old(asked)
    {
      if !historical {
        return;
      }
      if query.requested == 0 {
        return;
      }
      if query.lookupsIssued > query.lookupsComplete {
        return;
      }
      if query.received == query.expected {
        return;
      }
      var remaining := query.expected - query.received;
      var n := Min(remaining, 2);
      query := query.(scheduled := n);
      outbox := outbox + [ToIndex(n, false)];
    }

    /** `shutdown(self)`. */
    method Shutdown()
      modifies this
      ensures outbox == old(outbox) + ShutdownCommands(continuous)
      ensures query == old(query) && results == old(results) && checkers == old(checkers)
      ensures hits == old(hits) && exited == old(exited)
      ensures forwarded == old(forwarded) && asked == old(asked)
    {
      if continuous {
        return;
      }
      outbox := outbox + [ExitSelf(Normal)];
    }

    /** `extract`: the sink asks for all remaining events. */
    method ExtractAll() returns (d: Disposition)
      requires Valid()
      modifies this
      ensures Valid()
      ensures d == Ignored <==> old(query.requested) == MaxEvents
      ensures d == Ignored ==> query == old(query) && results == old(results) && outbox == old(outbox)
      ensures d == Handled ==>
        var s := ShipStep(old(query).(requested := MaxEvents), old(results));
        && results == s.results
        && query == AfterHitRequest(s.query, historical)
        && outbox == old(outbox) + ToSinks(s.sent) + HitRequestCommands(s.query, historical)
      ensures asked == old(asked) + (if d == Handled then MaxEvents else 0)
      ensures forwarded == old(forwarded)
      ensures checkers == old(checkers) && hits == old(hits) && exited == old(exited)
    {
      if query.requested == MaxEvents {
        return Ignored;
      }
      asked := asked + MaxEvents;
      query := query.(requested := MaxEvents);
      ghost var o := outbox;
      ShipResults();
      ghost var o1 := outbox;
      RequestMoreHits();
      assert outbox == o + (o1[|o|..]) + outbox[|o1|..];
      d := Handled;
    }

    /** `extract(n)`: the sink asks for `n` more events. */
    method Extract(n: nat) returns (d: Disposition)
      requires Valid()
      requires n <= MaxEvents
      modifies this
      ensures Valid()
      ensures d == Ignored <==> n == 0 || old(query.requested) == MaxEvents
      ensures d == Ignored ==> query == old(query) && results == old(results) && outbox == old(outbox)
      ensures d == Handled ==>
        var s := ShipStep(old(query).(requested := ExtendDemand(old(query.requested), n)), old(results));
        && results == s.results
        && query == AfterHitRequest(s.query, historical)
        && outbox == old(outbox) + ToSinks(s.sent) + HitRequestCommands(s.query, historical)
      ensures asked == old(asked) + (if d == Handled then Increment(n) else 0)
      ensures forwarded == old(forwarded)
      ensures checkers == old(checkers) && hits == old(hits) && exited == old(exited)
    {
      if n == 0 {
        return Ignored;
      }
      if query.requested == MaxEvents {
        return Ignored;
      }
      var inc := Increment(n);
      asked := asked + inc;
      query := query.(requested := (query.requested + inc) % U64);
      assert query.requested == ExtendDemand(old(query.requested), n);
      ghost var o := outbox;
      ShipResults();
      ghost var o1 := outbox;
      RequestMoreHits();
      assert outbox == o + (o1[|o|..]) + outbox[|o1|..];
      d := Handled;
    }

    /** The checker `handle_batch` uses for a slice of layout `layout`: the
        cached one, or else the tailored expression, if tailoring succeeds. */
    function CheckerFor(layout: Layout): Option<Checker>
      reads this
    {
      if layout in checkers then Some(checkers[layout]) else tailor(layout)
    }

    /** `handle_batch`: filter an arriving slice with the checker for its
        layout, buffer the qualifying rows and ship what the sink demands. */
    method HandleBatch(slice: Slice)
      requires Valid()
      modifies this
      ensures Valid()
      ensures old(CheckerFor(slice.layout)).None? ==>
        // Tailoring failed: ship what is buffered, then shut down, without
        // counting the slice as processed.
        var s := ShipStep(old(query), old(results));
        && query == s.query && results == s.results && checkers == old(checkers)
        && outbox == old(outbox) + ToSinks(s.sent) + ShutdownCommands(continuous)
        && query.processed == old(query.processed)
      ensures old(CheckerFor(slice.layout)).Some? ==>
        var c := old(CheckerFor(slice.layout)).value;
        var s := BatchStep(old(query), old(results), slice, evaluate(c, slice));
        && checkers == old(checkers)[slice.layout := c]
        && query == s.query && results == s.results && outbox == old(outbox) + ToSinks(s.sent)
      // A layout is tailored once: later slices of it get the same checker.
      ensures old(CheckerFor(slice.layout)).Some? ==> CheckerFor(slice.layout) == old(CheckerFor(slice.layout))
      ensures hits == old(hits) && exited == old(exited)
      ensures forwarded == old(forwarded) && asked == old(asked)
    {
      var checker: Checker;
      if slice.layout !in checkers {
        var x := tailor(slice.layout);
        if x.None? {
          ShipResults();
          Shutdown();
          return;
        }
        checkers := checkers[slice.layout := x.value];
        checker := x.value;
      } else {
        checker := checkers[slice.layout];
        assert checkers == old(checkers)[slice.layout := checker];
      }
      CheckBatch(slice, checker);
    }

    /** The part of `handle_batch` after the checker is known: count the
        rows as processed, buffer the selected rows and ship. */
    method CheckBatch(slice: Slice, checker: Checker)
      requires Valid()
      modifies this`query, this`results, this`outbox
      ensures Valid()
      ensures var s := BatchStep(old(query), old(results), slice, evaluate(checker, slice));
        query == s.query && results == s.results && outbox == old(outbox) + ToSinks(s.sent)
    {
      query := query.(processed := query.processed + Rows(slice));
      var selection := evaluate(checker, slice);
      var selectionSize := Rank(selection, Rows(slice));
      if selectionSize == 0 {
        return;
      }
      var selected := Select(slice, selection);
      BufferSelected(results, slice, selection);
      query := query.(cached := query.cached + selectionSize);
      results := results + [selected];
      ShipResults();
    }

    /** The index's hits: skipped before the index reply arrived; an empty
        hit set issues no lookup; a non-empty one, which the index never
        delivers twice, is added to `hits` and forwarded to the archive as
        one more outstanding lookup. */
    method HandleHits(newHits: Ids) returns (d: Disposition)
      requires Valid()
      // The index delivers each id once, and only for partitions it has
      // not yet reported done.
      requires query.expected != 0 && newHits != {} ==>
        newHits !! hits && query.received < query.expected
      modifies this
      ensures Valid()
      ensures d == Skipped <==> old(query.expected) == 0
      ensures d != Ignored
      ensures d == Skipped || newHits == {} ==>
        query == old(query) && hits == old(hits) && outbox == old(outbox)
      ensures d == Handled && newHits != {} ==>
        && query == old(query).(lookupsIssued := old(query.lookupsIssued) + 1)
        && hits == old(hits) + newHits
        && outbox == old(outbox) + [ToArchive(newHits)]
      ensures forwarded == old(forwarded) + (if d == Handled && newHits != {} then [newHits] else [])
      ensures results == old(results) && checkers == old(checkers) && exited == old(exited)
      ensures asked == old(asked)
    {
      if query.expected == 0 {
        return Skipped;
      }
      if newHits != {} {
        AppendDisjoint(forwarded, newHits);
        UnionAllAppend(forwarded, newHits);
        hits := hits + newHits;
        query := query.(lookupsIssued := query.lookupsIssued + 1);
        forwarded := forwarded + [newHits];
        outbox := outbox + [ToArchive(newHits)];
      }
      return Handled;
    }

    /** No hit is forwarded twice: the accumulated hits count exactly the
        ids of all lookups issued so far. */
    lemma HitsCounted()
      requires Valid()
      ensures |hits| == SumRanks(forwarded)
      ensures |forwarded| == query.lookupsIssued
    {
      UnionRank(forwarded);
    }

    /** The index's `done`: deferred while archive lookups are outstanding;
        otherwise the scheduled partitions count as received, and the
        exporter either asks for more or, with every partition received,
        shuts down. */
    method IndexDone() returns (d: Disposition)
      requires Valid()
      // The index never reports more partitions than it qualified.
      requires query.lookupsIssued == query.lookupsComplete ==>
        query.received + query.scheduled <= query.expected
      modifies this
      ensures Valid()
      ensures d == Skipped <==> old(query.lookupsIssued) != old(query.lookupsComplete)
      ensures d != Ignored
      ensures d == Skipped ==> query == old(query) && outbox == old(outbox)
      ensures d == Handled ==>
        var q := old(query).(received := old(query.received) + old(query.scheduled));
        if q.received < q.expected then
          query == AfterHitRequest(q, historical) && outbox == old(outbox) + HitRequestCommands(q, historical)
        else
          Finished(q) && query == q && outbox == old(outbox) + ShutdownCommands(continuous)
      ensures results == old(results) && checkers == old(checkers) && hits == old(hits)
      ensures exited == old(exited) && forwarded == old(forwarded) && asked == old(asked)
    {
      if query.lookupsIssued != query.lookupsComplete {
        return Skipped;
      }
      query := query.(received := query.received + query.scheduled);
      if query.received < query.expected {
        RequestMoreHits();
      } else {
        if Finished(query) {
          Shutdown();
        }
      }
      return Handled;
    }

    /** The archive's `done`: one more lookup completed.  While hits are
        outstanding a partition is still being processed, so the query is
        never finished here. */
    method ArchiveDone()
      requires Valid()
      // The archive answers only lookups it was sent.
      requires query.lookupsIssued > query.lookupsComplete
      modifies this`query
      ensures Valid()
      ensures query == old(query).(lookupsComplete := old(query.lookupsComplete) + 1)
      ensures !Finished(query)
    {
      query := query.(lookupsComplete := query.lookupsComplete + 1);
    }

    /** `run`: a historical query asks the index which partitions qualify. */
    method Run()
      requires Valid()
      modifies this`outbox
      ensures Valid()
      ensures outbox == old(outbox) + (if historical then [QueryIndex] else [])
    {
      if !historical {
        return;
      }
      outbox := outbox + [QueryIndex];
    }

    /** The index's reply to the query: the number of qualifying partitions
        and how many of them it scheduled; no partition shuts the query
        down. */
    method HandleRunReply(partitions: nat, scheduled: nat)
      requires Valid()
      // The index replies once, before anything was expected.
      requires query.expected == 0
      modifies this
      ensures Valid()
      ensures partitions > 0 ==>
        query == old(query).(expected := partitions, scheduled := scheduled) && outbox == old(outbox)
      ensures partitions == 0 ==>
        query == old(query) && outbox == old(outbox) + ShutdownCommands(continuous)
      ensures results == old(results) && checkers == old(checkers) && hits == old(hits)
      ensures exited == old(exited) && forwarded == old(forwarded) && asked == old(asked)
    {
      if partitions > 0 {
        query := query.(expected := partitions, scheduled := scheduled);
      } else {
        Shutdown();
      }
    }

    /** The index's error reply: `shutdown(self, e)` exits with the error. */
    method HandleRunError(e: string)
      requires Valid()
      modifies this`outbox
      ensures Valid()
      ensures outbox == old(outbox) + [ExitSelf(Failure(e))]
    {
      outbox := outbox + [ExitSelf(Failure(e))];
    }

    /** Registering the archive: a historical query announces itself. */
    method RegisterArchive()
      requires Valid()
      modifies this`outbox
      ensures Valid()
      ensures outbox == old(outbox) + (if historical then [RegisterAtArchive] else [])
    {
      if historical {
        outbox := outbox + [RegisterAtArchive];
      }
    }

    /** The exit handler: report statistics unless killed, tell the index to
        drop further results with an urgent zero request, and quit. */
    method HandleExit(reason: ExitReason)
      requires Valid()
      modifies this`outbox, this`exited
      ensures Valid()
      ensures outbox == old(outbox) + (if reason != Kill then [ReportStatistics] else []) + [ToIndex(0, true)]
      ensures exited == Some(reason)
    {
      if reason != Kill {
        outbox := outbox + [ReportStatistics];
      }
      outbox := outbox + [ToIndex(0, true)];
      exited := Some(reason);
    }
  }
}
