/**
 The consume loop, its shutdown path and any number of restarts.

 What is kept over whole runs: every record below a committed offset that the pipeline keeps is in the
 lake or was deliberately skipped. A crash is a failed attempt after which the process does nothing more,
 so it may come after any request the sink makes.
 */
module Delivery {
  import opened Wrappers
  import opened FlushKey
  import opened Lake
  import opened Catalog
  import opened Errors
  import opened PartitionFanout
  import opened Reconciliation
  import opened Flush
  import opened HoglakeSink
  import opened WriteLadder
  import opened Kafka
  import opened Backlog
  import Names

  const COMMIT_ATTEMPTS: nat := 3

  /** The lake and the committed offsets, as one process leaves them to the next. */
  ghost predicate World(convert: Convert, transform: Transform, log: Log, committed: map<TopicPartition, nat>,
                        s: State)
  {
    && Lake.Valid(s)
    && HonestLake(convert, log, s)
    && Covered(convert, log, s, committed)
    && AllTupled(transform, s)
  }

  lemma WorldForGood(convert: Convert, transform: Transform, a: Log, b: Log, committed: map<TopicPartition, nat>,
                     s: State)
    requires World(convert, transform, a, committed, s) && Extends(a, b)
    ensures World(convert, transform, b, committed, s)
  {
    HonestForGood(convert, a, b, s);
    CoveredForGood(convert, a, s, b, s, committed);
  }

  /** A flight that carries the buffer. */
  ghost predicate Carried(f: Flight, transform: Transform, b: Buffer) {
    && f.transform == transform && f.identity.Some? && Flattened(b.offsets, f.identity.value)
    && f.batch.columns == b.columns && multiset(f.batch.rows) == multiset(b.rows)
  }

  /** Requests of the buffer's flush, however many were sent, leave an honest lake. */
  lemma ServedWorld(convert: Convert, transform: Transform, log: Log, committed: map<TopicPartition, nat>, b: Buffer,
                    f: Flight, before: State, after: State)
    requires World(convert, transform, log, committed, before) && Buffered(convert, log, b) && Carried(f, transform, b)
    requires Served(f.transform, f.cfg, before, after, f.identity, f.batch.rows)
    ensures World(convert, transform, log, committed, after)
  {
    forall p | p in after.sends ensures Honest(convert, log, p) {
      if p !in before.sends {
        MadeIsHonest(convert, log, b, f.transform, f.cfg, p, f.identity.value, f.batch.rows);
      }
    }
    CoveredForGood(convert, log, before, log, after, committed);
    ServedTupled(f.transform, f.cfg, before, after, f.identity, f.batch.rows);
  }

  /** A buffered flush that returned covers everything consumed. */
  lemma ReturnedCovers(convert: Convert, transform: Transform, log: Log, committed: map<TopicPartition, nat>, b: Buffer,
                       f: Flight, before: Moment, after: Moment, n: nat)
    requires World(convert, transform, log, committed, after.st)
    requires Buffered(convert, log, b) && Carried(f, transform, b)
    requires Covered(convert, log, before.st, b.since) && Returned(f, before, after, n)
    ensures Covered(convert, log, after.st, b.position)
  {
    CoveredForGood(convert, log, before.st, log, after.st, b.since);
    forall row | row in b.rows ensures Accounted(after.st, row) {
      FlushAccounts(convert, log, b, f, before, after, n, row);
    }
    FlushCovers(convert, log, after.st, b);
  }

  /** How a flush ended: both halves done, or an exception, which may say that no retry can succeed. */
  datatype FlushEnd = Flushed | Failed(permanent: bool)

  class Worker {
    const sink: Sink
    const broker: Broker
    const convert: Convert
    const order: seq<Row> -> seq<Row>
    const attempts: nat
    const timeout: real
    const flushSize: nat
    const interval: real

    var position: map<TopicPartition, nat>
    var offsets: map<TopicPartition, Span>
    var pending: seq<Row>
    var pendingColumns: set<string>
    var pendingBytes: nat

    ghost var since: map<TopicPartition, nat>

    ghost function Contents(): Buffer
      reads this
    {
      Buffer(since, position, offsets, pending, pendingColumns)
    }

    /** The consume loop's half: the world is in order and the buffer says what was consumed. */
    ghost predicate Consistent()
      reads this, sink, sink.lake, broker
    {
      && World(convert, sink.transform, broker.log, broker.committed, sink.lake.st)
      && Buffered(convert, broker.log, Contents())
      && Covered(convert, broker.log, sink.lake.st, since)
    }

    ghost predicate Valid()
      reads this, sink, sink.lake, broker
    {
      && sink.Valid() && Consistent()
      && attempts > 0 && (forall rows :: multiset(order(rows)) == multiset(rows))
    }

    /** What the buffer's flush is, given its sorted ranges. */
    ghost function FlightOf(ranges: seq<Range>): Flight
      reads this, sink
    {
      Flight(sink.transform, sink.cfg, Batch(pendingColumns, order(pending)), Some(ranges), 0)
    }

    /** Whatever is held belongs to the flush of the buffer as it stands. */
    ghost predicate HoldsOwn()
      reads this, sink, sink.lake
    {
      sink.prepared.Some? ==> forall ranges :: Flattened(offsets, ranges) ==> Own(FlightOf(ranges), Now(sink))
    }

    /** Nothing is in the way of the buffer's flush, nor of committing its offsets. */
    ghost predicate Unhindered()
      reads this, sink, sink.lake, broker
    {
      && broker.reachable
      && forall ranges :: Flattened(offsets, ranges) ==>
           Ready(sink, Batch(pendingColumns, order(pending)), Some(ranges))
    }

    /** Resume where the group committed; a partition without a committed offset starts at its beginning. */
    constructor (sink: Sink, broker: Broker, convert: Convert, order: seq<Row> -> seq<Row>,
                 attempts: nat, timeout: real, flushSize: nat, interval: real, assignment: set<TopicPartition>)
      requires sink.Valid() && sink.prepared.None? && attempts > 0
      requires World(convert, sink.transform, broker.log, broker.committed, sink.lake.st)
      requires forall rows :: multiset(order(rows)) == multiset(rows)
      requires assignment <= broker.log.Keys
      ensures Valid() && sink.prepared.None? && this.sink == sink && this.broker == broker && this.convert == convert
    {
      this.sink, this.broker, this.convert, this.order := sink, broker, convert, order;
      this.attempts, this.timeout, this.flushSize, this.interval := attempts, timeout, flushSize, interval;
      var start := map tp | tp in assignment :: if tp in broker.committed then broker.committed[tp] else 0;
      position, offsets, pending, pendingColumns, pendingBytes, since := start, map[], [], {}, 0, start;
      StartCovered(convert, broker.log, broker.committed, sink.lake.st, start);
    }

    // ----------------------------------------------------------------------------------------
    // Consume
    // ----------------------------------------------------------------------------------------

    /** One `consume()`: messages of any partitions, each partition's in order, some of them errors. */
    method Poll() returns (messages: seq<Message>)
      requires Consistent()
      modifies this`position, this`offsets, this`pending, this`pendingColumns, this`pendingBytes, broker`log
      ensures Consistent() && Contents() == ReceivedAll(convert, broker.log, old(Contents()), messages)
    {
      broker.Produce();
      Produced();
      messages := *;
      Drain(messages);
    }

    method Drain(messages: seq<Message>)
      requires Buffered(convert, broker.log, Contents())
      modifies this`position, this`offsets, this`pending, this`pendingColumns, this`pendingBytes
      ensures Buffered(convert, broker.log, Contents())
      ensures Contents() == ReceivedAll(convert, broker.log, old(Contents()), messages)
    {
      for i := 0 to |messages|
        invariant Buffered(convert, broker.log, Contents())
        invariant Contents() == ReceivedAll(convert, broker.log, old(Contents()), messages[..i])
      {
        assert messages[..i + 1][..i] == messages[..i];
        var m := messages[i];
        if !m.error && m.tp in position && position[m.tp] < |broker.log[m.tp]| {
          Receive(m.tp, m.extra);
        }
      }
      assert messages[..|messages|] == messages;
    }

    twostate lemma Produced()
      requires old(Consistent()) && Extends(old(broker.log), broker.log)
      requires broker.committed == old(broker.committed) && sink.lake.st == old(sink.lake.st)
      requires Contents() == old(Contents())
      ensures Consistent()
    {
      WorldForGood(convert, sink.transform, old(broker.log), broker.log, broker.committed, sink.lake.st);
      BufferedForGood(convert, old(broker.log), broker.log, Contents());
      CoveredForGood(convert, old(broker.log), sink.lake.st, broker.log, sink.lake.st, since);
    }

    method Append(row: Row, extra: set<string>)
      modifies this`pending, this`pendingColumns, this`pendingBytes
      ensures pending == old(pending) + [row] && pendingColumns == old(pendingColumns) + row.values.Keys + extra
    {
      var size: int := *;
      pending, pendingColumns := pending + [row], pendingColumns + row.values.Keys + extra;
      pendingBytes := pendingBytes + if size > 0 then size else 0;
    }

    /** One message. A null value moves the position only; the offsets of a value are tracked even if the
        record is then dropped. `extra` are columns the record's batch has beside its own. */
    method Receive(tp: TopicPartition, extra: set<string>)
      requires Buffered(convert, broker.log, Contents()) && tp in position && position[tp] < |broker.log[tp]|
      modifies this`position, this`offsets, this`pending, this`pendingColumns, this`pendingBytes
      ensures Contents() == Received(convert, broker.log, old(Contents()), tp, extra)
      ensures Buffered(convert, broker.log, Contents())
    {
      ReceivedKeeps(convert, broker.log, Contents(), tp, extra);
      ghost var received := Received(convert, broker.log, Contents(), tp, extra);
      var o := position[tp];
      var message := broker.log[tp][o];
      position := position[tp := o + 1];
      if message.Some? {
        offsets := Widen(offsets, tp, o);
        var row := RowAt(convert, broker.log, tp, o);
        if row.Some? {
          Append(row.value, extra);
        }
      }
      assert Contents() == received;
    }

    // ----------------------------------------------------------------------------------------
    // Flush
    // ----------------------------------------------------------------------------------------

    /** Publish the buffer, then commit its offsets. */
    method Flush() returns (end: FlushEnd)
      requires Valid() && sink.Settled() && HoldsOwn() && pending != []
      modifies this, sink, sink.lake, broker`committed, broker`commits
      ensures Valid()
      ensures end.Flushed? ==> Contents() == Empty(position) && sink.prepared.None? && sink.Settled()
      ensures end.Failed? ==> Contents() == old(Contents())
      ensures end == Failed(false) ==> sink.Settled() && HoldsOwn()
      ensures sink.orphans[Superseded] == old(sink.orphans[Superseded])
      ensures end.Flushed? ==> forall tp :: tp in old(offsets) ==>
                tp in broker.committed && broker.committed[tp] == old(offsets)[tp].last + 1
      ensures old(Unhindered()) ==> end.Flushed?
    {
      var written := Publish();
      if written.Raise? {
        return Failed(!IsRetryable(written.error));
      }
      var committed := Settle();
      end := if committed then Flushed else Failed(false);
    }

    /** The other half: commit the offsets of what was written, and start a new buffer. */
    method Settle() returns (acknowledged: bool)
      requires Consistent() && Covered(convert, broker.log, sink.lake.st, position)
      modifies this, broker`committed, broker`commits
      ensures Consistent()
      ensures Contents() == if acknowledged then Empty(position) else old(Contents())
      ensures position == old(position) && (!acknowledged ==> offsets == old(offsets) && pending == old(pending))
      ensures acknowledged ==> forall tp :: tp in old(offsets) ==>
                tp in broker.committed && broker.committed[tp] == old(offsets)[tp].last + 1
      ensures broker.reachable ==> acknowledged
    {
      acknowledged := CommitOffsets();
      if acknowledged {
        StartOver();
      }
    }

    method StartOver()
      requires Consistent() && Covered(convert, broker.log, sink.lake.st, position)
      modifies `offsets, `pending, `pendingColumns, `pendingBytes, `since
      ensures Consistent() && Contents() == Empty(position)
    {
      offsets, pending, pendingColumns, pendingBytes, since := map[], [], {}, 0, position;
      EmptyIsBuffered(convert, broker.log, position);
    }

    /** Up to three synchronous commits of the offsets after the flushed ones. */
    method CommitOffsets() returns (acknowledged: bool)
      requires Consistent() && Covered(convert, broker.log, sink.lake.st, position)
      modifies broker`committed, broker`commits
      ensures Consistent()
      ensures acknowledged ==> forall tp :: tp in offsets ==>
                tp in broker.committed && broker.committed[tp] == offsets[tp].last + 1
      ensures broker.reachable ==> acknowledged
      ensures !acknowledged ==> broker.commits == old(broker.commits) + 3
    {
      for attempt := 0 to COMMIT_ATTEMPTS
        invariant Consistent() && (broker.reachable ==> attempt == 0) && broker.commits == old(broker.commits) + attempt
      {
        ghost var was := broker.committed;
        acknowledged := broker.Commit(NextOffsets(offsets));
        CommitCovers(convert, broker.log, sink.lake.st, Contents(), was, broker.committed);
        if acknowledged {
          return;
        }
      }
      acknowledged := false;
    }

    /** The write half of a flush. */
    method Publish() returns (r: Outcome<nat, Exn>)
      requires Valid() && sink.Settled() && HoldsOwn() && pending != []
      modifies sink, sink.lake
      ensures Valid() && (r.Ok? || IsRetryable(r.error) ==> sink.Settled())
      ensures r.Ok? ==> sink.prepared.None? && Covered(convert, broker.log, sink.lake.st, position)
      ensures r.Raise? ==> HoldsOwn()
      ensures old(Unhindered()) ==> r.Ok?
      ensures sink.orphans[Superseded] == old(sink.orphans[Superseded])
    {
      var ranges := Flatten(offsets);
      SomethingToName(convert, broker.log, Contents(), ranges);
      BufferTabular(convert, broker.log, Contents(), order(pending));
      ghost var f, before := FlightOf(ranges), Now(sink);
      var t, tried;
      r, t, tried := WriteWithRetry(sink, Batch(pendingColumns, order(pending)), Some(ranges), attempts, timeout, f);
      Delivered(convert, sink.transform, broker.log, broker.committed, Contents(), f, before, Now(sink), r);
      OnlyFlight(f, ranges, r.Raise?);
    }

    lemma OnlyFlight(f: Flight, ranges: seq<Range>, failed: bool)
      requires f == FlightOf(ranges) && Flattened(offsets, ranges)
      requires failed ==> (sink.prepared.Some? ==> Own(f, Now(sink)))
      ensures failed ==> HoldsOwn()
    {
      forall rs | Flattened(offsets, rs) ensures rs == ranges {
        SortedUnique(rs, ranges);
      }
    }

    // ----------------------------------------------------------------------------------------
    // One process
    // ----------------------------------------------------------------------------------------

    /** One process, from its start to its end: unless it is killed it shuts down, and then holds nothing. */
    method Run() returns (killed: bool)
      requires Valid() && sink.Settled() && sink.prepared.None?
      modifies this, sink, sink.lake, broker
      ensures Valid()
      ensures sink.orphans[Superseded] == old(sink.orphans[Superseded])
      ensures !killed ==> sink.prepared.None?
    {
      var end := Loop();
      killed := *;
      if !killed {
        Shutdown(end);
      }
    }

    /** Rounds until a signal or an exception ends the loop. */
    method Loop() returns (end: FlushEnd)
      requires Valid() && sink.Settled() && sink.prepared.None?
      modifies this, sink, sink.lake, broker
      ensures Valid() && (end != Failed(true) ==> sink.Settled() && HoldsOwn())
      ensures sink.orphans[Superseded] == old(sink.orphans[Superseded])
    {
      end := Flushed;
      var rounds: nat := *;
      while rounds > 0 && end.Flushed?
        invariant Valid() && (end != Failed(true) ==> sink.Settled() && HoldsOwn())
        invariant end.Flushed? ==> sink.prepared.None?
        invariant sink.orphans[Superseded] == old(sink.orphans[Superseded])
      {
        ghost var due, clear;
        end, due, clear := Round();
        rounds := rounds - 1;
      }
    }

    /** Flush what is left, unless that very batch failed for good, and close the sink. Otherwise nothing is sent or
        committed any more. */
    method Shutdown(end: FlushEnd)
      requires Valid() && (end != Failed(true) ==> sink.Settled() && HoldsOwn())
      modifies this, sink, sink.lake, broker
      ensures Valid() && sink.prepared.None?
      ensures sink.orphans[Superseded] == old(sink.orphans[Superseded])
      ensures old(pending) != [] && end != Failed(true) && old(Unhindered()) ==> forall tp :: tp in old(offsets) ==>
                tp in broker.committed && broker.committed[tp] == old(offsets)[tp].last + 1
      ensures old(pending) == [] || end == Failed(true) ==>
                sink.lake.st == old(sink.lake.st) && broker.committed == old(broker.committed)
    {
      if FinalFlushDecision(|pending|, end == Failed(true), true) == FlushIt {
        var final := Flush();
      }
      sink.Close();
    }

    /** Consume, then flush the buffer if it holds a row and is large or old enough. `due` and `clear` are about the
        buffer as consumed. */
    method Round() returns (end: FlushEnd, ghost due: bool, ghost clear: bool)
      requires Valid() && sink.Settled() && sink.prepared.None?
      modifies this, sink, sink.lake, broker
      ensures Valid() && (end != Failed(true) ==> sink.Settled() && HoldsOwn())
      ensures end.Flushed? ==> sink.prepared.None?
      ensures sink.orphans[Superseded] == old(sink.orphans[Superseded])
      ensures due && clear ==> end.Flushed? && pending == [] && offsets == map[]
      ensures !due ==> end.Flushed? && sink.lake.st == old(sink.lake.st) && broker.committed == old(broker.committed)
    {
      var messages := Poll();
      var elapsed: real := *;
      due := pending != [] && (pendingBytes >= flushSize || elapsed >= interval);
      clear := Unhindered();
      var full, late := pendingBytes >= flushSize, elapsed >= interval;
      end := Flushed;
      if |pending| > 0 && (full || late) {
        end := Flush();
      }
    }
  }

  /** How a ladder that carried the buffer left things. */
  lemma Delivered(convert: Convert, transform: Transform, log: Log, committed: map<TopicPartition, nat>, b: Buffer,
                  f: Flight, before: Moment, after: Moment, r: Outcome<nat, Exn>)
    requires World(convert, transform, log, committed, before.st)
    requires Buffered(convert, log, b) && Carried(f, transform, b)
    requires Covered(convert, log, before.st, b.since)
    requires before.prepared.Some? ==> Own(f, before)
    requires r.Ok? ==> Returned(f, before, after, r.value)
    requires r.Raise? ==> Progress(f, before, after, false)
    ensures World(convert, transform, log, committed, after.st) && Covered(convert, log, after.st, b.since)
    ensures r.Ok? ==> after.prepared.None? && Covered(convert, log, after.st, b.position)
    ensures r.Raise? && after.prepared.Some? ==> Own(f, after)
    ensures after.superseded == before.superseded
  {
    ServedWorld(convert, transform, log, committed, b, f, before.st, after.st);
    CoveredForGood(convert, log, before.st, log, after.st, b.since);
    if r.Ok? {
      ReturnedCovers(convert, transform, log, committed, b, f, before, after, r.value);
    }
  }

  /** A payload that is held is the flight's, and there is something to publish. */
  ghost predicate Own(f: Flight, m: Moment) {
    Held(m, f.identity).Some? && Mine(f, m) && !Skipped(f.batch)
  }

  /** A buffered row has a tracked span, so its flush has an identity. */
  lemma SomethingToName(convert: Convert, log: Log, b: Buffer, ranges: seq<Range>)
    requires Buffered(convert, log, b) && b.rows != [] && Flattened(b.offsets, ranges)
    ensures ranges != [] && IdentityOf(Some(ranges)) == Some(ranges)
  {
    var row := b.rows[0];
    assert FromLog(convert, log, b, row);
    assert Tracked(convert, log, b, TopicPartition(row.topic, row.partition), row.offset);
    FlattenedMembers(b.offsets, ranges);
  }

  lemma StartCovered(convert: Convert, log: Log, committed: map<TopicPartition, nat>, s: State,
                     start: map<TopicPartition, nat>)
    requires Covered(convert, log, s, committed)
    requires forall tp :: tp in start ==> tp in log && start[tp] == if tp in committed then committed[tp] else 0
    ensures Covered(convert, log, s, start) && Buffered(convert, log, Empty(start))
  {
    forall tp | tp in start ensures CoveredBelow(convert, log, s, tp, start[tp]) {
      if tp in committed {
        assert CoveredBelow(convert, log, s, tp, committed[tp]);
      }
    }
    EmptyIsBuffered(convert, log, start);
  }

  datatype Decision = NothingToFlush | SkipIt | FlushIt

  function FinalFlushDecision(pendingRecords: nat, permanent: bool, started: bool): Decision {
    if pendingRecords == 0 then NothingToFlush
    else if permanent then SkipIt
    else if started then FlushIt
    else NothingToFlush
  }

  /** What is kept, read out: a kept record below a committed offset is skipped only if no column of it has a
      name the server takes; else some publication holds it, with every value of a writable column except
      those of columns whose own add failed while the request was built, or that the table did not have at that
      commit, although it once had them or did not refuse to add them for that request. */
  lemma NoRecordLost(convert: Convert, transform: Transform, log: Log, committed: map<TopicPartition, nat>, s: State,
                     tp: TopicPartition, o: nat) returns (k: nat, written: Row)
    requires World(convert, transform, log, committed, s) && tp in committed && o < committed[tp]
    requires RowAt(convert, log, tp, o).Some? && !Unwritable(RowAt(convert, log, tp, o).value)
    ensures k < |s.pubs| && written in FileRows(s.pubs[k].payload.files)
    ensures written.topic == tp.topic && written.partition == tp.partition && written.offset == o
    ensures var row := RowAt(convert, log, tp, o).value;
      forall c :: c in row.values && c != INSERTED_AT && Names.Writable(c) ==>
        || (c in written.values && written.values[c] == row.values[c])
        || Excused(s, s.pubs[k], c)
  {
    assert CoveredBelow(convert, log, s, tp, committed[tp]);
    var row := RowAt(convert, log, tp, o).value;
    assert InLake(s, row);
    k :| 0 <= k < |s.pubs| && Bears(s.pubs[k].payload, row);
    written := PublishedRowMeans(s, k, row);
  }

  /** And each file of a prompt publication stands under the tuple, in the spec that was live at its commit, of
      every row it holds. */
  lemma NoRowMisfiled(convert: Convert, transform: Transform, log: Log, committed: map<TopicPartition, nat>, s: State,
                      k: nat)
    requires World(convert, transform, log, committed, s) && k < |s.pubs| && s.pubs[k].payload.Prompt()
    ensures Tupled(transform, s.pubs[k].payload, s.pubs[k].table.layout.partition)
  {
    FiledUnderLiveSpec(transform, s, k);
  }

  /** Any number of processes, one after the other, under any configuration of layout and budget, with the
      same conversion, filters and transforms: whenever one ends, however it ended, no record below a committed
      offset has been lost. */
  method Lifetimes(lake: Service, broker: Broker, convert: Convert, transform: Transform, order: seq<Row> -> seq<Row>)
    requires World(convert, transform, broker.log, broker.committed, lake.st)
    requires lake.retention.Some? ==> lake.retention.value > 0
    requires forall rows :: multiset(order(rows)) == multiset(rows)
    modifies lake, broker
    ensures World(convert, transform, broker.log, broker.committed, lake.st)
  {
    var restarts: nat := *;
    while restarts > 0
      invariant World(convert, transform, broker.log, broker.committed, lake.st)
    {
      Lifetime(lake, broker, convert, transform, order);
      restarts := restarts - 1;
    }
  }

  method Lifetime(lake: Service, broker: Broker, convert: Convert, transform: Transform, order: seq<Row> -> seq<Row>)
    requires World(convert, transform, broker.log, broker.committed, lake.st)
    requires lake.retention.Some? ==> lake.retention.value > 0
    requires forall rows :: multiset(order(rows)) == multiset(rows)
    modifies lake, broker
    ensures World(convert, transform, broker.log, broker.committed, lake.st)
  {
    lake.Interfere();
    CoveredForGood(convert, broker.log, old(lake.st), broker.log, lake.st, broker.committed);
    var cfg: Config, attempts: nat, timeout: real, flushSize: nat, interval: real := *, *, *, *, *;
    var partitions: set<TopicPartition> := *;
    var sink := new Sink(lake, cfg, transform);
    var worker := new Worker(sink, broker, convert, order, attempts + 1, timeout, flushSize, interval,
                               partitions * broker.log.Keys);
    var killed := worker.Run();
    assert sink.orphans[Superseded] == 0;
  }
}
