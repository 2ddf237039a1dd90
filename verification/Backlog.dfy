/**
 What a flush owes the source topics: which records it takes responsibility for, and when a record is
 accounted for in the lake.
 */
module Backlog {
  import opened Wrappers
  import opened FlushKey
  import opened Lake
  import opened Catalog
  import opened PartitionFanout
  import opened Reconciliation
  import opened Flush
  import opened WriteLadder
  import opened Kafka

  /** Parsing, coercion and the filters: the columns a message becomes, or None if it is dropped. */
  type Convert = (TopicPartition, string) -> Option<map<string, string>>

  datatype Span = Span(first: nat, last: nat)

  /** The row the record at an offset becomes, if it becomes one. */
  function RowAt(convert: Convert, log: Log, tp: TopicPartition, o: nat): Option<Row> {
    if tp in log && o < |log[tp]| && log[tp][o].Some? then
      match convert(tp, log[tp][o].value)
      case None => None
      case Some(values) => Some(Row(tp.topic, tp.partition, o, values))
    else None
  }

  /** A record none of whose columns has a name the server takes. */
  predicate Unwritable(row: Row) {
    WritableColumns(row.values.Keys) == {}
  }

  ghost predicate InLake(s: State, row: Row) {
    exists i :: 0 <= i < |s.pubs| && Bears(s.pubs[i].payload, row)
  }

  /** Published, or deliberately skipped. */
  ghost predicate Accounted(s: State, row: Row) {
    InLake(s, row) || Unwritable(row)
  }

  /** Every record below `upto` that the pipeline keeps is accounted for. */
  ghost predicate Covered(convert: Convert, log: Log, s: State, upto: map<TopicPartition, nat>) {
    forall tp :: tp in upto ==> CoveredBelow(convert, log, s, tp, upto[tp])
  }

  ghost predicate CoveredBelow(convert: Convert, log: Log, s: State, tp: TopicPartition, upto: nat) {
    && tp in log && upto <= |log[tp]|
    && forall o | 0 <= o < upto :: RowAt(convert, log, tp, o).Some? ==> Accounted(s, RowAt(convert, log, tp, o).value)
  }

  lemma CoveredForGood(convert: Convert, a: Log, s: State, b: Log, t: State, upto: map<TopicPartition, nat>)
    requires Covered(convert, a, s, upto) && Extends(a, b) && s.pubs <= t.pubs
    ensures Covered(convert, b, t, upto)
  {
    forall tp | tp in upto ensures CoveredBelow(convert, b, t, tp, upto[tp]) {
      forall o | 0 <= o < upto[tp] && RowAt(convert, b, tp, o).Some?
        ensures Accounted(t, RowAt(convert, b, tp, o).value)
      {
        assert CoveredBelow(convert, a, s, tp, upto[tp]);
        assert a[tp][o] == b[tp][o];
        assert RowAt(convert, a, tp, o) == RowAt(convert, b, tp, o);
        InLakeForGood(s, t, RowAt(convert, b, tp, o).value);
      }
    }
  }

  lemma InLakeForGood(s: State, t: State, row: Row)
    requires s.pubs <= t.pubs
    ensures InLake(s, row) ==> InLake(t, row)
  {
    if i :| 0 <= i < |s.pubs| && Bears(s.pubs[i].payload, row) {
      assert t.pubs[i] == s.pubs[i];
    }
  }

  // ------------------------------------------------------------------------------------------
  // What was sent
  // ------------------------------------------------------------------------------------------

  /** A request that names offset ranges holds every kept record in them. */
  ghost predicate Honest(convert: Convert, log: Log, p: Payload) {
    p.identity.Some? ==> forall r :: r in p.identity.value ==> HoldsRange(convert, log, p, r)
  }

  ghost predicate HoldsRange(convert: Convert, log: Log, p: Payload, r: Range) {
    var tp := TopicPartition(r.topic, r.partition);
    && tp in log && r.last < |log[tp]|
    && forall o | r.first <= o <= r.last ::
         RowAt(convert, log, tp, o).Some? ==> Bears(p, RowAt(convert, log, tp, o).value)
  }

  ghost predicate HonestLake(convert: Convert, log: Log, s: State) {
    forall p :: p in s.sends ==> Honest(convert, log, p)
  }

  lemma HonestForGood(convert: Convert, a: Log, b: Log, s: State)
    requires HonestLake(convert, a, s) && Extends(a, b)
    ensures HonestLake(convert, b, s)
  {
    forall p, r | p in s.sends && p.identity.Some? && r in p.identity.value
      ensures HoldsRange(convert, b, p, r)
    {
      var tp := TopicPartition(r.topic, r.partition);
      assert Honest(convert, a, p) && HoldsRange(convert, a, p, r);
      forall o | r.first <= o <= r.last && RowAt(convert, b, tp, o).Some?
        ensures Bears(p, RowAt(convert, b, tp, o).value)
      {
        assert a[tp][o] == b[tp][o];
        assert RowAt(convert, a, tp, o) == RowAt(convert, b, tp, o);
      }
    }
  }

  /** A receipt under a key that names `r` means the kept records of `r` are in the lake, whichever request
      the receipt was written for. */
  lemma ReceiptCovers(convert: Convert, log: Log, s: State, u: nat, ranges: seq<Range>, r: Range, o: nat)
    requires Lake.Valid(s) && HonestLake(convert, log, s) && KeyOf(u, ranges) in s.receipts
    requires r in ranges && r.first <= o <= r.last
    requires RowAt(convert, log, TopicPartition(r.topic, r.partition), o).Some?
    ensures InLake(s, RowAt(convert, log, TopicPartition(r.topic, r.partition), o).value)
  {
    var key := KeyOf(u, ranges);
    var i :| 0 <= i < |s.pubs| && s.pubs[i].payload.key == key;
    var p := s.pubs[i].payload;
    assert WellPublished(s, s.pubs[i]) && WellSent(s, p);
    assert r in multiset(ranges) && multiset(p.identity.value) == multiset(ranges);
    assert Honest(convert, log, p) && HoldsRange(convert, log, p, r);
  }

  // ------------------------------------------------------------------------------------------
  // The pending buffer
  // ------------------------------------------------------------------------------------------

  /** Where consumption stands, and what it has buffered since the last flush, which stood at `since`. */
  datatype Buffer = Buffer(since: map<TopicPartition, nat>, position: map<TopicPartition, nat>,
                           offsets: map<TopicPartition, Span>, rows: seq<Row>, columns: set<string>)

  /** The positions are between the last flush and the end of the log, and the tracked spans between the two. */
  predicate InRange(log: Log, b: Buffer) {
    && b.since.Keys == b.position.Keys && b.offsets.Keys <= b.position.Keys
    && (forall tp :: tp in b.position ==> tp in log && b.since[tp] <= b.position[tp] <= |log[tp]|)
    && (forall tp :: tp in b.offsets ==> b.since[tp] <= b.offsets[tp].first <= b.offsets[tp].last < b.position[tp])
  }

  predicate Pending(b: Buffer, tp: TopicPartition, o: nat) {
    tp in b.position && tp in b.since && b.since[tp] <= o < b.position[tp]
  }

  /** A record consumed since the last flush is within its partition's span if it has a value, and buffered if
      it is kept. */
  ghost predicate Tracked(convert: Convert, log: Log, b: Buffer, tp: TopicPartition, o: nat) {
    && (tp in log && o < |log[tp]| && log[tp][o].Some? ==>
          tp in b.offsets && b.offsets[tp].first <= o <= b.offsets[tp].last)
    && (RowAt(convert, log, tp, o).Some? ==> RowAt(convert, log, tp, o).value in b.rows)
  }

  /** A buffered row is a kept record consumed since the last flush, buffered once. */
  ghost predicate FromLog(convert: Convert, log: Log, b: Buffer, row: Row) {
    var tp := TopicPartition(row.topic, row.partition);
    && Pending(b, tp, row.offset) && RowAt(convert, log, tp, row.offset) == Some(row)
    && multiset(b.rows)[row] == 1
    && row.values.Keys <= b.columns
  }

  ghost predicate Buffered(convert: Convert, log: Log, b: Buffer) {
    && InRange(log, b)
    && (forall tp, o: nat :: Pending(b, tp, o) ==> Tracked(convert, log, b, tp, o))
    && (forall row :: row in b.rows ==> FromLog(convert, log, b, row))
  }

  /** Nothing consumed since the last flush. */
  function Empty(position: map<TopicPartition, nat>): Buffer {
    Buffer(position, position, map[], [], {})
  }

  lemma EmptyIsBuffered(convert: Convert, log: Log, position: map<TopicPartition, nat>)
    requires forall tp :: tp in position ==> tp in log && position[tp] <= |log[tp]|
    ensures Buffered(convert, log, Empty(position))
  {
  }

  function Widen(offsets: map<TopicPartition, Span>, tp: TopicPartition, o: nat): map<TopicPartition, Span> {
    var was := if tp in offsets then offsets[tp] else Span(o, o);
    offsets[tp := Span(if o < was.first then o else was.first, if o > was.last then o else was.last)]
  }

  /** The next message of `tp` taken into the buffer; `extra` are columns its batch has beside the row's own. */
  function Received(convert: Convert, log: Log, b: Buffer, tp: TopicPartition, extra: set<string>): Buffer
    requires tp in b.position && tp in log && b.position[tp] < |log[tp]|
  {
    var o := b.position[tp];
    var next := b.position[tp := o + 1];
    if log[tp][o].None? then b.(position := next)
    else
      var offsets := Widen(b.offsets, tp, o);
      match RowAt(convert, log, tp, o)
      case None => b.(position := next, offsets := offsets)
      case Some(row) => b.(position := next, offsets := offsets, rows := b.rows + [row],
                           columns := b.columns + row.values.Keys + extra)
  }

  /** One message of a `consume()`: the next of its partition, or an error; `extra` are columns its batch has beside
      its own. */
  datatype Message = Message(tp: TopicPartition, error: bool, extra: set<string>)

  /** The messages taken into the buffer one by one; an error and a partition that is not assigned are skipped. */
  function ReceivedAll(convert: Convert, log: Log, b: Buffer, messages: seq<Message>): Buffer {
    if messages == [] then b
    else
      var before, m := ReceivedAll(convert, log, b, messages[..|messages| - 1]), messages[|messages| - 1];
      if m.error || m.tp !in before.position || m.tp !in log || before.position[m.tp] >= |log[m.tp]| then before
      else Received(convert, log, before, m.tp, m.extra)
  }

  lemma ReceivedKeeps(convert: Convert, log: Log, b: Buffer, tp: TopicPartition, extra: set<string>)
    requires Buffered(convert, log, b)
    requires tp in b.position && tp in log && b.position[tp] < |log[tp]|
    ensures Buffered(convert, log, Received(convert, log, b, tp, extra))
  {
    var c := Received(convert, log, b, tp, extra);
    ReceivedInRange(convert, log, b, tp, extra);
    forall q, i: nat | Pending(c, q, i) ensures Tracked(convert, log, c, q, i) {
      ReceivedTracks(convert, log, b, tp, extra, q, i);
    }
    forall row | row in c.rows ensures FromLog(convert, log, c, row) {
      ReceivedFromLog(convert, log, b, tp, extra, row);
    }
  }

  lemma ReceivedInRange(convert: Convert, log: Log, b: Buffer, tp: TopicPartition, extra: set<string>)
    requires InRange(log, b) && tp in b.position && tp in log && b.position[tp] < |log[tp]|
    ensures InRange(log, Received(convert, log, b, tp, extra))
  {
    var c := Received(convert, log, b, tp, extra);
    assert c.since == b.since && c.position == b.position[tp := b.position[tp] + 1];
    assert c.offsets == b.offsets || c.offsets == Widen(b.offsets, tp, b.position[tp]);
    WidenInRange(log, b, tp);
  }

  lemma WidenInRange(log: Log, b: Buffer, tp: TopicPartition)
    requires InRange(log, b) && tp in b.position
    ensures var offsets, position := Widen(b.offsets, tp, b.position[tp]), b.position[tp := b.position[tp] + 1];
      && offsets.Keys <= position.Keys
      && forall q :: q in offsets ==> b.since[q] <= offsets[q].first <= offsets[q].last < position[q]
  {
  }

  lemma ReceivedTracks(convert: Convert, log: Log, b: Buffer, tp: TopicPartition, extra: set<string>,
                       q: TopicPartition, i: nat)
    requires Buffered(convert, log, b)
    requires tp in b.position && tp in log && b.position[tp] < |log[tp]|
    requires Pending(Received(convert, log, b, tp, extra), q, i)
    ensures Tracked(convert, log, Received(convert, log, b, tp, extra), q, i)
  {
    if Pending(b, q, i) {
      assert Tracked(convert, log, b, q, i);
    } else {
      assert q == tp && i == b.position[tp];
    }
  }

  lemma ReceivedFromLog(convert: Convert, log: Log, b: Buffer, tp: TopicPartition, extra: set<string>, row: Row)
    requires Buffered(convert, log, b)
    requires tp in b.position && tp in log && b.position[tp] < |log[tp]|
    requires row in Received(convert, log, b, tp, extra).rows
    ensures FromLog(convert, log, Received(convert, log, b, tp, extra), row)
  {
    var o := b.position[tp];
    forall other | other in b.rows
      ensures other.offset < b.position[TopicPartition(other.topic, other.partition)]
    {
      assert FromLog(convert, log, b, other);
    }
    if row in b.rows {
      assert FromLog(convert, log, b, row);
    }
  }

  lemma BufferedForGood(convert: Convert, a: Log, b: Log, buffer: Buffer)
    requires Buffered(convert, a, buffer) && Extends(a, b)
    ensures Buffered(convert, b, buffer)
  {
    forall tp, o: nat | Pending(buffer, tp, o) ensures Tracked(convert, b, buffer, tp, o) {
      assert Tracked(convert, a, buffer, tp, o);
      assert a[tp][o] == b[tp][o];
    }
    forall row | row in buffer.rows ensures FromLog(convert, b, buffer, row) {
      assert FromLog(convert, a, buffer, row);
      var tp := TopicPartition(row.topic, row.partition);
      assert a[tp][row.offset] == b[tp][row.offset];
    }
  }

  // ------------------------------------------------------------------------------------------
  // The flush of a buffer
  // ------------------------------------------------------------------------------------------

  function RangeOf(tp: TopicPartition, span: Span): Range {
    Range(tp.topic, tp.partition, span.first, span.last)
  }

  ghost function RangesOf(offsets: map<TopicPartition, Span>): set<Range> {
    set tp | tp in offsets :: RangeOf(tp, offsets[tp])
  }

  /** The sorted ranges of the tracked spans; there is one such sequence. */
  ghost predicate Flattened(offsets: map<TopicPartition, Span>, ranges: seq<Range>) {
    Sorted(ranges) && multiset(ranges) == multiset(RangesOf(offsets))
  }

  lemma FlattenedMembers(offsets: map<TopicPartition, Span>, ranges: seq<Range>)
    requires Flattened(offsets, ranges)
    ensures forall r :: r in ranges <==> r in RangesOf(offsets)
    ensures ranges == [] <==> offsets == map[]
  {
    forall r ensures r in ranges <==> r in RangesOf(offsets) {
      assert r in ranges <==> r in multiset(ranges);
    }
    if offsets != map[] {
      var tp :| tp in offsets;
      assert RangeOf(tp, offsets[tp]) in RangesOf(offsets);
    } else {
      assert RangesOf(offsets) == {};
      assert |ranges| == |multiset(ranges)|;
    }
  }

  lemma RangesWithout(offsets: map<TopicPartition, Span>, tp: TopicPartition)
    requires tp in offsets
    ensures RangeOf(tp, offsets[tp]) !in RangesOf(offsets - {tp})
    ensures RangesOf(offsets) == RangesOf(offsets - {tp}) + {RangeOf(tp, offsets[tp])}
  {
    var rest := offsets - {tp};
    forall q | q in rest ensures RangeOf(q, rest[q]) != RangeOf(tp, offsets[tp]) {
      assert q.topic != tp.topic || q.partition != tp.partition;
    }
    forall q | q in offsets ensures RangeOf(q, offsets[q]) in RangesOf(rest) + {RangeOf(tp, offsets[tp])} {
      if q != tp {
        assert q in rest && rest[q] == offsets[q];
      }
    }
    forall r | r in RangesOf(rest) ensures r in RangesOf(offsets) {
      var q :| q in rest && r == RangeOf(q, rest[q]);
      assert q in offsets;
    }
  }

  method Flatten(offsets: map<TopicPartition, Span>) returns (ranges: seq<Range>)
    ensures Flattened(offsets, ranges)
  {
    ranges := [];
    var rest := offsets;
    while rest != map[]
      invariant rest.Keys <= offsets.Keys && forall tp :: tp in rest ==> rest[tp] == offsets[tp]
      invariant multiset(ranges) + multiset(RangesOf(rest)) == multiset(RangesOf(offsets))
      decreases rest.Keys
    {
      var tp :| tp in rest;
      var r := RangeOf(tp, rest[tp]);
      RangesWithout(rest, tp);
      ranges := ranges + [r];
      rest := rest - {tp};
    }
    assert RangesOf(rest) == {};
    SortSorts(ranges);
    ranges := Sort(ranges);
  }

  /** A request made of the buffered rows under the tracked spans is honest. */
  lemma MadeIsHonest(convert: Convert, log: Log, b: Buffer, transform: Transform, cfg: Config, p: Payload,
                     ranges: seq<Range>, rows: seq<Row>)
    requires Buffered(convert, log, b) && Flattened(b.offsets, ranges) && multiset(rows) == multiset(b.rows)
    requires Made(transform, cfg, p, Some(ranges), rows)
    ensures Honest(convert, log, p)
  {
    FlattenedMembers(b.offsets, ranges);
    forall r | r in ranges ensures HoldsRange(convert, log, p, r) {
      var tp := TopicPartition(r.topic, r.partition);
      assert tp in b.offsets && r == RangeOf(tp, b.offsets[tp]);
      forall o | r.first <= o <= r.last && RowAt(convert, log, tp, o).Some?
        ensures Bears(p, RowAt(convert, log, tp, o).value)
      {
        assert Pending(b, tp, o) && Tracked(convert, log, b, tp, o);
        assert RowAt(convert, log, tp, o).value in multiset(rows);
        CarriesBears(p, rows, RowAt(convert, log, tp, o).value);
      }
    }
  }

  /** The batch of the buffer is a table. */
  lemma BufferTabular(convert: Convert, log: Log, b: Buffer, rows: seq<Row>)
    requires Buffered(convert, log, b) && multiset(rows) == multiset(b.rows)
    ensures Tabular(Batch(b.columns, rows))
  {
    forall row | row in rows ensures row.values.Keys <= b.columns {
      assert row in multiset(rows);
      assert FromLog(convert, log, b, row);
    }
  }

  /** After a flush of the buffer returned, every buffered row is accounted for. */
  lemma FlushAccounts(convert: Convert, log: Log, b: Buffer, f: Flight, before: Moment, after: Moment, n: nat, row: Row)
    requires Buffered(convert, log, b) && HonestLake(convert, log, after.st) && Lake.Valid(after.st)
    requires f.identity.Some? && Flattened(b.offsets, f.identity.value)
    requires f.batch.columns == b.columns && multiset(f.batch.rows) == multiset(b.rows)
    requires Returned(f, before, after, n) && row in b.rows
    ensures Accounted(after.st, row)
  {
    assert FromLog(convert, log, b, row);
    if Skipped(f.batch) {
      assert row in multiset(f.batch.rows);
      assert WritableColumns(row.values.Keys) <= WritableColumns(b.columns);
    } else {
      var tp := TopicPartition(row.topic, row.partition);
      var key :| LandedAs(f.transform, f.cfg, after.st, key, f.identity, f.batch.rows, n);
      var u: nat :| key == KeyOf(u, f.identity.value);
      FlattenedMembers(b.offsets, f.identity.value);
      assert Tracked(convert, log, b, tp, row.offset);
      var r := RangeOf(tp, b.offsets[tp]);
      assert r in RangesOf(b.offsets);
      ReceiptCovers(convert, log, after.st, u, f.identity.value, r, row.offset);
    }
  }

  /** Once every buffered row is accounted for, consumption is covered up to where it stands. */
  lemma FlushCovers(convert: Convert, log: Log, s: State, b: Buffer)
    requires Buffered(convert, log, b) && Covered(convert, log, s, b.since)
    requires forall row :: row in b.rows ==> Accounted(s, row)
    ensures Covered(convert, log, s, b.position)
  {
    forall tp | tp in b.position ensures CoveredBelow(convert, log, s, tp, b.position[tp]) {
      assert CoveredBelow(convert, log, s, tp, b.since[tp]);
      forall o | 0 <= o < b.position[tp] && RowAt(convert, log, tp, o).Some?
        ensures Accounted(s, RowAt(convert, log, tp, o).value)
      {
        if b.since[tp] <= o {
          assert Pending(b, tp, o) && Tracked(convert, log, b, tp, o);
        }
      }
    }
  }

  /** The offsets a flush commits: the next one to fetch. */
  function NextOffsets(offsets: map<TopicPartition, Span>): map<TopicPartition, nat> {
    map tp | tp in offsets :: offsets[tp].last + 1
  }

  /** However much of an offset commit was applied, what is committed stays covered. */
  lemma CommitCovers(convert: Convert, log: Log, s: State, b: Buffer,
                     was: map<TopicPartition, nat>, now: map<TopicPartition, nat>)
    requires Buffered(convert, log, b) && Covered(convert, log, s, b.position) && Covered(convert, log, s, was)
    requires Moved(was, NextOffsets(b.offsets), now)
    ensures Covered(convert, log, s, now)
  {
    forall tp | tp in now ensures CoveredBelow(convert, log, s, tp, now[tp]) {
      if tp in was && now[tp] == was[tp] {
        assert CoveredBelow(convert, log, s, tp, was[tp]);
      } else {
        assert CoveredBelow(convert, log, s, tp, b.position[tp]);
      }
    }
  }
}
