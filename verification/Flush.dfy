/**
 One flush: the rows it publishes, the objects it uploads, and what the server may still do with the
 requests that were sent for it.
 */
module Flush {
  import opened Wrappers
  import opened FlushKey
  import opened Lake
  import opened Errors
  import opened Catalog
  import opened PartitionFanout
  import opened Reconciliation
  import Names

  const INSERTED_AT := "_inserted_at"

  datatype Batch = Batch(columns: set<string>, rows: seq<Row>)

  /** The rows of a table have no columns but the table's. */
  ghost predicate Tabular(batch: Batch) {
    forall row :: row in batch.rows ==> row.values.Keys <= batch.columns
  }

  /** What the flush is recognized by: its offset ranges, when the caller gives any. */
  function IdentityOf(offsets: Option<seq<Range>>): Option<seq<Range>> {
    if offsets.Some? && offsets.value != [] then offsets else None
  }

  function WritableColumns(columns: set<string>): set<string> {
    set c | c in columns && Names.Writable(c)
  }

  /** The columns to write; None if there is nothing to publish: no row, or no column with a name the
      server takes. */
  function Screen(batch: Batch): Outcome<Option<set<string>>, Exn> {
    if INSERTED_AT in batch.columns then Raise(BadValue)
    else
      var columns := WritableColumns(batch.columns);
      if batch.columns != {} && columns == {} then Ok(None)
      else if batch.rows == [] then Ok(None)
      else Ok(Some(columns + {INSERTED_AT}))
  }

  /** A batch is refused exactly for the reserved column, and skipped exactly if it has no row or only columns with
      unwritable names; otherwise every writable column is written, and the timestamp. */
  lemma ScreenExactly(batch: Batch)
    ensures INSERTED_AT in batch.columns ==> Screen(batch) == Raise(BadValue)
    ensures INSERTED_AT !in batch.columns ==> Screen(batch).Ok?
    ensures INSERTED_AT !in batch.columns ==>
              (Screen(batch) == Ok(None)
               <==> batch.rows == [] || (batch.columns != {} && forall c :: c in batch.columns ==> !Names.Writable(c)))
    ensures Screen(batch).Ok? && Screen(batch).value.Some? ==>
              forall c :: c in Screen(batch).value.value <==>
                c == INSERTED_AT || (c in batch.columns && Names.Writable(c))
  {
    if c :| c in batch.columns && Names.Writable(c) {
      assert c in WritableColumns(batch.columns);
    }
  }

  datatype Reason =
    | Superseded | Shutdown | CommitRefused | TableRecreated | BasisTooOld | DdlLanded
    | AlreadyPublished | PrepareFailed

  /** Why the held upload is given up after this failure of its commit, if it is. */
  function WhyDropped(e: Exn): Option<Reason> {
    match e
    case IncarnationChanged(_) => Some(TableRecreated)
    case ReadSnapshotExpired => Some(BasisTooOld)
    case DdlSinceReadSnapshot => Some(DdlLanded)
    case _ => if e == Validation(KeyReused) then Some(AlreadyPublished)
              else if IsAnsweredRefusal(e) then Some(CommitRefused) else None
  }

  function MovedReason(refused: Exn): Reason {
    if refused.IncarnationChanged? then TableRecreated
    else if refused.ReadSnapshotExpired? then BasisTooOld else DdlLanded
  }

  lemma MovedReasonIs(refused: Exn)
    requires IsDestinationMoved(refused)
    ensures WhyDropped(refused) == Some(MovedReason(refused)) && MovedReason(refused) != Superseded
  {
  }

  /** The counts once `n` more objects were given up for this reason. */
  function Counted(orphans: multiset<Reason>, why: Option<Reason>, n: nat): multiset<Reason> {
    match why
    case None => orphans
    case Some(reason) => orphans[reason := orphans[reason] + n]
  }

  // ------------------------------------------------------------------------------------------
  // Rows and objects
  // ------------------------------------------------------------------------------------------

  /** The row as it is written: stamped with the flush's timestamp and restricted to `columns`. */
  function Shown(row: Row, at: string, columns: set<string>): Row {
    var stamped := row.values[INSERTED_AT := at];
    row.(values := map c | c in stamped && c in columns :: stamped[c])
  }

  /** One timestamp and one set of columns for every row of the flush. */
  function ShowAll(rows: seq<Row>, at: string, columns: set<string>): (shown: seq<Row>)
    ensures |shown| == |rows|
  {
    seq(|rows|, i requires 0 <= i < |rows| => Shown(rows[i], at, columns))
  }

  function FileRows(files: seq<File>): seq<Row> {
    if files == [] then [] else FileRows(files[..|files| - 1]) + files[|files| - 1].rows
  }

  /** Narrowed to the columns of a shape. */
  function Project(rows: seq<Row>, columns: set<string>): (kept: seq<Row>)
    ensures |kept| == |rows|
  {
    seq(|rows|, i requires 0 <= i < |rows| =>
      rows[i].(values := map c | c in rows[i].values && c in columns :: rows[i].values[c]))
  }

  lemma ProjectShown(rows: seq<Row>, at: string, kept: set<string>, columns: set<string>)
    ensures Project(ShowAll(rows, at, kept), columns) == ShowAll(rows, at, kept * columns)
  {
    forall i | 0 <= i < |rows|
      ensures Project(ShowAll(rows, at, kept), columns)[i] == ShowAll(rows, at, kept * columns)[i]
    {
      var narrowed, shown := Project(ShowAll(rows, at, kept), columns)[i], Shown(rows[i], at, kept * columns);
      assert narrowed.values == shown.values;
    }
  }

  /** The payload registers exactly the rows of the flush, stamped and restricted to the columns it carries. */
  ghost predicate Carries(p: Payload, rows: seq<Row>) {
    exists at: string :: multiset(FileRows(p.files)) == multiset(ShowAll(rows, at, p.Carried()))
  }

  /** Each file is under the tuple of all its rows. */
  ghost predicate Tupled(transform: Transform, p: Payload, spec: seq<Field>) {
    && (spec == [] ==> forall i :: 0 <= i < |p.files| ==> p.files[i].tuple.None?)
    && (spec != [] ==> forall i, row :: 0 <= i < |p.files| && row in p.files[i].rows ==>
          p.files[i].tuple.Some? && Fits(transform, spec, row, p.files[i].tuple.value))
  }

  /** The alignment kept the column, or its own add failed. */
  predicate Takes(p: Payload, column: string) {
    column in p.aligned || column in p.failed
  }

  /** No value of the row is left out but those of columns with an unwritable name, and those excused above. */
  predicate KeepsValues(p: Payload, row: Row) {
    && Takes(p, INSERTED_AT)
    && (forall c :: c in row.values && Names.Writable(c) ==> Takes(p, c))
  }

  lemma {:induction false} RegisteredRows(groups: seq<Group>, from: nat)
    ensures FileRows(Register(groups, from)) == AllRows(groups)
    decreases |groups|
  {
    if groups != [] {
      var n := |groups| - 1;
      RegisteredRows(groups[..n], from);
      assert Register(groups, from)[..n] == Register(groups[..n], from);
    }
  }

  /** A payload registered from the fan-out of some rows holds them, each file under its tuple. */
  lemma FanoutCarries(transform: Transform, p: Payload, shown: seq<Row>, from: nat)
    requires p.files == Register(Fanout(transform, p.spec, shown), from)
    ensures multiset(FileRows(p.files)) == multiset(shown) && Tupled(transform, p, p.spec)
  {
    RegisteredRows(Fanout(transform, p.spec, shown), from);
    FanoutConservesRows(transform, p.spec, shown);
    if p.spec != [] {
      forall i, row | 0 <= i < |p.files| && row in p.files[i].rows
        ensures p.files[i].tuple.Some? && Fits(transform, p.spec, row, p.files[i].tuple.value)
      {
        FanoutFits(transform, p.spec, shown);
        assert Fanout(transform, p.spec, shown)[i] in Fanout(transform, p.spec, shown);
      }
    }
  }

  /** One of the payload's files holds this row, with every value of an aligned column the table has. */
  ghost predicate Bears(p: Payload, row: Row) {
    && KeepsValues(p, row)
    && exists at: string :: Shown(row, at, p.Carried()) in FileRows(p.files)
  }

  lemma CarriesBears(p: Payload, rows: seq<Row>, row: Row)
    requires Carries(p, rows) && row in rows && KeepsValues(p, row)
    ensures Bears(p, row)
  {
    var at: string :| multiset(FileRows(p.files)) == multiset(ShowAll(rows, at, p.Carried()));
    var i :| 0 <= i < |rows| && rows[i] == row;
    assert ShowAll(rows, at, p.Carried())[i] == Shown(row, at, p.Carried());
    assert Shown(row, at, p.Carried()) in multiset(FileRows(p.files));
  }

  /** Uploads of one prepare are numbered consecutively. */
  ghost predicate Consecutive(p: Payload, from: int) {
    forall i :: 0 <= i < |p.files| ==> p.files[i].path == from + i
  }

  /** Some publication registers the object `path`. */
  ghost predicate Registered(s: State, path: int) {
    exists i, j :: 0 <= i < |s.pubs| && 0 <= j < |s.pubs[i].payload.files| && s.pubs[i].payload.files[j].path == path
  }

  lemma RegisteredForGood(a: State, b: State, path: int)
    requires Registered(a, path) && a.pubs <= b.pubs
    ensures Registered(b, path)
  {
    var i, j :| 0 <= i < |a.pubs| && 0 <= j < |a.pubs[i].payload.files| && a.pubs[i].payload.files[j].path == path;
    assert b.pubs[i] == a.pubs[i];
  }

  /** What became of an uploaded object. */
  datatype Fate = Written | Orphaned(why: Reason)

  function Tally(ledger: seq<Fate>, fate: Fate): nat {
    if ledger == [] then 0
    else Tally(ledger[..|ledger| - 1], fate) + (if ledger[|ledger| - 1] == fate then 1 else 0)
  }

  function Repeat(fate: Fate, n: nat): (r: seq<Fate>)
    ensures |r| == n && forall i :: 0 <= i < n ==> r[i] == fate
  {
    seq(n, _ => fate)
  }

  lemma {:induction false} TallyAppend(ledger: seq<Fate>, fate: Fate, n: nat, other: Fate)
    ensures Tally(ledger + Repeat(fate, n), other) == Tally(ledger, other) + (if fate == other then n else 0)
    decreases n
  {
    if n == 0 {
      assert ledger + Repeat(fate, 0) == ledger;
    } else {
      TallyAppend(ledger, fate, n - 1, other);
      var l := ledger + Repeat(fate, n);
      assert l[..|l| - 1] == ledger + Repeat(fate, n - 1);
    }
  }

  function Size(held: Option<Payload>): nat {
    if held.None? then 0 else |held.value.files|
  }

  /**
   The books since object `base`: `ledger[i]` is the fate of object `base + i`. Every object uploaded
   has a fate or is in the held payload, and the metrics count the fates.
   */
  ghost predicate Balanced(base: nat, next: nat, ledger: seq<Fate>, held: Option<Payload>,
                           filesWritten: nat, orphans: multiset<Reason>)
  {
    && base + |ledger| + Size(held) == next
    && (held.Some? ==> Consecutive(held.value, base + |ledger|))
    && filesWritten == Tally(ledger, Written)
    && forall why :: orphans[why] == Tally(ledger, Orphaned(why))
  }

  function OrphansOf(ledger: seq<Fate>): multiset<Reason> {
    if ledger == [] then multiset{}
    else
      OrphansOf(ledger[..|ledger| - 1])
      + (match ledger[|ledger| - 1] case Written => multiset{} case Orphaned(why) => multiset{why})
  }

  lemma {:induction false} OrphansCounted(ledger: seq<Fate>, why: Reason)
    ensures OrphansOf(ledger)[why] == Tally(ledger, Orphaned(why))
    ensures |OrphansOf(ledger)| + Tally(ledger, Written) == |ledger|
  {
    if ledger != [] {
      OrphansCounted(ledger[..|ledger| - 1], why);
    }
  }

  /** Objects uploaded = objects counted as written + objects counted as orphaned + objects held. */
  lemma BooksAddUp(base: nat, next: nat, ledger: seq<Fate>, held: Option<Payload>, filesWritten: nat,
                   orphans: multiset<Reason>)
    requires Balanced(base, next, ledger, held, filesWritten, orphans)
    ensures next - base == filesWritten + |orphans| + Size(held)
  {
    forall why: Reason ensures orphans[why] == OrphansOf(ledger)[why] {
      OrphansCounted(ledger, why);
    }
    assert orphans == OrphansOf(ledger);
    OrphansCounted(ledger, Superseded);
  }

  /** Every object booked as written is registered by a publication. */
  ghost predicate AllRegistered(s: State, base: nat, ledger: seq<Fate>) {
    forall i :: 0 <= i < |ledger| && ledger[i].Written? ==> Registered(s, base + i)
  }

  lemma AllRegisteredForGood(a: State, b: State, base: nat, ledger: seq<Fate>)
    requires AllRegistered(a, base, ledger) && a.pubs <= b.pubs
    ensures AllRegistered(b, base, ledger)
  {
    forall i | 0 <= i < |ledger| && ledger[i].Written? ensures Registered(b, base + i) {
      RegisteredForGood(a, b, base + i);
    }
  }

  /** The next objects share one fate: `n` uploads of a failed prepare, or the held payload's. */
  lemma Book(base: nat, next: nat, ledger: seq<Fate>, fate: Fate, n: nat, filesWritten: nat, orphans: multiset<Reason>)
    requires base + |ledger| + n == next
    requires filesWritten == Tally(ledger, Written)
    requires forall why :: orphans[why] == Tally(ledger, Orphaned(why))
    ensures Balanced(base, next, ledger + Repeat(fate, n), None,
                     if fate.Written? then filesWritten + n else filesWritten,
                     if fate.Written? then orphans else orphans[fate.why := orphans[fate.why] + n])
  {
    TallyAppend(ledger, fate, n, Written);
    forall why ensures Tally(ledger + Repeat(fate, n), Orphaned(why))
                       == Tally(ledger, Orphaned(why)) + (if fate == Orphaned(why) then n else 0)
    {
      TallyAppend(ledger, fate, n, Orphaned(why));
    }
  }

  /** The objects of a committed payload are registered. */
  lemma CommittedAreRegistered(s: State, base: nat, ledger: seq<Fate>, p: Payload)
    requires Lake.Valid(s) && AnswerMeans(s, p, Committed)
    requires Consecutive(p, base + |ledger|) && AllRegistered(s, base, ledger)
    ensures AllRegistered(s, base, ledger + Repeat(Written, |p.files|))
  {
    var k :| 0 <= k < |s.pubs| && s.pubs[k].payload.key == p.key;
    assert WellPublished(s, s.pubs[k]);
    var l := ledger + Repeat(Written, |p.files|);
    forall i | 0 <= i < |l| && l[i].Written? ensures Registered(s, base + i) {
      if i < |ledger| {
        assert ledger[i].Written?;
      } else {
        assert s.pubs[k].payload.files[i - |ledger|].path == base + i;
      }
    }
  }

  // ------------------------------------------------------------------------------------------
  // The flush in flight, as the server sees it
  // ------------------------------------------------------------------------------------------

  /** The request names the same offset ranges, in whatever order. */
  ghost predicate Of(p: Payload, identity: Option<seq<Range>>) {
    identity.Some? && p.identity.Some? && multiset(p.identity.value) == multiset(identity.value)
  }

  /** At most one publication of this identity from the `base`-th on. */
  ghost predicate AtMostOneSince(s: State, base: nat, identity: Option<seq<Range>>) {
    forall i, j | base <= i < |s.pubs| && base <= j < |s.pubs| ::
      Of(s.pubs[i].payload, identity) && Of(s.pubs[j].payload, identity) ==> i == j
  }

  /** No request of this identity other than the held one can still publish, and nothing of it was
      published since `base` unless it is the held request. */
  ghost predicate Contained(s: State, base: nat, identity: Option<seq<Range>>, held: Option<Payload>) {
    && (forall p :: p in s.sends && Of(p, identity) ==> held == Some(p) || Spent(s, p))
    && (forall i :: base <= i < |s.pubs| && Of(s.pubs[i].payload, identity) ==> held == Some(s.pubs[i].payload))
  }

  lemma ContainedForGood(a: State, b: State, base: nat, identity: Option<seq<Range>>, held: Option<Payload>)
    requires Contained(a, base, identity, held) && Evolves(a, b)
    requires forall p :: p in b.sends && p !in a.sends && Of(p, identity) ==> held == Some(p)
    ensures Contained(b, base, identity, held)
  {
    forall p | p in b.sends && Of(p, identity) ensures held == Some(p) || Spent(b, p) {
      if p in a.sends && held != Some(p) { SpentForGood(a, b, p); }
    }
    forall i | base <= i < |b.pubs| && Of(b.pubs[i].payload, identity) ensures held == Some(b.pubs[i].payload) {
      if i < |a.pubs| {
        assert b.pubs[i] == a.pubs[i];
      }
    }
  }

  lemma ContainedIsAtMostOne(s: State, base: nat, identity: Option<seq<Range>>, held: Option<Payload>)
    requires Lake.Valid(s) && Contained(s, base, identity, held)
    ensures AtMostOneSince(s, base, identity)
  {
    forall i, j | base <= i < |s.pubs| && base <= j < |s.pubs|
      && Of(s.pubs[i].payload, identity) && Of(s.pubs[j].payload, identity)
      ensures i == j
    {
      assert s.pubs[i].payload.key == s.pubs[j].payload.key;
    }
  }

  /** The held request, judged and found without a receipt, was not published; dropped and spent, it
      leaves nothing of its identity behind. */
  lemma ContainedWithout(s: State, base: nat, identity: Option<seq<Range>>, held: Payload)
    requires Lake.Valid(s) && Contained(s, base, identity, Some(held))
    requires Spent(s, held)
    requires held.key in s.receipts ==> s.receipts[held.key] != held
    ensures Contained(s, base, identity, None)
  {
    forall i | base <= i < |s.pubs| ensures !Of(s.pubs[i].payload, identity) {
      assert WellPublished(s, s.pubs[i]);
    }
  }

  /** A request of this flush: its rows, under the configured spec where the layout check binds it. */
  ghost predicate Made(transform: Transform, cfg: Config, p: Payload, identity: Option<seq<Range>>, rows: seq<Row>) {
    && p.identity == identity && Carries(p, rows) && Tupled(transform, p, p.spec)
    && (forall row :: row in rows ==> KeepsValues(p, row))
    && (Binding(cfg) ==> p.spec == cfg.partitionBy)
  }

  /** Nothing happened to any flush, and no time passed. */
  ghost predicate SameFlushes(a: State, b: State) {
    && a.receipts == b.receipts && a.doomed == b.doomed && a.sends == b.sends && a.floor == b.floor && a.now == b.now
  }

  /** The live table has got what it lacked of the configured layout, and nothing else happened. */
  ghost predicate DeclaredNow(cfg: Config, a: State, b: State) {
    && a.live.Some? && b.live == Some(a.live.value.(layout := Declared(cfg, a.live.value))) && SameFlushes(a, b)
  }

  /** What of a draft its request says. */
  predicate Drawn(d: Draft, from: nat, p: Payload) {
    && p.key == d.key && p.identity == d.identity && p.uuid == d.expected && p.spec == d.spec
    && p.aligned == d.aligned && p.failed == d.failed && p.built.began == d.began && p.shape.columns == d.columns
    && p.files == Register(d.groups, from)
  }

  /** The live table has got these columns, and nothing else happened. */
  ghost predicate Grown(a: State, b: State, columns: set<string>) {
    a.live.Some? && b.live == Some(a.live.value.(columns := a.live.value.columns + columns)) && SameFlushes(a, b)
  }

  lemma GrownNone(s: State)
    ensures s.live.Some? ==> Grown(s, s, {})
  {
    if s.live.Some? { assert s.live.value.columns + {} == s.live.value.columns; }
  }

  lemma GrownBoth(a: State, b: State, c: State, some: set<string>, more: set<string>, both: set<string>)
    ensures Grown(a, b, some) && Grown(b, c, more) && some + more == both ==> Grown(a, c, both)
  {
    if Grown(a, b, some) {
      assert a.live.value.columns + some + more == a.live.value.columns + (some + more);
    }
  }

  /** There is a table with these columns and the configured layout, and nothing else happened. */
  ghost predicate NewTable(cfg: Config, a: State, b: State, columns: set<string>) {
    && SameFlushes(a, b) && b.live.Some? && b.live.value.columns == columns + {INSERTED_AT}
    && b.live.value.layout == Declared(cfg, b.live.value) && Compatible(cfg, b.live.value)
  }

  lemma NewIsCompatible(cfg: Config, info: Info)
    requires info.layout == Layout([], []) && PartitionResolves(cfg, info.columns)
    ensures Compatible(cfg, info)
  {
    ResolvesMeans(cfg, info.columns);
  }

  lemma CreatedIsNew(cfg: Config, a: State, m: State, b: State, columns: set<string>)
    requires a.live.None? && m == CreateTable(a, columns + {INSERTED_AT}, Layout([], []))
    requires DeclaredNow(cfg, m, b) && PartitionResolves(cfg, columns + {INSERTED_AT})
    ensures NewTable(cfg, a, b, columns)
  {
    ResolvesMeans(cfg, columns + {INSERTED_AT});
  }

  /** The configured half or halves, as a declaration asks for them. */
  predicate Asks(cfg: Config, columns: set<string>, partition: bool, ops: Ops) {
    var order := SortOr(WantSort(cfg, columns));
    && ops.add == {}
    && ops.partition == (if partition && cfg.partitionBy != [] then Some(cfg.partitionBy) else None)
    && ops.sort == (if order == [] then None else Some(order))
  }

  lemma DeclaringDeclares(cfg: Config, s: State, partition: bool, ops: Ops)
    ensures s.live.Some? && Compatible(cfg, s.live.value) && Asks(cfg, s.live.value.columns, partition, ops)
            && (partition || s.live.value.layout.partition == cfg.partitionBy)
            ==> DeclaredNow(cfg, s, Altered(s, ops)) && Verify(cfg, Altered(s, ops).live.value).Ok?
  {
    if s.live.Some? && Asks(cfg, s.live.value.columns, partition, ops) {
      var columns := s.live.value.columns;
      assert columns + ops.add == columns;
      ResolvesMeans(cfg, columns);
      assert WantSort(cfg, columns).Some? <==> forall c | c in cfg.sortBy :: c in columns;
    }
  }

  lemma NothingToDeclare(cfg: Config, s: State, partition: bool)
    ensures s.live.Some? && Compatible(cfg, s.live.value) && SortOr(WantSort(cfg, s.live.value.columns)) == []
            && (if partition then cfg.partitionBy == [] else s.live.value.layout.partition == cfg.partitionBy)
            ==> DeclaredNow(cfg, s, s)
  {
    if s.live.Some? {
      assert WantSort(cfg, s.live.value.columns).Some? <==> forall c | c in cfg.sortBy :: c in s.live.value.columns;
    }
  }

  /** No request for these ranges was ever sent. */
  ghost predicate NeverSent(s: State, identity: Option<seq<Range>>) {
    s.doomed <= s.sends && forall p :: p in s.sends ==> !Of(p, identity)
  }

  lemma NeverSentIsUnused(s: State, uuid: nat, ranges: seq<Range>)
    requires Lake.Valid(s) && NeverSent(s, Some(ranges))
    ensures Unused(s, KeyOf(uuid, ranges))
  {
    forall p | p in s.sends ensures p.key != KeyOf(uuid, ranges) {
      assert WellSent(s, p) && !Of(p, Some(ranges));
    }
    if KeyOf(uuid, ranges) in s.receipts {
      var i :| 0 <= i < |s.pubs| && s.pubs[i].payload.key == KeyOf(uuid, ranges);
      assert WellPublished(s, s.pubs[i]);
    }
  }

  /** The table accepts the sink's layout, or can be created with it. */
  ghost predicate Welcoming(cfg: Config, s: State, columns: set<string>) {
    match s.live
    case None => PartitionResolves(cfg, columns)
    case Some(info) => Compatible(cfg, info)
  }

  /** Every request ever sent has its files under tuples of the spec it records. */
  ghost predicate AllTupled(transform: Transform, s: State) {
    forall p :: p in s.sends ==> Tupled(transform, p, p.spec)
  }

  lemma ServedTupled(transform: Transform, cfg: Config, a: State, b: State,
                     identity: Option<seq<Range>>, rows: seq<Row>)
    requires AllTupled(transform, a) && Served(transform, cfg, a, b, identity, rows)
    ensures AllTupled(transform, b)
  {
  }

  /** Each file of a prompt publication is registered under the transform tuple, in the spec that was live at
      its commit, of every row it holds. */
  lemma FiledUnderLiveSpec(transform: Transform, s: State, k: nat)
    requires Lake.Valid(s) && AllTupled(transform, s) && k < |s.pubs| && s.pubs[k].payload.Prompt()
    ensures Tupled(transform, s.pubs[k].payload, s.pubs[k].table.layout.partition)
  {
    assert WellPublished(s, s.pubs[k]) && WellSent(s, s.pubs[k].payload);
  }

  /** What a published row says: every value of a writable column is there, unless the column's own add failed while
      the request was built, or the table had no such column at the commit, although it once had it or did not refuse
      to add it while the request was built. */
  lemma PublishedRowMeans(s: State, k: nat, row: Row) returns (written: Row)
    requires Lake.Valid(s) && k < |s.pubs| && Bears(s.pubs[k].payload, row)
    ensures written in FileRows(s.pubs[k].payload.files)
    ensures written.topic == row.topic && written.partition == row.partition && written.offset == row.offset
    ensures INSERTED_AT in written.values || Excused(s, s.pubs[k], INSERTED_AT)
    ensures forall c :: c in row.values && c != INSERTED_AT && Names.Writable(c) ==>
              || (c in written.values && written.values[c] == row.values[c])
              || Excused(s, s.pubs[k], c)
  {
    var p := s.pubs[k].payload;
    assert WellPublished(s, s.pubs[k]) && WellSent(s, p);
    var at: string :| Shown(row, at, p.Carried()) in FileRows(p.files);
    written := Shown(row, at, p.Carried());
  }

  /** Why a publication may lack a column's values. */
  predicate Excused(s: State, pub: Publication, column: string) {
    var built := pub.payload.built;
    || FailedIn(s, column, built.began, built.ready)
    || (column !in pub.table.columns && (column in s.had || AddedIn(s, column, built.began, built.ready)))
  }

  /** A later server state reached by sending only requests of this flush. */
  ghost predicate Served(transform: Transform, cfg: Config, a: State, b: State,
                         identity: Option<seq<Range>>, rows: seq<Row>)
  {
    && Lake.Valid(b) && Evolves(a, b)
    && (forall p :: p in b.sends && p !in a.sends ==> Made(transform, cfg, p, identity, rows))
  }

  lemma ServedTransitive(transform: Transform, cfg: Config, a: State, b: State, c: State,
                         identity: Option<seq<Range>>, rows: seq<Row>)
    requires Served(transform, cfg, a, b, identity, rows) && Served(transform, cfg, b, c, identity, rows)
    ensures Served(transform, cfg, a, c, identity, rows)
  {
    EvolvesTransitive(a, b, c);
  }

  /** Nothing sent for this identity can publish any more. */
  ghost predicate Closed(s: State, base: nat, identity: Option<seq<Range>>) {
    && AtMostOneSince(s, base, identity)
    && (forall p :: p in s.sends && Of(p, identity) ==> Spent(s, p))
  }

  lemma ClosedForGood(a: State, b: State, base: nat, identity: Option<seq<Range>>)
    requires Closed(a, base, identity) && Evolves(a, b)
    requires forall p :: p in b.sends && p !in a.sends ==> !Of(p, identity)
    ensures Closed(b, base, identity)
  {
    forall p | p in b.sends && Of(p, identity) ensures Spent(b, p) {
      SpentForGood(a, b, p);
    }
    forall i | |a.pubs| <= i < |b.pubs| ensures !Of(b.pubs[i].payload, identity) {
    }
    assert forall i :: 0 <= i < |a.pubs| ==> b.pubs[i] == a.pubs[i];
  }

  /** One send of the held request leaves at most one publication; if its key is then in the receipts,
      or it was refused for good, nothing of the identity is left in flight. */
  lemma SendContained(a: State, b: State, base: nat, identity: Option<seq<Range>>, held: Payload)
    requires Lake.Valid(b) && Evolves(a, b) && b.sends == a.sends + {held}
    requires Contained(a, base, identity, Some(held))
    ensures Contained(b, base, identity, Some(held)) && AtMostOneSince(b, base, identity)
    ensures held.key in b.receipts ==> Closed(b, base, identity)
    ensures held.key !in b.receipts && Spent(b, held) ==> Contained(b, base, identity, None)
  {
    ContainedForGood(a, b, base, identity, Some(held));
    ContainedIsAtMostOne(b, base, identity, Some(held));
    if held.key !in b.receipts && Spent(b, held) {
      ContainedWithout(b, base, identity, held);
    }
  }

  /** From `a`, holding `heldA`, to `b`, holding `heldB`: with stable refusals a contained flush stays
      contained, and once it is `done` nothing of it is left in flight. */
  ghost predicate Guarded(a: State, heldA: Option<Payload>, b: State, heldB: Option<Payload>,
                          since: nat, identity: Option<seq<Range>>, done: bool)
  {
    b.stable && Contained(a, since, identity, heldA) ==>
      && AtMostOneSince(b, since, identity)
      && (if done then Closed(b, since, identity) else Contained(b, since, identity, heldB))
  }

  /** Every request sent since names an incarnation that was not known to be gone. */
  ghost predicate Reensured(a: State, b: State) {
    forall p :: p in b.sends && p !in a.sends ==> MayLive(a, p.uuid)
  }

  /** The table was gone and nobody created one. */
  ghost predicate StillGone(a: State, b: State) {
    a.live.None? && b.nextUuid == a.nextUuid
  }

  /** What one commit of the held request does: see `Sink.CommitPrepared`. */
  ghost predicate CommitMeans(a: State, b: State, p: Payload, held: Option<Payload>, ok: bool) {
    && Lake.Valid(b) && Evolves(a, b) && b.sends == a.sends + {p}
    && (ok ==> held.None? && p.key in b.receipts)
    && (!ok ==> held == Some(p) || (held.None? && p.key !in b.receipts && b.live.Some? && (b.stable ==> Spent(b, p))))
  }

  /** While the table is gone and nobody creates one, a failed commit keeps its request. */
  lemma CommitKeepsRequest(a: State, b: State, p: Payload, held: Option<Payload>)
    requires CommitMeans(a, b, p, held, false) && a.live.None? && b.nextUuid == a.nextUuid
    ensures held == Some(p)
  {
    GoneUntilCreated(a, b);
  }

  lemma CommitGuards(a: State, b: State, p: Payload, held: Option<Payload>, ok: bool,
                     since: nat, identity: Option<seq<Range>>)
    requires CommitMeans(a, b, p, held, ok)
    ensures Guarded(a, Some(p), b, held, since, identity, ok)
  {
    if b.stable && Contained(a, since, identity, Some(p)) {
      SendContained(a, b, since, identity, p);
    }
  }

  /** Time passes and nothing of this flush is sent; then a commit of the request built meanwhile. */
  lemma BuildGuards(a: State, m: State, b: State, p: Payload, held: Option<Payload>, ok: bool,
                    since: nat, identity: Option<seq<Range>>)
    requires Evolves(a, m) && m.sends == a.sends && CommitMeans(m, b, p, held, ok)
    ensures Guarded(a, None, b, held, since, identity, ok)
  {
    CommitGuards(m, b, p, held, ok, since, identity);
    if Contained(a, since, identity, None) {
      ContainedForGood(a, m, since, identity, None);
      assert Contained(m, since, identity, Some(p));
    }
  }

  lemma IdleGuards(a: State, b: State, held: Option<Payload>, since: nat, identity: Option<seq<Range>>)
    requires Lake.Valid(b) && Evolves(a, b) && b.sends == a.sends
    ensures Guarded(a, held, b, held, since, identity, false)
  {
    if Contained(a, since, identity, held) {
      ContainedForGood(a, b, since, identity, held);
      ContainedIsAtMostOne(b, since, identity, held);
    }
  }

  lemma GuardedTransitive(a: State, heldA: Option<Payload>, b: State, heldB: Option<Payload>,
                          c: State, heldC: Option<Payload>, since: nat, identity: Option<seq<Range>>, done: bool)
    requires Guarded(a, heldA, b, heldB, since, identity, false) && Evolves(b, c)
    requires Guarded(b, heldB, c, heldC, since, identity, done)
    ensures Guarded(a, heldA, c, heldC, since, identity, done)
  {
  }

  /** Built between `a` and `m`, committed between `m` and `b`. */
  lemma CommitServes(transform: Transform, cfg: Config, a: State, m: State, b: State, p: Payload,
                     held: Option<Payload>, ok: bool, identity: Option<seq<Range>>, rows: seq<Row>)
    requires Evolves(a, m) && m.sends == a.sends && Lake.Valid(m) && CommitMeans(m, b, p, held, ok)
    requires Made(transform, cfg, p, identity, rows)
    ensures Served(transform, cfg, a, b, identity, rows)
  {
    EvolvesTransitive(a, m, b);
  }

  /** Everything a flush built and committed once promises. */
  lemma FlushServes(transform: Transform, cfg: Config, a: State, m: State, b: State, p: Payload,
                    held: Option<Payload>, ok: bool, since: nat, identity: Option<seq<Range>>, rows: seq<Row>)
    requires Evolves(a, m) && m.sends == a.sends && Lake.Valid(m) && CommitMeans(m, b, p, held, ok)
    requires Made(transform, cfg, p, identity, rows) && a.now <= p.built.began && p.built.ready <= m.now
    ensures Served(transform, cfg, a, b, identity, rows) && Guarded(a, None, b, held, since, identity, ok)
    ensures BuiltSince(a, b) && (MayLive(a, p.uuid) ==> Reensured(a, b))
  {
    BuildGuards(a, m, b, p, held, ok, since, identity);
    CommitServes(transform, cfg, a, m, b, p, held, ok, identity, rows);
  }

  /** The flush is in the lake: there is a receipt under a key of its own, written for a request of this
      call if it reports its rows as published, and for another one of the same name if it reports none. */
  ghost predicate Landed(transform: Transform, cfg: Config, s: State, identity: Option<seq<Range>>,
                         rows: seq<Row>, published: nat)
  {
    exists key :: LandedAs(transform, cfg, s, key, identity, rows, published)
  }

  ghost predicate LandedAs(transform: Transform, cfg: Config, s: State, key: Key, identity: Option<seq<Range>>,
                           rows: seq<Row>, published: nat)
  {
    && key in s.receipts
    && (identity.Some? ==> exists u: nat :: key == KeyOf(u, identity.value))
    && (published == 0 || (published == |rows| && Made(transform, cfg, s.receipts[key], identity, rows)))
  }

  /** A receipt is there exactly if its key was published, and a key is published once. */
  lemma ReceiptMeansOnePublication(s: State, key: Key)
    requires Lake.Valid(s)
    ensures key in s.receipts <==> exists i :: 0 <= i < |s.pubs| && s.pubs[i].payload.key == key
    ensures forall i, j | 0 <= i < |s.pubs| && 0 <= j < |s.pubs| ::
              s.pubs[i].payload.key == key && s.pubs[j].payload.key == key ==> i == j
  {
    if i :| 0 <= i < |s.pubs| && s.pubs[i].payload.key == key {
      assert WellPublished(s, s.pubs[i]);
    }
  }

  // ------------------------------------------------------------------------------------------
  // The shape and the payload
  // ------------------------------------------------------------------------------------------

  /** The sink's copy of the shape is not staler than the handle's: same partition spec, read no later. */
  ghost predicate InStep(table: Option<Handle>, liveInfo: Option<Info>, readAt: nat) {
    table.Some? && liveInfo.Some? ==>
      && table.value.cache.Some?
      && table.value.cache.value.info.layout.partition == liveInfo.value.layout.partition
      && readAt <= table.value.cache.value.readAt
  }

  /** In step, or too old to be used again without a new read. */
  ghost predicate Synced(retention: Option<nat>, now: nat, table: Option<Handle>, liveInfo: Option<Info>, readAt: nat) {
    InStep(table, liveInfo, readAt) || !Within(retention, 4, now - readAt)
  }

  ghost predicate HandleOk(s: State, h: Handle) {
    h.cache.Some? ==> Anchored(s, h.cache.value)
  }

  lemma HandleForGood(a: State, b: State, h: Handle)
    requires HandleOk(a, h) && Evolves(a, b)
    ensures HandleOk(b, h)
  {
    if h.cache.Some? { AnchoredForGood(a, b, h.cache.value); }
  }

  lemma FreshIsOk(s: State, info: Info)
    requires Lake.Valid(s) && s.live == Some(info)
    ensures HandleOk(s, Fresh(s, info))
  {
  }

  /** The cached shape: the handle's is anchored at the server, the sink's copy in step with it or due for a new
      read, and a recorded verdict is for the configured partition spec where the check binds it. */
  ghost predicate ShapeAt(cfg: Config, retention: Option<nat>, s: State, t: Option<Handle>, liveInfo: Option<Info>,
                          readAt: nat, reconciled: Option<Layout>)
  {
    && Lake.Valid(s)
    && (retention.Some? ==> retention.value > 0)
    && (t.Some? ==> HandleOk(s, t.value))
    && (liveInfo.Some? ==> readAt <= s.now)
    && Synced(retention, s.now, t, liveInfo, readAt)
    && (reconciled.Some? && Binding(cfg) ==> reconciled.value.partition == cfg.partitionBy)
  }

  /** A send leaves the handle alone, or its cache is gone and so is the sink's copy. */
  lemma ShapeSent(cfg: Config, retention: Option<nat>, a: State, b: State, t: Option<Handle>, h: Option<Handle>,
                  liveInfo: Option<Info>, readAt: nat, reconciled: Option<Layout>,
                  liveInfo': Option<Info>, reconciled': Option<Layout>)
    requires ShapeAt(cfg, retention, a, t, liveInfo, readAt, reconciled) && Evolves(a, b) && Lake.Valid(b)
    requires h.Some? ==> t.Some? && (h == t || h.value.cache.None?)
    requires (h == t && liveInfo' == liveInfo && reconciled' == reconciled) || (liveInfo'.None? && reconciled'.None?)
    ensures ShapeAt(cfg, retention, b, h, liveInfo', if liveInfo'.None? then 0 else readAt, reconciled')
  {
    if h.Some? && h == t {
      HandleForGood(a, b, h.value);
    }
  }

  /** A held payload is a sendable record of an upload for the recorded identity. */
  ghost predicate HeldOk(s: State, prepared: Option<Payload>, offsets: Option<seq<Range>>, sends: nat) {
    && (prepared.None? ==> offsets.None? && sends == 0)
    && (prepared.Some? ==> WellSent(s, prepared.value) && prepared.value.identity == offsets)
  }

  lemma HeldForGood(a: State, b: State, prepared: Option<Payload>, offsets: Option<seq<Range>>, sends: nat)
    requires HeldOk(a, prepared, offsets, sends) && Evolves(a, b)
    ensures HeldOk(b, prepared, offsets, sends)
  {
    if prepared.Some? { WellSentAged(a, b, prepared.value); }
  }

  /** A request prepared from a shape in step with the library's, and young when it was checked, is sendable. */
  lemma DraftSent(a: State, b: State, h: Handle, h': Handle, d: Draft, liveInfo: Option<Info>, readAt: nat, p: Payload,
                  retention: Option<nat>, checkedAt: nat)
    requires Evolves(a, b) && InStep(Some(h), liveInfo, readAt) && liveInfo.Some?
    requires h'.cache.Some? && Anchored(b, h'.cache.value)
    requires Request(h', d, a.nextObject, retention, p.built.ready) == Ok(p) && a.now <= p.built.ready
    requires h' == h || (h.cache.Some? && !Within(retention, 2, p.built.ready - h.cache.value.readAt))
    requires d.began <= checkedAt && Within(retention, 4, checkedAt - readAt)
    requires d.spec == liveInfo.value.layout.partition && Aligned(a, d.aligned, d.failed, d.began, a.now)
    requires match d.identity case Some(ranges) => d.key == KeyOf(d.expected, ranges) case None => d.key.Anonymous?
    ensures WellSent(b, p)
  {
    AlignedForGood(a, b, d.aligned, d.failed, d.began, a.now, p.built.ready);
  }

  /** Every request sent since and not held before was built since. */
  ghost predicate BuiltSince(a: State, b: State) {
    forall p :: p in b.sends && p !in a.sends ==> a.now <= p.built.began && p.built.ready <= b.now
  }

  /** After a prepare the handle is either the one the copy was read with, or the copy has aged out. */
  lemma SyncedAfterPrepare(retention: Option<nat>, now: nat, h: Handle, h': Handle, liveInfo: Option<Info>, readAt: nat)
    requires InStep(Some(h), liveInfo, readAt) && liveInfo.Some?
    requires h' != h ==> !Within(retention, 2, now - h.cache.value.readAt)
    ensures Synced(retention, now, Some(h'), liveInfo, readAt)
  {
  }
}
