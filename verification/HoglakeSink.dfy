/**
 The hoglake sink: one prepared upload and one idempotent commit per flush.

 Every method may be interleaved with any number of steps of other writers, operators, the expiry
 job and the network (`Catalog.Service`). The class keeps three invariants over its own fields and the
 server: the shape it computes under is anchored where its commits are judged, the held payload is
 a sendable record of an upload, and every uploaded object is booked exactly once.
 */
module HoglakeSink {
  import opened Wrappers
  import opened FlushKey
  import opened Lake
  import opened Errors
  import opened Catalog
  import opened PartitionFanout
  import opened Reconciliation
  import opened Flush
  import Names

  /** A batch aligned to the table since `began`: the columns kept and the ones left out, the rows stamped and
      restricted to the kept ones, and its name. */
  datatype AlignedBatch = AlignedBatch(kept: set<string>, failed: set<string>, rows: seq<Row>, key: Key,
                                       identity: Option<seq<Range>>, began: nat)

  class Sink {
    const lake: Service
    const cfg: Config
    const transform: Transform

    var table: Option<Handle>
    var tableUuid: nat
    var liveColumns: set<string>
    var liveInfo: Option<Info>
    var liveInfoReadAt: nat
    var reconciledSpecs: Option<Layout>

    var prepared: Option<Payload>
    var preparedRows: nat
    var preparedOffsets: Option<seq<Range>>
    var preparedSends: nat

    var filesWritten: nat
    var orphans: multiset<Reason>

    ghost const base: nat
    ghost var ledger: seq<Fate>
    /** How many prepares were begun. */
    ghost var prepares: nat

    // ----------------------------------------------------------------------------------------
    // Invariants
    // ----------------------------------------------------------------------------------------

    /** The cached shape, were `t` the resolved handle. */
    ghost predicate ShapeWith(t: Option<Handle>)
      reads lake, `liveInfo, `liveInfoReadAt, `liveColumns, `reconciledSpecs
    {
      && ShapeAt(cfg, lake.retention, lake.st, t, liveInfo, liveInfoReadAt, reconciledSpecs)
      && liveColumns <= lake.st.had
    }

    ghost predicate ShapeOk()
      reads lake, `table, `liveInfo, `liveInfoReadAt, `liveColumns, `reconciledSpecs
    {
      ShapeWith(table)
    }

    /** A shape that outlived its handle has no spec nobody configured. */
    ghost predicate SettledInfo()
      reads `liveInfo
    {
      liveInfo.Some? && cfg.partitionBy == [] ==> liveInfo.value.layout.partition == []
    }

    /** What a caller owes between writes: nothing after a retryable failure, `ResetCaches` after any. */
    ghost predicate Settled()
      reads `table, `liveInfo
    {
      table.None? ==> SettledInfo()
    }

    /** Every object uploaded before `next` has its fate in the ledger or is held in `held`. */
    ghost predicate BooksAt(next: nat, held: Option<Payload>)
      reads `ledger, `filesWritten, `orphans
    {
      Balanced(base, next, ledger, held, filesWritten, orphans)
    }

    /** Fates are only ever appended, and none of them is `Superseded`. */
    ghost predicate BookedOn(was: seq<Fate>, counts: multiset<Reason>)
      reads `ledger, `orphans
    {
      was <= ledger && orphans[Superseded] == counts[Superseded]
    }

    ghost predicate FlushOk()
      reads lake, `prepared, `preparedOffsets, `preparedSends, `ledger, `filesWritten, `orphans
    {
      && HeldOk(lake.st, prepared, preparedOffsets, preparedSends)
      && BooksAt(lake.st.nextObject, prepared)
      && AllRegistered(lake.st, base, ledger)
    }

    ghost predicate Valid()
      reads this, lake
    {
      ShapeOk() && FlushOk()
    }

    constructor (lake: Service, cfg: Config, transform: Transform)
      requires lake.Valid()
      requires lake.retention.Some? ==> lake.retention.value > 0
      ensures Valid() && Settled()
      ensures this.lake == lake && this.cfg == cfg && this.transform == transform
      ensures prepared.None? && filesWritten == 0 && orphans == multiset{}
    {
      this.lake, this.cfg, this.transform := lake, cfg, transform;
      table, tableUuid, liveColumns, liveInfo, liveInfoReadAt, reconciledSpecs := None, 0, {}, None, 0, None;
      prepared, preparedRows, preparedOffsets, preparedSends := None, 0, None, 0;
      filesWritten, orphans := 0, multiset{};
      base, ledger, prepares := lake.st.nextObject, [], 0;
    }

    // ----------------------------------------------------------------------------------------
    // The cached shape
    // ----------------------------------------------------------------------------------------

    method AdoptInfo(info: Info)
      modifies `liveInfo, `liveInfoReadAt, `liveColumns
      ensures liveInfo == Some(info) && liveInfoReadAt == lake.st.now && liveColumns == info.columns
    {
      liveInfo := Some(info);
      liveInfoReadAt := lake.st.now;
      liveColumns := info.columns;
    }

    method DropCachedShape()
      requires ShapeOk()
      modifies `liveInfo, `liveInfoReadAt, `reconciledSpecs
      ensures ShapeOk() && liveInfo.None? && reconciledSpecs.None?
    {
      liveInfo := None;
      liveInfoReadAt := 0;
      reconciledSpecs := None;
    }

    method ResetCaches()
      requires ShapeOk()
      modifies `table, `tableUuid, `liveColumns, `liveInfo, `liveInfoReadAt, `reconciledSpecs
      ensures ShapeOk() && Settled() && table.None? && liveInfo.None? && liveColumns == {}
    {
      table := None;
      tableUuid := 0;
      liveColumns := {};
      liveInfo := None;
      liveInfoReadAt := 0;
      reconciledSpecs := None;
    }

    // What a calm service leads to is stated step by step, up to `Write`.

    /** The handle is as fresh as a read of the live table, and the sink's copies agree with it; the table is
        partitioned as configured. */
    ghost predicate Tuned(h: Handle)
      reads lake, `liveInfo, `liveInfoReadAt, `liveColumns
    {
      && lake.st.live.Some? && h == Fresh(lake.st, lake.st.live.value) && liveColumns == lake.st.live.value.columns
      && (liveInfo.Some? ==> liveInfo == lake.st.live && liveInfoReadAt == lake.st.now)
      && lake.st.live.value.layout.partition == cfg.partitionBy && PartitionResolves(cfg, liveColumns)
    }

    ghost predicate Verdict()
      reads lake, `liveInfo, `reconciledSpecs
    {
      lake.st.live.Some? && liveInfo.Some? && reconciledSpecs == Some(lake.st.live.value.layout)
    }

    /** The layout has a verdict, or will get a positive one, and then the columns are there already. */
    ghost predicate Approved(columns: set<string>)
      reads lake, `liveInfo, `reconciledSpecs
    {
      || Verdict()
      || (lake.st.live.Some? && Compatible(cfg, lake.st.live.value) && columns <= lake.st.live.value.columns)
    }

    /** The service is calm, and the next flush can be prepared against the table as it is. */
    ghost predicate Promising()
      reads lake, `table, `tableUuid, `liveInfo, `liveInfoReadAt, `liveColumns, `reconciledSpecs
    {
      && lake.calm && table.Some? && Tuned(table.value) && tableUuid == lake.st.live.value.uuid
      && (Verdict() || Compatible(cfg, lake.st.live.value))
    }

    /** One alter; a concurrent-DDL 409 is absorbed by reading what the other party declared. */
    method AlterOrRead(h: Handle, ops: Ops) returns (h': Handle, r: Outcome<Info, Exn>)
      requires lake.Valid() && HandleOk(lake.st, h)
      modifies lake
      ensures Aged(old(lake.st), lake.st) && HandleOk(lake.st, h')
      ensures r.Ok? ==> lake.st.live == Some(r.value) && h' == Fresh(lake.st, r.value)
      ensures r.Raise? ==> h' == h && !r.error.CommitConflict? && !r.error.DdlSinceReadSnapshot?
      ensures ops.partition.None? ==> NoPartitionAsked(old(lake.st), lake.st)
      ensures lake.calm && old(lake.st).live.Some? ==> r.Ok? && lake.st == Altered(old(lake.st), ops)
    {
      h', r := lake.Alter(h, ops);
      if r.Raise? && (r.error.CommitConflict? || r.error.DdlSinceReadSnapshot?) {
        label raced:
        h', r := lake.ReadInfo(h);
        EvolvesTransitive(old(lake.st), old@raced(lake.st), lake.st);
      }
      HandleForGood(old(lake.st), lake.st, h);
    }

    /** Declare the halves asked for in one alter, adopt what it brought back and check it. `declared` is
        false when nothing was configured to declare. */
    method DeclareSpecs(h: Handle, partition: bool, sort: bool) returns (h': Handle, r: Outcome<bool, Exn>)
      requires lake.Valid() && HandleOk(lake.st, h)
      requires liveInfo.Some? ==> liveInfoReadAt <= lake.st.now
      modifies lake, `liveInfo, `liveInfoReadAt, `liveColumns
      ensures Aged(old(lake.st), lake.st) && HandleOk(lake.st, h')
      ensures h' == h || MayLive(old(lake.st), h'.uuid)
      ensures liveInfo.Some? ==> liveInfoReadAt <= lake.st.now
      ensures r.Ok? && r.value ==> Adopted(h') && Verify(cfg, liveInfo.value).Ok?
      ensures r.Ok? && !r.value ==>
                (partition ==> cfg.partitionBy == []) && Kept(old(liveInfo), old(liveInfoReadAt), h, h')
      ensures r.Raise? ==> Kept(old(liveInfo), old(liveInfoReadAt), h, h') || (Adopted(h') && !IsRetryable(r.error))
      ensures r.Ok? && !r.value ==> liveColumns == old(liveColumns) && lake.st == old(lake.st)
      ensures liveColumns == old(liveColumns) || Adopted(h')
      ensures !partition ==> NoPartitionAsked(old(lake.st), lake.st)
      ensures r.Ok? && !r.value && sort ==> SortOr(WantSort(cfg, liveColumns)) == []
      ensures lake.calm && sort && old(lake.st).live.Some? && Compatible(cfg, old(lake.st).live.value)
              && old(liveColumns) == old(lake.st).live.value.columns
              && (partition || old(lake.st).live.value.layout.partition == cfg.partitionBy)
              ==> r.Ok? && DeclaredNow(cfg, old(lake.st), lake.st)
    {
      h' := h;
      if partition && !PartitionResolves(cfg, liveColumns) {
        return h', Raise(SinkError(false));
      }
      var fields := if partition then cfg.partitionBy else [];
      var order := if sort then SortOr(WantSort(cfg, liveColumns)) else [];
      if fields == [] && order == [] {
        NothingToDeclare(cfg, lake.st, partition);
        return h', Ok(false);
      }
      var ops := Ops(if fields == [] then None else Some(fields), if order == [] then None else Some(order), {});
      DeclaringDeclares(cfg, lake.st, partition, ops);
      var declared;
      h', declared := Declare(h, ops);
      r := if declared.Ok? then Ok(true) else Raise(declared.error);
    }

    /** One alter, adopted and checked. */
    method Declare(h: Handle, ops: Ops) returns (h': Handle, r: Outcome<(), Exn>)
      requires lake.Valid() && HandleOk(lake.st, h)
      requires liveInfo.Some? ==> liveInfoReadAt <= lake.st.now
      modifies lake, `liveInfo, `liveInfoReadAt, `liveColumns
      ensures Aged(old(lake.st), lake.st) && HandleOk(lake.st, h')
      ensures h' == h || MayLive(old(lake.st), h'.uuid)
      ensures liveInfo.Some? ==> liveInfoReadAt <= lake.st.now
      ensures ops.partition.None? ==> NoPartitionAsked(old(lake.st), lake.st)
      ensures r.Ok? ==> Adopted(h') && Verify(cfg, liveInfo.value).Ok?
      ensures r.Raise? ==> (Kept(old(liveInfo), old(liveInfoReadAt), h, h') && liveColumns == old(liveColumns))
                           || (Adopted(h') && !IsRetryable(r.error))
      ensures lake.calm && old(lake.st).live.Some? ==>
                lake.st == Altered(old(lake.st), ops) && (Verify(cfg, lake.st.live.value).Ok? ==> r.Ok?)
    {
      var info: Outcome<Info, Exn>;
      h', info := AlterOrRead(h, ops);
      if info.Raise? {
        return h', Raise(info.error);
      }
      AdoptInfo(info.value);
      var verdict := Verify(cfg, info.value);
      r := if verdict.Ok? then Ok(()) else Raise(verdict.error);
    }

    /** The handle and the sink's copy come from one read of the live shape. */
    ghost predicate Adopted(h: Handle)
      reads lake, `liveInfo, `liveInfoReadAt, `liveColumns
    {
      && liveInfo.Some? && liveColumns == liveInfo.value.columns
      && lake.st.live == liveInfo && h == Fresh(lake.st, liveInfo.value) && liveInfoReadAt == lake.st.now
    }

    ghost predicate Kept(info: Option<Info>, readAt: nat, h: Handle, h': Handle)
      reads `liveInfo, `liveInfoReadAt
    {
      liveInfo == info && liveInfoReadAt == readAt && h' == h
    }

    /** The layout check on a shape the sink has just adopted. A table without a layout that should have
        one gets it declared; the verdict is recorded against the shape it was reached on. */
    method ReconcileAdopted(h: Handle) returns (h': Handle, r: Outcome<(), Exn>)
      requires liveInfo.Some? && ShapeWith(Some(h)) && InStep(Some(h), liveInfo, liveInfoReadAt)
      modifies lake, `liveInfo, `liveInfoReadAt, `liveColumns, `reconciledSpecs
      ensures Aged(old(lake.st), lake.st) && ShapeWith(Some(h'))
      ensures h' == h || MayLive(old(lake.st), h'.uuid)
      ensures liveInfo.Some? && liveInfoReadAt >= old(liveInfoReadAt)
      ensures r.Ok? ==> Reconciled() && InStep(Some(h'), liveInfo, liveInfoReadAt)
      ensures r.Raise? && IsRetryable(r.error) ==> SettledInfo()
      ensures old(liveInfo.value.layout.partition) != [] ==> NoPartitionAsked(old(lake.st), lake.st)
      ensures lake.calm && old(Adopted(h)) && Compatible(cfg, old(lake.st).live.value)
              ==> r.Ok? && DeclaredNow(cfg, old(lake.st), lake.st) && Tuned(h') && liveInfo.Some?
    {
      h' := h;
      var read := liveInfo.value.(columns := liveColumns);
      var need := Assess(cfg, read);
      if need.Raise? {
        return h', Raise(need.error);
      }
      if !need.value.Nothing? {
        var declared: Outcome<bool, Exn>;
        h', declared := DeclareSpecs(h, need.value.Both?, true);
        if declared.Raise? {
          return h', Raise(declared.error);
        }
        assert declared.value;
      }
      assert Reconcile(cfg, read, liveInfo.value) == Ok(liveInfo.value.layout);
      AcceptedMeansDeclared(cfg);
      reconciledSpecs := Some(liveInfo.value.layout);
      r := Ok(());
    }

    /** The recorded verdict is about the current shape, and it was positive. */
    ghost predicate Reconciled()
      reads `liveInfo, `reconciledSpecs
    {
      && liveInfo.Some? && reconciledSpecs == Some(liveInfo.value.layout)
      && exists read, after :: Reconcile(cfg, read, after) == Ok(liveInfo.value.layout)
    }

    /** The verdict is positive, or the layout was declared and found as declared, or none is configured. */
    ghost predicate LayoutChecked()
      reads `liveInfo, `liveColumns, `reconciledSpecs
    {
      || Reconciled()
      || (liveInfo.Some? && Verify(cfg, liveInfo.value).Ok?)
      || (cfg.partitionBy == [] && SortOr(WantSort(cfg, liveColumns)) == [])
    }

    /** The layout check on an existing table, starting from a read of its live shape. */
    method ReconcileSpecs(h: Handle) returns (h': Handle, r: Outcome<(), Exn>)
      requires ShapeWith(None) && HandleOk(lake.st, h) && SettledInfo()
      modifies lake, `liveInfo, `liveInfoReadAt, `liveColumns, `reconciledSpecs
      ensures Aged(old(lake.st), lake.st)
      ensures r.Ok? ==> MayLive(old(lake.st), h'.uuid)
      ensures r.Ok? ==> ShapeWith(Some(h')) && Reconciled()
      ensures r.Raise? ==> ShapeWith(None) && (IsRetryable(r.error) ==> SettledInfo())
      ensures lake.calm && old(lake.st).live.Some? && Compatible(cfg, old(lake.st).live.value)
              ==> r.Ok? && DeclaredNow(cfg, old(lake.st), lake.st) && Tuned(h') && Verdict()
    {
      var info: Outcome<Info, Exn>;
      h', info := lake.ReadInfo(h);
      if info.Raise? {
        return h', Raise(info.error);
      }
      AdoptInfo(info.value);
      label adopted:
      h', r := ReconcileAdopted(h');
      EvolvesTransitive(old(lake.st), old@adopted(lake.st), lake.st);
    }

    // ----------------------------------------------------------------------------------------
    // Bootstrap
    // ----------------------------------------------------------------------------------------

    /** Resolve the table and check its layout, or create it if it is not there, or not there any more when it is
        checked. The handle is stored last: any failure leaves the cache empty, so that the next attempt checks
        again. */
    method EnsureTable(columns: set<string>) returns (r: Outcome<(), Exn>)
      requires ShapeOk() && Settled()
      modifies lake, `table, `tableUuid, `liveInfo, `liveInfoReadAt, `liveColumns, `reconciledSpecs
      ensures Aged(old(lake.st), lake.st) && ShapeOk()
      ensures r.Ok? && old(table).None? ==> MayLive(old(lake.st), tableUuid)
      ensures r.Ok? ==> table.Some? && (old(table).None? ==> LayoutChecked())
      ensures r.Raise? && IsRetryable(r.error) ==> Settled()
      ensures lake.calm && old(table).None? && old(liveInfo).None?
              && Welcoming(cfg, old(lake.st), columns + {INSERTED_AT})
              ==> r.Ok? && Tuned(table.value) && Approved(columns) && SameFlushes(old(lake.st), lake.st)
                  && tableUuid == lake.st.live.value.uuid
    {
      EvolvesReflexive(lake.st);
      if table.Some? {
        return Ok(());
      }
      var h;
      h, r := FindOrCreate(columns);
      if r.Ok? {
        table := Some(h);
        tableUuid := h.uuid;
      }
    }

    method FindOrCreate(columns: set<string>) returns (h: Handle, r: Outcome<(), Exn>)
      requires ShapeWith(None) && SettledInfo()
      modifies lake, `liveInfo, `liveInfoReadAt, `liveColumns, `reconciledSpecs
      ensures Aged(old(lake.st), lake.st)
      ensures r.Ok? ==> MayLive(old(lake.st), h.uuid)
      ensures r.Ok? ==> ShapeWith(Some(h)) && LayoutChecked()
      ensures r.Raise? ==> ShapeWith(None) && (IsRetryable(r.error) ==> SettledInfo())
      ensures lake.calm && old(liveInfo).None? && Welcoming(cfg, old(lake.st), columns + {INSERTED_AT})
              ==> r.Ok? && Tuned(h) && Approved(columns) && SameFlushes(old(lake.st), lake.st)
    {
      h, r := Resolve();
      if r.Raise? && r.error.NotFound? {
        label missing:
        h, r := CreateTable(columns);
        EvolvesTransitive(old(lake.st), old@missing(lake.st), lake.st);
      }
    }

    /** The table there is, with its layout checked. */
    method Resolve() returns (h: Handle, r: Outcome<(), Exn>)
      requires ShapeWith(None) && SettledInfo()
      modifies lake, `liveInfo, `liveInfoReadAt, `liveColumns, `reconciledSpecs
      ensures Aged(old(lake.st), lake.st)
      ensures r.Ok? ==> MayLive(old(lake.st), h.uuid)
      ensures r.Ok? ==> ShapeWith(Some(h)) && LayoutChecked()
      ensures r.Raise? ==> ShapeWith(None) && (IsRetryable(r.error) ==> SettledInfo())
      ensures lake.calm && old(lake.st).live.Some? && Compatible(cfg, old(lake.st).live.value)
              ==> r.Ok? && DeclaredNow(cfg, old(lake.st), lake.st) && Tuned(h) && Verdict()
      ensures lake.calm && old(lake.st).live.None? ==>
                r == Raise(NotFound) && lake.st == old(lake.st) && liveInfo == old(liveInfo)
    {
      var found: Outcome<Info, Exn>;
      h, found := lake.ReadInfo(Handle(0, None));
      if found.Raise? {
        return h, Raise(found.error);
      }
      label resolved:
      liveColumns := found.value.columns;
      h, r := ReconcileSpecs(h);
      EvolvesTransitive(old(lake.st), old@resolved(lake.st), lake.st);
    }

    /** Create the table from the batch's columns and declare its layout. Losing the race to another
        creator means verifying what the winner made. */
    method CreateTable(columns: set<string>) returns (h: Handle, r: Outcome<(), Exn>)
      requires ShapeWith(None) && SettledInfo()
      modifies lake, `liveInfo, `liveInfoReadAt, `liveColumns, `reconciledSpecs
      ensures Aged(old(lake.st), lake.st)
      ensures r.Ok? ==> MayLive(old(lake.st), h.uuid)
      ensures r.Ok? ==> ShapeWith(Some(h)) && LayoutChecked()
      ensures r.Raise? ==> ShapeWith(None) && (IsRetryable(r.error) ==> SettledInfo())
      ensures lake.calm && old(lake.st).live.None? && old(liveInfo).None?
              && PartitionResolves(cfg, columns + {INSERTED_AT})
              ==> r.Ok? && NewTable(cfg, old(lake.st), lake.st, columns) && Tuned(h)
    {
      h := Handle(0, None);
      var created := lake.CreateNew(columns + {INSERTED_AT});
      label answered:
      if created.Ok? {
        liveColumns := columns + {INSERTED_AT};
        h, r := DeclareNew(created.value);
        EvolvesTransitive(old(lake.st), old@answered(lake.st), lake.st);
        if lake.calm && old(liveInfo).None? && PartitionResolves(cfg, columns + {INSERTED_AT}) {
          CreatedIsNew(cfg, old(lake.st), old@answered(lake.st), lake.st, columns);
        }
        return;
      } else if !created.error.AlreadyExists? {
        return h, Raise(created.error);
      }
      h, r := Resolve();
      EvolvesTransitive(old(lake.st), old@answered(lake.st), lake.st);
    }

    /** Declare the layout of a table just created. */
    method DeclareNew(created: Handle) returns (h: Handle, r: Outcome<(), Exn>)
      requires ShapeWith(None) && SettledInfo()
      requires lake.st.live.Some? && created == Fresh(lake.st, lake.st.live.value)
      requires lake.st.live.value.layout == Layout([], [])
      modifies lake, `liveInfo, `liveInfoReadAt, `liveColumns
      ensures Aged(old(lake.st), lake.st)
      ensures r.Ok? ==> MayLive(old(lake.st), h.uuid)
      ensures r.Ok? ==> ShapeWith(Some(h)) && LayoutChecked()
      ensures r.Raise? ==> ShapeWith(None) && (IsRetryable(r.error) ==> SettledInfo())
      ensures lake.calm && old(liveInfo).None? && old(liveColumns) == old(lake.st).live.value.columns
              && PartitionResolves(cfg, old(liveColumns))
              ==> r.Ok? && DeclaredNow(cfg, old(lake.st), lake.st) && Tuned(h)
    {
      FreshIsOk(lake.st, lake.st.live.value);
      if PartitionResolves(cfg, liveColumns) && liveColumns == lake.st.live.value.columns {
        NewIsCompatible(cfg, lake.st.live.value);
      }
      var declared: Outcome<bool, Exn>;
      h, declared := DeclareSpecs(created, true, true);
      r := if declared.Ok? then Ok(()) else Raise(declared.error);
    }

    // ----------------------------------------------------------------------------------------
    // Schema evolution
    // ----------------------------------------------------------------------------------------

    /** One alter or read through the resolved handle, adopted. */
    method AlterAndAdopt(add: set<string>) returns (r: Outcome<(), Exn>)
      requires ShapeOk() && table.Some?
      modifies lake, `table, `liveInfo, `liveInfoReadAt, `liveColumns
      ensures Aged(old(lake.st), lake.st) && ShapeOk() && table.Some?
      ensures r.Ok? ==> Adopted(table.value)
      ensures lake.calm && old(lake.st).live.Some? ==> r.Ok? && Grown(old(lake.st), lake.st, add)
      ensures lake.st.asks == old(lake.st).asks + {AskOf(Ops(None, None, add), ErrorOf(r), lake.st.now)}
    {
      var h, info := lake.Alter(table.value, Ops(None, None, add));
      HandleForGood(old(lake.st), lake.st, table.value);
      if info.Raise? {
        return Raise(info.error);
      }
      FreshIsOk(lake.st, info.value);
      table := Some(h);
      AdoptInfo(info.value);
      r := Ok(());
    }

    method ReadAndAdopt() returns (r: Outcome<(), Exn>)
      requires ShapeOk() && table.Some?
      modifies lake, `table, `liveInfo, `liveInfoReadAt, `liveColumns
      ensures Aged(old(lake.st), lake.st) && ShapeOk() && table.Some?
      ensures r.Ok? ==> Adopted(table.value)
      ensures r.Raise? ==> r.error.NotFound? || Unjudged(r.error)
      ensures lake.st.asks == old(lake.st).asks
      ensures lake.calm && old(lake.st).live.Some? ==> r.Ok? && lake.st == old(lake.st)
    {
      var h, info := lake.ReadInfo(table.value);
      HandleForGood(old(lake.st), lake.st, table.value);
      if info.Raise? {
        return Raise(info.error);
      }
      FreshIsOk(lake.st, info.value);
      table := Some(h);
      AdoptInfo(info.value);
      r := Ok(());
    }

    /** Add one column; false when its add failed and it is not live afterwards. A table holding files without
        field ids fails the flush instead of dropping the column. */
    method AddColumn(name: string) returns (r: Outcome<bool, Exn>)
      requires ShapeOk() && table.Some?
      modifies lake, `table, `liveInfo, `liveInfoReadAt, `liveColumns
      ensures Aged(old(lake.st), lake.st) && ShapeOk() && table.Some?
      ensures r.Ok? ==> AskedIn(lake.st, name, old(lake.st.now), lake.st.now)
      ensures r == Ok(true) ==> name in lake.st.had || AddedIn(lake.st, name, old(lake.st.now), lake.st.now)
      ensures lake.calm && old(lake.st).live.Some? ==>
                r == Ok(true) && Grown(old(lake.st), lake.st, {name}) && Adopted(table.value)
      ensures AddMeans(old(lake.st), lake.st, name, liveColumns, r)
      ensures r == Ok(false) ==> FailedIn(lake.st, name, old(lake.st.now), lake.st.now)
    {
      var altered := AlterAndAdopt({name});
      if altered.Ok? {
        return Ok(true);
      } else if altered.error.IdlessFilesPresent? {
        return Raise(SinkError(false));
      } else if altered.error.CommitConflict? || altered.error.DdlSinceReadSnapshot? {
        label raced:
        var reread := ReadAndAdopt();
        EvolvesTransitive(old(lake.st), old@raced(lake.st), lake.st);
        return if reread.Ok? then Ok(name in liveColumns) else Raise(reread.error);
      } else if IsHoglakeError(altered.error) {
        return Ok(false);
      }
      r := Raise(altered.error);
    }

    /** Since `from` all of these columns were asked for, the ones that failed each alone; the others the table had or
        did not refuse. */
    ghost predicate Asked(s: State, names: set<string>, failed: set<string>, from: nat) {
      && (forall c :: c in names ==> AskedIn(s, c, from, s.now))
      && (forall c :: c in failed ==> FailedIn(s, c, from, s.now))
      && (forall c :: c in names && c !in failed ==> c in s.had || AddedIn(s, c, from, s.now))
    }

    lemma AskedForGood(a: State, b: State, names: set<string>, failed: set<string>, from: nat)
      requires Asked(a, names, failed, from) && Evolves(a, b)
      ensures Asked(b, names, failed, from)
    {
    }

    ghost predicate Untouched(t: Option<Handle>, info: Option<Info>, readAt: nat, columns: set<string>)
      reads `table, `liveInfo, `liveInfoReadAt, `liveColumns
    {
      table == t && liveInfo == info && liveInfoReadAt == readAt && liveColumns == columns
    }

    /** Add the new columns in one alter, or one by one if that fails; the result are those that are still not
        live. */
    method AddColumns(names: set<string>) returns (r: Outcome<set<string>, Exn>)
      requires ShapeOk() && table.Some?
      modifies lake, `table, `liveInfo, `liveInfoReadAt, `liveColumns
      ensures Aged(old(lake.st), lake.st) && ShapeOk() && table.Some?
      ensures lake.calm && old(lake.st).live.Some? ==>
                r == Ok({}) && Grown(old(lake.st), lake.st, names) && (names != {} ==> Adopted(table.value))
      ensures names == {} ==>
                lake.st == old(lake.st) && Untouched(old(table), old(liveInfo), old(liveInfoReadAt), old(liveColumns))
      ensures NoIdless(old(lake.st), lake.st) || r == Raise(SinkError(false))
      ensures r.Ok? ==> r.value <= names && Asked(lake.st, names, r.value, old(lake.st.now))
    {
      EvolvesReflexive(lake.st);
      GrownNone(lake.st);
      if names == {} {
        return Ok({});
      }
      if |names| > 1 {
        var batched := AlterAndAdopt(names);
        if batched.Ok? {
          assert forall c :: c in names ==> AddedIn(lake.st, c, old(lake.st.now), lake.st.now);
          assert forall c :: c in names ==> AskedIn(lake.st, c, old(lake.st.now), lake.st.now);
          return Ok({});
        } else if batched.error.IdlessFilesPresent? {
          return Raise(SinkError(false));
        } else if !IsHoglakeError(batched.error) {
          return Raise(batched.error);
        }
      }
      label refused:
      r := AddEach(names);
      EvolvesTransitive(old(lake.st), old@refused(lake.st), lake.st);
    }

    /** One by one. */
    method AddEach(names: set<string>) returns (r: Outcome<set<string>, Exn>)
      requires ShapeOk() && table.Some?
      modifies lake, `table, `liveInfo, `liveInfoReadAt, `liveColumns
      ensures Aged(old(lake.st), lake.st) && ShapeOk() && table.Some?
      ensures lake.calm && old(lake.st).live.Some? ==>
                r == Ok({}) && Grown(old(lake.st), lake.st, names) && (names != {} ==> Adopted(table.value))
      ensures NoIdless(old(lake.st), lake.st) || r == Raise(SinkError(false))
      ensures r.Ok? ==> r.value <= names && Asked(lake.st, names, r.value, old(lake.st.now))
    {
      EvolvesReflexive(lake.st);
      GrownNone(lake.st);
      var failed, rest := {}, names;
      assert names - rest == {};
      while rest != {}
        invariant Aged(old(lake.st), lake.st) && ShapeOk() && table.Some?
        invariant failed <= names && rest <= names
        invariant Asked(lake.st, names - rest, failed, old(lake.st.now)) && NoIdless(old(lake.st), lake.st)
        invariant lake.calm && old(lake.st).live.Some? ==>
                    && failed == {} && Grown(old(lake.st), lake.st, names - rest)
                    && (names != rest ==> Adopted(table.value))
        decreases rest
      {
        var name :| name in rest;
        label adding:
        var added := AddColumn(name);
        EvolvesTransitive(old(lake.st), old@adding(lake.st), lake.st);
        AskedForGood(old@adding(lake.st), lake.st, names - rest, failed, old(lake.st.now));
        GrownBoth(old(lake.st), old@adding(lake.st), lake.st, names - rest, {name}, names - (rest - {name}));
        if added.Raise? {
          return Raise(added.error);
        }
        if !added.value {
          failed := failed + {name};
        }
        assert names - (rest - {name}) == (names - rest) + {name};
        rest := rest - {name};
      }
      assert names - {} == names;
      r := Ok(failed);
    }

    /** The batch's columns once the table was asked for the new ones: those whose own add failed are dropped. */
    method EvolveAndAlign(columns: set<string>) returns (r: Outcome<set<string>, Exn>)
      requires ShapeOk() && table.Some?
      modifies lake, `table, `liveInfo, `liveInfoReadAt, `liveColumns
      ensures Aged(old(lake.st), lake.st) && ShapeOk() && table.Some?
      ensures r.Ok? ==> columns * old(liveColumns) <= r.value <= columns
      ensures lake.calm && old(Tuned(table.value)) && old(Approved(columns)) ==>
                && r == Ok(columns) && Tuned(table.value) && Approved(columns) && columns <= liveColumns
                && SameFlushes(old(lake.st), lake.st) && lake.st.live.value.uuid == old(lake.st).live.value.uuid
      ensures NoIdless(old(lake.st), lake.st) || r == Raise(SinkError(false))
      ensures r.Ok? ==> Asked(lake.st, columns - old(liveColumns), columns - r.value, old(lake.st.now))
    {
      var failed :- AddColumns(columns - liveColumns);
      r := Ok(columns - failed);
      assert failed == {} ==> columns - failed == columns;
    }

    // ----------------------------------------------------------------------------------------
    // Prepare
    // ----------------------------------------------------------------------------------------

    /** The shape to build against: the cached one while it is younger than a quarter of the retention,
        else a new read; in both cases one with a positive verdict. `checkedAt` is when that held. */
    method TableInfo() returns (r: Outcome<Info, Exn>, checkedAt: nat)
      requires ShapeOk() && table.Some?
      modifies lake, `table, `liveInfo, `liveInfoReadAt, `liveColumns, `reconciledSpecs
      ensures Aged(old(lake.st), lake.st) && ShapeOk() && table.Some?
      ensures r.Ok? ==> liveInfo == Some(r.value) && reconciledSpecs == Some(r.value.layout)
      ensures r.Ok? ==> Within(lake.retention, 4, checkedAt - liveInfoReadAt) && old(lake.st.now) <= checkedAt
      ensures r.Ok? ==> InStep(table, liveInfo, liveInfoReadAt)
      ensures old(Promising()) ==> r.Ok? && Promising() && SameFlushes(old(lake.st), lake.st)
    {
      lake.Interfere();
      HandleForGood(old(lake.st), lake.st, table.value);
      checkedAt := lake.st.now;
      var young := liveInfo.Some? && Within(lake.retention, 4, checkedAt - liveInfoReadAt);
      if young && reconciledSpecs == Some(liveInfo.value.layout) {
        return Ok(liveInfo.value), checkedAt;
      }
      label checked:
      r, checkedAt := Recheck(young);
      EvolvesTransitive(old(lake.st), old@checked(lake.st), lake.st);
    }

    /** A new read unless the cached shape is young, and the layout check. */
    method Recheck(young: bool) returns (r: Outcome<Info, Exn>, checkedAt: nat)
      requires ShapeOk() && table.Some?
      requires young <==> liveInfo.Some? && Within(lake.retention, 4, lake.st.now - liveInfoReadAt)
      modifies lake, `table, `liveInfo, `liveInfoReadAt, `liveColumns, `reconciledSpecs
      ensures Aged(old(lake.st), lake.st) && ShapeOk() && table.Some?
      ensures r.Ok? ==> liveInfo == Some(r.value) && reconciledSpecs == Some(r.value.layout)
      ensures r.Ok? ==> Within(lake.retention, 4, checkedAt - liveInfoReadAt) && old(lake.st.now) <= checkedAt
      ensures r.Ok? ==> InStep(table, liveInfo, liveInfoReadAt)
      ensures old(Promising()) && old(!Verdict()) ==> r.Ok? && Promising() && SameFlushes(old(lake.st), lake.st)
    {
      checkedAt := lake.st.now;
      if !young {
        var reread := ReadAndAdopt();
        if reread.Raise? {
          return Raise(reread.error), checkedAt;
        }
        checkedAt := liveInfoReadAt;
      }
      label adopted:
      var verdict := CheckAdopted();
      EvolvesTransitive(old(lake.st), old@adopted(lake.st), lake.st);
      r := if verdict.Ok? then Ok(liveInfo.value) else Raise(verdict.error);
    }

    /** The layout check on the resolved table's shape as just adopted. */
    method CheckAdopted() returns (r: Outcome<(), Exn>)
      requires ShapeOk() && table.Some? && liveInfo.Some? && InStep(table, liveInfo, liveInfoReadAt)
      modifies lake, `table, `liveInfo, `liveInfoReadAt, `liveColumns, `reconciledSpecs
      ensures Aged(old(lake.st), lake.st) && ShapeOk() && table.Some?
      ensures liveInfo.Some? && liveInfoReadAt >= old(liveInfoReadAt)
      ensures lake.calm && old(Adopted(table.value)) && Compatible(cfg, old(lake.st).live.value)
              ==> r.Ok? && DeclaredNow(cfg, old(lake.st), lake.st) && Tuned(table.value)
      ensures r.Ok? ==> reconciledSpecs == Some(liveInfo.value.layout) && InStep(table, liveInfo, liveInfoReadAt)
    {
      var h;
      h, r := ReconcileAdopted(table.value);
      table := Some(h);
    }

    /** Null-fill, narrow to the shape's columns, fan out under its spec, upload one object per group, and bind
        the registration to the snapshot the shape is judged against. Whatever was uploaded by a prepare that fails
        is booked as orphaned. */
    method Prepare(columns: set<string>, batch: AlignedBatch) returns (r: Outcome<Payload, Exn>)
      requires Valid() && table.Some? && prepared.None? && Named(batch)
      modifies lake, `table, `liveInfo, `liveInfoReadAt, `liveColumns, `reconciledSpecs, `orphans, `ledger, `prepares
      ensures lake.Valid() && Evolves(old(lake.st), lake.st) && lake.st.sends == old(lake.st.sends)
      ensures ShapeOk() && table.Some?
      ensures BookedOn(old(ledger), old(orphans))
      ensures r.Raise? ==> FlushOk()
      ensures prepares == old(prepares) + 1
      ensures old(Promising()) && Unused(old(lake.st), batch.key) ==> r.Ok? && Publishable(lake.st, r.value)
      ensures r.Ok? ==> Uploaded(r.value) && Prepared(r.value, batch)
      ensures r.Ok? ==> forall f | f in r.value.spec :: f.column in r.value.shape.columns
      ensures r.Ok? && Binding(cfg) ==> r.value.spec == cfg.partitionBy
    {
      prepares := prepares + 1;
      var shape, checkedAt := CheckedShape(columns);
      FlushAged();
      if shape.Raise? {
        return Raise(shape.error);
      }
      label shaped:
      AlignedForGood(old(lake.st), lake.st, batch.kept, batch.failed, batch.began, old(lake.st.now), lake.st.now);
      r := UploadAndBook(shape.value, checkedAt, batch);
      EvolvesTransitive(old(lake.st), old@shaped(lake.st), lake.st);
    }

    method UploadAndBook(info: Info, ghost checkedAt: nat, batch: AlignedBatch) returns (r: Outcome<Payload, Exn>)
      requires Valid() && table.Some? && prepared.None? && InStep(table, liveInfo, liveInfoReadAt)
      requires liveInfo == Some(info) && Within(lake.retention, 4, checkedAt - liveInfoReadAt)
      requires Named(batch) && batch.began <= checkedAt
      modifies lake, `table, `orphans, `ledger
      ensures lake.Valid() && Evolves(old(lake.st), lake.st) && lake.st.sends == old(lake.st.sends)
      ensures ShapeOk() && table.Some?
      ensures BookedOn(old(ledger), old(orphans))
      ensures r.Raise? ==> FlushOk()
      ensures old(Promising()) && Unused(old(lake.st), batch.key) ==> r.Ok? && Publishable(lake.st, r.value)
      ensures r.Ok? ==> Uploaded(r.value) && Prepared(r.value, batch)
      ensures r.Ok? ==> r.value.spec == info.layout.partition && r.value.shape.columns == info.columns
    {
      ghost var from := lake.st.nextObject;
      var uploaded: nat;
      r, uploaded := UploadGroups(info, checkedAt, batch);
      if r.Raise? {
        CountAbandoned(from, uploaded);
      }
    }

    /** The shape to prepare under: the batch must cover its columns once live ones are null-filled, and
        its partition columns must be among them. */
    method CheckedShape(columns: set<string>) returns (r: Outcome<Info, Exn>, checkedAt: nat)
      requires ShapeOk() && table.Some?
      modifies lake, `table, `liveInfo, `liveInfoReadAt, `liveColumns, `reconciledSpecs
      ensures Aged(old(lake.st), lake.st) && ShapeOk() && table.Some?
      ensures r.Ok? ==> liveInfo == Some(r.value) && reconciledSpecs == Some(r.value.layout)
      ensures r.Ok? ==> Within(lake.retention, 4, checkedAt - liveInfoReadAt) && old(lake.st.now) <= checkedAt
      ensures r.Ok? ==> InStep(table, liveInfo, liveInfoReadAt)
      ensures r.Ok? ==> forall f | f in r.value.layout.partition :: f.column in r.value.columns
      ensures old(Promising()) ==> r.Ok? && Promising() && SameFlushes(old(lake.st), lake.st)
    {
      r, checkedAt := TableInfo();
      if r.Raise? {
        return;
      }
      var info := r.value;
      if !(info.columns <= columns + liveColumns) {
        r := Raise(BadValue);
      } else if exists i :: 0 <= i < |info.layout.partition| && info.layout.partition[i].column !in info.columns {
        r := Raise(SinkError(false));
      }
    }

    /** The batch is named after the resolved incarnation, and its alignment is on record. */
    ghost predicate Named(batch: AlignedBatch)
      reads lake, `tableUuid
    {
      && (match batch.identity
          case Some(ranges) => batch.key == KeyOf(tableUuid, ranges)
          case None => batch.key.Anonymous?)
      && batch.began <= lake.st.now && Lake.Aligned(lake.st, batch.kept, batch.failed, batch.began, lake.st.now)
    }

    /** The request registers the fan-out of the batch as narrowed to the table's columns. */
    ghost predicate Prepared(p: Payload, batch: AlignedBatch)
      reads lake, `tableUuid
    {
      && p.key == batch.key && p.identity == batch.identity && p.uuid == tableUuid
      && p.aligned == batch.kept && p.failed == batch.failed
      && p.built.began == batch.began && p.built.ready <= lake.st.now
      && exists from :: p.files == Register(Fanout(transform, p.spec, Project(batch.rows, p.shape.columns)), from)
    }

    /** The half of `Prepare` that follows the shape check. */
    method UploadGroups(info: Info, ghost checkedAt: nat, batch: AlignedBatch)
      returns (r: Outcome<Payload, Exn>, uploaded: nat)
      requires ShapeOk() && table.Some? && InStep(table, liveInfo, liveInfoReadAt)
      requires liveInfo == Some(info) && Within(lake.retention, 4, checkedAt - liveInfoReadAt)
      requires Named(batch) && batch.began <= checkedAt && AllRegistered(lake.st, base, ledger)
      modifies lake, `table
      ensures AllRegistered(lake.st, base, ledger)
      ensures lake.Valid() && Evolves(old(lake.st), lake.st) && lake.st.sends == old(lake.st.sends)
      ensures lake.st.nextObject == old(lake.st.nextObject) + uploaded
      ensures ShapeOk() && table.Some?
      ensures r.Ok? ==> Prepared(r.value, batch) && r.value.spec == info.layout.partition
      ensures r.Ok? ==> r.value.shape.columns == info.columns
      ensures r.Ok? ==> WellSent(lake.st, r.value)
      ensures old(Promising()) && Unused(old(lake.st), batch.key) ==> r.Ok? && Publishable(lake.st, r.value)
      ensures r.Ok? ==> uploaded == |r.value.files| && Consecutive(r.value, old(lake.st.nextObject))
    {
      var spec := info.layout.partition;
      var groups := PartitionGroups(transform, spec, Project(batch.rows, info.columns));
      var d := Draft(groups, info.columns, batch.kept, batch.failed, batch.key, batch.identity, tableUuid, spec,
                     batch.began);
      r, uploaded := UploadDraft(d, checkedAt);
      AllRegisteredForGood(old(lake.st), lake.st, base, ledger);
    }

    /** Hand the draft to the client library. */
    method UploadDraft(d: Draft, ghost checkedAt: nat) returns (r: Outcome<Payload, Exn>, uploaded: nat)
      requires ShapeOk() && table.Some? && liveInfo.Some? && InStep(table, liveInfo, liveInfoReadAt)
      requires Within(lake.retention, 4, checkedAt - liveInfoReadAt) && d.began <= checkedAt
      requires d.spec == liveInfo.value.layout.partition
      requires Lake.Aligned(lake.st, d.aligned, d.failed, d.began, lake.st.now)
      requires match d.identity case Some(ranges) => d.key == KeyOf(d.expected, ranges) case None => d.key.Anonymous?
      modifies lake, `table
      ensures lake.Valid() && Evolves(old(lake.st), lake.st) && lake.st.sends == old(lake.st.sends)
      ensures lake.st.nextObject == old(lake.st.nextObject) + uploaded
      ensures ShapeOk() && table.Some?
      ensures r.Ok? ==> uploaded == |d.groups| && WellSent(lake.st, r.value) && r.value.built.ready <= lake.st.now
      ensures r.Ok? ==> Drawn(d, old(lake.st.nextObject), r.value)
      ensures old(Promising()) && d.expected == tableUuid && d.columns == liveColumns && Unused(old(lake.st), d.key)
              ==> r.Ok? && Publishable(lake.st, r.value)
    {
      ghost var was := table.value;
      var h;
      h, r, uploaded := lake.PrepareAppendTables(table.value, d);
      SyncedAfterPrepare(lake.retention, lake.st.now, was, h, liveInfo, liveInfoReadAt);
      HandleForGood(old(lake.st), lake.st, was);
      if r.Ok? {
        DraftSent(old(lake.st), lake.st, was, h, d, liveInfo, liveInfoReadAt, r.value, lake.retention, checkedAt);
      }
      table := Some(h);
    }

    /** Book the objects of a failed prepare. */
    method CountAbandoned(ghost from: nat, uploaded: nat)
      requires from + uploaded == lake.st.nextObject && BooksAt(from, None) && AllRegistered(lake.st, base, ledger)
      modifies `orphans, `ledger
      ensures BooksAt(lake.st.nextObject, None) && AllRegistered(lake.st, base, ledger)
      ensures BookedOn(old(ledger), old(orphans))
    {
      Book(base, lake.st.nextObject, ledger, Orphaned(PrepareFailed), uploaded, filesWritten, orphans);
      ledger := ledger + Repeat(Orphaned(PrepareFailed), uploaded);
      orphans := orphans[PrepareFailed := orphans[PrepareFailed] + uploaded];
    }

    /** An upload that is a request ready to be held: sendable, and not booked anywhere else. */
    ghost predicate Uploaded(p: Payload)
      reads lake, `ledger, `filesWritten, `orphans
    {
      && WellSent(lake.st, p)
      && BooksAt(lake.st.nextObject, Some(p))
      && AllRegistered(lake.st, base, ledger)
    }

    twostate lemma FlushAged()
      requires old(FlushOk()) && Aged(old(lake.st), lake.st)
      requires unchanged(`prepared, `preparedOffsets, `preparedSends, `ledger, `filesWritten, `orphans)
      ensures FlushOk()
    {
      HeldForGood(old(lake.st), lake.st, prepared, preparedOffsets, preparedSends);
      AllRegisteredForGood(old(lake.st), lake.st, base, ledger);
    }

    // ----------------------------------------------------------------------------------------
    // Commit
    // ----------------------------------------------------------------------------------------

    method ClearPrepared()
      modifies `prepared, `preparedRows, `preparedOffsets, `preparedSends
      ensures prepared.None? && preparedOffsets.None? && preparedSends == 0
    {
      prepared := None;
      preparedRows := 0;
      preparedOffsets := None;
      preparedSends := 0;
    }

    /** Give up the held payload, if any, and account for the upload it leaves behind. */
    method DiscardPrepared(why: Reason)
      requires FlushOk()
      modifies `prepared, `preparedRows, `preparedOffsets, `preparedSends, `orphans, `ledger
      ensures FlushOk() && prepared.None?
      ensures old(ledger) <= ledger
      ensures orphans == if old(prepared).None? then old(orphans)
                         else old(orphans)[why := old(orphans)[why] + |old(prepared).value.files|]
    {
      if prepared.None? {
        return;
      }
      var n := |prepared.value.files|;
      Book(base, lake.st.nextObject, ledger, Orphaned(why), n, filesWritten, orphans);
      ledger := ledger + Repeat(Orphaned(why), n);
      orphans := orphans[why := orphans[why] + n];
      ClearPrepared();
    }

    /** Put the held request on the wire once more. Any error the client library raises for it drops the
        cached shape, because it may have dropped the handle's; a transport failure judged nothing. */
    method Send() returns (r: Outcome<(), Exn>)
      requires Valid() && Settled() && prepared.Some?
      modifies lake, `table, `liveInfo, `liveInfoReadAt, `reconciledSpecs, `preparedSends
      ensures Valid() && Settled()
      ensures old(table).None? ==> table.None?
      ensures Evolves(old(lake.st), lake.st) && lake.st.sends == old(lake.st.sends) + {prepared.value}
      ensures SendMeans(lake.st, prepared.value, r)
      ensures lake.calm && Publishable(old(lake.st), prepared.value) ==> r.Ok?
      ensures r.Raise? && IsHoglakeError(r.error) ==> liveInfo.None? && reconciledSpecs.None?
    {
      preparedSends := preparedSends + 1;
      r := SendHeld();
      SendFrame();
    }

    method SendHeld() returns (r: Outcome<(), Exn>)
      requires ShapeOk() && Settled() && prepared.Some? && WellSent(lake.st, prepared.value)
      modifies lake, `table, `liveInfo, `liveInfoReadAt, `reconciledSpecs
      ensures ShapeOk() && Settled()
      ensures old(table).None? ==> table.None?
      ensures Evolves(old(lake.st), lake.st) && lake.st.sends == old(lake.st.sends) + {prepared.value}
      ensures lake.st.nextObject == old(lake.st.nextObject)
      ensures SendMeans(lake.st, prepared.value, r)
      ensures lake.calm && Publishable(old(lake.st), prepared.value) ==> r.Ok?
      ensures r.Raise? && IsHoglakeError(r.error) ==> liveInfo.None? && reconciledSpecs.None?
    {
      var h;
      h, r := lake.CommitPrepared(prepared.value, table);
      Answered(old(lake.st), h, r.Raise? && IsHoglakeError(r.error));
    }

    /** Keep what the library left of the handle, and drop the cached shape if it may have dropped its own. */
    method Answered(ghost before: State, h: Option<Handle>, judged: bool)
      requires ShapeAt(cfg, lake.retention, before, table, liveInfo, liveInfoReadAt, reconciledSpecs) && Settled()
      requires liveColumns <= before.had
      requires lake.Valid() && Evolves(before, lake.st)
      requires h.Some? <==> table.Some?
      requires h == table || (judged && h.value.cache.None?)
      modifies `table, `liveInfo, `liveInfoReadAt, `reconciledSpecs
      ensures ShapeOk() && Settled() && table == h
      ensures judged ==> liveInfo.None? && reconciledSpecs.None?
    {
      ShapeSent(cfg, lake.retention, before, lake.st, table, h, liveInfo, liveInfoReadAt, reconciledSpecs,
                if judged then None else liveInfo, if judged then None else reconciledSpecs);
      if judged {
        liveInfo, liveInfoReadAt, reconciledSpecs := None, 0, None;
      }
      table := h;
    }

    twostate lemma SendFrame()
      requires old(FlushOk()) && prepared.Some?
      requires lake.Valid() && Evolves(old(lake.st), lake.st) && lake.st.nextObject == old(lake.st.nextObject)
      requires unchanged(`prepared, `preparedOffsets, `ledger, `filesWritten, `orphans)
      ensures FlushOk()
    {
      HeldForGood(old(lake.st), lake.st, prepared, preparedOffsets, old(preparedSends));
      AllRegisteredForGood(old(lake.st), lake.st, base, ledger);
    }

    /** One of the three refusals that say the destination moved: the payload is given up and the next
        attempt reads the destination afresh; a recreation drops the resolved identity too. */
    method DestinationMoved(refused: Exn) returns (e: Exn)
      requires Valid() && Settled() && IsDestinationMoved(refused) && prepared.Some?
      modifies `table, `tableUuid, `liveColumns, `liveInfo, `liveInfoReadAt, `reconciledSpecs
      modifies `prepared, `preparedRows, `preparedOffsets, `preparedSends, `orphans, `ledger
      ensures Valid() && Settled() && prepared.None? && liveInfo.None?
      ensures e == SinkError(true) && (old(table).None? ==> table.None?)
      ensures BookedOn(old(ledger), old(orphans))
      ensures refused.IncarnationChanged? ==> table.None?
      ensures orphans == Counted(old(orphans), WhyDropped(refused), |old(prepared).value.files|)
    {
      var reason := MovedReason(refused);
      MovedReasonIs(refused);
      GiveUp(reason);
      Forget(refused.IncarnationChanged?);
      e := SinkError(true);
    }

    /** Read the shape afresh next time, and the destination too if it was recreated. */
    method Forget(recreated: bool)
      requires ShapeOk() && Settled()
      modifies `table, `tableUuid, `liveColumns, `liveInfo, `liveInfoReadAt, `reconciledSpecs
      ensures ShapeOk() && Settled() && liveInfo.None? && (old(table).None? || recreated ==> table.None?)
    {
      if recreated {
        ResetCaches();
      } else {
        DropCachedShape();
      }
    }

    /** Give up the held payload for a reason of its own commit. */
    method GiveUp(why: Reason)
      requires FlushOk() && prepared.Some? && why != Superseded
      modifies `prepared, `preparedRows, `preparedOffsets, `preparedSends, `orphans, `ledger
      ensures FlushOk() && prepared.None?
      ensures BookedOn(old(ledger), old(orphans))
      ensures orphans == Counted(old(orphans), Some(why), |old(prepared).value.files|)
    {
      DiscardPrepared(why);
    }

    /** Publish the held request, or recognize that its key is already published. An unanswered or
        unjudged send keeps the payload for a verbatim replay; an answered refusal gives it up. */
    method CommitPrepared() returns (r: Outcome<nat, Exn>)
      requires Valid() && Settled() && prepared.Some?
      modifies lake, `table, `tableUuid, `liveColumns, `liveInfo, `liveInfoReadAt, `reconciledSpecs
      modifies `prepared, `preparedRows, `preparedOffsets, `preparedSends
      modifies `orphans, `filesWritten, `ledger
      ensures Valid() && Settled()
      ensures old(table).None? ==> table.None?
      ensures CommitMeans(old(lake.st), lake.st, old(prepared.value), prepared, r.Ok?)
      ensures r.Ok? ==> r.value == if lake.st.receipts[old(prepared).value.key] == old(prepared).value
                                   then old(preparedRows) else 0
      ensures lake.calm && Publishable(old(lake.st), old(prepared).value) ==> r == Ok(old(preparedRows))
      ensures prepared.Some? ==> preparedOffsets == old(preparedOffsets) && preparedRows == old(preparedRows)
      ensures r.Raise? && r.error.NotFound? ==> prepared == old(prepared)
      ensures BookedOn(old(ledger), old(orphans))
    {
      var sent := Send();
      r := Conclude(sent);
    }

    /** What becomes of the held payload once its send came back, or did not. */
    method Conclude(sent: Outcome<(), Exn>) returns (r: Outcome<nat, Exn>)
      requires Valid() && Settled() && prepared.Some?
      requires SendMeans(lake.st, prepared.value, sent)
      modifies `table, `tableUuid, `liveColumns, `liveInfo, `liveInfoReadAt, `reconciledSpecs
      modifies `prepared, `preparedRows, `preparedOffsets, `preparedSends, `orphans, `filesWritten, `ledger
      ensures Valid() && Settled()
      ensures old(table).None? ==> table.None?
      ensures r.Ok? <==> sent.Ok? || sent == Raise(Validation(KeyReused))
      ensures r.Ok? ==> prepared.None? && r.value == if sent.Ok? then old(preparedRows) else 0
      ensures r.Raise? && Refuses(sent.error) ==> prepared.None?
      ensures r.Raise? && !Refuses(sent.error) ==> prepared == old(prepared)
      ensures prepared.Some? ==> preparedOffsets == old(preparedOffsets) && preparedRows == old(preparedRows)
      ensures BookedOn(old(ledger), old(orphans))
      ensures orphans == if sent.Ok? then old(orphans)
                         else Counted(old(orphans), WhyDropped(sent.error), |old(prepared).value.files|)
      ensures sent.Ok? ==> filesWritten == old(filesWritten) + |old(prepared).value.files|
      ensures r.Raise? ==> r.error == if IsDestinationMoved(sent.error) then SinkError(true) else sent.error
    {
      if sent.Ok? {
        r := Ok(preparedRows);
        BookWritten();
      } else {
        r := ConcludeFailed(sent.error);
      }
    }

    method ConcludeFailed(e: Exn) returns (r: Outcome<nat, Exn>)
      requires Valid() && Settled() && prepared.Some?
      modifies `table, `tableUuid, `liveColumns, `liveInfo, `liveInfoReadAt, `reconciledSpecs
      modifies `prepared, `preparedRows, `preparedOffsets, `preparedSends, `orphans, `ledger
      ensures Valid() && Settled()
      ensures old(table).None? ==> table.None?
      ensures if Refuses(e) || e == Validation(KeyReused) then prepared.None?
              else prepared == old(prepared)
                   && preparedOffsets == old(preparedOffsets) && preparedRows == old(preparedRows)
      ensures BookedOn(old(ledger), old(orphans))
      ensures orphans == Counted(old(orphans), WhyDropped(e), |old(prepared).value.files|)
      ensures r == if e == Validation(KeyReused) then Ok(0)
                   else Raise(if IsDestinationMoved(e) then SinkError(true) else e)
    {
      if e == Validation(KeyReused) {
        r := Ok(0);
        GiveUp(AlreadyPublished);
      } else if IsDestinationMoved(e) {
        var moved := DestinationMoved(e);
        r := Raise(moved);
      } else {
        if IsAnsweredRefusal(e) {
          GiveUp(CommitRefused);
        }
        r := Raise(e);
      }
    }

    /** Count the objects of a commit that returned. */
    method BookWritten()
      requires FlushOk() && prepared.Some? && lake.Valid() && AnswerMeans(lake.st, prepared.value, Committed)
      modifies `prepared, `preparedRows, `preparedOffsets, `preparedSends, `filesWritten, `ledger
      ensures FlushOk() && prepared.None?
      ensures filesWritten == old(filesWritten) + |old(prepared).value.files|
      ensures BookedOn(old(ledger), old(orphans))
    {
      var p := prepared.value;
      Book(base, lake.st.nextObject, ledger, Written, |p.files|, filesWritten, orphans);
      CommittedAreRegistered(lake.st, base, ledger, p);
      ledger := ledger + Repeat(Written, |p.files|);
      filesWritten := filesWritten + |p.files|;
      ClearPrepared();
    }

    // ----------------------------------------------------------------------------------------
    // Write
    // ----------------------------------------------------------------------------------------

    /** What is held for a retry of `identity`. */
    function Holding(identity: Option<seq<Range>>): Option<Payload>
      reads `prepared, `preparedOffsets
    {
      if identity.Some? && preparedOffsets == identity then prepared else None
    }

    /** The payload held for `identity`, if any, was built from these rows. */
    ghost predicate HeldFor(identity: Option<seq<Range>>, rows: seq<Row>)
      reads `prepared, `preparedOffsets, `preparedRows
    {
      Holding(identity).Some? ==> preparedRows == |rows| && Made(transform, cfg, prepared.value, identity, rows)
    }

    /** Resolve the table and let it gain the batch's columns; the columns that will be written. */
    method Align(columns: set<string>) returns (r: Outcome<set<string>, Exn>)
      requires ShapeOk() && Settled()
      modifies lake, `table, `tableUuid, `liveInfo, `liveInfoReadAt, `liveColumns, `reconciledSpecs
      ensures Aged(old(lake.st), lake.st) && ShapeOk()
      ensures r.Ok? && old(table).None? ==> MayLive(old(lake.st), tableUuid)
      ensures r.Ok? ==> table.Some? && r.value <= columns
      ensures r.Ok? ==> Lake.Aligned(lake.st, r.value, columns - r.value, old(lake.st.now), lake.st.now)
      ensures r.Raise? && IsRetryable(r.error) ==> Settled()
      ensures lake.calm && old(table).None? && old(liveInfo).None?
              && INSERTED_AT in columns && Welcoming(cfg, old(lake.st), columns)
              ==> r.Ok? && Promising() && SameFlushes(old(lake.st), lake.st)
    {
      var ensured := EnsureTable(columns);
      if ensured.Raise? {
        return Raise(ensured.error);
      }
      label resolved:
      r := EvolveAndAlign(columns);
      EvolvesTransitive(old(lake.st), old@resolved(lake.st), lake.st);
      if r.Ok? {
        AskedIsAligned(lake.st, columns, old@resolved(liveColumns), r.value, old(lake.st.now),
                       old@resolved(lake.st.now));
      }
    }

    lemma AskedIsAligned(s: State, columns: set<string>, live: set<string>, kept: set<string>, began: nat, from: nat)
      requires Asked(s, columns - live, columns - kept, from) && live <= s.had && kept <= columns && began <= from
      ensures Lake.Aligned(s, kept, columns - kept, began, s.now)
    {
      forall c | c in kept ensures c in s.had || AddedIn(s, c, began, s.now) {
        if c !in live { assert c in s.had || AddedIn(s, c, from, s.now); }
      }
      forall c | c in columns - kept ensures FailedIn(s, c, began, s.now) {
        assert FailedIn(s, c, from, s.now);
      }
    }

    /** A prepare refused because another writer's column landed between the alignment and the pre-flight
        is tried once more on a new read. */
    method PrepareAligned(columns: set<string>, batch: AlignedBatch) returns (r: Outcome<Payload, Exn>)
      requires Valid() && table.Some? && prepared.None? && Named(batch)
      modifies lake, `table, `liveInfo, `liveInfoReadAt, `liveColumns, `reconciledSpecs, `orphans, `ledger, `prepares
      ensures lake.Valid() && Evolves(old(lake.st), lake.st) && lake.st.sends == old(lake.st.sends)
      ensures ShapeOk() && table.Some?
      ensures BookedOn(old(ledger), old(orphans))
      ensures r.Raise? ==> FlushOk()
      ensures prepares <= old(prepares) + 2 && (r == Raise(Validation(Misaligned)) ==> prepares == old(prepares) + 2)
      ensures old(Promising()) && Unused(old(lake.st), batch.key) ==> r.Ok? && Publishable(lake.st, r.value)
      ensures r.Ok? ==> Uploaded(r.value) && Prepared(r.value, batch)
      ensures r.Ok? ==> forall f | f in r.value.spec :: f.column in r.value.shape.columns
      ensures r.Ok? && Binding(cfg) ==> r.value.spec == cfg.partitionBy
    {
      r := Prepare(columns, batch);
      if r == Raise(Validation(Misaligned)) {
        label refusal:
        AlignedForGood(old(lake.st), lake.st, batch.kept, batch.failed, batch.began, old(lake.st.now), lake.st.now);
        r := PrepareAgain(columns, batch);
        EvolvesTransitive(old(lake.st), old@refusal(lake.st), lake.st);
      }
    }

    /** Read the table anew and prepare against what it is now. */
    method PrepareAgain(columns: set<string>, batch: AlignedBatch) returns (r: Outcome<Payload, Exn>)
      requires Valid() && table.Some? && prepared.None? && Named(batch)
      modifies lake, `table, `liveInfo, `liveInfoReadAt, `liveColumns, `reconciledSpecs, `orphans, `ledger, `prepares
      ensures lake.Valid() && Evolves(old(lake.st), lake.st) && lake.st.sends == old(lake.st.sends)
      ensures ShapeOk() && table.Some?
      ensures BookedOn(old(ledger), old(orphans))
      ensures r.Raise? ==> FlushOk()
      ensures prepares <= old(prepares) + 1 && (r == Raise(Validation(Misaligned)) ==> prepares == old(prepares) + 1)
      ensures r.Ok? ==> Uploaded(r.value) && Prepared(r.value, batch)
      ensures r.Ok? ==> forall f | f in r.value.spec :: f.column in r.value.shape.columns
      ensures r.Ok? && Binding(cfg) ==> r.value.spec == cfg.partitionBy
    {
      var reread := ReadAndAdopt();
      FlushAged();
      if reread.Raise? {
        return Raise(reread.error);
      }
      label realigned:
      AlignedForGood(old(lake.st), lake.st, batch.kept, batch.failed, batch.began, old(lake.st.now), lake.st.now);
      r := Prepare(columns + liveColumns, batch);
      EvolvesTransitive(old(lake.st), old@realigned(lake.st), lake.st);
    }

    /** A calm service that welcomes the sink and was never sent these ranges, and a sink that has just started or was
        just reset. */
    ghost predicate Unspoilt(columns: set<string>, identity: Option<seq<Range>>)
      reads lake, `table, `liveInfo
    {
      && lake.calm && table.None? && liveInfo.None? && Welcoming(cfg, lake.st, columns)
      && identity.Some? && NeverSent(lake.st, identity)
    }

    /** Build and upload one flush and hold its request. */
    method Build(columns: set<string>, rows: seq<Row>, identity: Option<seq<Range>>) returns (r: Outcome<(), Exn>)
      requires Valid() && Settled() && prepared.None? && Offers(columns, rows)
      modifies lake, `table, `tableUuid, `liveInfo, `liveInfoReadAt, `liveColumns, `reconciledSpecs
      modifies `prepared, `preparedRows, `preparedOffsets, `preparedSends, `orphans, `ledger, `prepares
      ensures Valid() && (r.Ok? || IsRetryable(r.error) ==> Settled())
      ensures Evolves(old(lake.st), lake.st) && lake.st.sends == old(lake.st.sends)
      ensures BookedOn(old(ledger), old(orphans))
      ensures r.Raise? ==> prepared.None?
      ensures r.Ok? ==> prepared.Some? && preparedOffsets == identity && preparedRows == |rows|
      ensures r.Ok? && old(table).None? ==> MayLive(old(lake.st), prepared.value.uuid)
      ensures old(Unspoilt(columns, identity)) ==> r.Ok? && Publishable(lake.st, prepared.value)
      ensures r.Ok? ==> Made(transform, cfg, prepared.value, identity, rows)
      ensures r.Ok? ==> prepared.value.built.began == old(lake.st.now) && prepared.value.built.ready <= lake.st.now
    {
      var p := Compose(columns, rows, identity);
      if p.Raise? {
        return Raise(p.error);
      }
      Hold(p.value, |rows|, identity);
      r := Ok(());
    }

    /** Resolve, align and prepare. */
    method Compose(columns: set<string>, rows: seq<Row>, identity: Option<seq<Range>>)
      returns (r: Outcome<Payload, Exn>)
      requires Valid() && Settled() && prepared.None? && Offers(columns, rows)
      modifies lake, `table, `tableUuid, `liveInfo, `liveInfoReadAt, `liveColumns, `reconciledSpecs
      modifies `orphans, `ledger, `prepares
      ensures lake.Valid() && Evolves(old(lake.st), lake.st) && lake.st.sends == old(lake.st.sends)
      ensures ShapeOk() && BookedOn(old(ledger), old(orphans))
      ensures r.Raise? ==> FlushOk() && (IsRetryable(r.error) ==> Settled())
      ensures r.Ok? ==> table.Some? && Uploaded(r.value) && Made(transform, cfg, r.value, identity, rows)
      ensures r.Ok? && old(table).None? ==> MayLive(old(lake.st), r.value.uuid)
      ensures old(Unspoilt(columns, identity)) ==> r.Ok? && Publishable(lake.st, r.value)
      ensures r.Ok? ==> r.value.built.began == old(lake.st.now) && r.value.built.ready <= lake.st.now
    {
      var began := lake.st.now;
      var kept := Align(columns);
      FlushAged();
      if kept.Raise? {
        return Raise(kept.error);
      }
      label aligned:
      r := PrepareNew(columns, kept.value, rows, identity, began);
      EvolvesTransitive(old(lake.st), old@aligned(lake.st), lake.st);
    }

    /** Name, stamp and prepare the aligned batch. */
    method PrepareNew(columns: set<string>, kept: set<string>, rows: seq<Row>, identity: Option<seq<Range>>, began: nat)
      returns (r: Outcome<Payload, Exn>)
      requires Valid() && table.Some? && prepared.None? && Offers(columns, rows)
      requires began <= lake.st.now && Lake.Aligned(lake.st, kept, columns - kept, began, lake.st.now)
      modifies lake, `table, `liveInfo, `liveInfoReadAt, `liveColumns, `reconciledSpecs, `orphans, `ledger, `prepares
      ensures lake.Valid() && Evolves(old(lake.st), lake.st) && lake.st.sends == old(lake.st.sends)
      ensures ShapeOk() && table.Some?
      ensures BookedOn(old(ledger), old(orphans))
      ensures r.Raise? ==> FlushOk()
      ensures identity.Some? && old(Promising()) && NeverSent(old(lake.st), identity) ==>
                r.Ok? && Publishable(lake.st, r.value)
      ensures r.Ok? ==> r.value.uuid == tableUuid
      ensures r.Ok? ==> Uploaded(r.value) && Made(transform, cfg, r.value, identity, rows)
      ensures r.Ok? ==> r.value.built.began == began && r.value.built.ready <= lake.st.now
    {
      var random: nat, at: string := *, *;
      var key := if identity.Some? then KeyOf(tableUuid, identity.value) else Anonymous(random);
      if identity.Some? && NeverSent(lake.st, identity) {
        NeverSentIsUnused(lake.st, tableUuid, identity.value);
      }
      var batch := AlignedBatch(kept, columns - kept, ShowAll(rows, at, kept), key, identity, began);
      r := PrepareAligned(kept, batch);
      if r.Ok? {
        MadeOf(r.value, batch, columns, rows, at);
      }
    }

    /** The columns on offer are all the rows have, but for unwritable names. */
    ghost predicate Offers(columns: set<string>, rows: seq<Row>) {
      && INSERTED_AT in columns
      && (forall row, c :: row in rows && c in row.values && Names.Writable(c) ==> c in columns)
    }

    method Hold(p: Payload, rows: nat, identity: Option<seq<Range>>)
      requires Uploaded(p) && p.identity == identity
      modifies `prepared, `preparedRows, `preparedOffsets, `preparedSends
      ensures FlushOk() && prepared == Some(p) && preparedOffsets == identity && preparedRows == rows
    {
      prepared, preparedRows, preparedOffsets, preparedSends := Some(p), rows, identity, 0;
    }

    lemma MadeOf(p: Payload, batch: AlignedBatch, columns: set<string>, rows: seq<Row>, at: string)
      requires Prepared(p, batch) && batch.rows == ShowAll(rows, at, batch.kept) && batch.failed == columns - batch.kept
      requires Offers(columns, rows) && (Binding(cfg) ==> p.spec == cfg.partitionBy)
      ensures Made(transform, cfg, p, batch.identity, rows)
    {
      var narrowed := Project(batch.rows, p.shape.columns);
      var from :| p.files == Register(Fanout(transform, p.spec, narrowed), from);
      FanoutCarries(transform, p, narrowed, from);
      ProjectShown(rows, at, batch.kept, p.shape.columns);
      assert p.Carried() == batch.kept * p.shape.columns;
      forall row | row in rows ensures KeepsValues(p, row) {
        forall c | c in row.values && Names.Writable(c) ensures Takes(p, c) {
          assert c in columns;
        }
      }
    }

    /** Commit the payload held for `identity`. */
    method Publish(identity: Option<seq<Range>>, rows: seq<Row>) returns (r: Outcome<nat, Exn>)
      requires Valid() && Settled() && prepared.Some? && preparedOffsets == identity && preparedRows == |rows|
      requires Made(transform, cfg, prepared.value, identity, rows)
      modifies lake, `table, `tableUuid, `liveColumns, `liveInfo, `liveInfoReadAt, `reconciledSpecs
      modifies `prepared, `preparedRows, `preparedOffsets, `preparedSends
      modifies `orphans, `filesWritten, `ledger
      ensures Valid() && Settled() && HeldFor(identity, rows)
      ensures old(table).None? ==> table.None?
      ensures CommitMeans(old(lake.st), lake.st, old(prepared.value), prepared, r.Ok?)
      ensures r.Ok? ==> Landed(transform, cfg, lake.st, identity, rows, r.value)
      ensures prepared.None? || preparedOffsets == identity
      ensures lake.calm && Publishable(old(lake.st), old(prepared).value) ==> r == Ok(|rows|)
      ensures BookedOn(old(ledger), old(orphans))
    {
      ghost var p := prepared.value;
      r := CommitPrepared();
      if r.Ok? {
        assert LandedAs(transform, cfg, lake.st, p.key, identity, rows, r.value);
      }
    }

    /** Send what is held for this identity once more, never rebuilding it. */
    method Replay(identity: Option<seq<Range>>, rows: seq<Row>, ghost since: nat) returns (r: Outcome<nat, Exn>)
      requires Valid() && Settled() && Holding(identity).Some? && HeldFor(identity, rows)
      modifies lake, `table, `tableUuid, `liveColumns, `liveInfo, `liveInfoReadAt, `reconciledSpecs
      modifies `prepared, `preparedRows, `preparedOffsets, `preparedSends
      modifies `orphans, `filesWritten, `ledger
      ensures Valid() && Settled() && HeldFor(identity, rows)
      ensures old(table).None? ==> table.None?
      ensures r.Raise? && StillGone(old(lake.st), lake.st) ==> prepared == old(prepared)
      ensures Served(transform, cfg, old(lake.st), lake.st, identity, rows)
      ensures Guarded(old(lake.st), old(prepared), lake.st, prepared, since, identity, r.Ok?)
      ensures r.Ok? ==> prepared.None? && Landed(transform, cfg, lake.st, identity, rows, r.value)
      ensures prepared.None? || preparedOffsets == identity
      ensures lake.calm && Publishable(old(lake.st), old(prepared).value) ==> r == Ok(|rows|)
      ensures BookedOn(old(ledger), old(orphans))
    {
      ghost var p := prepared.value;
      r := Publish(identity, rows);
      EvolvesReflexive(old(lake.st));
      CommitGuards(old(lake.st), lake.st, p, prepared, r.Ok?, since, identity);
      CommitServes(transform, cfg, old(lake.st), old(lake.st), lake.st, p, prepared, r.Ok?, identity, rows);
      if r.Raise? && StillGone(old(lake.st), lake.st) {
        CommitKeepsRequest(old(lake.st), lake.st, p, prepared);
      }
    }

    /** Build a flush and commit it. */
    method WriteFresh(columns: set<string>, rows: seq<Row>, identity: Option<seq<Range>>, ghost since: nat)
      returns (r: Outcome<nat, Exn>)
      requires Valid() && Settled() && prepared.None? && Offers(columns, rows)
      modifies lake, `table, `tableUuid, `liveColumns, `liveInfo, `liveInfoReadAt, `reconciledSpecs
      modifies `prepared, `preparedRows, `preparedOffsets, `preparedSends
      modifies `orphans, `filesWritten, `ledger, `prepares
      ensures Valid() && (r.Ok? || IsRetryable(r.error) ==> Settled())
      ensures HeldFor(identity, rows)
      ensures Served(transform, cfg, old(lake.st), lake.st, identity, rows)
      ensures BuiltSince(old(lake.st), lake.st)
      ensures old(table).None? ==> Reensured(old(lake.st), lake.st)
      ensures Guarded(old(lake.st), None, lake.st, prepared, since, identity, r.Ok?)
      ensures r.Ok? ==> prepared.None? && Landed(transform, cfg, lake.st, identity, rows, r.value)
      ensures prepared.None? || preparedOffsets == identity
      ensures old(Unspoilt(columns, identity)) ==> r == Ok(|rows|)
      ensures BookedOn(old(ledger), old(orphans))
    {
      var built := Build(columns, rows, identity);
      if built.Raise? {
        IdleGuards(old(lake.st), lake.st, None, since, identity);
        return Raise(built.error);
      }
      label held:
      ghost var p := prepared.value;
      r := Publish(identity, rows);
      FlushServes(transform, cfg, old(lake.st), old@held(lake.st), lake.st, p, prepared, r.Ok?, since, identity, rows);
    }

    /** Publish `batch` as one idempotent commit; the rows this call published. While the table is gone, a held
        request is replayed as it is until somebody creates the table; with nothing held, a request is only sent
        for a table resolved, or created, in this call. */
    method Write(batch: Batch, offsets: Option<seq<Range>>, ghost since: nat) returns (r: Outcome<nat, Exn>)
      requires Valid() && Settled() && HeldFor(IdentityOf(offsets), batch.rows) && Tabular(batch)
      modifies lake, `table, `tableUuid, `liveColumns, `liveInfo, `liveInfoReadAt, `reconciledSpecs
      modifies `prepared, `preparedRows, `preparedOffsets, `preparedSends
      modifies `orphans, `filesWritten, `ledger, `prepares
      ensures Valid() && (r.Ok? || IsRetryable(r.error) ==> Settled())
      ensures HeldFor(IdentityOf(offsets), batch.rows)
      ensures Served(transform, cfg, old(lake.st), lake.st, IdentityOf(offsets), batch.rows)
      ensures INSERTED_AT in batch.columns ==> r == Raise(BadValue) && lake.st == old(lake.st)
      ensures Screen(batch) == Ok(None) ==> r == Ok(0) && lake.st == old(lake.st) && prepared == old(prepared)
      ensures r.Ok? && Screen(batch) != Ok(None)
              ==> prepared.None? && Landed(transform, cfg, lake.st, IdentityOf(offsets), batch.rows, r.value)
      ensures Guarded(old(lake.st), old(Holding(IdentityOf(offsets))), lake.st, Holding(IdentityOf(offsets)),
                      since, IdentityOf(offsets), r.Ok? && Screen(batch) != Ok(None))
      ensures old(Holding(IdentityOf(offsets))).Some? && r.Raise? && StillGone(old(lake.st), lake.st)
              ==> prepared == old(prepared)
      ensures old(Holding(IdentityOf(offsets))).Some? && r.Raise? && old(table).None? ==> table.None?
      ensures old(Holding(IdentityOf(offsets))).None? ==> BuiltSince(old(lake.st), lake.st)
      ensures old(Holding(IdentityOf(offsets))).None? && old(table).None? ==> Reensured(old(lake.st), lake.st)
      ensures old(ledger) <= ledger
      ensures Screen(batch).Ok? && Screen(batch).value.Some? && old(Holding(IdentityOf(offsets))).None?
              && old(Unspoilt(Screen(batch).value.value, IdentityOf(offsets)))
              ==> r == Ok(|batch.rows|)
      ensures lake.calm && Screen(batch).Ok? && Screen(batch).value.Some? && old(Holding(IdentityOf(offsets))).Some?
              && Publishable(old(lake.st), old(Holding(IdentityOf(offsets))).value)
              ==> r == Ok(|batch.rows|)
      ensures Screen(batch).Ok? && Screen(batch).value.Some? && old(Holding(IdentityOf(offsets))).None? ==>
                orphans[Superseded] == old(orphans[Superseded]) + Size(old(prepared))
      ensures old(Unclaimed(IdentityOf(offsets)))
              ==> orphans[Superseded] == old(orphans[Superseded])
                  && (IdentityOf(offsets).Some? ==> Unclaimed(IdentityOf(offsets)))
    {
      var identity := IdentityOf(offsets);
      var columns := Screen(batch);
      ScreenExactly(batch);
      if columns.Raise? || columns.value.None? {
        EvolvesReflexive(lake.st);
        IdleGuards(lake.st, lake.st, Holding(identity), since, identity);
        return if columns.Raise? then Raise(columns.error) else Ok(0);
      }
      r := WriteRows(columns.value.value, batch.rows, identity, since);
    }

    /** Nothing is held that belongs to another flush. */
    predicate Unclaimed(identity: Option<seq<Range>>)
      reads `prepared, `preparedOffsets
    {
      prepared.None? || Holding(identity).Some?
    }

    /** Replay what is held for this identity, or give up whatever is held and start afresh. */
    method WriteRows(columns: set<string>, rows: seq<Row>, identity: Option<seq<Range>>, ghost since: nat)
      returns (r: Outcome<nat, Exn>)
      requires Valid() && Settled() && HeldFor(identity, rows) && Offers(columns, rows)
      modifies lake, `table, `tableUuid, `liveColumns, `liveInfo, `liveInfoReadAt, `reconciledSpecs
      modifies `prepared, `preparedRows, `preparedOffsets, `preparedSends
      modifies `orphans, `filesWritten, `ledger, `prepares
      ensures Valid() && (r.Ok? || IsRetryable(r.error) ==> Settled())
      ensures old(Holding(identity)).Some? && r.Raise? && StillGone(old(lake.st), lake.st) ==> prepared == old(prepared)
      ensures old(Holding(identity)).Some? && r.Raise? && old(table).None? ==> table.None?
      ensures old(Holding(identity)).None? ==> BuiltSince(old(lake.st), lake.st)
      ensures old(Holding(identity)).None? && old(table).None? ==> Reensured(old(lake.st), lake.st)
      ensures HeldFor(identity, rows)
      ensures Served(transform, cfg, old(lake.st), lake.st, identity, rows)
      ensures r.Ok? ==> prepared.None? && Landed(transform, cfg, lake.st, identity, rows, r.value)
      ensures Guarded(old(lake.st), old(Holding(identity)), lake.st, Holding(identity), since, identity, r.Ok?)
      ensures old(ledger) <= ledger
      ensures orphans[Superseded] == old(orphans[Superseded])
                                     + (if old(Holding(identity)).Some? then 0 else Size(old(prepared)))
      ensures identity.Some? ==> Unclaimed(identity)
      ensures lake.calm && old(Holding(identity)).Some?
              && Publishable(old(lake.st), old(Holding(identity)).value)
              ==> r == Ok(|rows|)
      ensures old(Holding(identity)).None? && old(Unspoilt(columns, identity)) ==> r == Ok(|rows|)
    {
      if identity.Some? && prepared.Some? && preparedOffsets == identity {
        r := Replay(identity, rows, since);
        return;
      }
      r := WriteAnew(columns, rows, identity, since);
    }

    /** Give up whatever is held, and build and commit the flush. */
    method WriteAnew(columns: set<string>, rows: seq<Row>, identity: Option<seq<Range>>, ghost since: nat)
      returns (r: Outcome<nat, Exn>)
      requires Valid() && Settled() && Offers(columns, rows)
      modifies lake, `table, `tableUuid, `liveColumns, `liveInfo, `liveInfoReadAt, `reconciledSpecs
      modifies `prepared, `preparedRows, `preparedOffsets, `preparedSends
      modifies `orphans, `filesWritten, `ledger, `prepares
      ensures Valid() && (r.Ok? || IsRetryable(r.error) ==> Settled())
      ensures HeldFor(identity, rows)
      ensures Served(transform, cfg, old(lake.st), lake.st, identity, rows) && BuiltSince(old(lake.st), lake.st)
      ensures old(table).None? ==> Reensured(old(lake.st), lake.st)
      ensures Guarded(old(lake.st), None, lake.st, prepared, since, identity, r.Ok?)
      ensures r.Ok? ==> prepared.None? && Landed(transform, cfg, lake.st, identity, rows, r.value)
      ensures prepared.None? || preparedOffsets == identity
      ensures old(Unspoilt(columns, identity)) ==> r == Ok(|rows|)
      ensures old(ledger) <= ledger
      ensures orphans[Superseded] == old(orphans[Superseded]) + Size(old(prepared))
    {
      DiscardPrepared(Superseded);
      r := WriteFresh(columns, rows, identity, since);
    }

    /** Shutdown: what is still held is booked as an orphan, published or not. */
    method Close()
      requires FlushOk()
      modifies `prepared, `preparedRows, `preparedOffsets, `preparedSends, `orphans, `ledger
      ensures FlushOk() && prepared.None?
      ensures BookedOn(old(ledger), old(orphans))
    {
      DiscardPrepared(Shutdown);
    }
  }
}
