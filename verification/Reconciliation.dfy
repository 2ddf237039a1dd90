/**
 The layout check: is the live table laid out as the configuration declares it.

 `Reconcile` is the verdict as a function of the shape read and of the shape a declaration
 brought back, and this module proves when a positive verdict means the declared layout.
 */
module Reconciliation {
  import opened Wrappers
  import opened Lake
  import opened Errors

  /** `HOGLAKE_PARTITION_BY` and `MILLPOND_SORT_BY`; an empty sequence is an unset variable. */
  datatype Config = Config(partitionBy: seq<Field>, sortBy: seq<string>)

  /** The configurations for which a positive verdict pins the partition spec (`AcceptedMeansDeclared`):
      the partition half is declared, or no sort-only declaration can happen. */
  predicate Binding(cfg: Config) {
    cfg.partitionBy != [] || cfg.sortBy == []
  }

  /** Every configured partition column exists in the table. */
  predicate PartitionResolves(cfg: Config, columns: set<string>) {
    forall i :: 0 <= i < |cfg.partitionBy| ==> cfg.partitionBy[i].column in columns
  }

  function Ascending(sortBy: seq<string>): seq<SortField> {
    seq(|sortBy|, i requires 0 <= i < |sortBy| => SortField(sortBy[i], "asc", "nulls_last"))
  }

  /** The configured sort order, or None when one of its columns is not in the table. */
  function WantSort(cfg: Config, columns: set<string>): Option<seq<SortField>> {
    if forall i :: 0 <= i < |cfg.sortBy| ==> cfg.sortBy[i] in columns
    then Some(Ascending(cfg.sortBy)) else None
  }

  function SortOr(want: Option<seq<SortField>>): seq<SortField> {
    match want
    case None => []
    case Some(fields) => fields
  }

  /** The post-condition on a declaration; a half that is not configured is not looked at. */
  function Verify(cfg: Config, info: Info): Outcome<Layout, Exn> {
    if !PartitionResolves(cfg, info.columns) then Raise(SinkError(false))
    else if cfg.partitionBy != [] && info.layout.partition != cfg.partitionBy then Raise(SinkError(false))
    else
      var want := WantSort(cfg, info.columns);
      if want.Some? && want.value != [] && info.layout.sort != want.value then Raise(SinkError(false))
      else Ok(info.layout)
  }

  datatype Need = Nothing | Both | SortOnly

  /** What the read shape calls for: an error, or a declaration of both halves, of the sort, or of nothing. */
  function Assess(cfg: Config, read: Info): Outcome<Need, Exn> {
    if !PartitionResolves(cfg, read.columns) then Raise(SinkError(false))
    else
      var live := read.layout;
      if live.partition != [] && live.partition != cfg.partitionBy then Raise(SinkError(false))
      else
        var want := WantSort(cfg, read.columns);
        if want.Some? && live.sort != [] && live.sort != want.value then Raise(SinkError(false))
        else if cfg.partitionBy != [] && live.partition == [] then Ok(Both)
        else if SortOr(want) != [] && live.sort == [] then Ok(SortOnly)
        else Ok(Nothing)
  }

  /** The layout a reconciliation records as checked, `after` being the shape its declaration adopted. */
  function Reconcile(cfg: Config, read: Info, after: Info): Outcome<Layout, Exn> {
    var need :- Assess(cfg, read);
    if need.Nothing? then Ok(read.layout) else Verify(cfg, after)
  }

  /** What the check asks of a table: the configured partition columns exist, and each half of the layout is unset or
      as configured, the sort only if its columns all exist. */
  predicate Compatible(cfg: Config, info: Info) {
    && (forall f | f in cfg.partitionBy :: f.column in info.columns)
    && (info.layout.partition == [] || info.layout.partition == cfg.partitionBy)
    && ((forall c | c in cfg.sortBy :: c in info.columns) ==>
          info.layout.sort == [] || info.layout.sort == Ascending(cfg.sortBy))
  }

  /** The layout of a compatible table once what it lacks is declared. */
  function Declared(cfg: Config, info: Info): Layout {
    Layout(cfg.partitionBy,
           if cfg.sortBy != [] && forall c | c in cfg.sortBy :: c in info.columns then Ascending(cfg.sortBy)
           else info.layout.sort)
  }

  /** The check refuses exactly the incompatible tables; declaring what a compatible one lacks, and nothing else,
      passes the check on the declaration. */
  lemma AcceptsExactly(cfg: Config, info: Info)
    ensures Assess(cfg, info).Ok? <==> Compatible(cfg, info)
    ensures Compatible(cfg, info) ==> Reconcile(cfg, info, info.(layout := Declared(cfg, info))).Ok?
    ensures Assess(cfg, info) == Ok(Nothing) <==> Compatible(cfg, info) && info.layout == Declared(cfg, info)
    ensures Assess(cfg, info) == Ok(SortOnly) ==> info.layout.partition == cfg.partitionBy
    ensures Compatible(cfg, info) ==> PartitionResolves(cfg, info.columns)
  {
    ResolvesMeans(cfg, info.columns);
    assert WantSort(cfg, info.columns).Some? <==> forall c | c in cfg.sortBy :: c in info.columns;
  }

  lemma ResolvesMeans(cfg: Config, columns: set<string>)
    ensures PartitionResolves(cfg, columns) <==> forall f | f in cfg.partitionBy :: f.column in columns
  {
  }

  /** Likewise a positive verdict pins the sort order, whatever another party declared in between, exactly if a sort
      order or no partitioning is configured. */
  lemma AcceptedMeansSorted(cfg: Config)
    ensures cfg.sortBy != [] || cfg.partitionBy == []
            <==> (forall read: Info, after: Info :: Sorts(cfg, read, after) && Reconcile(cfg, read, after).Ok?
                    ==> SortedAs(cfg.sortBy, Reconcile(cfg, read, after).value.sort))
  {
    if cfg.sortBy == [] && cfg.partitionBy != [] {
      var columns := set f | f in cfg.partitionBy :: f.column;
      var read := Info(0, columns, Layout([], []));
      var after := Info(0, columns, Layout(cfg.partitionBy, [SortField("id", "asc", "nulls_last")]));
      ResolvesMeans(cfg, columns);
      assert Sorts(cfg, read, after) && Reconcile(cfg, read, after) == Ok(after.layout);
    }
  }

  /** Sorted by these columns, in this order, ascending and nulls last. */
  predicate SortedAs(sortBy: seq<string>, sort: seq<SortField>) {
    && |sort| == |sortBy|
    && forall i :: 0 <= i < |sort| ==>
         sort[i].column == sortBy[i] && sort[i].direction == "asc" && sort[i].nulls == "nulls_last"
  }

  /** The configured sort columns exist before and after the declaration. */
  predicate Sorts(cfg: Config, read: Info, after: Info) {
    forall i :: 0 <= i < |cfg.sortBy| ==> cfg.sortBy[i] in read.columns && cfg.sortBy[i] in after.columns
  }

  /** A table accepted by the check is partitioned as configured, whatever another party declared
      between the read and the declaration, exactly if a partitioning or no sort order is configured. */
  lemma AcceptedMeansDeclared(cfg: Config)
    ensures Binding(cfg)
            <==> (forall read: Info, after: Info :: Reconcile(cfg, read, after).Ok?
                    ==> Reconcile(cfg, read, after).value.partition == cfg.partitionBy)
  {
    if cfg.partitionBy == [] && cfg.sortBy != [] {
      var (read, after) := ForeignSpecAccepted(cfg.sortBy, Field("team_id", "identity", None));
      assert Reconcile(cfg, read, after).value.partition != cfg.partitionBy;
    }
  }

  /** The race: an unpartitioned, unsorted table is read, an operator partitions it, the sort-only
      declaration adopts the result, and the check on it skips the unset partition half. */
  function ForeignSpecAccepted(sortBy: seq<string>, foreign: Field): (r: (Info, Info))
    requires sortBy != []
    ensures Reconcile(Config([], sortBy), r.0, r.1) == Ok(r.1.layout) && r.1.layout.partition == [foreign]
  {
    var columns := set i | 0 <= i < |sortBy| :: sortBy[i];
    (Info(0, columns, Layout([], [])), Info(0, columns, Layout([foreign], Ascending(sortBy))))
  }
}
