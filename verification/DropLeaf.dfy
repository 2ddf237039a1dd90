/**
 Dropping one partition leaf: a forged commit in one READ COMMITTED transaction, and its retries.

 Every statement of the transaction sees the catalog as committed when the statement starts. `Views` are
 those catalogs, `Judge` is what the transaction makes of them, and the properties hold for every way
 other sessions can run in between.
 */
module DropLeaf {
  import opened Wrappers

  /** A live row has no end. `vectors` counts its live delete vectors. */
  datatype Row = Row(begin: nat, end: Option<nat>, records: nat, bytes: nat, vectors: nat)

  /** One table of the catalog: the newest snapshot, the next file id, its file rows, its stats and the
      consumers' cursors. */
  datatype Db = Db(head: nat, next: nat, files: map<nat, Row>, records: int, bytes: int, cursors: multiset<nat>)

  predicate Live(db: Db, i: nat) {
    i in db.files && db.files[i].end.None?
  }

  // ------------------------------------------------------------------------------------------
  // The guard
  // ------------------------------------------------------------------------------------------

  /** `begin < min(cursor)` in three-valued logic: unknown when there is no cursor. */
  predicate Below(db: Db, begin: nat) {
    db.cursors != multiset{} && forall c :: c in db.cursors ==> begin < c
  }

  predicate NotBelow(db: Db, begin: nat) {
    exists c :: c in db.cursors && begin >= c
  }

  predicate Eligible(db: Db, guard: bool, begin: nat) { !guard || Below(db, begin) }

  // ------------------------------------------------------------------------------------------
  // Other sessions
  // ------------------------------------------------------------------------------------------

  /** What other sessions can do between two statements: move cursors, and commit. Every commit mints a
      snapshot; it may add rows, end live rows and change stats, and it revives nothing. */
  ghost predicate Later(a: Db, b: Db) {
    && a.head <= b.head
    && (a.head == b.head ==> b == a.(cursors := b.cursors))
    && Continues(a, b)
  }

  /** Rows are kept, and new ones have new ids. */
  predicate Continues(a: Db, b: Db) {
    && a.next <= b.next
    && (forall i :: i in a.files ==> i in b.files && SameFile(a.files[i], b.files[i]))
    && (forall i :: i in b.files && i !in a.files ==> a.next <= i)
  }

  predicate SameFile(r: Row, t: Row) {
    t.begin == r.begin && t.records == r.records && t.bytes == r.bytes && (r.end.Some? ==> t.end == r.end)
  }

  /** Once the transaction has won the snapshot id, no other commit can land: only cursors move. */
  predicate CursorsOnly(a: Db, b: Db) {
    b == a.(cursors := b.cursors)
  }

  /** The catalogs the statements see, in order. */
  datatype Views = Views(vectors: Db, base: Db, insert: Db, update: Db, classify: Db, recheck: Db, rewind: Db,
                         stats: Db, commit: Db)

  ghost predicate Interleaved(before: Db, v: Views) {
    && Later(before, v.vectors) && Later(v.vectors, v.base) && Later(v.base, v.insert)
    && CursorsOnly(v.insert, v.update) && CursorsOnly(v.update, v.classify) && CursorsOnly(v.classify, v.recheck)
    && CursorsOnly(v.recheck, v.rewind) && CursorsOnly(v.rewind, v.stats) && CursorsOnly(v.stats, v.commit)
  }

  // ------------------------------------------------------------------------------------------
  // The transaction
  // ------------------------------------------------------------------------------------------

  datatype Verdict = Retry | Abort | Skip | Done(snapshot: nat, ended: seq<nat>)

  /** The rows the UPDATE ends. */
  function Ended(db: Db, ids: seq<nat>, guard: bool): (u: seq<nat>)
    ensures forall i :: i in u <==> i in ids && Live(db, i) && Eligible(db, guard, db.files[i].begin)
  {
    if ids == [] then []
    else
      var last := ids[|ids| - 1];
      assert ids == ids[..|ids| - 1] + [last];
      Ended(db, ids[..|ids| - 1], guard)
      + (if Live(db, last) && Eligible(db, guard, db.files[last].begin) then [last] else [])
  }

  function Records(db: Db, ids: seq<nat>): nat {
    if ids == [] then 0
    else Records(db, ids[..|ids| - 1]) + (if ids[|ids| - 1] in db.files then db.files[ids[|ids| - 1]].records else 0)
  }

  function Bytes(db: Db, ids: seq<nat>): nat {
    if ids == [] then 0
    else Bytes(db, ids[..|ids| - 1]) + (if ids[|ids| - 1] in db.files then db.files[ids[|ids| - 1]].bytes else 0)
  }

  predicate HasVectors(db: Db, ids: seq<nat>) {
    exists k | 0 <= k < |ids| :: ids[k] in db.files && db.files[ids[k]].vectors > 0
  }

  /** A selected row the UPDATE skipped is still live, and the guard says `eligible` about it. */
  predicate Missed(db: Db, ids: seq<nat>, u: seq<nat>, guard: bool, eligible: bool) {
    exists k | 0 <= k < |ids| ::
      ids[k] !in u && Live(db, ids[k]) && Eligible(db, guard, db.files[ids[k]].begin) == eligible
  }

  /** Eligible at the classification and still at the recheck. */
  predicate MissedTwice(a: Db, b: Db, ids: seq<nat>, u: seq<nat>, guard: bool) {
    exists k | 0 <= k < |ids| ::
      && ids[k] !in u && Live(a, ids[k]) && Eligible(a, guard, a.files[ids[k]].begin)
      && Live(b, ids[k]) && Eligible(b, guard, b.files[ids[k]].begin)
  }

  predicate Rewound(db: Db, u: seq<nat>, guard: bool) {
    guard && exists k | 0 <= k < |u| :: u[k] in db.files && NotBelow(db, db.files[u[k]].begin)
  }

  /** The decisions of the transaction, in order. */
  function Decide(vectors: bool, lost: bool, missed: bool, missedTwice: bool, ineligible: bool, rewound: bool,
                  short: bool, snapshot: nat, u: seq<nat>): Verdict
  {
    if vectors then Abort
    else if lost then Retry
    else if missed then (if missedTwice then Abort else Skip)
    else if ineligible || u == [] || rewound then Skip
    else if short then Abort
    else Done(snapshot, u)
  }

  /** The stats cannot give up this much and stay positive. */
  predicate Short(db: Db, rows: nat, bytes: nat) {
    db.records < rows || db.bytes < bytes || db.records - rows <= 0
  }

  function Judge(v: Views, ids: seq<nat>, guard: bool): Verdict {
    var u := Ended(v.update, ids, guard);
    Decide(HasVectors(v.vectors, ids), v.insert.head != v.base.head,
           Missed(v.classify, ids, u, guard, true), MissedTwice(v.classify, v.recheck, ids, u, guard),
           Missed(v.classify, ids, u, guard, false), Rewound(v.rewind, u, guard),
           Short(v.stats, Records(v.update, u), Bytes(v.update, u)), v.base.head + 1, u)
  }

  /** The catalog once the transaction has committed. */
  function Committed(db: Db, snapshot: nat, u: seq<nat>): Db {
    db.(head := snapshot, next := db.next + 1,
        files := map i | i in db.files :: if i in u then db.files[i].(end := Some(snapshot)) else db.files[i],
        records := db.records - Records(db, u),
        bytes := db.bytes - Bytes(db, u))
  }

  lemma {:induction false} SameSums(a: Db, b: Db, u: seq<nat>)
    requires forall i :: i in u ==> i in a.files && i in b.files && SameFile(a.files[i], b.files[i])
    ensures Records(a, u) == Records(b, u) && Bytes(a, u) == Bytes(b, u)
  {
    if u != [] {
      assert u == u[..|u| - 1] + [u[|u| - 1]];
      SameSums(a, b, u[..|u| - 1]);
    }
  }

  predicate Distinct(ids: seq<nat>) {
    forall j, k :: 0 <= j < k < |ids| ==> ids[j] != ids[k]
  }

  /** A transaction that commits: it took the next snapshot id, no selected row is live afterwards, the ones it
      ended were live and below every cursor its UPDATE saw, it changed no other row, and the stats fell by
      exactly what it ended. An ended row has a live delete vector exactly if it had one at the baseline read; none
      has one if nobody committed between the check and that read. */
  lemma DropIsWhole(before: Db, v: Views, ids: seq<nat>, guard: bool)
    requires Interleaved(before, v) && Judge(v, ids, guard).Done?
    ensures var d := Judge(v, ids, guard);
      var after := Committed(v.commit, d.snapshot, d.ended);
      && d.snapshot == v.commit.head + 1 && after.head == d.snapshot && after.next == v.commit.next + 1
      && (forall i :: i in d.ended ==> after.files[i] == v.commit.files[i].(end := Some(d.snapshot)))
      && after.files.Keys == v.commit.files.Keys && after.cursors == v.commit.cursors
      && (forall i :: i in ids ==> !Live(after, i))
      && (forall i :: i in d.ended ==> i in ids && Live(v.commit, i)
                                       && (guard ==> v.update.cursors != multiset{})
                                       && (guard ==> forall c :: c in v.update.cursors || c in v.rewind.cursors ==>
                                             v.commit.files[i].begin < c))
      && (forall i :: i in v.commit.files && i !in d.ended ==> after.files[i] == v.commit.files[i])
      && after.records == v.commit.records - Records(v.commit, d.ended) && after.records > 0
      && after.bytes == v.commit.bytes - Bytes(v.commit, d.ended) && after.bytes >= 0
      && (HasVectors(after, d.ended) <==> HasVectors(v.base, d.ended))
      && (v.vectors.head == v.base.head ==> !HasVectors(after, d.ended))
  {
    var d := Judge(v, ids, guard);
    VectorsAreTheBaseline(before, v, ids, guard);
    assert v.commit == v.update.(cursors := v.commit.cursors);
    SameSums(v.update, v.commit, d.ended);
    SkippedNotLive(v.classify, ids, d.ended, guard);
    forall i | i in d.ended ensures guard ==> !NotBelow(v.rewind, v.commit.files[i].begin) {
      var k :| 0 <= k < |d.ended| && d.ended[k] == i;
    }
  }

  // ------------------------------------------------------------------------------------------
  // What each answer means
  // ------------------------------------------------------------------------------------------

  /** A selected row had a live delete vector when that was checked. */
  predicate VectorSeen(v: Views, ids: seq<nat>) {
    exists i | i in ids && i in v.vectors.files :: v.vectors.files[i].vectors > 0
  }

  /** The next snapshot id was still free. */
  predicate Won(v: Views) { v.insert.head == v.base.head }

  /** A selected live row was not below every cursor when the UPDATE looked. */
  predicate Held(v: Views, ids: seq<nat>, guard: bool) {
    guard && exists i | i in ids && i in v.update.files ::
      v.update.files[i].end.None? && !Below(v.update, v.update.files[i].begin)
  }

  /** And was below them at both later looks. */
  predicate HeldInError(v: Views, ids: seq<nat>, guard: bool) {
    guard && exists i | i in ids && i in v.update.files ::
      var begin := v.update.files[i].begin;
      v.update.files[i].end.None? && !Below(v.update, begin) && Below(v.classify, begin) && Below(v.recheck, begin)
  }

  predicate NoneLive(v: Views, ids: seq<nat>) {
    forall i | i in ids && i in v.update.files :: v.update.files[i].end.Some?
  }

  /** A cursor was moved back to a row the UPDATE ended. */
  predicate CursorBack(v: Views, ids: seq<nat>, guard: bool) {
    guard && exists i | i in ids && i in v.update.files ::
      var begin := v.update.files[i].begin;
      v.update.files[i].end.None? && Below(v.update, begin) && NotBelow(v.rewind, begin)
  }

  /** The selected rows that are live. */
  function LiveRows(db: Db, ids: seq<nat>): (live: seq<nat>)
    ensures forall i :: i in live <==> i in ids && i in db.files && db.files[i].end.None?
  {
    if ids == [] then []
    else
      var last := ids[|ids| - 1];
      assert ids == ids[..|ids| - 1] + [last];
      LiveRows(db, ids[..|ids| - 1]) + (if last in db.files && db.files[last].end.None? then [last] else [])
  }

  /** The stats cannot give up the live rows and keep a record. */
  predicate Overdrawn(v: Views, ids: seq<nat>) {
    var live := LiveRows(v.update, ids);
    v.stats.records <= Records(v.update, live) || v.stats.bytes < Bytes(v.update, live)
  }

  predicate Refused(v: Views, ids: seq<nat>, guard: bool) {
    Held(v, ids, guard) || NoneLive(v, ids) || CursorBack(v, ids, guard)
  }

  predicate MeansAbort(v: Views, ids: seq<nat>, guard: bool) {
    || VectorSeen(v, ids)
    || (Won(v) && (HeldInError(v, ids, guard) || (!Refused(v, ids, guard) && Overdrawn(v, ids))))
  }

  predicate MeansSkip(v: Views, ids: seq<nat>, guard: bool) {
    !VectorSeen(v, ids) && Won(v) && !HeldInError(v, ids, guard) && Refused(v, ids, guard)
  }

  predicate MeansDone(v: Views, ids: seq<nat>, guard: bool, snapshot: nat, ended: seq<nat>) {
    && !VectorSeen(v, ids) && Won(v) && !Refused(v, ids, guard) && !Overdrawn(v, ids)
    && snapshot == v.base.head + 1 && ended == LiveRows(v.update, ids)
  }

  /** What the answer is, from the catalogs the statements saw. */
  ghost predicate Means(v: Views, ids: seq<nat>, guard: bool, verdict: Verdict) {
    match verdict
    case Retry => !VectorSeen(v, ids) && !Won(v)
    case Abort => MeansAbort(v, ids, guard)
    case Skip => MeansSkip(v, ids, guard)
    case Done(snapshot, ended) => MeansDone(v, ids, guard, snapshot, ended)
  }

  /** The transaction gives each answer exactly in its case: there is one, and it is the one given. */
  lemma VerdictExactly(before: Db, v: Views, ids: seq<nat>, guard: bool, verdict: Verdict)
    requires Interleaved(before, v)
    ensures Judge(v, ids, guard) == verdict <==> Means(v, ids, guard, verdict)
  {
    JudgeMeans(before, v, ids, guard);
    if Means(v, ids, guard, verdict) {
      OneMeaning(v, ids, guard, verdict, Judge(v, ids, guard));
    }
  }

  lemma OneMeaning(v: Views, ids: seq<nat>, guard: bool, a: Verdict, b: Verdict)
    requires Means(v, ids, guard, a) && Means(v, ids, guard, b)
    ensures a == b
  {
    MissedTwiceIsHeld(v, ids, guard);
  }

  lemma JudgeMeans(before: Db, v: Views, ids: seq<nat>, guard: bool)
    requires Interleaved(before, v)
    ensures Means(v, ids, guard, Judge(v, ids, guard))
  {
    SeenVectors(v.vectors, ids);
    HeldRows(v, ids, guard);
    BackCursors(v, ids, guard);
    if !Held(v, ids, guard) {
      AllLiveEnded(v.update, ids, guard);
    }
    MissedTwiceIsHeld(v, ids, guard);
  }

  lemma SeenVectors(db: Db, ids: seq<nat>)
    ensures HasVectors(db, ids) <==> exists i | i in ids && i in db.files :: db.files[i].vectors > 0
  {
    if i :| i in ids && i in db.files && db.files[i].vectors > 0 {
      var k :| 0 <= k < |ids| && ids[k] == i;
    }
  }

  /** A row the UPDATE left alone while live is one the guard held; the classification may see it either way. */
  lemma HeldRows(v: Views, ids: seq<nat>, guard: bool)
    requires CursorsOnly(v.update, v.classify)
    ensures var u := Ended(v.update, ids, guard);
      && (Missed(v.classify, ids, u, guard, true) || Missed(v.classify, ids, u, guard, false) <==> Held(v, ids, guard))
      && (!Held(v, ids, guard) ==> (u == [] <==> NoneLive(v, ids)))
  {
    var u := Ended(v.update, ids, guard);
    if Held(v, ids, guard) {
      var i :| i in ids && i in v.update.files && v.update.files[i].end.None?
               && !Below(v.update, v.update.files[i].begin);
      var k :| 0 <= k < |ids| && ids[k] == i;
      assert ids[k] !in u && Live(v.classify, ids[k]);
    }
    if u != [] { assert u[0] in u; }
  }

  lemma BackCursors(v: Views, ids: seq<nat>, guard: bool)
    requires CursorsOnly(v.update, v.classify) && CursorsOnly(v.classify, v.recheck) && CursorsOnly(v.recheck, v.rewind)
    ensures Rewound(v.rewind, Ended(v.update, ids, guard), guard) <==> CursorBack(v, ids, guard)
  {
    var u := Ended(v.update, ids, guard);
    if CursorBack(v, ids, guard) {
      var i :| i in ids && i in v.update.files && v.update.files[i].end.None?
               && Below(v.update, v.update.files[i].begin) && NotBelow(v.rewind, v.update.files[i].begin);
      assert i in u;
      var k :| 0 <= k < |u| && u[k] == i;
    }
    if Rewound(v.rewind, u, guard) {
      var k :| 0 <= k < |u| && u[k] in v.rewind.files && NotBelow(v.rewind, v.rewind.files[u[k]].begin);
      assert u[k] in u;
    }
  }

  lemma MissedTwiceIsHeld(v: Views, ids: seq<nat>, guard: bool)
    ensures HeldInError(v, ids, guard) ==> Held(v, ids, guard)
    ensures CursorsOnly(v.update, v.classify) && CursorsOnly(v.classify, v.recheck) ==>
      var u := Ended(v.update, ids, guard);
      && (MissedTwice(v.classify, v.recheck, ids, u, guard) <==> HeldInError(v, ids, guard))
      && (MissedTwice(v.classify, v.recheck, ids, u, guard) ==> Missed(v.classify, ids, u, guard, true))
  {
    var u := Ended(v.update, ids, guard);
    if HeldInError(v, ids, guard) {
      var i :| i in ids && i in v.update.files && v.update.files[i].end.None?
               && !Below(v.update, v.update.files[i].begin)
               && Below(v.classify, v.update.files[i].begin) && Below(v.recheck, v.update.files[i].begin);
      var k :| 0 <= k < |ids| && ids[k] == i;
      assert ids[k] !in u;
    }
  }

  lemma {:induction false} AllLiveEnded(db: Db, ids: seq<nat>, guard: bool)
    requires forall i :: i in ids && Live(db, i) ==> Eligible(db, guard, db.files[i].begin)
    ensures Ended(db, ids, guard) == LiveRows(db, ids)
  {
    if ids != [] {
      assert ids == ids[..|ids| - 1] + [ids[|ids| - 1]];
      AllLiveEnded(db, ids[..|ids| - 1], guard);
    }
  }

  /** Undisturbed, a leaf with a live row is dropped exactly if none of its rows has a delete vector, its live rows
      are below every cursor where that is asked for, and the stats cover them. */
  lemma UndisturbedDrop(db: Db, ids: seq<nat>, guard: bool)
    requires exists i :: i in ids && i in db.files && db.files[i].end.None?
    ensures Judge(Fill(db), ids, guard) == Done(db.head + 1, LiveRows(db, ids))
            <==> && (forall i :: i in ids && i in db.files ==> db.files[i].vectors == 0)
                 && (guard ==> forall i :: i in ids && i in db.files && db.files[i].end.None? ==>
                                 db.cursors != multiset{} && forall c :: c in db.cursors ==> db.files[i].begin < c)
                 && db.records > Records(db, LiveRows(db, ids)) && db.bytes >= Bytes(db, LiveRows(db, ids))
  {
    FillIsInterleaved(db);
    VerdictExactly(db, Fill(db), ids, guard, Done(db.head + 1, LiveRows(db, ids)));
    FillMeans(db, ids, guard);
  }

  lemma FillMeans(db: Db, ids: seq<nat>, guard: bool)
    ensures VectorSeen(Fill(db), ids) <==> exists i :: i in ids && i in db.files && db.files[i].vectors > 0
    ensures Held(Fill(db), ids, guard) <==>
              guard && exists i :: i in ids && i in db.files && db.files[i].end.None? && !Below(db, db.files[i].begin)
    ensures !CursorBack(Fill(db), ids, guard) && Won(Fill(db))
    ensures Overdrawn(Fill(db), ids)
            <==> db.records <= Records(db, LiveRows(db, ids)) || db.bytes < Bytes(db, LiveRows(db, ids))
  {
  }

  lemma FillIsInterleaved(db: Db)
    ensures Interleaved(db, Fill(db))
  {
    assert Later(db, db) && CursorsOnly(db, db);
  }

  // ------------------------------------------------------------------------------------------
  // The stats
  // ------------------------------------------------------------------------------------------

  /** Records and bytes of the live rows with ids below `n`. */
  function LiveRecords(files: map<nat, Row>, n: nat): nat {
    if n == 0 then 0
    else LiveRecords(files, n - 1) + (if n - 1 in files && files[n - 1].end.None? then files[n - 1].records else 0)
  }

  function LiveBytes(files: map<nat, Row>, n: nat): nat {
    if n == 0 then 0
    else LiveBytes(files, n - 1) + (if n - 1 in files && files[n - 1].end.None? then files[n - 1].bytes else 0)
  }

  lemma {:induction false} EndOne(files: map<nat, Row>, n: nat, i: nat, snapshot: nat)
    requires i in files && files[i].end.None?
    ensures var after := files[i := files[i].(end := Some(snapshot))];
      && LiveRecords(after, n) == LiveRecords(files, n) - (if i < n then files[i].records else 0)
      && LiveBytes(after, n) == LiveBytes(files, n) - (if i < n then files[i].bytes else 0)
  {
    if n > 0 { EndOne(files, n - 1, i, snapshot); }
  }

  /** The rows taken off the stats are the live rows that are gone: by as much as the stats were off before, they
      are off afterwards. */
  lemma {:induction false} StatsFollowRows(db: Db, snapshot: nat, u: seq<nat>, n: nat)
    requires Distinct(u) && forall i :: i in u ==> Live(db, i) && i < n
    ensures var after := Committed(db, snapshot, u);
      && after.records - LiveRecords(after.files, n) == db.records - LiveRecords(db.files, n)
      && after.bytes - LiveBytes(after.files, n) == db.bytes - LiveBytes(db.files, n)
  {
    if u == [] {
      assert Committed(db, snapshot, u).files == db.files;
    } else {
      var rest, last := u[..|u| - 1], u[|u| - 1];
      assert u == rest + [last];
      assert forall i :: i in rest ==> i in u;
      assert last in u;
      StatsFollowRows(db, snapshot, rest, n);
      EndLast(db, snapshot, u);
      EndOne(Committed(db, snapshot, rest).files, n, last, snapshot);
    }
  }

  lemma EndLast(db: Db, snapshot: nat, u: seq<nat>)
    requires u != [] && Distinct(u) && forall i :: i in u ==> Live(db, i)
    ensures var rest, last := u[..|u| - 1], u[|u| - 1];
      var before, after := Committed(db, snapshot, rest), Committed(db, snapshot, u);
      && last in before.files && before.files[last] == db.files[last]
      && after.files == before.files[last := before.files[last].(end := Some(snapshot))]
      && after.records == before.records - db.files[last].records && after.bytes == before.bytes - db.files[last].bytes
  {
    var rest, last := u[..|u| - 1], u[|u| - 1];
    assert u == rest + [last];
    assert last in u && last !in rest;
  }

  lemma VectorsAreTheBaseline(before: Db, v: Views, ids: seq<nat>, guard: bool)
    requires Interleaved(before, v) && Judge(v, ids, guard).Done?
    ensures var d := Judge(v, ids, guard); var after := Committed(v.commit, d.snapshot, d.ended);
      && (HasVectors(after, d.ended) <==> HasVectors(v.base, d.ended))
      && (v.vectors.head == v.base.head ==> !HasVectors(after, d.ended))
  {
    var u := Judge(v, ids, guard).ended;
    var after := Committed(v.commit, Judge(v, ids, guard).snapshot, u);
    assert v.commit.files == v.base.files;
    assert forall i :: i in after.files ==> after.files[i].vectors == v.base.files[i].vectors;
    if v.vectors.head == v.base.head {
      forall k | 0 <= k < |u| ensures !(u[k] in after.files && after.files[u[k]].vectors > 0) {
        assert u[k] in u;
        var j :| 0 <= j < |ids| && ids[j] == u[k];
      }
    }
  }

  lemma SkippedNotLive(db: Db, ids: seq<nat>, u: seq<nat>, guard: bool)
    requires !Missed(db, ids, u, guard, true) && !Missed(db, ids, u, guard, false)
    ensures forall i :: i in ids && i !in u ==> !Live(db, i)
  {
    forall i | i in ids && i !in u ensures !Live(db, i) {
      var k :| 0 <= k < |ids| && ids[k] == i;
    }
  }

  lemma {:induction false} EndedDistinct(db: Db, ids: seq<nat>, guard: bool)
    requires Distinct(ids)
    ensures Distinct(Ended(db, ids, guard))
  {
    if ids != [] {
      EndedDistinct(db, ids[..|ids| - 1], guard);
    }
  }

  /** A commit that gives one row a live delete vector. */
  function WithVector(db: Db, i: nat): Db
    requires i in db.files
  {
    db.(head := db.head + 1, files := db.files[i := db.files[i].(vectors := 1)])
  }

  /** The catalogs the statements see if that commit lands right after the check. */
  function LateVector(db: Db, i: nat): Views
    requires i in db.files
  {
    Fill(WithVector(db, i)).(vectors := db)
  }

  lemma {:induction false} SameEnded(db: Db, i: nat, ids: seq<nat>, guard: bool)
    requires i in db.files
    ensures Ended(WithVector(db, i), ids, guard) == Ended(db, ids, guard)
  {
    if ids != [] {
      SameEnded(db, i, ids[..|ids| - 1], guard);
    }
  }

  /** Whenever a drop would go through undisturbed, a delete vector committed between its check and its baseline
      read goes unnoticed: the drop ends a row that has one. */
  lemma LateVectorIsMissed(db: Db, ids: seq<nat>, guard: bool)
    requires Judge(Fill(db), ids, guard).Done?
    ensures var u := Ended(db, ids, guard);
      && u != [] && u[0] in db.files
      && var v := LateVector(db, u[0]);
         && Interleaved(db, v) && Judge(v, ids, guard) == Done(db.head + 2, u)
         && HasVectors(v.commit, u)
  {
    var u := Ended(db, ids, guard);
    assert u[0] in u;
    var b := WithVector(db, u[0]);
    SameEnded(db, u[0], ids, guard);
    SameSums(db, b, u);
    SameMissed(db, u[0], ids, u, guard);
    LateJudged(db, b, ids, u, guard);
    LateIsInterleaved(db, u[0]);
  }

  lemma LateIsInterleaved(db: Db, i: nat)
    requires i in db.files
    ensures Interleaved(db, LateVector(db, i))
  {
    var b := WithVector(db, i);
    assert Later(db, db) && Later(db, b) && Later(b, b) && CursorsOnly(b, b);
  }

  lemma LateJudged(db: Db, b: Db, ids: seq<nat>, u: seq<nat>, guard: bool)
    requires Judge(Fill(db), ids, guard).Done? && u == Ended(db, ids, guard) == Ended(b, ids, guard)
    requires Records(b, u) == Records(db, u) && Bytes(b, u) == Bytes(db, u) && b.head == db.head + 1
    requires Short(b, Records(b, u), Bytes(b, u)) == Short(db, Records(db, u), Bytes(db, u))
    requires forall eligible :: Missed(b, ids, u, guard, eligible) == Missed(db, ids, u, guard, eligible)
    requires Rewound(b, u, guard) == Rewound(db, u, guard)
    ensures Judge(Fill(b).(vectors := db), ids, guard) == Done(db.head + 2, u)
  {
  }

  lemma SameMissed(db: Db, i: nat, ids: seq<nat>, u: seq<nat>, guard: bool)
    requires i in db.files
    ensures forall eligible :: Missed(WithVector(db, i), ids, u, guard, eligible) == Missed(db, ids, u, guard, eligible)
    ensures Rewound(WithVector(db, i), u, guard) == Rewound(db, u, guard)
  {
    var b := WithVector(db, i);
    assert forall j :: Live(b, j) == Live(db, j);
    assert forall j :: j in b.files ==> b.files[j].begin == db.files[j].begin;
  }

  // ------------------------------------------------------------------------------------------
  // The session
  // ------------------------------------------------------------------------------------------

  datatype Result = Dropped(snapshot: nat, ended: seq<nat>) | Skipped | Aborted | Retryable

  /** How a caller learns of an answer. */
  function Reply(verdict: Verdict): Result {
    match verdict
    case Retry => Retryable
    case Abort => Aborted
    case Skip => Skipped
    case Done(snapshot, ended) => Dropped(snapshot, ended)
  }

  /** Each row of `ended` is there, ended for good and taken off the stats once. */
  ghost predicate Booked(db: Db, ended: seq<nat>, takenRecords: int, takenBytes: int) {
    && Distinct(ended) && (forall i :: i in ended ==> i in db.files && !Live(db, i))
    && takenRecords == Records(db, ended) && takenBytes == Bytes(db, ended)
  }

  lemma BookedLater(a: Db, b: Db, ended: seq<nat>, takenRecords: int, takenBytes: int)
    requires Booked(a, ended, takenRecords, takenBytes) && Continues(a, b)
    ensures Booked(b, ended, takenRecords, takenBytes)
  {
    SameSums(a, b, ended);
  }

  lemma BookedEnd(db: Db, ended: seq<nat>, takenRecords: int, takenBytes: int, snapshot: nat, u: seq<nat>)
    requires Booked(db, ended, takenRecords, takenBytes)
    requires Distinct(u) && forall i :: i in u ==> Live(db, i)
    ensures Booked(Committed(db, snapshot, u), ended + u, takenRecords + Records(db, u), takenBytes + Bytes(db, u))
  {
    var after := Committed(db, snapshot, u);
    SumsAppend(after, ended, u);
    SameSums(db, after, ended);
    EndedSums(db, snapshot, u, u);
    assert forall j :: 0 <= j < |ended| ==> ended[j] !in u;
  }

  /** Ending rows changes no count. */
  lemma {:induction false} EndedSums(db: Db, snapshot: nat, u: seq<nat>, part: seq<nat>)
    ensures Records(Committed(db, snapshot, u), part) == Records(db, part)
    ensures Bytes(Committed(db, snapshot, u), part) == Bytes(db, part)
  {
    if part != [] {
      EndedSums(db, snapshot, u, part[..|part| - 1]);
    }
  }

  /** The catalog and the books once the transaction is committed: its rows are ended, and one of them has a live
      delete vector exactly if it had one at the baseline read. */
  ghost predicate Landed(v: Views, ids: seq<nat>, guard: bool, db: Db, was: seq<nat>, ended: seq<nat>) {
    var u := Judge(v, ids, guard);
    && u.Done? && db == Committed(v.commit, u.snapshot, u.ended) && ended == was + u.ended
    && (HasVectors(db, u.ended) <==> HasVectors(v.base, u.ended))
  }

  lemma EndedLive(before: Db, v: Views, ids: seq<nat>, guard: bool)
    requires Interleaved(before, v) && Distinct(ids)
    ensures var u := Ended(v.update, ids, guard);
      Distinct(u) && forall i :: i in u ==> Live(v.commit, i)
  {
    EndedDistinct(v.update, ids, guard);
    assert v.commit.files == v.update.files;
  }

  lemma IsLanded(before: Db, v: Views, ids: seq<nat>, guard: bool, ended: seq<nat>)
    requires Interleaved(before, v) && Judge(v, ids, guard).Done?
    ensures var d := Judge(v, ids, guard);
      && d.ended == Ended(v.update, ids, guard)
      && Landed(v, ids, guard, Committed(v.commit, d.snapshot, d.ended), ended, ended + d.ended)
  {
    VectorsAreTheBaseline(before, v, ids, guard);
  }

  lemma EndBooks(before: Db, v: Views, ids: seq<nat>, guard: bool, d: Verdict, ended: seq<nat>,
                 takenRecords: int, takenBytes: int)
    requires Interleaved(before, v) && Distinct(ids) && d == Judge(v, ids, guard) && d.Done?
    requires Booked(v.commit, ended, takenRecords, takenBytes)
    ensures Booked(Committed(v.commit, d.snapshot, d.ended), ended + d.ended,
                   takenRecords + Records(v.commit, d.ended), takenBytes + Bytes(v.commit, d.ended))
    ensures Landed(v, ids, guard, Committed(v.commit, d.snapshot, d.ended), ended, ended + d.ended)
  {
    IsLanded(before, v, ids, guard, ended);
    EndedLive(before, v, ids, guard);
    BookedEnd(v.commit, ended, takenRecords, takenBytes, d.snapshot, d.ended);
  }

  /** The server; while it is `quiet`, nobody else does anything and no session fails. `ended` are the rows ever
      ended by this tool and `taken` what it took off the stats for them. */
  class Postgres {
    const quiet: bool
    var db: Db
    ghost var ended: seq<nat>
    ghost var takenRecords: int
    ghost var takenBytes: int

    /** Each row ended by the tool was ended once, is gone for good, and was taken off the stats once. */
    ghost predicate Valid()
      reads this
    {
      Booked(db, ended, takenRecords, takenBytes)
    }

    constructor (db: Db, quiet: bool)
      ensures Valid() && this.db == db && this.quiet == quiet && ended == []
    {
      this.db, this.quiet := db, quiet;
      ended, takenRecords, takenBytes := [], 0, 0;
    }

    /** Other sessions, between two statements. */
    method Others(committing: bool)
      requires Valid()
      modifies `db
      ensures Valid() && Later(old(db), db)
      ensures !committing ==> CursorsOnly(old(db), db)
      ensures quiet ==> db == old(db)
    {
      if quiet {
        return;
      }
      var next: Db := *;
      if !(committing && db.head < next.head && Continues(db, next)) {
        next := db.(cursors := next.cursors);
      }
      BookedLater(db, next, ended, takenRecords, takenBytes);
      db := next;
    }

    /** The statements up to the INSERT that wins or loses the next snapshot id. */
    method Open(ids: seq<nat>) returns (early: Option<Result>, ghost v: Views, ghost broken: bool)
      requires Valid()
      modifies `db
      ensures Valid() && Interleaved(old(db), v) && db == v.commit == v.insert
      ensures early.None? ==> !HasVectors(v.vectors, ids) && v.insert.head == v.base.head
      ensures early == Some(Aborted) <==> HasVectors(v.vectors, ids)
      ensures early.Some? ==> early.value.Aborted? || early.value.Retryable?
      ensures early == Some(Retryable) && !broken ==> v.insert.head != v.base.head
      ensures broken ==> early == Some(Retryable)
      ensures quiet ==> !broken && db == old(db) && v == Fill(db)
    {
      broken := false;
      Others(true);
      v := Fill(db);
      var failed: bool := *;
      if HasVectors(db, ids) {
        return Some(Aborted), v, false;
      }
      Others(true);
      var base := db.head;
      v := Views(v.vectors, db, db, db, db, db, db, db, db);
      Others(true);
      v := Views(v.vectors, v.base, db, db, db, db, db, db, db);
      failed := failed && !quiet;
      broken := failed;
      early := if failed || db.head != base then Some(Retryable) else None;
    }

    /** One transaction. An error of the session, a lost race for the snapshot id and a lost acknowledgement read
        the same; `broken` says that it was not the race, and only a commit not acknowledged is `applied` all the
        same. */
    method DropLeafTxn(ids: seq<nat>, guard: bool)
      returns (r: Result, ghost v: Views, ghost applied: bool, ghost broken: bool)
      requires Valid() && Distinct(ids)
      modifies this
      ensures Valid() && Interleaved(old(db), v)
      ensures !applied ==> db == v.commit && ended == old(ended)
      ensures applied ==> Landed(v, ids, guard, db, old(ended), ended)
      ensures r.Dropped? ==> applied && Judge(v, ids, guard) == Done(r.snapshot, r.ended)
      ensures r.Skipped? ==> !applied && Judge(v, ids, guard) == Skip
      ensures r.Aborted? ==> !applied && Judge(v, ids, guard) == Abort
      ensures Means(v, ids, guard, Judge(v, ids, guard))
      ensures r == if broken then Retryable else Reply(Judge(v, ids, guard))
      ensures quiet ==> !broken && v == Fill(old(db))
    {
      applied := false;
      var early;
      early, v, broken := Open(ids);
      if early.Some? {
        JudgeMeans(old(db), v, ids, guard);
        return early.value, v, false, broken;
      }
      var verdict;
      verdict, v := Work(v, ids, guard);
      JudgeMeans(old(db), v, ids, guard);
      var failed: bool := *;
      failed := failed && !quiet;
      if failed || !verdict.Done? {
        r := if failed then Retryable else if verdict.Abort? then Aborted else Skipped;
        return r, v, false, failed;
      }
      var lands: bool, acknowledged: bool := *, *;
      acknowledged := acknowledged || quiet;
      broken := !acknowledged;
      if lands || acknowledged {
        applied := true;
        End(old(db), v, verdict, ids, guard);
      }
      r := if acknowledged then Dropped(verdict.snapshot, verdict.ended) else Retryable;
    }

    /** The statements from the UPDATE to the commit. */
    method Work(ghost start: Views, ids: seq<nat>, guard: bool) returns (verdict: Verdict, ghost v: Views)
      requires Valid() && db == start.insert
      requires !HasVectors(start.vectors, ids) && start.insert.head == start.base.head
      modifies `db
      ensures Valid() && db == v.commit
      ensures v.vectors == start.vectors && v.base == start.base && v.insert == start.insert
      ensures CursorsOnly(v.insert, v.update) && CursorsOnly(v.update, v.classify) && CursorsOnly(v.classify, v.recheck)
              && CursorsOnly(v.recheck, v.rewind) && CursorsOnly(v.rewind, v.stats) && CursorsOnly(v.stats, v.commit)
      ensures verdict == Judge(v, ids, guard) && !verdict.Retry?
      ensures quiet && start == Fill(old(db)) ==> v == start
    {
      var snapshot := db.head + 1;
      Others(false);
      ghost var update := db;
      var u := Ended(db, ids, guard);
      var rows, bytes := Records(db, u), Bytes(db, u);
      Others(false);
      var classify := db;
      var eligible, ineligible := Missed(db, ids, u, guard, true), Missed(db, ids, u, guard, false);
      Others(false);
      ghost var recheck := db;
      var again := MissedTwice(classify, db, ids, u, guard);
      Others(false);
      ghost var rewind := db;
      var rewound := Rewound(db, u, guard);
      Others(false);
      v := Views(start.vectors, start.base, start.insert, update, classify, recheck, rewind, db, db);
      if eligible {
        verdict := if again then Abort else Skip;
      } else if ineligible || u == [] || rewound {
        verdict := Skip;
      } else if Short(db, rows, bytes) {
        verdict := Abort;
      } else {
        verdict := Done(snapshot, u);
      }
    }

    /** The commit reaches the catalog. */
    method End(ghost before: Db, ghost v: Views, verdict: Verdict, ids: seq<nat>, guard: bool)
      requires Valid() && db == v.commit && Distinct(ids) && Interleaved(before, v)
      requires verdict == Judge(v, ids, guard) && verdict.Done?
      modifies this
      ensures Valid() && Landed(v, ids, guard, db, old(ended), ended)
    {
      EndBooks(before, v, ids, guard, verdict, ended, takenRecords, takenBytes);
      takenRecords, takenBytes := takenRecords + Records(db, verdict.ended), takenBytes + Bytes(db, verdict.ended);
      ended := ended + verdict.ended;
      db := Committed(db, verdict.snapshot, verdict.ended);
    }

    /** Attempts until one drops, skips or aborts, or they are used up. However many acknowledgements were lost,
        the leaf was ended and taken off the stats at most once, as a whole. Undisturbed, the first answer is the
        one. */
    method DropLeafWithRetries(ids: seq<nat>, guard: bool) returns (r: Result)
      requires Valid() && Distinct(ids) && forall i :: i in ids ==> i < db.next
      modifies this
      ensures Valid() && !r.Retryable? && OnceWhole(old(ended), db, ended, ids, r)
      ensures quiet ==> r == Reply(Judge(Fill(old(db)), ids, guard))
    {
      var attempt := 0;
      r := Retryable;
      while attempt < MAX_ATTEMPTS && r.Retryable?
        invariant Valid() && OnceWhole(old(ended), db, ended, ids, r)
        invariant quiet ==> if attempt == 0 then db == old(db) && r.Retryable?
                            else r == Reply(Judge(Fill(old(db)), ids, guard)) && !r.Retryable?
      {
        r := Attempt(old(ended), ids, guard);
        attempt := attempt + 1;
      }
      if r.Retryable? {
        r := Aborted;
      }
    }

    method Attempt(ghost was: seq<nat>, ids: seq<nat>, guard: bool) returns (r: Result)
      requires Valid() && Distinct(ids) && OnceWhole(was, db, ended, ids, Retryable)
      modifies this
      ensures Valid() && OnceWhole(was, db, ended, ids, r)
      ensures quiet ==> r == Reply(Judge(Fill(old(db)), ids, guard)) && !r.Retryable?
    {
      ghost var before := db;
      ghost var v, applied, broken;
      r, v, applied, broken := DropLeafTxn(ids, guard);
      if applied {
        DropIsWhole(before, v, ids, guard);
      }
      if old(ended) != was {
        NothingToEndTwice(before, v, ids, guard);
      }
    }
  }

  /** Since `was`, nothing of the leaf was ended, or some of it, at once, and then no selected row is live. */
  ghost predicate OnceWhole(was: seq<nat>, db: Db, ended: seq<nat>, ids: seq<nat>, r: Result) {
    && (forall i :: i in ids ==> i < db.next)
    && was <= ended
    && (forall i :: i in ended[|was|..] ==> i in ids)
    && (ended == was || forall i :: i in ids ==> !Live(db, i))
    && (r.Dropped? ==> r.ended != [] && ended == was + r.ended)
  }

  const MAX_ATTEMPTS: nat := 50

  function Fill(db: Db): Views { Views(db, db, db, db, db, db, db, db, db) }

  lemma {:induction false} SumsAppend(db: Db, a: seq<nat>, b: seq<nat>)
    ensures Records(db, a + b) == Records(db, a) + Records(db, b)
    ensures Bytes(db, a + b) == Bytes(db, a) + Bytes(db, b)
  {
    if b == [] {
      assert a + b == a;
    } else {
      assert (a + b)[..|a + b| - 1] == a + b[..|b| - 1];
      SumsAppend(db, a, b[..|b| - 1]);
    }
  }

  /** Rows that are not live stay so until the transaction commits. */
  lemma StaysEnded(before: Db, v: Views, ids: seq<nat>)
    requires Interleaved(before, v) && forall i :: i in ids ==> i < before.next && !Live(before, i)
    ensures forall i :: i in ids ==> i < v.commit.next && !Live(v.commit, i) && !Live(v.update, i)
  {
  }

  lemma {:induction false} EndedNone(db: Db, ids: seq<nat>, guard: bool)
    requires forall i :: i in ids ==> !Live(db, i)
    ensures Ended(db, ids, guard) == []
  {
    if ids != [] {
      EndedNone(db, ids[..|ids| - 1], guard);
    }
  }

  /** A retry after a commit whose acknowledgement was lost finds nothing to end. */
  lemma NothingToEndTwice(before: Db, v: Views, ids: seq<nat>, guard: bool)
    requires Interleaved(before, v) && forall i :: i in ids ==> i < before.next && !Live(before, i)
    ensures !Judge(v, ids, guard).Done? && forall i :: i in ids ==> !Live(v.commit, i)
  {
    StaysEnded(before, v, ids);
    EndedNone(v.update, ids, guard);
  }
}
