/**
 Dropping the inlined-data tables of DuckLake tables no retained snapshot can reach, page by page in key
 order, one transaction a page, with other sessions running between the statements.
 */
module InlineTables {
  import opened Wrappers
  import opened Names
  import opened FlushKey

  datatype Key = Key(table: int, version: int)
  datatype Entry = Entry(key: Key, name: string)

  /** A version of a DuckLake table, alive from `begin` until before `end`. */
  datatype Version = Version(table: int, begin: nat, end: Option<nat>)

  /** Retained snapshots and their bounds, table versions, the next table id, the registry in key order, and the
      Postgres tables with their row counts. */
  datatype Db = Db(snapshots: set<nat>, oldest: nat, newest: nat, versions: set<Version>, nextTable: int,
                   registry: seq<Entry>, heaps: map<string, nat>)

  predicate Before(a: Key, b: Key) { a.table < b.table || (a.table == b.table && a.version < b.version) }

  predicate Ascending(es: seq<Entry>) {
    forall i, j :: 0 <= i < j < |es| ==> Before(es[i].key, es[j].key)
  }

  predicate WellFormed(db: Db) {
    && db.oldest in db.snapshots && db.newest in db.snapshots
    && (forall s :: s in db.snapshots ==> db.oldest <= s <= db.newest)
    && (forall v :: v in db.versions ==> v.begin <= db.newest && v.table < db.nextTable)
    && Ascending(db.registry)
    && (forall i :: 0 <= i < |db.registry| ==> 0 <= db.registry[i].key.table < db.nextTable)
  }

  // ------------------------------------------------------------------------------------------
  // Orphans
  // ------------------------------------------------------------------------------------------

  /** The range overlap of the predicate. */
  predicate Reaches(db: Db, v: Version) {
    v.begin <= db.newest && (v.end.None? || v.end.value > db.oldest)
  }

  predicate Orphan(db: Db, table: int) {
    forall v :: v in db.versions && v.table == table ==> !Reaches(db, v)
  }

  predicate VisibleAt(v: Version, s: nat) {
    v.begin <= s && (v.end.None? || s < v.end.value)
  }

  /** No retained snapshot sees any version of an orphan. */
  lemma OrphanIsInvisible(db: Db, v: Version, s: nat)
    requires WellFormed(db) && v in db.versions && s in db.snapshots && VisibleAt(v, s)
    ensures !Orphan(db, v.table)
  {
    assert Reaches(db, v);
  }

  /** A table is an orphan exactly if no version of it is seen from anywhere between the oldest and the newest retained
      snapshot, no version being empty. */
  lemma OrphanExactly(db: Db, table: int)
    requires WellFormed(db)
    requires forall v :: v in db.versions && v.end.Some? ==> v.begin < v.end.value
    ensures Orphan(db, table) <==> forall v, s: nat ::
              v in db.versions && v.table == table && db.oldest <= s <= db.newest ==> !VisibleAt(v, s)
  {
    if !Orphan(db, table) {
      var v :| v in db.versions && v.table == table && Reaches(db, v);
      var s := if v.begin < db.oldest then db.oldest else v.begin;
      assert VisibleAt(v, s) && db.oldest <= s <= db.newest;
    }
  }

  /** What other sessions can do to versions and snapshots: an old version stays, or is ended past the newest
      snapshot; a new one begins past it and belongs to a new table or to one that was live. */
  predicate Onward(a: Db, b: Db) {
    && a.oldest <= b.oldest && a.newest <= b.newest && a.nextTable <= b.nextTable
    && forall v :: v in b.versions ==>
         || v in a.versions
         || v.(end := None) in a.versions
         || v.table >= a.nextTable
         || (exists w :: w in a.versions && w.table == v.table && w.end.None?)
  }

  lemma ReachedBefore(a: Db, b: Db, v: Version)
    requires WellFormed(a) && Onward(a, b) && v in b.versions && Reaches(b, v) && v.table < a.nextTable
    ensures !Orphan(a, v.table)
  {
    if v in a.versions {
      assert Reaches(a, v);
    } else if v.(end := None) in a.versions {
      assert Reaches(a, v.(end := None));
    } else {
      var w :| w in a.versions && w.table == v.table && w.end.None?;
      assert Reaches(a, w);
    }
  }

  /** Once orphaned, always orphaned. */
  lemma OrphanForGood(a: Db, b: Db, table: int)
    requires WellFormed(a) && Onward(a, b) && Orphan(a, table) && table < a.nextTable
    ensures Orphan(b, table)
  {
    forall v | v in b.versions && v.table == table ensures !Reaches(b, v) {
      if Reaches(b, v) { ReachedBefore(a, b, v); }
    }
  }

  /** A commit: drops end live versions, alters end them and add a new one, creates take new ids. */
  function Commit(db: Db, drops: set<int>, alters: set<int>, create: bool): Db {
    var s := db.newest + 1;
    var live := set v | v in db.versions && v.end.None? && (v.table in drops || v.table in alters);
    var ended := set v | v in live :: v.(end := Some(s));
    var altered := set v | v in live && v.table in alters :: Version(v.table, s, None);
    db.(snapshots := db.snapshots + {s}, newest := s,
        versions := db.versions - live + ended + altered + (if create then {Version(db.nextTable, s, None)} else {}),
        nextTable := if create then db.nextTable + 1 else db.nextTable)
  }

  lemma CommitIsOnward(db: Db, drops: set<int>, alters: set<int>, create: bool)
    requires WellFormed(db)
    ensures Onward(db, Commit(db, drops, alters, create)) && WellFormed(Commit(db, drops, alters, create))
  {
  }

  /** Expiry: some snapshots go, never the newest; unreachable versions may go with them. */
  lemma ExpiryIsOnward(db: Db, kept: set<nat>, oldest: nat, versions: set<Version>)
    requires WellFormed(db) && kept <= db.snapshots && db.newest in kept
    requires oldest in kept && (forall s :: s in kept ==> oldest <= s) && versions <= db.versions
    ensures var b := db.(snapshots := kept, oldest := oldest, versions := versions);
      Onward(db, b) && WellFormed(b)
  {
  }

  // ------------------------------------------------------------------------------------------
  // Names
  // ------------------------------------------------------------------------------------------

  const STEM := "ducklake_inlined_data_"

  predicate Digits(s: string) {
    s != "" && forall i :: 0 <= i < |s| ==> IsDigit(s[i])
  }

  /** The regex `ducklake_inlined_data_[0-9]+_[0-9]+`, matching the whole name. */
  predicate Expected(name: string) {
    && |name| > |STEM| && name[..|STEM|] == STEM
    && exists k | |STEM| < k < |name| :: name[k] == '_' && Digits(name[|STEM|..k]) && Digits(name[k + 1..])
  }

  /** The names DuckLake gives out are expected, whatever the ids. */
  lemma GivenNamesExpected(table: nat, version: nat)
    ensures Expected("ducklake_inlined_data_" + Decimal(table) + "_" + Decimal(version))
  {
    DecimalDigits(table);
    DecimalDigits(version);
    TwoNumbersExpected(Decimal(table), Decimal(version));
  }

  /** An expected name is the stem, digits, an underscore, digits. */
  lemma ExpectedExactly(name: string)
    ensures Expected(name) <==> exists a, b :: Digits(a) && Digits(b) && name == STEM + a + "_" + b
  {
    if Expected(name) {
      var a, b := NumbersOf(name);
    }
    forall a, b | Digits(a) && Digits(b) && name == STEM + a + "_" + b ensures Expected(name) {
      TwoNumbersExpected(a, b);
    }
  }

  lemma NumbersOf(name: string) returns (a: string, b: string)
    requires Expected(name)
    ensures Digits(a) && Digits(b) && name == STEM + a + "_" + b
  {
    var k :| |STEM| < k < |name| && name[k] == '_' && Digits(name[|STEM|..k]) && Digits(name[k + 1..]);
    a, b := name[|STEM|..k], name[k + 1..];
    assert name == name[..|STEM|] + a + [name[k]] + b;
  }

  lemma TwoNumbersExpected(a: string, b: string)
    requires Digits(a) && Digits(b)
    ensures Expected(STEM + a + "_" + b)
  {
    var name, k := STEM + a + "_" + b, |STEM| + |a|;
    assert name[..|STEM|] == STEM && name[|STEM|..k] == a && name[k] == '_' && name[k + 1..] == b;
  }

  lemma DecimalDigits(n: nat)
    ensures Digits(Decimal(n))
  {
    forall i | 0 <= i < |Decimal(n)| ensures IsDigit(Decimal(n)[i]) {
      assert Decimal(n)[i] in Decimal(n);
    }
  }

  // ------------------------------------------------------------------------------------------
  // One page
  // ------------------------------------------------------------------------------------------

  /** Orphaned entries past `after` that nobody holds, in key order. */
  function Candidates(db: Db, es: seq<Entry>, after: Key, busy: set<Key>): seq<Entry> {
    if es == [] then []
    else
      var last := es[|es| - 1];
      Candidates(db, es[..|es| - 1], after, busy)
      + (if Before(after, last.key) && last.key !in busy && Orphan(db, last.key.table) then [last] else [])
  }

  lemma {:induction false} CandidatesAre(db: Db, es: seq<Entry>, after: Key, busy: set<Key>)
    requires Ascending(es)
    ensures Ascending(Candidates(db, es, after, busy))
    ensures forall e :: e in Candidates(db, es, after, busy) <==>
              e in es && Before(after, e.key) && e.key !in busy && Orphan(db, e.key.table)
  {
    if es != [] {
      var n := |es| - 1;
      CandidatesAre(db, es[..n], after, busy);
      assert es == es[..n] + [es[n]];
      var before := Candidates(db, es[..n], after, busy);
      forall i | 0 <= i < |before| ensures Before(before[i].key, es[n].key) {
        assert before[i] in before;
      }
    }
  }

  datatype Fate = Invalid | NonEmpty | Dropped | Missing

  /** What one entry comes to, given whether its table was in `pg_class` when the page was selected. */
  function Judge(present: bool, heaps: map<string, nat>, e: Entry): Fate {
    if !Expected(e.name) then Invalid
    else if !present then Missing
    else if e.name in heaps && heaps[e.name] > 0 then NonEmpty
    else Dropped
  }

  predicate Removed(fate: Fate) { fate.Dropped? || fate.Missing? }

  /** The names of the tables dropped by the first `n` entries. */
  function DroppedNames(page: seq<Entry>, fates: seq<Fate>): set<string>
    requires |fates| <= |page|
  {
    set i | 0 <= i < |fates| && fates[i].Dropped? :: page[i].name
  }

  function RemovedEntries(page: seq<Entry>, fates: seq<Fate>): set<Entry>
    requires |fates| <= |page|
  {
    set i | 0 <= i < |fates| && Removed(fates[i]) :: page[i]
  }

  function Except(es: seq<Entry>, gone: set<Entry>): seq<Entry> {
    if es == [] then []
    else Except(es[..|es| - 1], gone) + (if es[|es| - 1] in gone then [] else [es[|es| - 1]])
  }

  /** The transaction's effect: tables dropped and their entries deleted together. */
  function Applied(db: Db, page: seq<Entry>, fates: seq<Fate>): Db
    requires |fates| <= |page|
  {
    db.(registry := Except(db.registry, RemovedEntries(page, fates)), heaps := db.heaps - DroppedNames(page, fates))
  }

  lemma {:induction false} ExceptMembers(es: seq<Entry>, gone: set<Entry>)
    requires Ascending(es)
    ensures Ascending(Except(es, gone))
    ensures forall e :: e in Except(es, gone) <==> e in es && e !in gone
  {
    if es != [] {
      var n := |es| - 1;
      ExceptMembers(es[..n], gone);
      assert es == es[..n] + [es[n]];
      var before := Except(es[..n], gone);
      forall i | 0 <= i < |before| ensures Before(before[i].key, es[n].key) {
        assert before[i] in before;
      }
    }
  }

  // ------------------------------------------------------------------------------------------
  // Lock budget
  // ------------------------------------------------------------------------------------------

  const ENTRIES_PER_DROP := 5
  const MAX_BATCH := 2000
  const MIN_BATCH := 10

  function Min(a: int, b: int): int { if a <= b then a else b }
  function Max(a: int, b: int): int { if a >= b then a else b }

  /** A quarter of the lock table's documented size, at five entries a drop, within the two clamps. */
  function BatchCap(capacity: nat): int {
    Max(MIN_BATCH, Min(capacity / 4 / ENTRIES_PER_DROP, MAX_BATCH))
  }

  function Effective(requested: nat, capacity: nat): int { Min(requested, BatchCap(capacity)) }

  function Halved(size: int): int { Min(size, Max(MIN_BATCH, size / 2)) }

  function Regrown(size: int, start: int): int { Min(start, size * 2) }

  /** Within a run the batch size stays between the floor and the size the run started with, and no page holds
      more than a quarter of the lock table unless the floor does. */
  lemma BatchSizeStays(requested: nat, capacity: nat, size: int)
    requires requested > 0
    requires Min(requested, MIN_BATCH) <= size <= Effective(requested, capacity)
    ensures Min(requested, MIN_BATCH) <= Halved(size) <= size
    ensures size <= Regrown(size, Effective(requested, capacity)) <= Effective(requested, capacity)
    ensures size > MIN_BATCH ==> Halved(size) < size
    ensures 4 * ENTRIES_PER_DROP * size <= capacity || size <= MIN_BATCH
    ensures size < Effective(requested, capacity) ==> Regrown(size, Effective(requested, capacity)) > size
    ensures Effective(requested, capacity) == requested || Effective(requested, capacity) == 2000
            || 20 * (Effective(requested, capacity) + 1) > capacity
  {
  }

  // ------------------------------------------------------------------------------------------
  // The session
  // ------------------------------------------------------------------------------------------

  /** Every name is registered once. */
  predicate UniqueNames(es: seq<Entry>) {
    forall i, j :: 0 <= i < j < |es| ==> es[i].name != es[j].name
  }

  /** Other sessions leave locked entries and tables alone, and create no table under a registered name. */
  predicate Respects(a: Db, b: Db, rows: seq<Entry>, names: set<string>) {
    && Onward(a, b) && WellFormed(b) && UniqueNames(b.registry)
    && (forall e :: e in rows && e in a.registry ==> e in b.registry)
    && (forall n :: n in names && n in a.heaps ==> n in b.heaps && b.heaps[n] == a.heaps[n])
    && (forall e :: e in a.registry && e.name in b.heaps ==> e.name in a.heaps)
  }

  lemma RespectsSelf(db: Db, rows: seq<Entry>, names: set<string>)
    requires WellFormed(db) && UniqueNames(db.registry)
    ensures Respects(db, db, rows, names)
  {
  }

  /** At the commit of a page: its entries are there, in key order past the cursor and orphaned; what is dropped
      has an expected name and an empty table, what is missing has none. */
  ghost predicate PageOk(db: Db, after: Key, page: seq<Entry>, fates: seq<Fate>) {
    && |fates| <= |page| && Ascending(page)
    && (forall i :: 0 <= i < |page| ==>
          page[i] in db.registry && Before(after, page[i].key) && Orphan(db, page[i].key.table))
    && (forall i :: 0 <= i < |fates| ==> FateOk(db, page[i], fates[i]))
  }

  ghost predicate FateOk(db: Db, e: Entry, fate: Fate) {
    && (Removed(fate) ==> Expected(e.name))
    && (fate.Dropped? ==> e.name in db.heaps && db.heaps[e.name] == 0)
    && (fate.Missing? ==> e.name !in db.heaps)
  }

  /** A page's transaction drops only empty tables with expected names whose parents no retained snapshot can
      see, deletes exactly their entries and those of tables already gone, and leaves every other table alone. */
  lemma PageIsSafe(db: Db, after: Key, page: seq<Entry>, fates: seq<Fate>, name: string)
    requires WellFormed(db) && UniqueNames(db.registry) && PageOk(db, after, page, fates)
    ensures var b := Applied(db, page, fates);
      && (name in db.heaps && name !in b.heaps ==>
            && db.heaps[name] == 0 && Expected(name)
            && (forall e :: e in db.registry && e.name == name ==>
                  && e !in b.registry && Orphan(db, e.key.table)
                  && forall v, s ::
                       v in db.versions && v.table == e.key.table && s in db.snapshots ==> !VisibleAt(v, s)))
      && (name in b.heaps ==> name in db.heaps && b.heaps[name] == db.heaps[name])
      && (forall e :: e in db.registry && e !in b.registry ==> e.name !in b.heaps)
  {
    var b := Applied(db, page, fates);
    ExceptMembers(db.registry, RemovedEntries(page, fates));
    if name in db.heaps && name !in b.heaps {
      var i :| 0 <= i < |fates| && fates[i].Dropped? && page[i].name == name;
      assert FateOk(db, page[i], fates[i]);
      forall e | e in db.registry && e.name == name ensures e == page[i] {
        SameName(db.registry, e, page[i]);
      }
      assert page[i] in RemovedEntries(page, fates);
      forall v, s | v in db.versions && v.table == page[i].key.table && s in db.snapshots ensures !VisibleAt(v, s) {
        if VisibleAt(v, s) { OrphanIsInvisible(db, v, s); }
      }
    }
    forall e | e in db.registry && e !in b.registry ensures e.name !in b.heaps {
      var i :| 0 <= i < |fates| && Removed(fates[i]) && page[i] == e;
      assert FateOk(db, page[i], fates[i]);
    }
  }

  /** An orphan ahead of the cursor whose empty table a reachable entry names too. */
  ghost predicate SharesName(db: Db, after: Key, orphan: Entry, reachable: Entry) {
    && orphan in db.registry && reachable in db.registry && orphan.name == reachable.name
    && Orphan(db, orphan.key.table) && !Orphan(db, reachable.key.table) && Before(after, orphan.key)
    && Expected(orphan.name) && orphan.name in db.heaps && db.heaps[orphan.name] == 0
  }

  /** Every table that a reachable entry names is still there. */
  ghost predicate KeepsReachable(a: Db, b: Db) {
    forall e :: e in a.registry && !Orphan(a, e.key.table) && e.name in a.heaps ==> e.name in b.heaps
  }

  ghost predicate PageKeepsReachable(db: Db, after: Key, page: seq<Entry>, fates: seq<Fate>) {
    PageOk(db, after, page, fates) ==> KeepsReachable(db, Applied(db, page, fates))
  }

  /** Without assuming that names are registered once: no page can take a reachable table exactly if no orphan ahead
      of the cursor shares its empty table's name with a reachable entry, because the name is not compared with the
      entry's own key. */
  lemma SharedNameHazard(db: Db, after: Key)
    requires WellFormed(db)
    ensures (forall page, fates :: PageKeepsReachable(db, after, page, fates))
            <==> !exists orphan, reachable :: SharesName(db, after, orphan, reachable)
  {
    if orphan, reachable :| SharesName(db, after, orphan, reachable) {
      var page, fates := [orphan], [Dropped];
      assert FateOk(db, page[0], fates[0]);
      assert page[0].name in DroppedNames(page, fates);
      assert !PageKeepsReachable(db, after, page, fates);
    } else {
      forall page, fates ensures PageKeepsReachable(db, after, page, fates) {
        if PageOk(db, after, page, fates) { UnsharedStays(db, after, page, fates); }
      }
    }
  }

  lemma UnsharedStays(db: Db, after: Key, page: seq<Entry>, fates: seq<Fate>)
    requires PageOk(db, after, page, fates)
    requires forall orphan, reachable :: !SharesName(db, after, orphan, reachable)
    ensures KeepsReachable(db, Applied(db, page, fates))
  {
    forall i, e | 0 <= i < |fates| && fates[i].Dropped? && e in db.registry && !Orphan(db, e.key.table)
      ensures page[i].name != e.name
    {
      assert !SharesName(db, after, page[i], e);
      DroppedIsUnshared(db, after, page, fates, i, e);
    }
  }

  lemma DroppedIsUnshared(db: Db, after: Key, page: seq<Entry>, fates: seq<Fate>, i: nat, e: Entry)
    requires PageOk(db, after, page, fates) && i < |fates| && fates[i].Dropped?
    requires e in db.registry && !Orphan(db, e.key.table) && !SharesName(db, after, page[i], e)
    ensures page[i].name != e.name
  {
    assert FateOk(db, page[i], fates[i]);
  }

  lemma SameName(es: seq<Entry>, d: Entry, e: Entry)
    requires UniqueNames(es) && d in es && e in es && d.name == e.name
    ensures d == e
  {
  }

  lemma RespectsKeepsPage(a: Db, b: Db, after: Key, page: seq<Entry>, fates: seq<Fate>, names: set<string>)
    requires WellFormed(a) && PageOk(a, after, page, fates) && Respects(a, b, page, names)
    requires forall i :: 0 <= i < |fates| && fates[i].Dropped? ==> page[i].name in names
    ensures PageOk(b, after, page, fates)
  {
    forall i | 0 <= i < |page| ensures page[i] in b.registry && Orphan(b, page[i].key.table) {
      OrphanForGood(a, b, page[i].key.table);
    }
    forall i | 0 <= i < |fates| ensures FateOk(b, page[i], fates[i]) {
      assert FateOk(a, page[i], fates[i]);
    }
  }

  /** A page selected from `db`: its first `size` candidates. */
  function Page(db: Db, after: Key, busy: set<Key>, size: nat): seq<Entry> {
    var all := Candidates(db, db.registry, after, busy);
    all[..if size < |all| then size else |all|]
  }

  lemma PageCandidates(db: Db, after: Key, busy: set<Key>, size: nat)
    requires WellFormed(db)
    ensures PageOk(db, after, Page(db, after, busy, size), [])
  {
    CandidatesAre(db, db.registry, after, busy);
    var all, page := Candidates(db, db.registry, after, busy), Page(db, after, busy, size);
    forall i | 0 <= i < |page| ensures page[i] in all {
      assert page[i] == all[i];
    }
  }

  /** What an undisturbed page comes to. */
  ghost predicate Undisturbed(db: Db, page: seq<Entry>, fates: seq<Fate>) {
    && |fates| <= |page|
    && forall i :: 0 <= i < |fates| ==> fates[i] == Judge(page[i].name in db.heaps, db.heaps, page[i])
  }

  class Postgres {
    var db: Db
    /** This session is alone: nobody else writes, nobody holds an entry, and no statement fails. */
    const quiet: bool

    ghost predicate Valid()
      reads this
    {
      WellFormed(db) && UniqueNames(db.registry)
    }

    constructor (db: Db, quiet: bool)
      requires WellFormed(db) && UniqueNames(db.registry)
      ensures Valid() && this.db == db && this.quiet == quiet
    {
      this.db, this.quiet := db, quiet;
    }

    /** Other sessions, between two statements. */
    method Others(rows: seq<Entry>, names: set<string>)
      requires Valid()
      modifies this
      ensures Valid() && Respects(old(db), db, rows, names)
      ensures quiet ==> db == old(db)
    {
      RespectsSelf(db, rows, names);
      var next: Db := *;
      if !quiet && Respects(db, next, rows, names) {
        db := next;
      }
    }

    /** One page in one transaction. It fails, and nothing of it happens, if a table disappears before it is
        locked or the session errs. The deadline may cut the page short after its first entry. */
    method DropInlineBatch(after: Key, size: nat, budgeted: bool)
      returns (ok: bool, page: seq<Entry>, fates: seq<Fate>, ghost at: Db)
      requires Valid() && size > 0
      modifies this
      ensures Valid()
      ensures ok ==> PageOk(at, after, page, fates) && WellFormed(at) && UniqueNames(at.registry)
      ensures ok ==> db == Applied(at, page, fates) && (page != [] ==> fates != [])
      ensures ok && !budgeted ==> |fates| == |page|
      ensures !ok ==> db == at
      ensures quiet ==> ok && at == old(db) && page == Page(at, after, {}, size) && Undisturbed(at, page, fates)
    {
      Others([], {});
      var busy: set<Key> := *;
      if quiet {
        busy := {};
      }
      page := Page(db, after, busy, size);
      PageCandidates(db, after, busy, size);
      ok, fates := WorkOff(after, page, budgeted);
      at := db;
      if ok {
        AppliedKeeps(db, after, page, fates);
        db := Applied(db, page, fates);
      }
    }

    /** The statements after the selection of the page. */
    method WorkOff(ghost after: Key, page: seq<Entry>, budgeted: bool) returns (ok: bool, fates: seq<Fate>)
      requires Valid() && PageOk(db, after, page, [])
      modifies this
      ensures Valid() && PageOk(db, after, page, fates) && (ok && page != [] ==> fates != [])
      ensures ok && !budgeted ==> |fates| == |page|
      ensures quiet ==> ok && db == old(db) && Undisturbed(db, page, fates)
    {
      var present := seq(|page|, i requires 0 <= i < |page| reads this => page[i].name in db.heaps);
      var locked: set<string>;
      locked, fates := {}, [];
      while |fates| < |page|
        invariant Valid() && PageOk(db, after, page, fates)
        invariant forall i :: 0 <= i < |fates| && fates[i].Dropped? ==> page[i].name in locked
        invariant forall i :: 0 <= i < |page| && !present[i] ==> page[i].name !in db.heaps
        invariant quiet ==> db == old(db) && Undisturbed(db, page, fates)
        decreases |page| - |fates|
      {
        var late: bool, broken: bool := *, *;
        if budgeted && late && fates != [] {
          return true, fates;
        }
        broken := broken && !quiet;
        if broken || Vanished(db, page[|fates|], present[|fates|]) {
          return false, fates;
        }
        locked, fates := Entry(after, page, present[|fates|], fates, locked);
      }
      ok := true;
    }

    /** One entry: lock its table, if it is there and has an expected name, then look into it. */
    method Entry(ghost after: Key, page: seq<Entry>, present: bool, fates: seq<Fate>, locked: set<string>)
      returns (locked': set<string>, fates': seq<Fate>)
      requires Valid() && PageOk(db, after, page, fates) && |fates| < |page|
      requires forall i :: 0 <= i < |fates| && fates[i].Dropped? ==> page[i].name in locked
      requires !Vanished(db, page[|fates|], present) && (!present ==> page[|fates|].name !in db.heaps)
      modifies this
      ensures Valid() && PageOk(db, after, page, fates')
      ensures forall i :: 0 <= i < |fates'| && fates'[i].Dropped? ==> page[i].name in locked'
      ensures forall e :: e in page && e.name !in old(db).heaps ==> e.name !in db.heaps
      ensures fates' == fates + [Judge(present, db.heaps, page[|fates|])]
      ensures quiet ==> db == old(db)
    {
      var e := page[|fates|];
      locked' := if Expected(e.name) && present then locked + {e.name} else locked;
      Others(page, locked');
      RespectsKeepsPage(old(db), db, after, page, fates, locked');
      fates' := fates + [Judge(present, db.heaps, e)];
    }

    /** Pages until one finds fewer orphans than it asked for. `maxBatches` and a wall-clock budget are optional
        bounds; `failed` says that a page used up its attempts. Other sessions may keep a disturbed run going
        for as long as they like, so `patience` stands for how long somebody lets it; an undisturbed run needs
        none: it finishes or reaches a bound. */
    method DropOrphanInlineTables(requested: nat, capacity: nat, maxBatches: Option<nat>, budgeted: bool)
      returns (finished: bool, failed: bool, batches: nat)
      requires Valid() && requested > 0
      modifies this
      ensures Valid()
      ensures quiet ==> exists after :: Cleaned(old(db), db, after)
      ensures quiet && finished ==> forall e :: e in db.registry <==> e in old(db).registry && !Droppable(old(db), e)
      ensures quiet && finished ==> OnlyStuck(db)
      ensures maxBatches.Some? ==> batches <= maxBatches.value
      ensures quiet ==> !failed && (budgeted || finished || maxBatches == Some(batches))
    {
      var after, size, clean := Key(-1, -1), Effective(requested, capacity), 0;
      batches := 0;
      NothingCleaned(db);
      finished, failed := false, false;
      var late, patience: nat := false, *;
      while !finished && !failed && !late && (quiet || patience > 0) && (maxBatches.None? || batches < maxBatches.value)
        invariant Valid() && Min(requested, MIN_BATCH) <= size <= Effective(requested, capacity)
        invariant quiet ==> Cleaned(old(db), db, after)
        invariant quiet && finished ==> AllPast(db, after)
        invariant (late ==> budgeted) && (maxBatches.Some? ==> batches <= maxBatches.value) && (quiet ==> !failed)
        decreases !finished && !failed && !late, if quiet then Past(db, after) else {}, patience
      {
        var step, retried;
        step, after, size, retried := OneBatch(old(db), after, size, requested, capacity, budgeted);
        finished, failed := step.Last?, step.Failed?;
        var overdue: bool := *;
        late := step.Cut? || (budgeted && overdue && !finished && !failed);
        batches, clean := batches + 1, if retried then 0 else clean + 1;
        if clean >= 10 && size < Effective(requested, capacity) {
          size, clean := Regrown(size, Effective(requested, capacity)), 0;
        }
        patience := if patience > 0 then patience - 1 else 0;
      }
      if finished && quiet {
        PastIsStuck(old(db), db, after);
      }
    }

    /** One page with its retries; an out-of-memory error halves the size for good. */
    method OneBatch(ghost start: Db, after: Key, size: nat, ghost requested: nat, ghost capacity: nat, budgeted: bool)
      returns (step: Step, after': Key, size': nat, retried: bool)
      requires Valid() && requested > 0 && Min(requested, MIN_BATCH) <= size <= Effective(requested, capacity)
      requires WellFormed(start) && UniqueNames(start.registry) && (quiet ==> Cleaned(start, db, after))
      modifies this
      ensures Valid() && Min(requested, MIN_BATCH) <= size' <= size
      ensures after' == after || Before(after, after')
      ensures step.Next? ==> Before(after, after')
      ensures quiet && step.Next? ==> Past(db, after') < Past(old(db), after)
      ensures (step.Cut? ==> budgeted) && (quiet ==> !step.Failed?)
      ensures quiet ==> Cleaned(start, db, after')
      ensures quiet && step.Last? ==> AllPast(db, after')
    {
      var attempt := 0;
      after', size', retried := after, size, false;
      while attempt < MAX_ATTEMPTS
        invariant Valid() && Min(requested, MIN_BATCH) <= size' <= size && after' == after
        invariant quiet ==> db == old(db) && attempt == 0
      {
        var ok, page, fates;
        ghost var at;
        ok, page, fates, at := DropInlineBatch(after, size', budgeted);
        if ok {
          PageAdvances(at, after, page, fates);
          if quiet { BatchResult(start, old(db), after, size', page, fates); }
          if page != [] { PastShrinks(at, after, page, fates); }
          after' := LastKey(after, page, fates);
          step := if |fates| < |page| then Cut else if |page| < size' then Last else Next;
          return;
        }
        var outOfMemory: bool := *;
        size', retried := if outOfMemory then Halved(size') else size', true;
        attempt := attempt + 1;
      }
      step := Failed;
    }
  }

  /** After a page: more to come, none left, cut short by the budget, or out of attempts. */
  datatype Step = Next | Last | Cut | Failed

  /** The entries the cursor has not passed. */
  function Past(db: Db, after: Key): set<Entry> {
    set e | e in db.registry && Before(after, e.key)
  }

  /** A page that processed an entry leaves fewer ahead. */
  lemma PastShrinks(db: Db, after: Key, page: seq<Entry>, fates: seq<Fate>)
    requires WellFormed(db) && PageOk(db, after, page, fates) && fates != []
    ensures Past(Applied(db, page, fates), LastKey(after, page, fates)) < Past(db, after)
  {
    ExceptMembers(db.registry, RemovedEntries(page, fates));
    var last := page[|fates| - 1];
    assert last in Past(db, after) && last !in Past(Applied(db, page, fates), last.key);
  }

  const MAX_ATTEMPTS: nat := 5

  /** Selected as present, and gone when its lock is asked for. */
  predicate Vanished(db: Db, e: Entry, present: bool) {
    Expected(e.name) && present && e.name !in db.heaps
  }

  // ------------------------------------------------------------------------------------------
  // An undisturbed run
  // ------------------------------------------------------------------------------------------

  predicate Droppable(db: Db, e: Entry) {
    Orphan(db, e.key.table) && Expected(e.name) && (e.name in db.heaps ==> db.heaps[e.name] == 0)
  }

  /** `db` is `start` without its droppable entries up to `after`, and without their tables. */
  ghost predicate Cleaned(start: Db, db: Db, after: Key) {
    && db == start.(registry := db.registry, heaps := db.heaps)
    && (forall e :: e in db.registry <==> e in start.registry && !Gone(start, after, e))
    && (forall n :: n in db.heaps ==> n in start.heaps && db.heaps[n] == start.heaps[n])
    && (forall e :: e in start.registry && e.name in start.heaps ==> (e.name in db.heaps <==> !Gone(start, after, e)))
  }

  predicate Gone(start: Db, after: Key, e: Entry) {
    !Before(after, e.key) && Droppable(start, e)
  }

  ghost predicate AllPast(db: Db, after: Key) {
    forall e :: e in db.registry && Before(after, e.key) ==> !Orphan(db, e.key.table)
  }

  /** The only orphans left are those a run skips. */
  ghost predicate OnlyStuck(db: Db) {
    forall e :: e in db.registry && Orphan(db, e.key.table) ==>
      !Expected(e.name) || (e.name in db.heaps && db.heaps[e.name] > 0)
  }

  lemma NothingCleaned(db: Db)
    requires WellFormed(db)
    ensures Cleaned(db, db, Key(-1, -1))
  {
  }

  lemma PastIsStuck(start: Db, db: Db, after: Key)
    requires Cleaned(start, db, after) && AllPast(db, after)
    ensures OnlyStuck(db)
    ensures forall e :: e in db.registry <==> e in start.registry && !Droppable(start, e)
  {
  }

  lemma AppliedKeeps(db: Db, after: Key, page: seq<Entry>, fates: seq<Fate>)
    requires WellFormed(db) && UniqueNames(db.registry) && PageOk(db, after, page, fates)
    ensures WellFormed(Applied(db, page, fates)) && UniqueNames(Applied(db, page, fates).registry)
  {
    var gone := RemovedEntries(page, fates);
    var b := Applied(db, page, fates);
    ExceptMembers(db.registry, gone);
    forall i | 0 <= i < |b.registry| ensures 0 <= b.registry[i].key.table < db.nextTable {
      assert b.registry[i] in db.registry;
    }
    forall i, j | 0 <= i < j < |b.registry| ensures b.registry[i].name != b.registry[j].name {
      assert b.registry[i] in db.registry && b.registry[j] in db.registry;
      if b.registry[i].name == b.registry[j].name {
        SameName(db.registry, b.registry[i], b.registry[j]);
      }
    }
  }

  /** Which orphans a page prefix has dealt with: those up to its last key. */
  lemma PageCovers(db: Db, after: Key, size: nat, n: nat, e: Entry)
    requires WellFormed(db) && 0 < n <= |Page(db, after, {}, size)|
    requires e in db.registry && Before(after, e.key) && Orphan(db, e.key.table)
    ensures var page := Page(db, after, {}, size);
      && Before(after, page[n - 1].key)
      && (!Before(page[n - 1].key, e.key) <==> exists j :: 0 <= j < n && page[j] == e)
      && (n == |page| < size ==> !Before(page[n - 1].key, e.key))
  {
    var all, page := Candidates(db, db.registry, after, {}), Page(db, after, {}, size);
    CandidatesAre(db, db.registry, after, {});
    assert forall j :: 0 <= j < |page| ==> page[j] == all[j];
    assert all[n - 1] in all;
    var k :| 0 <= k < |all| && all[k] == e;
  }

  lemma PageMembers(db: Db, after: Key, size: nat, j: nat)
    requires WellFormed(db) && j < |Page(db, after, {}, size)|
    ensures var e := Page(db, after, {}, size)[j];
      e in db.registry && Before(after, e.key) && Orphan(db, e.key.table)
  {
    PageCandidates(db, after, {}, size);
  }

  /** What is cleaned up to `after` says nothing about later entries' tables. */
  lemma LaterUntouched(start: Db, db: Db, after: Key, e: Entry)
    requires Cleaned(start, db, after) && e in start.registry && Before(after, e.key)
    ensures e in db.registry && (e.name in db.heaps <==> e.name in start.heaps)
    ensures Judge(e.name in db.heaps, db.heaps, e) == Judge(e.name in start.heaps, start.heaps, e)
    ensures Orphan(db, e.key.table) ==>
              (Droppable(start, e) <==> Removed(Judge(e.name in db.heaps, db.heaps, e)))
  {
    assert Orphan(db, e.key.table) == Orphan(start, e.key.table);
  }

  /** An entry of the start, after the page: gone exactly if it is droppable and not past the last key. */
  lemma EntryCleaned(start: Db, db: Db, after: Key, size: nat, page: seq<Entry>, fates: seq<Fate>, e: Entry)
    requires WellFormed(start) && UniqueNames(start.registry) && WellFormed(db) && e in start.registry
    requires Cleaned(start, db, after) && page == Page(db, after, {}, size) && Undisturbed(db, page, fates)
    requires fates != []
    ensures Before(after, page[|fates| - 1].key)
    ensures Gone(start, page[|fates| - 1].key, e) <==> Gone(start, after, e) || e in RemovedEntries(page, fates)
    ensures e in RemovedEntries(page, fates) && e.name in db.heaps ==> e.name in DroppedNames(page, fates)
  {
    var n := |fates|;
    PageMembers(db, after, size, n - 1);
    assert Orphan(db, e.key.table) == Orphan(start, e.key.table);
    if Before(after, e.key) {
      LaterUntouched(start, db, after, e);
      if Orphan(db, e.key.table) {
        PageCovers(db, after, size, n, e);
      }
    }
    if e in RemovedEntries(page, fates) {
      var j :| 0 <= j < n && Removed(fates[j]) && page[j] == e;
      PageMembers(db, after, size, j);
      assert fates[j] == Judge(e.name in db.heaps, db.heaps, e);
      assert e.name in db.heaps ==> fates[j].Dropped?;
    }
  }

  lemma DroppedIsRemoved(start: Db, db: Db, after: Key, size: nat, page: seq<Entry>, fates: seq<Fate>, e: Entry)
    requires UniqueNames(start.registry) && WellFormed(db) && e in start.registry
    requires Cleaned(start, db, after) && page == Page(db, after, {}, size) && |fates| <= |page|
    requires e.name in DroppedNames(page, fates)
    ensures e in RemovedEntries(page, fates)
  {
    var j :| 0 <= j < |fates| && fates[j].Dropped? && page[j].name == e.name;
    PageMembers(db, after, size, j);
    SameName(start.registry, e, page[j]);
  }

  /** An undisturbed page extends what is cleaned to its last processed entry. */
  lemma BatchCleans(start: Db, db: Db, after: Key, size: nat, page: seq<Entry>, fates: seq<Fate>)
    requires WellFormed(start) && UniqueNames(start.registry) && WellFormed(db) && size > 0
    requires Cleaned(start, db, after) && page == Page(db, after, {}, size) && Undisturbed(db, page, fates)
    requires fates != []
    ensures Before(after, page[|fates| - 1].key)
    ensures Cleaned(start, Applied(db, page, fates), page[|fates| - 1].key)
  {
    var b, last := Applied(db, page, fates), page[|fates| - 1].key;
    var gone := RemovedEntries(page, fates);
    PageMembers(db, after, size, |fates| - 1);
    ExceptMembers(db.registry, gone);
    forall e ensures e in b.registry <==> e in start.registry && !Gone(start, last, e) {
      if e in start.registry {
        EntryCleaned(start, db, after, size, page, fates, e);
      }
    }
    forall e | e in start.registry && e.name in start.heaps ensures e.name in b.heaps <==> !Gone(start, last, e) {
      EntryCleaned(start, db, after, size, page, fates, e);
      if e.name in DroppedNames(page, fates) {
        DroppedIsRemoved(start, db, after, size, page, fates, e);
      }
    }
  }

  /** Where the next page starts. */
  function LastKey(after: Key, page: seq<Entry>, fates: seq<Fate>): Key
    requires |fates| <= |page|
  {
    if fates == [] then after else page[|fates| - 1].key
  }

  /** The cursor strictly advances with every entry processed. */
  lemma PageAdvances(db: Db, after: Key, page: seq<Entry>, fates: seq<Fate>)
    requires PageOk(db, after, page, fates) && (page != [] ==> fates != [])
    ensures page != [] ==> Before(after, LastKey(after, page, fates))
    ensures page == [] ==> LastKey(after, page, fates) == after
  {
  }

  lemma {:induction false} ExceptNone(es: seq<Entry>)
    ensures Except(es, {}) == es
  {
    if es != [] { ExceptNone(es[..|es| - 1]); }
  }

  lemma BatchResult(start: Db, db: Db, after: Key, size: nat, page: seq<Entry>, fates: seq<Fate>)
    requires WellFormed(start) && UniqueNames(start.registry) && WellFormed(db) && size > 0
    requires Cleaned(start, db, after) && page == Page(db, after, {}, size) && Undisturbed(db, page, fates)
    requires page != [] ==> fates != []
    ensures Cleaned(start, Applied(db, page, fates), LastKey(after, page, fates))
    ensures |fates| == |page| < size ==> AllPast(Applied(db, page, fates), LastKey(after, page, fates))
  {
    if |fates| == |page| < size { ShortPageIsLast(db, after, size, page, fates); }
    if page == [] {
      ExceptNone(db.registry);
      assert RemovedEntries(page, fates) == {} && DroppedNames(page, fates) == {};
      assert db.heaps - {} == db.heaps;
    } else {
      BatchCleans(start, db, after, size, page, fates);
    }
  }

  /** A page shorter than asked for was the last. */
  lemma ShortPageIsLast(db: Db, after: Key, size: nat, page: seq<Entry>, fates: seq<Fate>)
    requires WellFormed(db) && page == Page(db, after, {}, size) && |fates| == |page| < size
    ensures AllPast(Applied(db, page, fates), if page == [] then after else page[|page| - 1].key)
  {
    CandidatesAre(db, db.registry, after, {});
    ExceptMembers(db.registry, RemovedEntries(page, fates));
    var b := Applied(db, page, fates);
    forall e | e in b.registry && Orphan(b, e.key.table)
      ensures !Before(if page == [] then after else page[|page| - 1].key, e.key)
    {
      assert Orphan(db, e.key.table);
      if page != [] {
        PageMembers(db, after, size, |page| - 1);
        if Before(after, e.key) { PageCovers(db, after, size, |page|, e); }
      }
    }
  }
}
