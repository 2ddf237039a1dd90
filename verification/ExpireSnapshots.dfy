/**
 Snapshot expiry in batches, with writers committing in between and crashes anywhere.

 `World` keeps the catalog beside the one it would be had nothing ever expired, and the ids expired so
 far; the properties relate the two over every history of commits and batches.
 */
module ExpireSnapshots {
  import opened Wrappers

  datatype Snapshot = Snapshot(id: nat, time: int)

  /** A data file or a delete vector: from the snapshot that added it to the one that ended it. Both kinds are
      numbered from one counter. */
  datatype File = File(begin: nat, end: Option<nat>)

  /** Snapshots ascend by id. `queue` holds the objects scheduled for deletion. */
  datatype Catalog = Catalog(snapshots: seq<Snapshot>, files: map<nat, File>, queue: multiset<nat>, nextFile: nat)

  predicate Visible(f: File, at: nat) {
    f.begin <= at && (f.end.None? || at < f.end.value)
  }

  predicate Ascending(ss: seq<Snapshot>) {
    forall i, j :: 0 <= i < j < |ss| ==> ss[i].id < ss[j].id
  }

  function Ids(ss: seq<Snapshot>): set<nat> {
    set i | 0 <= i < |ss| :: ss[i].id
  }

  function Head(ss: seq<Snapshot>): nat { if ss == [] then 0 else ss[|ss| - 1].id }

  // ------------------------------------------------------------------------------------------
  // Writers
  // ------------------------------------------------------------------------------------------

  /** A commit: the next snapshot, new files that begin at it, and live files it ends. */
  datatype Write = Write(time: int, added: nat, ended: set<nat>)

  /** The next `n` ids. */
  function Block(from: nat, n: nat): (ids: set<nat>)
    ensures forall x :: x in ids <==> from <= x < from + n
  {
    if n == 0 then {} else Block(from, n - 1) + {from + n - 1}
  }

  function Commit(c: Catalog, w: Write): Catalog {
    var id := Head(c.snapshots) + 1;
    c.(snapshots := c.snapshots + [Snapshot(id, w.time)],
       nextFile := c.nextFile + w.added,
       files := map f | f in c.files.Keys + Block(c.nextFile, w.added) ::
         if f !in c.files then File(id, None)
         else if f in w.ended && c.files[f].end.None? then File(c.files[f].begin, Some(id))
         else c.files[f])
  }

  // ------------------------------------------------------------------------------------------
  // One batch
  // ------------------------------------------------------------------------------------------

  function Olds(ss: seq<Snapshot>, cutoff: int): seq<Snapshot> {
    if ss == [] then []
    else Olds(ss[..|ss| - 1], cutoff) + (if ss[|ss| - 1].time < cutoff then [ss[|ss| - 1]] else [])
  }

  /** Older than the cutoff and not the head. */
  function Eligible(ss: seq<Snapshot>, cutoff: int): seq<Snapshot> {
    if ss == [] then [] else Olds(ss[..|ss| - 1], cutoff)
  }

  function Chosen(ss: seq<Snapshot>, cutoff: int, limit: nat): set<nat> {
    var e := Eligible(ss, cutoff);
    Ids(e[..if limit < |e| then limit else |e|])
  }

  /** Ended in this batch, and no snapshot outside it sees the file. */
  predicate DeadIn(f: File, ss: seq<Snapshot>, batch: set<nat>) {
    && f.end.Some? && f.end.value in batch
    && !exists i | 0 <= i < |ss| :: f.begin <= ss[i].id < f.end.value && ss[i].id !in batch
  }

  function Dead(c: Catalog, batch: set<nat>): set<nat> {
    set f | f in c.files && DeadIn(c.files[f], c.snapshots, batch)
  }

  function Without(ss: seq<Snapshot>, batch: set<nat>): seq<Snapshot> {
    if ss == [] then []
    else Without(ss[..|ss| - 1], batch) + (if ss[|ss| - 1].id in batch then [] else [ss[|ss| - 1]])
  }

  /** One transaction: schedule what is dead and not scheduled yet, drop the rows, delete the snapshots. */
  function Expire(c: Catalog, batch: set<nat>): Catalog {
    var dead := Dead(c, batch);
    Catalog(Without(c.snapshots, batch), c.files - dead, c.queue + multiset(set f | f in dead && f !in c.queue),
            c.nextFile)
  }

  // ------------------------------------------------------------------------------------------
  // Histories
  // ------------------------------------------------------------------------------------------

  /** `full` is the catalog without any expiry; `gone` are the expired ids; `picked` is the batch selected with
      `cutoff` whose transaction is still to run. */
  datatype World = World(full: Catalog, now: Catalog, gone: set<nat>, picked: set<nat>, cutoff: int)

  /** Somebody commits, a batch is selected, or its transaction runs. A crash in between is a selection whose
      transaction never runs. */
  datatype Event = Commits(w: Write) | Select(cutoff: int, limit: nat) | Execute

  function Step(w: World, e: Event): World {
    match e
    case Commits(write) => w.(full := Commit(w.full, write), now := Commit(w.now, write))
    case Select(cutoff, limit) => w.(picked := Chosen(w.now.snapshots, cutoff, limit), cutoff := cutoff)
    case Execute => w.(now := Expire(w.now, w.picked), gone := w.gone + w.picked, picked := {})
  }

  function Begin(c: Catalog): World { World(c, c, {}, {}, 0) }

  function History(c: Catalog, events: seq<Event>): World {
    if events == [] then Begin(c) else Step(History(c, events[..|events| - 1]), events[|events| - 1])
  }

  lemma HistoryStep(c: Catalog, events: seq<Event>, e: Event)
    ensures History(c, events + [e]) == Step(History(c, events), e)
  {
    assert (events + [e])[..|events|] == events;
  }

  /** A catalog as commits leave it: nothing scheduled is still referenced. */
  predicate WellFormed(c: Catalog) {
    && Ascending(c.snapshots) && c.snapshots != []
    && (forall f :: f in c.files ==>
          c.files[f].begin <= Head(c.snapshots)
          && (c.files[f].end.Some? ==> c.files[f].begin < c.files[f].end.value <= Head(c.snapshots)))
    && (forall f :: f in c.files ==> f !in c.queue && f < c.nextFile)
    && (forall f :: f in c.queue ==> f < c.nextFile)
  }

  /** The two catalogs differ by what was expired, and no survivor sees a dropped file. */
  ghost predicate Related(w: World) {
    && WellFormed(w.full) && WellFormed(w.now)
    && w.now.snapshots == Without(w.full.snapshots, w.gone)
    && Head(w.now.snapshots) == Head(w.full.snapshots)
    && (forall id :: id in w.gone ==> id < Head(w.full.snapshots))
    && w.now.nextFile == w.full.nextFile
    && w.now.files.Keys <= w.full.files.Keys
    && (forall f :: f in w.full.files ==> FileRelated(w, f))
    && Picks(w.now.snapshots, w.picked, w.cutoff)
  }

  ghost predicate OldBelowHead(ss: seq<Snapshot>, id: nat, cutoff: int) {
    exists s :: s in ss && s.id == id && s.time < cutoff && id < Head(ss)
  }

  /** Old snapshots, smallest ids first, and never the head. Others' commits in between do not change that. */
  ghost predicate Picks(ss: seq<Snapshot>, picked: set<nat>, cutoff: int) {
    && (forall id :: id in picked ==> OldBelowHead(ss, id, cutoff))
    && (forall s, id :: s in ss && s.time < cutoff && id in picked && s.id <= id ==> s.id in picked)
  }

  ghost predicate FileRelated(w: World, f: nat)
    requires f in w.full.files
  {
    if f in w.now.files then w.now.files[f] == w.full.files[f] && w.now.queue[f] == 0
    else
      && w.now.queue[f] == 1
      && DeadIn(w.full.files[f], w.full.snapshots, w.gone)
  }

  lemma {:induction false} WithoutMembers(ss: seq<Snapshot>, batch: set<nat>)
    requires Ascending(ss)
    ensures Ascending(Without(ss, batch))
    ensures forall s :: s in Without(ss, batch) <==> s in ss && s.id !in batch
  {
    if ss != [] {
      var n := |ss| - 1;
      WithoutMembers(ss[..n], batch);
      assert ss == ss[..n] + [ss[n]];
      var before := Without(ss[..n], batch);
      forall i | 0 <= i < |before| ensures before[i].id < ss[n].id {
        assert before[i] in before;
      }
    }
  }

  lemma {:induction false} WithoutTwice(ss: seq<Snapshot>, a: set<nat>, b: set<nat>)
    ensures Without(Without(ss, a), b) == Without(ss, a + b)
  {
    if ss != [] {
      var n := |ss| - 1;
      WithoutTwice(ss[..n], a, b);
      var w := Without(ss, a);
      if ss[n].id !in a {
        assert w[..|w| - 1] == Without(ss[..n], a);
      } else {
        assert w == Without(ss[..n], a);
      }
    }
  }

  lemma {:induction false} OldsMembers(ss: seq<Snapshot>, cutoff: int)
    requires Ascending(ss)
    ensures Ascending(Olds(ss, cutoff))
    ensures forall s :: s in Olds(ss, cutoff) <==> s in ss && s.time < cutoff
  {
    if ss != [] {
      var n := |ss| - 1;
      OldsMembers(ss[..n], cutoff);
      assert ss == ss[..n] + [ss[n]];
      var before := Olds(ss[..n], cutoff);
      forall i | 0 <= i < |before| ensures before[i].id < ss[n].id {
        assert before[i] in before;
      }
    }
  }

  lemma EligibleAre(ss: seq<Snapshot>, cutoff: int)
    requires Ascending(ss) && ss != []
    ensures Ascending(Eligible(ss, cutoff))
    ensures forall s :: s in Eligible(ss, cutoff) <==> s in ss && s.time < cutoff && s.id < Head(ss)
  {
    var n := |ss| - 1;
    OldsMembers(ss[..n], cutoff);
    assert ss == ss[..n] + [ss[n]];
    assert forall i :: 0 <= i < n ==> ss[..n][i].id < ss[n].id;
  }

  predicate IdIn(ss: seq<Snapshot>, id: nat) {
    exists i | 0 <= i < |ss| :: ss[i].id == id
  }

  /** A prefix of an ascending sequence is closed downwards in it. */
  lemma PrefixIds(e: seq<Snapshot>, k: nat)
    requires Ascending(e) && k <= |e|
    ensures forall id :: id in Ids(e[..k]) ==> IdIn(e, id)
    ensures forall s, id :: s in e && id in Ids(e[..k]) && s.id <= id ==> s.id in Ids(e[..k])
    ensures k > 0 ==> e[0].id in Ids(e[..k])
  {
    forall id | id in Ids(e[..k]) ensures exists i :: 0 <= i < k && e[i].id == id {
      var i :| 0 <= i < k && e[..k][i].id == id;
      assert e[i].id == id;
    }
    forall s, id | s in e && id in Ids(e[..k]) && s.id <= id ensures s.id in Ids(e[..k]) {
      var i :| 0 <= i < k && e[i].id == id;
      var j :| 0 <= j < |e| && e[j] == s;
      assert j <= i;
      assert e[..k][j].id == s.id;
    }
    if k > 0 {
      assert e[..k][0].id == e[0].id;
    }
  }

  /** A batch takes old snapshots, smallest ids first, and never the head. */
  lemma ChosenAre(ss: seq<Snapshot>, cutoff: int, limit: nat)
    requires Ascending(ss) && ss != []
    ensures var batch := Chosen(ss, cutoff, limit);
      && Picks(ss, batch, cutoff)
      && (limit > 0 && Eligible(ss, cutoff) != [] ==> batch != {})
  {
    var e := Eligible(ss, cutoff);
    var k := if limit < |e| then limit else |e|;
    EligibleAre(ss, cutoff);
    PrefixIds(e, k);
    forall id | id in Chosen(ss, cutoff, limit) ensures OldBelowHead(ss, id, cutoff) {
      assert IdIn(e, id);
      var i :| 0 <= i < |e| && e[i].id == id;
      assert e[i] in e;
    }
  }

  /** The snapshots a batch would take before this id. */
  function Before(ss: seq<Snapshot>, cutoff: int, id: nat): set<Snapshot> {
    set t | t in ss && t.time < cutoff && t.id < Head(ss) && t.id < id
  }

  /** A batch takes exactly the first `limit` of the old snapshots below the head, or all if there are fewer. */
  lemma ChosenExactly(ss: seq<Snapshot>, cutoff: int, limit: nat, s: Snapshot)
    requires Ascending(ss) && s in ss
    ensures s.id in Chosen(ss, cutoff, limit)
            <==> s.time < cutoff && s.id < Head(ss) && |Before(ss, cutoff, s.id)| < limit
  {
    var e := Eligible(ss, cutoff);
    EligibleAre(ss, cutoff);
    var n := if limit < |e| then limit else |e|;
    if s in e {
      var k :| 0 <= k < |e| && e[k] == s;
      SmallerOnes(e, k);
      assert Before(ss, cutoff, s.id) == set t | t in e && t.id < s.id;
      assert k < n ==> e[..n][k].id == s.id;
    }
    if i :| 0 <= i < n && e[..n][i].id == s.id {
      SameId(ss, e[i], s);
    }
  }

  lemma SmallerOnes(e: seq<Snapshot>, k: nat)
    requires Ascending(e) && k < |e|
    ensures |set t | t in e && t.id < e[k].id| == k
  {
    var smaller := set t | t in e && t.id < e[k].id;
    Elements(e[..k]);
    forall t ensures t in smaller <==> t in e[..k] {
      if t in smaller {
        var i :| 0 <= i < |e| && e[i] == t;
        assert e[..k][i] == t;
      }
    }
    assert smaller == set t | t in e[..k];
  }

  lemma {:induction false} Elements(e: seq<Snapshot>)
    requires Ascending(e)
    ensures |set t | t in e| == |e|
  {
    if e != [] {
      var n := |e| - 1;
      Elements(e[..n]);
      assert e == e[..n] + [e[n]] && e[n] !in e[..n];
      assert (set t | t in e) == (set t | t in e[..n]) + {e[n]};
    }
  }

  lemma SameId(ss: seq<Snapshot>, s: Snapshot, t: Snapshot)
    requires Ascending(ss) && s in ss && t in ss && s.id == t.id
    ensures s == t
  {
  }

  // ------------------------------------------------------------------------------------------
  // What every history keeps
  // ------------------------------------------------------------------------------------------

  lemma HeadIsLargest(ss: seq<Snapshot>)
    requires Ascending(ss)
    ensures forall s :: s in ss ==> s.id <= Head(ss)
  {
  }

  lemma {:induction false} HeadStays(ss: seq<Snapshot>, batch: set<nat>)
    requires Ascending(ss) && ss != [] && Head(ss) !in batch
    ensures Without(ss, batch) != [] && Head(Without(ss, batch)) == Head(ss)
  {
  }

  lemma CommitWellFormed(c: Catalog, w: Write)
    requires WellFormed(c)
    ensures WellFormed(Commit(c, w))
  {
  }

  lemma CommitRelated(w: World, write: Write)
    requires Related(w)
    ensures Related(Step(w, Commits(write)))
  {
    var t := Step(w, Commits(write));
    CommitWellFormed(w.full, write);
    CommitWellFormed(w.now, write);
    var id := Head(w.full.snapshots) + 1;
    assert t.full.snapshots[..|w.full.snapshots|] == w.full.snapshots;
    CommitFilesRelated(w, write);
    PicksStay(w.now.snapshots, Snapshot(id, write.time), w.picked, w.cutoff);
  }

  lemma CommitFilesRelated(w: World, write: Write)
    requires Related(w)
    ensures var t := Step(w, Commits(write)); forall f :: f in t.full.files ==> FileRelated(t, f)
  {
    var t := Step(w, Commits(write));
    forall f | f in t.full.files ensures FileRelated(t, f) {
      if f in w.full.files {
        assert FileRelated(w, f);
      }
    }
  }

  lemma PicksStay(ss: seq<Snapshot>, s: Snapshot, picked: set<nat>, cutoff: int)
    requires Ascending(ss) && Picks(ss, picked, cutoff) && Head(ss) < s.id
    ensures Picks(ss + [s], picked, cutoff)
  {
    forall id | id in picked ensures OldBelowHead(ss + [s], id, cutoff) {
      assert OldBelowHead(ss, id, cutoff);
      var t :| t in ss && t.id == id && t.time < cutoff && id < Head(ss);
      assert t in ss + [s];
    }
  }

  lemma SelectRelated(w: World, cutoff: int, limit: nat)
    requires Related(w)
    ensures Related(Step(w, Select(cutoff, limit)))
  {
    ChosenAre(w.now.snapshots, cutoff, limit);
    var t := Step(w, Select(cutoff, limit));
    forall f | f in t.full.files ensures FileRelated(t, f) {
      assert FileRelated(w, f);
    }
  }

  lemma ExecuteRelated(w: World)
    requires Related(w)
    ensures Related(Step(w, Execute))
  {
    var t := Step(w, Execute);
    ExecuteSnapshots(w);
    forall f | f in t.full.files ensures FileRelated(t, f) {
      ExecutedFile(w, f);
    }
    assert forall f :: f in t.now.files ==> FileRelated(t, f);
  }

  lemma ExecuteSnapshots(w: World)
    requires Related(w)
    ensures var t := Step(w, Execute);
      && Ascending(t.now.snapshots) && t.now.snapshots != [] && Head(t.now.snapshots) == Head(w.now.snapshots)
      && t.now.snapshots == Without(t.full.snapshots, t.gone)
      && forall id :: id in t.gone ==> id < Head(t.full.snapshots)
  {
    WithoutMembers(w.now.snapshots, w.picked);
    WithoutTwice(w.full.snapshots, w.gone, w.picked);
    forall id | id in w.picked ensures id < Head(w.now.snapshots) {
      assert OldBelowHead(w.now.snapshots, id, w.cutoff);
    }
    HeadStays(w.now.snapshots, w.picked);
  }

  lemma ExecutedFile(w: World, f: nat)
    requires Related(w) && f in w.full.files
    ensures FileRelated(Step(w, Execute), f)
  {
    assert FileRelated(w, f);
    if f in w.now.files && DeadIn(w.now.files[f], w.now.snapshots, w.picked) {
      DeadFromStart(w, w.picked, f);
    }
  }

  /** A file a batch finds dead is one no survivor of everything expired so far sees. */
  lemma DeadFromStart(w: World, batch: set<nat>, f: nat)
    requires Related(w) && f in w.now.files && f in w.full.files && w.now.files[f] == w.full.files[f]
    ensures DeadIn(w.now.files[f], w.now.snapshots, batch)
            <==> w.full.files[f].end.Some? && w.full.files[f].end.value in batch
                 && DeadIn(w.full.files[f], w.full.snapshots, w.gone + batch)
  {
    DeadInLeft(w.full.files[f], w.full.snapshots, w.gone, batch);
  }

  lemma DeadInLeft(file: File, all: seq<Snapshot>, gone: set<nat>, batch: set<nat>)
    requires Ascending(all)
    ensures DeadIn(file, Without(all, gone), batch)
            <==> file.end.Some? && file.end.value in batch && DeadIn(file, all, gone + batch)
  {
    var left := Without(all, gone);
    WithoutMembers(all, gone);
    if file.end.Some? && file.end.value in batch {
      if i :| 0 <= i < |all| && file.begin <= all[i].id < file.end.value && all[i].id !in gone + batch {
        assert all[i] in left;
        var j :| 0 <= j < |left| && left[j] == all[i];
        assert file.begin <= left[j].id < file.end.value && left[j].id !in batch;
      }
      if j :| 0 <= j < |left| && file.begin <= left[j].id < file.end.value && left[j].id !in batch {
        assert left[j] in all;
        var i :| 0 <= i < |all| && all[i] == left[j];
        assert file.begin <= all[i].id < file.end.value && all[i].id !in gone + batch;
      }
    }
  }

  lemma BeginRelated(c: Catalog)
    requires WellFormed(c)
    ensures Related(Begin(c))
  {
    WithoutNone(c.snapshots);
  }

  lemma {:induction false} WithoutNone(ss: seq<Snapshot>)
    ensures Without(ss, {}) == ss
  {
    if ss != [] {
      WithoutNone(ss[..|ss| - 1]);
    }
  }

  lemma {:induction false} HistoryRelated(c: Catalog, events: seq<Event>)
    requires WellFormed(c)
    ensures Related(History(c, events))
  {
    if events == [] {
      BeginRelated(c);
    } else {
      var w := History(c, events[..|events| - 1]);
      HistoryRelated(c, events[..|events| - 1]);
      StepRelated(w, events[|events| - 1]);
    }
  }

  lemma StepRelated(w: World, e: Event)
    requires Related(w)
    ensures Related(Step(w, e))
  {
    match e
    case Commits(write) => CommitRelated(w, write);
    case Select(cutoff, limit) => SelectRelated(w, cutoff, limit);
    case Execute => ExecuteRelated(w);
  }

  // ------------------------------------------------------------------------------------------
  // Survivors
  // ------------------------------------------------------------------------------------------

  predicate Sees(c: Catalog, at: nat, f: nat) {
    f in c.files && Visible(c.files[f], at)
  }

  lemma RelatedSees(w: World, t: Snapshot, f: nat)
    requires Related(w) && t in w.now.snapshots
    ensures Sees(w.now, t.id, f) <==> Sees(w.full, t.id, f)
  {
    WithoutMembers(w.full.snapshots, w.gone);
    if f in w.full.files {
      assert FileRelated(w, f);
      assert t in w.full.snapshots;
      var i :| 0 <= i < |w.full.snapshots| && w.full.snapshots[i] == t;
    }
  }

  lemma {:induction false} FullKeepsViews(c: Catalog, events: seq<Event>, t: Snapshot, f: nat)
    requires WellFormed(c) && t in c.snapshots
    ensures t in History(c, events).full.snapshots
    ensures Sees(History(c, events).full, t.id, f) <==> Sees(c, t.id, f)
  {
    if events != [] {
      var before := events[..|events| - 1];
      FullKeepsViews(c, before, t, f);
      HistoryRelated(c, before);
      if events[|events| - 1].Commits? {
        CommitKeepsViews(History(c, before).full, events[|events| - 1].w, t, f);
      }
    }
  }

  lemma CommitKeepsViews(full: Catalog, w: Write, t: Snapshot, f: nat)
    requires WellFormed(full) && t in full.snapshots
    ensures t in Commit(full, w).snapshots && (Sees(Commit(full, w), t.id, f) <==> Sees(full, t.id, f))
  {
    HeadIsLargest(full.snapshots);
  }

  /** After any history of commits and batches, with any cutoffs, a snapshot that is still there sees exactly
      the files and delete vectors it saw at the start, and the head is still there. */
  lemma SurvivorsSeeTheSame(c: Catalog, events: seq<Event>, t: Snapshot, f: nat)
    requires WellFormed(c) && t in c.snapshots
    ensures var w := History(c, events);
      && (t in w.now.snapshots ==> (Sees(w.now, t.id, f) <==> Sees(c, t.id, f)))
      && w.now.snapshots != [] && Head(w.now.snapshots) == Head(w.full.snapshots)
  {
    HistoryRelated(c, events);
    FullKeepsViews(c, events, t, f);
    if t in History(c, events).now.snapshots {
      RelatedSees(History(c, events), t, f);
    }
  }

  /** Every dropped file is scheduled exactly once, and no other file is. */
  lemma ScheduledExactlyOnce(c: Catalog, events: seq<Event>, f: nat)
    requires WellFormed(c) && f in History(c, events).full.files
    ensures History(c, events).now.queue[f] == if f in History(c, events).now.files then 0 else 1
  {
    HistoryRelated(c, events);
    assert FileRelated(History(c, events), f);
  }

  // ------------------------------------------------------------------------------------------
  // Which files go
  // ------------------------------------------------------------------------------------------

  /** Every survivor older than the cutoff is above everything expired. */
  ghost predicate Above(w: World, cutoff: int) {
    forall t, id :: t in w.now.snapshots && id in w.gone && t.time < cutoff ==> id < t.id
  }

  ghost predicate DroppedExactly(w: World) {
    forall f :: f in w.full.files ==> (f !in w.now.files <==> DeadIn(w.full.files[f], w.full.snapshots, w.gone))
  }

  /** From position `from` on, every selection has this cutoff. */
  predicate OneCutoff(events: seq<Event>, from: nat, cutoff: int) {
    forall i :: from <= i < |events| && events[i].Select? ==> events[i].cutoff == cutoff
  }

  /** A batch drops every file it could: one kept alive by a survivor below its end stays alive, because the
      survivor is not old. */
  lemma ExecuteDrops(w: World)
    requires Related(w) && DroppedExactly(w) && Above(w, w.cutoff)
    ensures DroppedExactly(Step(w, Execute))
  {
    var t := Step(w, Execute);
    ExecuteRelated(w);
    forall f | f in w.full.files
      ensures f !in t.now.files <==> DeadIn(w.full.files[f], w.full.snapshots, t.gone)
    {
      assert FileRelated(w, f) && FileRelated(t, f);
      if f in w.now.files {
        DeadFromStart(w, w.picked, f);
        if DeadIn(w.full.files[f], w.full.snapshots, t.gone) && w.full.files[f].end.value in w.gone {
          BridgeStays(w, w.full.files[f]);
        }
      }
    }
  }

  lemma BridgeStays(w: World, file: File)
    requires Related(w) && Above(w, w.cutoff) && file.end.Some? && file.end.value in w.gone
    ensures DeadIn(file, w.full.snapshots, w.gone + w.picked) ==> DeadIn(file, w.full.snapshots, w.gone)
  {
    var all := w.full.snapshots;
    WithoutMembers(all, w.gone);
    if i :| 0 <= i < |all| && file.begin <= all[i].id < file.end.value && all[i].id !in w.gone {
      assert all[i] in w.now.snapshots;
      PickedIsOld(w.now.snapshots, w.picked, w.cutoff, all[i]);
      assert all[i].id !in w.gone + w.picked;
    }
  }

  lemma PickedIsOld(ss: seq<Snapshot>, picked: set<nat>, cutoff: int, s: Snapshot)
    requires Ascending(ss) && s in ss && Picks(ss, picked, cutoff)
    ensures s.id in picked ==> s.time < cutoff
  {
    if s.id in picked {
      assert OldBelowHead(ss, s.id, cutoff);
      var t :| t in ss && t.id == s.id && t.time < cutoff;
      SameId(ss, s, t);
    }
  }

  lemma ExecuteAbove(w: World)
    requires Related(w) && Above(w, w.cutoff)
    ensures Above(Step(w, Execute), w.cutoff)
  {
    WithoutMembers(w.now.snapshots, w.picked);
  }

  lemma CommitAbove(w: World, write: Write, cutoff: int)
    requires Related(w) && Above(w, cutoff) && DroppedExactly(w)
    ensures Above(Step(w, Commits(write)), cutoff) && DroppedExactly(Step(w, Commits(write)))
  {
    var t := Step(w, Commits(write));
    CommitRelated(w, write);
    forall f | f in t.full.files
      ensures f !in t.now.files <==> DeadIn(t.full.files[f], t.full.snapshots, t.gone)
    {
      assert FileRelated(t, f);
      if f in w.full.files {
        assert FileRelated(w, f);
        DeadAfterCommit(w, write, f);
      }
    }
  }

  lemma DeadAfterCommit(w: World, write: Write, f: nat)
    requires Related(w) && f in w.full.files
    ensures var t := Step(w, Commits(write));
      DeadIn(t.full.files[f], t.full.snapshots, t.gone) ==> DeadIn(w.full.files[f], w.full.snapshots, w.gone)
  {
    var t := Step(w, Commits(write));
    var all := w.full.snapshots;
    assert forall i :: 0 <= i < |all| ==> t.full.snapshots[i] == all[i];
  }

  /** With one cutoff, however the work is cut into batches, runs and crashes: a file is dropped exactly if its
      end is an expired snapshot and no snapshot still there sees it. */
  lemma {:induction false} OneCutoffDropsExactly(c: Catalog, events: seq<Event>, cutoff: int)
    requires WellFormed(c) && OneCutoff(events, 0, cutoff)
    ensures var w := History(c, events);
      DroppedExactly(w) && Above(w, cutoff) && (w.picked == {} || w.cutoff == cutoff)
  {
    if events != [] {
      var before, e := events[..|events| - 1], events[|events| - 1];
      assert OneCutoff(before, 0, cutoff);
      OneCutoffDropsExactly(c, before, cutoff);
      HistoryRelated(c, before);
      var w := History(c, before);
      match e
      case Commits(write) => CommitAbove(w, write, cutoff);
      case Select(_, _) =>
      case Execute => if w.picked == {} { NothingPicked(w); } else { ExecuteDrops(w); ExecuteAbove(w); }
    }
  }

  lemma NothingPicked(w: World)
    requires w.picked == {}
    ensures Step(w, Execute) == w
  {
    WithoutNone(w.now.snapshots);
    assert Dead(w.now, {}) == {};
    assert w.now.files - {} == w.now.files;
    assert w.gone + {} == w.gone;
  }

  // ------------------------------------------------------------------------------------------
  // File by file
  // ------------------------------------------------------------------------------------------

  /** A snapshot between the file's first and its end is newer than the end. */
  ghost predicate NewerBridge(ss: seq<Snapshot>, file: File) {
    && file.end.Some?
    && exists s, e :: s in ss && e in ss && e.id == file.end.value && file.begin <= s.id < e.id && s.time > e.time
  }

  /** A file whose bridges are no newer than its end is dropped in every history, whatever the cutoffs, exactly
      when its end is expired. */
  lemma {:induction false} FileDropsExactly(c: Catalog, events: seq<Event>, f: nat)
    requires WellFormed(c) && f in History(c, events).full.files
    requires var w := History(c, events); w.full.files[f].end.Some? && !NewerBridge(w.full.snapshots, w.full.files[f])
    ensures FileExact(History(c, events), f)
  {
    HistoryRelated(c, events);
    if events == [] {
      assert FileRelated(Begin(c), f);
    } else {
      var before, e := events[..|events| - 1], events[|events| - 1];
      var w := History(c, before);
      HistoryRelated(c, before);
      BridgesBefore(w, e, f);
      if f in w.full.files && w.full.files[f].end.Some? {
        FileDropsExactly(c, before, f);
      }
      FileStep(w, e, f);
    }
  }

  ghost predicate FileExact(w: World, f: nat)
    requires f in w.full.files && w.full.files[f].end.Some?
  {
    f !in w.now.files <==> w.full.files[f].end.value in w.gone
  }

  /** One step back the file has no newer bridge either. */
  lemma BridgesBefore(w: World, e: Event, f: nat)
    requires Related(w) && f in Step(w, e).full.files && Step(w, e).full.files[f].end.Some?
    requires !NewerBridge(Step(w, e).full.snapshots, Step(w, e).full.files[f])
    ensures f in w.full.files && w.full.files[f].end.Some? ==>
              w.full.files[f] == Step(w, e).full.files[f] && !NewerBridge(w.full.snapshots, w.full.files[f])
  {
    var t := Step(w, e);
    assert forall s :: s in w.full.snapshots ==> s in t.full.snapshots;
  }

  lemma FileStep(w: World, e: Event, f: nat)
    requires Related(w) && f in Step(w, e).full.files && Step(w, e).full.files[f].end.Some?
    requires !NewerBridge(Step(w, e).full.snapshots, Step(w, e).full.files[f])
    requires f in w.full.files && w.full.files[f].end.Some? ==> FileExact(w, f)
    ensures FileExact(Step(w, e), f)
  {
    StepRelated(w, e);
    assert FileRelated(Step(w, e), f);
    match e
    case Commits(write) => FileCommit(w, write, f);
    case Select(_, _) =>
    case Execute => if f in w.now.files && w.full.files[f].end.value in w.picked { EndDies(w, f); }
  }

  lemma FileCommit(w: World, write: Write, f: nat)
    requires Related(w) && Related(Step(w, Commits(write)))
    requires f in Step(w, Commits(write)).full.files && Step(w, Commits(write)).full.files[f].end.Some?
    requires f in w.full.files && w.full.files[f].end.Some? ==> FileExact(w, f)
    ensures FileExact(Step(w, Commits(write)), f)
  {
    if f in w.full.files {
      assert FileRelated(w, f);
    }
  }

  /** The batch that expires the end finds every bridge expired or in itself. */
  lemma EndDies(w: World, f: nat)
    requires Related(w) && f in w.full.files && f in w.now.files && w.full.files[f].end.Some?
    requires !NewerBridge(w.full.snapshots, w.full.files[f]) && w.full.files[f].end.value in w.picked
    ensures f !in Step(w, Execute).now.files
  {
    assert FileRelated(w, f);
    BridgesDie(w.full.snapshots, w.gone, w.picked, w.cutoff, w.now.files[f]);
  }

  lemma BridgesDie(all: seq<Snapshot>, gone: set<nat>, picked: set<nat>, cutoff: int, file: File)
    requires Ascending(all) && Picks(Without(all, gone), picked, cutoff)
    requires file.end.Some? && file.end.value in picked && !NewerBridge(all, file)
    ensures DeadIn(file, Without(all, gone), picked)
  {
    var left := Without(all, gone);
    WithoutMembers(all, gone);
    assert OldBelowHead(left, file.end.value, cutoff);
    var e :| e in left && e.id == file.end.value && e.time < cutoff;
    forall i | 0 <= i < |left| && file.begin <= left[i].id < e.id ensures left[i].id in picked {
      assert left[i] in left && left[i] in all;
    }
  }

  /** With snapshot times that follow the ids no bridge is newer, so every file is dropped exactly when its end is
      expired, whatever the cutoffs. */
  lemma MonotoneDropsExactly(c: Catalog, events: seq<Event>)
    requires WellFormed(c) && Monotone(History(c, events).full.snapshots)
    ensures var w := History(c, events);
      && DroppedExactly(w)
      && forall f :: f in w.full.files ==>
           (f !in w.now.files <==> w.full.files[f].end.Some? && w.full.files[f].end.value in w.gone)
  {
    var w := History(c, events);
    HistoryRelated(c, events);
    forall f | f in w.full.files
      ensures f !in w.now.files <==> w.full.files[f].end.Some? && w.full.files[f].end.value in w.gone
      ensures f !in w.now.files <==> DeadIn(w.full.files[f], w.full.snapshots, w.gone)
    {
      assert FileRelated(w, f);
      if w.full.files[f].end.Some? {
        MonotoneBridges(w.full.snapshots, w.full.files[f]);
        FileDropsExactly(c, events, f);
      }
    }
  }

  predicate Monotone(ss: seq<Snapshot>) {
    forall i, j :: 0 <= i < j < |ss| ==> ss[i].time <= ss[j].time
  }

  lemma MonotoneBridges(ss: seq<Snapshot>, file: File)
    requires Ascending(ss) && Monotone(ss)
    ensures !NewerBridge(ss, file)
  {
  }

  /** The file is not dropped although its end is expired and no survivor sees it. */
  ghost predicate Leaked(w: World, f: nat) {
    && f in w.now.files && f in w.full.files && w.full.files[f].end.Some? && w.full.files[f].end.value in w.gone
    && DeadIn(w.full.files[f], w.full.snapshots, w.gone)
  }

  ghost predicate LeakedAfter(c: Catalog, events: seq<Event>, f: nat) {
    Leaked(History(c, events), f)
  }

  /** Its end is expired, and it is still there. */
  ghost predicate Stuck(w: World, f: nat, file: File) {
    f in w.now.files && f in w.full.files && w.full.files[f] == file && file.end.Some? && file.end.value in w.gone
  }

  /** A file that outlived its end stays, whatever else is committed or expired: only the batch of its end would
      look at it. */
  lemma {:induction false} StuckForGood(c: Catalog, events: seq<Event>, more: seq<Event>, f: nat, file: File)
    requires WellFormed(c) && Stuck(History(c, events), f, file)
    ensures Stuck(History(c, events + more), f, file)
    decreases |more|
  {
    if more == [] {
      assert events + more == events;
    } else {
      var less, e := more[..|more| - 1], more[|more| - 1];
      StuckForGood(c, events, less, f, file);
      StuckNext(c, events + less, e, f, file);
      assert events + less + [e] == events + more;
    }
  }

  lemma StuckNext(c: Catalog, events: seq<Event>, e: Event, f: nat, file: File)
    requires WellFormed(c) && Stuck(History(c, events), f, file)
    ensures Stuck(History(c, events + [e]), f, file)
  {
    HistoryRelated(c, events);
    StuckStep(History(c, events), e, f, file);
    HistoryStep(c, events, e);
  }

  lemma StuckStep(w: World, e: Event, f: nat, file: File)
    requires Related(w) && Stuck(w, f, file)
    ensures Stuck(Step(w, e), f, file)
  {
    assert FileRelated(w, f);
    WithoutMembers(w.full.snapshots, w.gone);
  }

  /** An ended file can leak under some cutoffs exactly if some bridge is newer than its end. */
  lemma LeaksExactly(c: Catalog, f: nat)
    requires WellFormed(c) && f in c.files && c.files[f].end.Some?
    ensures (exists events :: LeakedAfter(c, events, f)) <==> NewerBridge(c.snapshots, c.files[f])
  {
    if NewerBridge(c.snapshots, c.files[f]) {
      var events := TwoCutoffs(c, f);
      assert LeakedAfter(c, events, f);
    } else {
      forall events ensures !LeakedAfter(c, events, f) {
        NeverLeaks(c, events, f);
      }
    }
  }

  /** What no later step changes: an ended file, and the snapshots up to the head there was. */
  ghost predicate StillSo(c: Catalog, f: nat, full: Catalog) {
    && f in c.files && f in full.files && full.files[f] == c.files[f]
    && Head(c.snapshots) <= Head(full.snapshots)
    && (forall s :: s in full.snapshots && s.id <= Head(c.snapshots) ==> s in c.snapshots)
  }

  lemma {:induction false} OldFile(c: Catalog, events: seq<Event>, f: nat)
    requires f in c.files && c.files[f].end.Some?
    ensures StillSo(c, f, History(c, events).full)
  {
    if events != [] {
      var before := events[..|events| - 1];
      OldFile(c, before, f);
      if events[|events| - 1].Commits? {
        OldFileCommit(c, f, History(c, before).full, events[|events| - 1].w);
      }
    }
  }

  lemma OldFileCommit(c: Catalog, f: nat, full: Catalog, w: Write)
    requires StillSo(c, f, full) && c.files[f].end.Some?
    ensures StillSo(c, f, Commit(full, w))
  {
  }

  /** Later commits give no ended file a new bridge. */
  lemma OldBridges(ss: seq<Snapshot>, all: seq<Snapshot>, head: nat, file: File)
    requires NewerBridge(all, file) && file.end.value <= head && forall s :: s in all && s.id <= head ==> s in ss
    ensures NewerBridge(ss, file)
  {
    var s, e :| s in all && e in all && e.id == file.end.value && file.begin <= s.id < e.id && s.time > e.time;
    assert s in ss && e in ss;
  }

  lemma NeverLeaks(c: Catalog, events: seq<Event>, f: nat)
    requires WellFormed(c) && f in c.files && c.files[f].end.Some? && !NewerBridge(c.snapshots, c.files[f])
    ensures !Leaked(History(c, events), f)
  {
    OldFile(c, events, f);
    var full := History(c, events).full;
    if NewerBridge(full.snapshots, c.files[f]) {
      OldBridges(c.snapshots, full.snapshots, Head(c.snapshots), c.files[f]);
    }
    FileDropsExactly(c, events, f);
  }

  function Newest(ss: seq<Snapshot>): (t: int)
    ensures forall s :: s in ss ==> s.time <= t
  {
    if ss == [] then 0
    else
      assert ss == ss[..|ss| - 1] + [ss[|ss| - 1]];
      var t := Newest(ss[..|ss| - 1]);
      if ss[|ss| - 1].time > t then ss[|ss| - 1].time else t
  }

  /** A run that expires the end but not the bridge, and a later one that expires everything. */
  lemma TwoCutoffs(c: Catalog, f: nat) returns (events: seq<Event>)
    requires WellFormed(c) && f in c.files && NewerBridge(c.snapshots, c.files[f])
    ensures Leaked(History(c, events), f)
  {
    var s, e :| s in c.snapshots && e in c.snapshots && e.id == c.files[f].end.value
                && c.files[f].begin <= s.id < e.id && s.time > e.time;
    var renew, select := Commits(Write(Newest(c.snapshots) + 1, 0, {})), Select(e.time + 1, |c.snapshots|);
    FirstRun(c, f, s, e, renew, select, Execute);
    events := WholeRun(c, f, renew, select, Execute);
  }

  lemma WholeRun(c: Catalog, f: nat, a: Event, b: Event, d: Event) returns (events: seq<Event>)
    requires WellFormed(c) && ExpiredEnd(c, f, Step(Step(Step(Begin(c), a), b), d))
    ensures Leaked(History(c, events), f)
  {
    ThreeSteps(c, f, a, b, d);
    var first := [] + [a] + [b] + [d];
    SecondHistory(c, f, first);
    events := first + [Select(Newest(c.snapshots) + 1, |c.snapshots|)] + [Execute];
  }

  lemma ThreeSteps(c: Catalog, f: nat, a: Event, b: Event, d: Event)
    requires ExpiredEnd(c, f, Step(Step(Step(Begin(c), a), b), d))
    ensures ExpiredEnd(c, f, History(c, [] + [a] + [b] + [d]))
  {
    HistoryStep(c, [], a);
    TwoSteps(c, [] + [a], b, d);
  }

  /** The end of the file is expired, the file is not dropped, and there is a new head. */
  ghost predicate ExpiredEnd(c: Catalog, f: nat, w: World) {
    f in c.files && Stuck(w, f, c.files[f]) && w.full.snapshots == Headed(c)
  }

  lemma SecondHistory(c: Catalog, f: nat, first: seq<Event>)
    requires WellFormed(c) && ExpiredEnd(c, f, History(c, first))
    ensures Leaked(History(c, first + [Select(Newest(c.snapshots) + 1, |c.snapshots|)] + [Execute]), f)
  {
    HistoryRelated(c, first);
    SecondRun(c, f, History(c, first));
    TwoSteps(c, first, Select(Newest(c.snapshots) + 1, |c.snapshots|), Execute);
  }

  lemma TwoSteps(c: Catalog, events: seq<Event>, a: Event, b: Event)
    ensures History(c, events + [a] + [b]) == Step(Step(History(c, events), a), b)
  {
    HistoryStep(c, events, a);
    HistoryStep(c, events + [a], b);
  }

  /** Everything is expired, and nobody looks at the file. */
  lemma SecondRun(c: Catalog, f: nat, w: World)
    requires WellFormed(c) && Related(w) && ExpiredEnd(c, f, w)
    ensures Leaked(Step(Step(w, Select(Newest(c.snapshots) + 1, |c.snapshots|)), Execute), f)
  {
    var pick := Select(Newest(c.snapshots) + 1, |c.snapshots|);
    SecondStuck(c, f, w, pick);
    SecondGone(c, w, pick);
    NobodySees(c, f, Step(Step(w, pick), Execute));
  }

  lemma SecondStuck(c: Catalog, f: nat, w: World, pick: Event)
    requires Related(w) && ExpiredEnd(c, f, w) && pick.Select?
    ensures ExpiredEnd(c, f, Step(Step(w, pick), Execute))
  {
    ExpiredStays(c, f, w, pick);
    ExpiredStays(c, f, Step(w, pick), Execute);
  }

  lemma ExpiredStays(c: Catalog, f: nat, w: World, e: Event)
    requires Related(w) && ExpiredEnd(c, f, w) && !e.Commits?
    ensures Related(Step(w, e)) && ExpiredEnd(c, f, Step(w, e))
  {
    StepRelated(w, e);
    StuckStep(w, e, f, c.files[f]);
  }

  lemma SecondGone(c: Catalog, w: World, pick: Event)
    requires WellFormed(c) && Related(w) && w.full.snapshots == Headed(c)
    requires pick == Select(Newest(c.snapshots) + 1, |c.snapshots|)
    ensures Covered(c.snapshots, Step(Step(w, pick), Execute).gone)
  {
    AllGone(c, w);
    PickedGo(w, pick);
  }

  predicate Covered(ss: seq<Snapshot>, ids: set<nat>) {
    forall s | s in ss :: s.id in ids
  }

  lemma PickedGo(w: World, pick: Event)
    requires pick.Select?
    ensures Step(Step(w, pick), Execute).gone == w.gone + Chosen(w.now.snapshots, pick.cutoff, pick.limit)
  {
  }

  /** The snapshots with a new head, newer than all of them. */
  function Headed(c: Catalog): seq<Snapshot> {
    c.snapshots + [Snapshot(Head(c.snapshots) + 1, Newest(c.snapshots) + 1)]
  }

  /** A new head, and a run with a cutoff just past the end: the end is expired, the bridge is not, so the file is
      kept. */
  lemma FirstRun(c: Catalog, f: nat, s: Snapshot, e: Snapshot, a: Event, b: Event, d: Event)
    requires WellFormed(c) && f in c.files && s in c.snapshots && e in c.snapshots
    requires c.files[f].end == Some(e.id) && c.files[f].begin <= s.id < e.id && s.time > e.time
    requires a == Commits(Write(Newest(c.snapshots) + 1, 0, {}))
    requires b == Select(e.time + 1, |c.snapshots|) && d == Execute
    ensures ExpiredEnd(c, f, Step(Step(Step(Begin(c), a), b), d))
  {
    var w1 := Step(Begin(c), a);
    assert w1.now == w1.full && w1.now.snapshots == Headed(c) && w1.now.files[f] == c.files[f];
    FirstBatch(c, f, s, e, w1);
  }

  lemma FirstBatch(c: Catalog, f: nat, s: Snapshot, e: Snapshot, w1: World)
    requires WellFormed(c) && f in c.files && s in c.snapshots && e in c.snapshots
    requires c.files[f].end == Some(e.id) && c.files[f].begin <= s.id < e.id && s.time > e.time
    requires w1.now == w1.full && w1.now.snapshots == Headed(c) && f in w1.now.files && w1.now.files[f] == c.files[f]
    ensures ExpiredEnd(c, f, Step(Step(w1, Select(e.time + 1, |c.snapshots|)), Execute))
  {
    FirstPicked(c, f, s, e);
    KeptByBatch(c, f, w1, Chosen(Headed(c), e.time + 1, |c.snapshots|), e.time + 1, e);
  }

  lemma KeptByBatch(c: Catalog, f: nat, w1: World, picked: set<nat>, cutoff: int, e: Snapshot)
    requires f in c.files && c.files[f].end == Some(e.id) && e.id in picked && !DeadIn(c.files[f], Headed(c), picked)
    requires w1.now == w1.full && w1.now.snapshots == Headed(c) && f in w1.now.files && w1.now.files[f] == c.files[f]
    ensures ExpiredEnd(c, f, Step(w1.(picked := picked, cutoff := cutoff), Execute))
  {
  }

  lemma FirstPicked(c: Catalog, f: nat, s: Snapshot, e: Snapshot)
    requires WellFormed(c) && f in c.files && s in c.snapshots && e in c.snapshots
    requires c.files[f].end == Some(e.id) && c.files[f].begin <= s.id < e.id && s.time > e.time
    ensures var picked := Chosen(Headed(c), e.time + 1, |c.snapshots|);
      e.id in picked && !DeadIn(c.files[f], Headed(c), picked)
  {
    var all, cutoff := Headed(c), e.time + 1;
    var picked := Chosen(all, cutoff, |c.snapshots|);
    ChosenAre(all, cutoff, |c.snapshots|);
    AllOldPicked(c.snapshots, all, cutoff, e);
    BridgeKeeps(all, picked, cutoff, c.files[f], s);
  }

  lemma BridgeKeeps(ss: seq<Snapshot>, picked: set<nat>, cutoff: int, file: File, s: Snapshot)
    requires Ascending(ss) && Picks(ss, picked, cutoff) && s in ss && s.time >= cutoff
    requires file.end.Some? && file.begin <= s.id < file.end.value
    ensures !DeadIn(file, ss, picked)
  {
    PickedIsOld(ss, picked, cutoff, s);
    var i :| 0 <= i < |ss| && ss[i] == s;
    assert file.begin <= ss[i].id < file.end.value && ss[i].id !in picked;
  }

  /** With room for all of them, every old snapshot below the head is picked. */
  lemma AllOldPicked(ss: seq<Snapshot>, all: seq<Snapshot>, cutoff: int, e: Snapshot)
    requires Ascending(all) && |all| == |ss| + 1 && all[..|ss|] == ss && e in ss && e.time < cutoff
    ensures e.id in Chosen(all, cutoff, |ss|)
  {
    var eligible := Eligible(all, cutoff);
    EligibleAre(all, cutoff);
    OldsFewer(ss, cutoff);
    assert eligible[..|eligible|] == eligible;
    assert e in eligible;
    var k :| 0 <= k < |eligible| && eligible[k] == e;
    assert eligible[k].id == e.id;
  }

  lemma {:induction false} OldsFewer(ss: seq<Snapshot>, cutoff: int)
    ensures |Olds(ss, cutoff)| <= |ss|
  {
    if ss != [] { OldsFewer(ss[..|ss| - 1], cutoff); }
  }

  lemma NobodySees(c: Catalog, f: nat, t: World)
    requires WellFormed(c) && f in c.files && Stuck(t, f, c.files[f])
    requires t.full.snapshots == Headed(c) && Covered(c.snapshots, t.gone)
    ensures Leaked(t, f)
  {
    forall i | 0 <= i < |t.full.snapshots| && t.full.snapshots[i].id < c.files[f].end.value
      ensures t.full.snapshots[i].id in t.gone
    {
      assert i < |c.snapshots| && t.full.snapshots[i] == c.snapshots[i];
    }
  }

  /** A selection with room for all and a cutoff past every time picks everything left but the head. */
  lemma AllGone(c: Catalog, w: World)
    requires WellFormed(c) && Related(w) && w.full.snapshots == Headed(c)
    ensures Covered(c.snapshots, w.gone + Chosen(w.now.snapshots, Newest(c.snapshots) + 1, |c.snapshots|))
  {
    AllLeftPicked(c, w.now.snapshots, w.gone);
  }

  lemma AllLeftPicked(c: Catalog, left: seq<Snapshot>, gone: set<nat>)
    requires WellFormed(c) && left == Without(Headed(c), gone) && Ascending(Headed(c)) && Ascending(left)
    requires left != [] && Head(left) == Head(Headed(c))
    ensures Covered(c.snapshots, gone + Chosen(left, Newest(c.snapshots) + 1, |c.snapshots|))
  {
    WithoutFewer(Headed(c), gone);
    LeftAreOld(c, left, gone);
    PicksAll(left, Newest(c.snapshots) + 1, |c.snapshots|);
  }

  lemma LeftAreOld(c: Catalog, left: seq<Snapshot>, gone: set<nat>)
    requires WellFormed(c) && left == Without(Headed(c), gone) && Ascending(Headed(c)) && Ascending(left)
    requires Head(left) == Head(Headed(c))
    ensures forall s :: s in left && s.id < Head(left) ==> s.time < Newest(c.snapshots) + 1
    ensures forall s :: s in c.snapshots && s.id !in gone ==> s in left && s.id < Head(left)
  {
    WithoutMembers(Headed(c), gone);
    HeadIsLargest(c.snapshots);
    forall s | s in left && s.id < Head(left) ensures s.time < Newest(c.snapshots) + 1 {
      assert s in c.snapshots;
    }
    forall s | s in c.snapshots && s.id !in gone ensures s in left && s.id < Head(left) {
      assert s in Headed(c);
    }
  }

  lemma PicksAll(left: seq<Snapshot>, cutoff: int, size: nat)
    requires Ascending(left) && left != [] && |left| <= size + 1
    requires forall s :: s in left && s.id < Head(left) ==> s.time < cutoff
    ensures forall s :: s in left && s.id < Head(left) ==> s.id in Chosen(left, cutoff, size)
  {
    var e := Eligible(left, cutoff);
    EligibleAre(left, cutoff);
    OldsFewer(left[..|left| - 1], cutoff);
    assert e[..|e|] == e;
    forall s | s in left && s.id < Head(left) ensures s.id in Chosen(left, cutoff, size) {
      var k :| 0 <= k < |e| && e[k] == s;
      assert e[k].id == s.id;
    }
  }

  lemma {:induction false} WithoutFewer(ss: seq<Snapshot>, batch: set<nat>)
    ensures |Without(ss, batch)| <= |ss|
  {
    if ss != [] { WithoutFewer(ss[..|ss| - 1], batch); }
  }

  // ------------------------------------------------------------------------------------------
  // The run
  // ------------------------------------------------------------------------------------------

  lemma OldsLast(ss: seq<Snapshot>, s: Snapshot, cutoff: int)
    ensures Olds(ss + [s], cutoff) == if s.time < cutoff then Olds(ss, cutoff) + [s] else Olds(ss, cutoff)
  {
    assert (ss + [s])[..|ss|] == ss;
  }

  /** From position `from` on, every selection takes up to this many. */
  predicate OneSize(events: seq<Event>, from: nat, size: nat) {
    forall i :: from <= i < |events| && events[i].Select? ==> events[i].limit == size
  }

  /** How many transactions a stretch of history runs. */
  function Executes(events: seq<Event>): nat {
    if events == [] then 0 else Executes(events[..|events| - 1]) + (if events[|events| - 1].Execute? then 1 else 0)
  }

  lemma ExecutesNext(events: seq<Event>, e: Event)
    ensures Executes(events + [e]) == Executes(events) + (if e.Execute? then 1 else 0)
  {
    assert (events + [e])[..|events|] == events;
  }

  /** Snapshots that are not old stay. */
  ghost predicate YoungStay(a: seq<Snapshot>, b: seq<Snapshot>, cutoff: int) {
    forall s :: s in a && s.time >= cutoff ==> s in b
  }

  lemma ExecuteKeepsYoung(ss: seq<Snapshot>, picked: set<nat>, cutoff: int)
    requires Ascending(ss) && Picks(ss, picked, cutoff)
    ensures YoungStay(ss, Without(ss, picked), cutoff)
  {
    WithoutMembers(ss, picked);
    forall s | s in ss && s.time >= cutoff ensures s in Without(ss, picked) {
      PickedIsOld(ss, picked, cutoff, s);
    }
  }

  /** What a stretch of a run keeps: one cutoff and batch size, so many transactions, and the young snapshots. */
  ghost predicate Stretch(a: seq<Event>, sa: seq<Snapshot>, b: seq<Event>, sb: seq<Snapshot>, cutoff: int, size: nat,
                          batches: nat)
  {
    && a <= b && OneCutoff(b, |a|, cutoff) && OneSize(b, |a|, size)
    && Executes(b) == Executes(a) + batches && YoungStay(sa, sb, cutoff)
  }

  lemma StretchNone(a: seq<Event>, sa: seq<Snapshot>, cutoff: int, size: nat)
    ensures Stretch(a, sa, a, sa, cutoff, size, 0)
  {
  }

  lemma StretchBoth(a: seq<Event>, sa: seq<Snapshot>, b: seq<Event>, sb: seq<Snapshot>, c: seq<Event>,
                    sc: seq<Snapshot>, cutoff: int, size: nat, m: nat, n: nat)
    requires Stretch(a, sa, b, sb, cutoff, size, m) && Stretch(b, sb, c, sc, cutoff, size, n)
    ensures Stretch(a, sa, c, sc, cutoff, size, m + n)
  {
    forall i | |a| <= i < |b| ensures c[i] == b[i] {}
  }

  /** Where a run began and what it was asked for. */
  datatype Start = Start(events: seq<Event>, snapshots: seq<Snapshot>, cutoff: int, size: nat, limit: Option<nat>)

  /** The catalog of a process; while it is `quiet`, nobody else commits and the process does not crash. */
  class Database {
    const quiet: bool
    var st: Catalog
    /** The ids the process has selected and not executed yet. */
    var picked: set<nat>
    ghost const start: Catalog
    ghost var events: seq<Event>
    ghost var world: World

    ghost predicate Valid()
      reads this
    {
      WellFormed(start) && world == History(start, events) && st == world.now && picked == world.picked
    }

    constructor (c: Catalog, quiet: bool)
      requires WellFormed(c)
      ensures Valid() && st == c && start == c && events == [] && this.quiet == quiet
    {
      this.quiet := quiet;
      st, picked, start, events, world := c, {}, c, [], Begin(c);
    }

    /** One step, recorded. */
    method Take(e: Event)
      requires Valid()
      modifies this
      ensures Valid() && events == old(events) + [e] && world == Step(old(world), e)
      ensures st == (match e case Commits(w) => Commit(old(st), w) case Select(_, _) => old(st)
                     case Execute => Expire(old(st), old(picked)))
      ensures picked == (match e case Commits(_) => old(picked)
                         case Select(cutoff, limit) => Chosen(old(st).snapshots, cutoff, limit) case Execute => {})
      ensures Executes(events) == Executes(old(events)) + (if e.Execute? then 1 else 0)
    {
      HistoryStep(start, events, e);
      ExecutesNext(events, e);
      match e {
        case Commits(w) => st := Commit(st, w);
        case Select(cutoff, limit) => picked := Chosen(st.snapshots, cutoff, limit);
        case Execute => st, picked := Expire(st, picked), {};
      }
      events, world := events + [e], Step(world, e);
    }

    twostate predicate Ran(cutoff: int, size: nat, batches: nat)
      reads this
    {
      Valid() && Stretch(old(events), old(st.snapshots), events, st.snapshots, cutoff, size, batches)
    }

    /** Other writers, at times that are not old. */
    method Others(cutoff: int, ghost size: nat)
      requires Valid()
      modifies this
      ensures Ran(cutoff, size, 0)
      ensures Olds(st.snapshots, cutoff) == Olds(old(st.snapshots), cutoff)
      ensures picked == old(picked) && world.cutoff == old(world).cutoff
      ensures quiet ==> st == old(st) && events == old(events)
    {
      var steps: nat := *;
      StretchNone(events, st.snapshots, cutoff, size);
      while steps > 0 && !quiet
        invariant Ran(cutoff, size, 0)
        invariant Olds(st.snapshots, cutoff) == Olds(old(st.snapshots), cutoff)
        invariant picked == old(picked) && world.cutoff == old(world).cutoff
        invariant quiet ==> st == old(st) && events == old(events)
      {
        ghost var was, held := events, st.snapshots;
        OtherCommit(cutoff, size);
        StretchBoth(old(events), old(st.snapshots), was, held, events, st.snapshots, cutoff, size, 0, 0);
        steps := steps - 1;
      }
    }

    method OtherCommit(cutoff: int, ghost size: nat)
      requires Valid()
      modifies this
      ensures Ran(cutoff, size, 0) && Olds(st.snapshots, cutoff) == Olds(old(st.snapshots), cutoff)
      ensures picked == old(picked) && world.cutoff == old(world).cutoff
    {
      var time: int, added: nat, ended: set<nat> := *, *, *;
      if time >= cutoff {
        OldsLast(st.snapshots, Snapshot(Head(st.snapshots) + 1, time), cutoff);
        Take(Commits(Write(time, added, ended)));
      }
    }

    /** Batches until nothing is eligible or the limit is reached, with other writers before and inside each;
        `crashed` if it stopped anywhere else. */
    method ExpireSnapshots(cutoff: int, batchSize: nat, numBatches: Option<nat>)
      returns (crashed: bool, ghost batches: nat)
      requires Valid() && batchSize > 0
      modifies this
      ensures Ran(cutoff, batchSize, batches) && (numBatches.Some? ==> batches <= numBatches.value)
      ensures !crashed ==> Eligible(st.snapshots, cutoff) == [] || numBatches == Some(batches)
      ensures quiet ==> !crashed
    {
      var batch, going := 0, true;
      crashed, batches := false, 0;
      ghost var from := Start(events, st.snapshots, cutoff, batchSize, numBatches);
      StretchNone(events, st.snapshots, cutoff, batchSize);
      while going
        invariant Stands(from, batch, batches, going, crashed)
        decreases |Olds(st.snapshots, cutoff)|, going
      {
        going, crashed, batches := NextRound(from, cutoff, batchSize, numBatches, batch, batches);
        batch := batch + 1;
      }
    }

    /** How a run stands after `batch` turns, of which `batches` ran their transaction. */
    ghost predicate Stands(from: Start, batch: nat, batches: nat, going: bool, crashed: bool)
      reads this
    {
      && Valid() && Stretch(from.events, from.snapshots, events, st.snapshots, from.cutoff, from.size, batches)
      && (from.limit.Some? ==> batches <= from.limit.value)
      && (crashed ==> !going && !quiet) && (going ==> batches == batch)
      && (!going && !crashed ==> Eligible(st.snapshots, from.cutoff) == [] || from.limit == Some(batches))
    }

    method NextRound(ghost from: Start, cutoff: int, batchSize: nat, numBatches: Option<nat>, batch: nat,
                     ghost batches: nat)
      returns (going: bool, crashed: bool, ghost batches': nat)
      requires Stands(from, batch, batches, true, false) && batchSize > 0
      requires cutoff == from.cutoff && batchSize == from.size && numBatches == from.limit
      modifies this
      ensures Stands(from, batch + 1, batches', going, crashed)
      ensures |Olds(st.snapshots, cutoff)| <= |Olds(old(st.snapshots), cutoff)|
      ensures going ==> |Olds(st.snapshots, cutoff)| < |Olds(old(st.snapshots), cutoff)|
    {
      ghost var was, held := events, st.snapshots;
      ghost var n;
      going, crashed, n := Round(cutoff, batchSize, numBatches.Some? && batch >= numBatches.value);
      StretchBoth(from.events, from.snapshots, was, held, events, st.snapshots, cutoff, batchSize, batches, n);
      batches' := batches + n;
    }

    /** One turn of the loop; `going` says that it ran its batch. */
    method Round(cutoff: int, batchSize: nat, enough: bool) returns (going: bool, crashed: bool, ghost n: nat)
      requires Valid() && batchSize > 0
      modifies this
      ensures Ran(cutoff, batchSize, n) && n == (if going then 1 else 0) && (enough ==> !going)
      ensures crashed ==> !going && !quiet
      ensures !going && !crashed ==> Eligible(st.snapshots, cutoff) == [] || enough
      ensures |Olds(st.snapshots, cutoff)| <= |Olds(old(st.snapshots), cutoff)|
      ensures going ==> |Olds(st.snapshots, cutoff)| < |Olds(old(st.snapshots), cutoff)|
    {
      n := 0;
      Others(cutoff, batchSize);
      crashed := *;
      crashed := crashed && !quiet;
      if crashed || Eligible(st.snapshots, cutoff) == [] || enough {
        return false, crashed, 0;
      }
      ghost var was, held := events, st.snapshots;
      crashed := RunBatch(cutoff, batchSize);
      going := !crashed;
      n := if crashed then 0 else 1;
      StretchBoth(old(events), old(st.snapshots), was, held, events, st.snapshots, cutoff, batchSize, 0, n);
    }

    /** The selection, whatever others do meanwhile, and the transaction, unless the process crashes before it. */
    method RunBatch(cutoff: int, batchSize: nat) returns (crashed: bool)
      requires Valid() && batchSize > 0 && Eligible(st.snapshots, cutoff) != []
      modifies this
      ensures Ran(cutoff, batchSize, if crashed then 0 else 1) && (quiet ==> !crashed)
      ensures |Olds(st.snapshots, cutoff)| <= |Olds(old(st.snapshots), cutoff)|
      ensures !crashed ==> |Olds(st.snapshots, cutoff)| < |Olds(old(st.snapshots), cutoff)|
    {
      SelectBatch(cutoff, batchSize);
      ghost var was, held := events, st.snapshots;
      Others(cutoff, batchSize);
      StretchBoth(old(events), old(st.snapshots), was, held, events, st.snapshots, cutoff, batchSize, 0, 0);
      crashed := *;
      crashed := crashed && !quiet;
      if !crashed {
        was, held := events, st.snapshots;
        ExecuteBatch(cutoff, batchSize);
        StretchBoth(old(events), old(st.snapshots), was, held, events, st.snapshots, cutoff, batchSize, 0, 1);
      }
    }

    method SelectBatch(cutoff: int, batchSize: nat)
      requires Valid() && batchSize > 0 && Eligible(st.snapshots, cutoff) != []
      modifies this
      ensures Ran(cutoff, batchSize, 0) && st == old(st)
      ensures picked != {} && world.cutoff == cutoff
    {
      HistoryRelated(start, events);
      ChosenAre(st.snapshots, cutoff, batchSize);
      Take(Select(cutoff, batchSize));
    }

    method ExecuteBatch(cutoff: int, ghost size: nat)
      requires Valid() && picked != {} && world.cutoff == cutoff
      modifies this
      ensures Ran(cutoff, size, 1)
      ensures |Olds(st.snapshots, cutoff)| < |Olds(old(st.snapshots), cutoff)|
    {
      HistoryRelated(start, events);
      BatchShrinks(st.snapshots, picked, cutoff);
      ExecuteKeepsYoung(st.snapshots, picked, cutoff);
      Take(Execute);
    }
  }

  /** A batch leaves fewer old snapshots. */
  lemma BatchShrinks(ss: seq<Snapshot>, picked: set<nat>, cutoff: int)
    requires Picks(ss, picked, cutoff) && picked != {}
    ensures |Olds(Without(ss, picked), cutoff)| < |Olds(ss, cutoff)|
  {
    var id :| id in picked;
    assert OldBelowHead(ss, id, cutoff);
    var s :| s in ss && s.id == id && s.time < cutoff;
    FewerOlds(ss, picked, cutoff, s);
  }

  lemma {:induction false} FewerOlds(ss: seq<Snapshot>, batch: set<nat>, cutoff: int, s: Snapshot)
    requires s.id in batch && s.time < cutoff
    ensures |Olds(Without(ss, batch), cutoff)| <= |Olds(ss, cutoff)| - (if s in ss then 1 else 0)
  {
    if ss != [] {
      var n := |ss| - 1;
      FewerOlds(ss[..n], batch, cutoff, s);
      OldsOfWithout(ss, batch, cutoff);
      assert s in ss <==> s in ss[..n] || s == ss[n];
    }
  }

  lemma OldsOfWithout(ss: seq<Snapshot>, batch: set<nat>, cutoff: int)
    requires ss != []
    ensures var last := ss[|ss| - 1];
      |Olds(Without(ss, batch), cutoff)|
      == |Olds(Without(ss[..|ss| - 1], batch), cutoff)| + (if last.id !in batch && last.time < cutoff then 1 else 0)
  {
    var w, before := Without(ss, batch), Without(ss[..|ss| - 1], batch);
    if ss[|ss| - 1].id in batch {
      assert w == before;
    } else {
      assert w[..|w| - 1] == before;
    }
  }

  /** An unlimited run leaves none of the old snapshots but a head. */
  lemma NothingOldLeft(ss: seq<Snapshot>, cutoff: int)
    requires Ascending(ss) && ss != [] && Eligible(ss, cutoff) == []
    ensures forall s :: s in ss && s.time < cutoff ==> s.id == Head(ss)
  {
    EligibleAre(ss, cutoff);
    HeadIsLargest(ss);
  }
}
