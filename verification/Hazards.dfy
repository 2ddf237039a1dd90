/**
 Where the promises of the write path end: which assumption each of them needs, and exactly when it fails.
 */
module Hazards {
  import opened Wrappers
  import opened FlushKey
  import opened Lake
  import opened Errors
  import opened Catalog
  import opened PartitionFanout
  import opened Reconciliation
  import opened Flush

  // ------------------------------------------------------------------------------------------
  // Refusals that do not bind
  // ------------------------------------------------------------------------------------------

  /** The flush of `p`, rebuilt for the incarnation that a drop and a create of `info` bring about. */
  function Rebuilt(s: State, p: Payload, info: Info): Payload
    requires p.identity.Some?
  {
    p.(key := KeyOf(s.nextUuid, p.identity.value), uuid := s.nextUuid, basis := s.head + 2, shape := info,
       spec := info.layout.partition, aligned := info.columns, failed := {})
  }

  /** The request is refused with a plain 409 and delivered once more, late. */
  function Refusal(p: Payload): seq<Action> {
    [Environment(Late(p, true)), Environment(Late(p, false))]
  }

  /** The table is recreated and the flush, rebuilt, is sent and delivered. */
  function Recreation(q: Payload, info: Info): seq<Action> {
    [Environment(Drop), Environment(Create(info.columns, info.layout)), Send(q), Environment(Late(q, false))]
  }

  /** Both publications if a plain refusal does not bind the server, and only the second if it does. */
  function Published(s: State, p: Payload, q: Payload, info: Info): seq<Publication>
    requires s.live.Some?
  {
    if s.stable then s.pubs + [Publication(q, info, s.head + 3)]
    else s.pubs + [Publication(p, s.live.value, s.head + 1)] + [Publication(q, info, s.head + 4)]
  }

  /** In every state in which a request can still publish, the same ranges get into both incarnations if a plain
      refusal does not bind the server, and only into the second if it does. */
  lemma RefusalsMustBind(s: State, p: Payload, info: Info)
    requires Lake.Valid(s) && s.doomed <= s.sends && p in s.sends && p.identity.Some? && !Spent(s, p)
    requires s.live.Some? && s.live.value.uuid == p.uuid && info.uuid == s.nextUuid
    ensures var q := Rebuilt(s, p, info);
      Run(s, Refusal(p) + Recreation(q, info)).pubs == Published(s, p, q, info)
  {
    var q := Rebuilt(s, p, info);
    var m := HalfDone(s, p, q, info);
    SecondIncarnation(s, m, p, q, info);
    Joined(s, Refusal(p), m, Recreation(q, info), Published(s, p, q, info));
  }

  lemma HalfDone(s: State, p: Payload, q: Payload, info: Info) returns (m: State)
    requires p in s.sends && !Spent(s, p) && s.live.Some? && s.live.value.uuid == p.uuid
    ensures m == Run(s, Refusal(p)) && m == Halfway(s, p)
    ensures m.pubs + [Publication(q, info, m.head + 3)] == Published(s, p, q, info)
  {
    LateCopy(s, p);
    m := Halfway(s, p);
  }

  lemma Joined(s: State, a: seq<Action>, m: State, b: seq<Action>, pubs: seq<Publication>)
    requires Run(s, a) == m && Run(m, b).pubs == pubs
    ensures Run(s, a + b).pubs == pubs
  {
    RunInTwo(s, a, b);
  }

  /** What the late copy of a refused request does. */
  lemma LateCopy(s: State, p: Payload)
    requires p in s.sends && !Spent(s, p) && s.live.Some? && s.live.value.uuid == p.uuid
    ensures Run(s, Refusal(p)) == Halfway(s, p)
  {
    var refused := s.(doomed := s.doomed + {p});
    assert Env(s, Late(p, true)) == refused;
    assert refused.doomed + {p} == refused.doomed;
    Chain(Refusal(p), [s, refused, Halfway(s, p)]);
  }

  function Halfway(s: State, p: Payload): State
    requires s.live.Some?
  {
    var refused := s.(doomed := s.doomed + {p});
    if s.stable then refused else Publish(refused, p)
  }

  /** A derived key with a receipt names an incarnation that was allocated. */
  lemma ReceiptsAreOld(s: State)
    requires Lake.Valid(s)
    ensures forall k: Key :: k in s.receipts && k.Named? ==> k.uuid < s.nextUuid
  {
    forall k: Key | k in s.receipts && k.Named? ensures k.uuid < s.nextUuid {
      var i :| 0 <= i < |s.pubs| && s.pubs[i].payload.key == k;
      assert WellPublished(s, s.pubs[i]) && WellSent(s, s.pubs[i].payload);
    }
  }

  /** The recreated table, and the flush rebuilt for it. */
  function Recreated(m: State, info: Info): State {
    Env(Env(m, Drop), Create(info.columns, info.layout))
  }

  lemma RebuiltIsNew(s: State, m: State, p: Payload, q: Payload, info: Info)
    requires Lake.Valid(s) && s.doomed <= s.sends && p in s.sends && p.identity.Some? && !Spent(s, p)
    requires s.live.Some? && s.live.value.uuid == p.uuid && info.uuid == s.nextUuid && q == Rebuilt(s, p, info)
    requires m == Halfway(s, p)
    ensures var t := Recreated(m, info);
      && WellSent(t, q) && t.live == Some(info) && t.head == m.head + 2 && t.pubs == m.pubs
      && q.key !in t.receipts && q !in t.doomed && t.floor <= q.basis && !AlteredSince(t, q.uuid, q.basis)
  {
    ReceiptsAreOld(s);
    assert q !in s.sends && q.key !in s.receipts;
    assert q.key != p.key;
    assert !AlteredSince(Recreated(m, info), q.uuid, q.basis);
  }

  lemma NewTablePublishes(t: State, q: Payload, info: Info)
    requires t.live == Some(info) && info.uuid == q.uuid
    requires q.key !in t.receipts && q !in t.doomed && t.floor <= q.basis && !AlteredSince(t, q.uuid, q.basis)
    ensures Env(Launch(t, q), Late(q, false)).pubs == t.pubs + [Publication(q, info, t.head + 1)]
  {
    assert Env(Launch(t, q), Late(q, false)) == Publish(Launch(t, q), q);
  }

  lemma RecreationRuns(m: State, q: Payload, info: Info)
    requires WellSent(Recreated(m, info), q)
    ensures Run(m, Recreation(q, info)) == Env(Launch(Recreated(m, info), q), Late(q, false))
  {
    var t := Recreated(m, info);
    Chain(Recreation(q, info), [m, Env(m, Drop), t, Launch(t, q), Env(Launch(t, q), Late(q, false))]);
  }

  lemma SecondIncarnation(s: State, m: State, p: Payload, q: Payload, info: Info)
    requires Lake.Valid(s) && s.doomed <= s.sends && p in s.sends && p.identity.Some? && !Spent(s, p)
    requires s.live.Some? && s.live.value.uuid == p.uuid && info.uuid == s.nextUuid && q == Rebuilt(s, p, info)
    requires m == Halfway(s, p)
    ensures Run(m, Recreation(q, info)).pubs == m.pubs + [Publication(q, info, m.head + 3)]
  {
    RebuiltIsNew(s, m, p, q, info);
    RecreationRuns(m, q, info);
    NewTablePublishes(Recreated(m, info), q, info);
  }

  lemma {:induction false} RunInTwo(s: State, a: seq<Action>, b: seq<Action>)
    ensures Run(s, a + b) == Run(Run(s, a), b)
    decreases |a|
  {
    if a == [] {
      assert a + b == b;
    } else {
      assert (a + b)[1..] == a[1..] + b;
      RunInTwo(Act(s, a[0]), a[1..], b);
    }
  }

  // ------------------------------------------------------------------------------------------
  // A slow prepare
  // ------------------------------------------------------------------------------------------

  function Played(s: State, events: seq<Event>): State
    decreases |events|
  {
    if events == [] then s else Played(Env(s, events[0]), events[1..])
  }

  lemma {:induction false} PlayedAges(s: State, events: seq<Event>)
    requires Lake.Valid(s)
    ensures Aged(s, Played(s, events))
    decreases |events|
  {
    EvolvesReflexive(s);
    if events != [] {
      EnvKeeps(s, events[0]);
      PlayedAges(Env(s, events[0]), events[1..]);
      EvolvesTransitive(s, Env(s, events[0]), Played(s, events));
    }
  }

  /** The one registration under which a row is filed. */
  function Wanted(transform: Transform, spec: seq<Field>, row: Row): Option<Tuple> {
    if spec == [] then None else Some(TupleOf(transform, spec, row))
  }

  lemma WantedIsUnder(transform: Transform, spec: seq<Field>, row: Row, t: Option<Tuple>)
    ensures Under(transform, spec, row, t) <==> t == Wanted(transform, spec, row)
  {
    if t.Some? { TupleFits(transform, spec, row, t.value); }
  }

  /** Some file of the request stands in the lake under a tuple that does not fit its row in the live spec. */
  ghost predicate Misfiled(transform: Transform, s: State, p: Payload) {
    exists k, i, row ::
      && 0 <= k < |s.pubs| && s.pubs[k].payload == p && 0 <= i < |p.files| && row in p.files[i].rows
      && !Under(transform, s.pubs[k].table.layout.partition, row, p.files[i].tuple)
  }

  /** A shape checked at `a` and drafted under: live, anchored, and the draft computed under its spec. */
  ghost predicate Drafted(transform: Transform, a: State, h: Handle, d: Draft, rows: seq<Row>) {
    && Lake.Valid(a) && a.doomed <= a.sends
    && h.cache.Some? && Anchored(a, h.cache.value) && a.live == Some(h.cache.value.info)
    && d.expected == h.cache.value.info.uuid && d.columns == h.cache.value.info.columns
    && d.began <= a.now && Aligned(a, d.aligned, d.failed, d.began, a.now)
    && d.spec == h.cache.value.info.layout.partition && d.groups == Fanout(transform, d.spec, rows)
    && d.identity.Some? && d.key == KeyOf(d.expected, d.identity.value)
    && d.key !in a.receipts && (forall p :: p in a.sends ==> p.key != d.key)
  }

  /** The prepare at `s` and, once its request was put on the wire, whatever happens. */
  ghost predicate Goes(retention: Option<nat>, transform: Transform, h: Handle, d: Draft, s: State, after: seq<Event>) {
    var h' := Resolved(retention, s, h);
    var p := Request(h', d, s.nextObject, retention, s.now);
    p.Ok? && Misfiled(transform, Played(Launch(s, p.value), after), p.value)
  }

  /** The environment between the check and the prepare, `delay` later, and after it, that misfiles the draft. */
  ghost predicate Misfiling(retention: Option<nat>, transform: Transform, a: State, h: Handle, d: Draft, delay: nat,
                            between: seq<Event>, after: seq<Event>)
  {
    Played(a, between).now == a.now + delay && Goes(retention, transform, h, d, Played(a, between), after)
  }

  /** A draft can be misfiled by what others do exactly if the shape's age at the check plus the delay until the
      prepare reaches half the retention, so that the library reads the table anew. `row` and `other` say that
      the spec matters: a row of the batch has another tuple under some other spec. */
  lemma MisfilesExactly(retention: Option<nat>, transform: Transform, a: State, h: Handle, d: Draft, rows: seq<Row>,
                        row: Row, other: seq<Field>, delay: nat)
    requires Drafted(transform, a, h, d, rows) && row in rows
    requires Wanted(transform, other, row) != Wanted(transform, d.spec, row)
    ensures (exists between, after :: Misfiling(retention, transform, a, h, d, delay, between, after))
            <==> !Within(retention, 2, a.now + delay - h.cache.value.readAt)
  {
    if Within(retention, 2, a.now + delay - h.cache.value.readAt) {
      forall between, after ensures !Misfiling(retention, transform, a, h, d, delay, between, after) {
        if Played(a, between).now == a.now + delay {
          PromptIsFiled(retention, transform, a, h, d, rows, between, after);
        }
      }
    } else {
      var between, after := SlowIsMisfiled(retention, transform, a, h, d, rows, row, other, delay);
    }
  }

  lemma PromptIsFiled(retention: Option<nat>, transform: Transform, a: State, h: Handle, d: Draft, rows: seq<Row>,
                      between: seq<Event>, after: seq<Event>)
    requires Drafted(transform, a, h, d, rows)
    requires Within(retention, 2, Played(a, between).now - h.cache.value.readAt)
    ensures !Goes(retention, transform, h, d, Played(a, between), after)
  {
    PlayedAges(a, between);
    var s := Played(a, between);
    AnchoredForGood(a, s, h.cache.value);
    var p := Request(h, d, s.nextObject, retention, s.now).value;
    AlignedForGood(a, s, d.aligned, d.failed, d.began, a.now, s.now);
    LaunchKeeps(s, p);
    PlayedAges(Launch(s, p), after);
    var t := Played(Launch(s, p), after);
    FanoutCarries(transform, p, rows, s.nextObject);
    TupledIsFiled(transform, t, p);
  }

  lemma TupledIsFiled(transform: Transform, t: State, p: Payload)
    requires Lake.Valid(t) && Tupled(transform, p, p.spec) && p.shape.layout.partition == p.spec
    ensures !Misfiled(transform, t, p)
  {
    forall k | 0 <= k < |t.pubs| && t.pubs[k].payload == p ensures t.pubs[k].table.layout.partition == p.spec {
      assert WellPublished(t, t.pubs[k]);
    }
  }

  /** The alter nobody sees: it lands after the check, the library's new read sits ahead of it, and the request is
      accepted under the new spec. */
  lemma SlowIsMisfiled(retention: Option<nat>, transform: Transform, a: State, h: Handle, d: Draft, rows: seq<Row>,
                       row: Row, other: seq<Field>, delay: nat)
    returns (between: seq<Event>, after: seq<Event>)
    requires Drafted(transform, a, h, d, rows) && row in rows
    requires Wanted(transform, other, row) != Wanted(transform, d.spec, row)
    requires !Within(retention, 2, a.now + delay - h.cache.value.readAt)
    ensures Misfiling(retention, transform, a, h, d, delay, between, after)
  {
    var info := h.cache.value.info;
    var layout := Layout(other, info.layout.sort);
    between := [ForeignAlter(info.columns, layout), Tick(delay)];
    var s1 := Env(a, between[0]);
    var s := Env(s1, between[1]);
    assert between[1..] == [Tick(delay)] && between[1..][1..] == [];
    assert Played(s1, between[1..]) == Played(s, []) == s;
    PlayedAges(a, between);
    var h' := Resolved(retention, s, h);
    var p := Request(h', d, s.nextObject, retention, s.now).value;
    after := [Late(p, false)];
    NewBasisPublishes(s, p);
    var t := Publish(Launch(s, p), p);
    assert after[1..] == [] && Played(Launch(s, p), after) == t;
    var i := RowIsFiled(transform, p, rows, row, s.nextObject);
    assert t.pubs[|s.pubs|].payload == p && t.pubs[|s.pubs|].table == s.live.value;
    WantedIsUnder(transform, other, row, p.files[i].tuple);
    assert Misfiled(transform, t, p);
  }

  lemma NewBasisPublishes(s: State, p: Payload)
    requires Lake.Valid(s) && s.live.Some? && p.uuid == s.live.value.uuid && p.basis == s.head
    requires p.key !in s.receipts && p !in s.doomed
    ensures Env(Launch(s, p), Late(p, false)) == Publish(Launch(s, p), p)
  {
  }

  lemma RowIsFiled(transform: Transform, p: Payload, rows: seq<Row>, row: Row, from: nat) returns (i: nat)
    requires p.files == Register(Fanout(transform, p.spec, rows), from) && row in rows
    ensures i < |p.files| && row in p.files[i].rows && p.files[i].tuple == Wanted(transform, p.spec, row)
  {
    FanoutCarries(transform, p, rows, from);
    assert row in multiset(FileRows(p.files));
    i := FileOf(p.files, row);
    WantedIsUnder(transform, p.spec, row, p.files[i].tuple);
  }

  lemma {:induction false} FileOf(files: seq<File>, row: Row) returns (i: nat)
    requires row in FileRows(files)
    ensures i < |files| && row in files[i].rows
  {
    if row in files[|files| - 1].rows {
      i := |files| - 1;
    } else {
      i := FileOf(files[..|files| - 1], row);
    }
  }

  /** A run, spelled out state by state. */
  lemma {:induction false} Chain(actions: seq<Action>, states: seq<State>)
    requires |states| == |actions| + 1
    requires forall i :: 0 <= i < |actions| ==> states[i + 1] == Act(states[i], actions[i])
    ensures Run(states[0], actions) == states[|actions|]
    decreases |actions|
  {
    if actions != [] {
      Chain(actions[1..], states[1..]);
    }
  }
}
