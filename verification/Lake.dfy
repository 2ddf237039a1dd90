/**
 The hoglake server as one destination table of one pipeline sees it: a value,
 the steps other parties take on it, and the commit transaction.

 Everything that outlives a millpond process is here: the live table incarnation,
 the alter log, the expiry floor, receipts, publications and every commit request
 that was ever put on the wire and may still be delivered.
 */
module Lake {
  import opened Wrappers
  import opened FlushKey
  import opened Errors

  datatype Field = Field(column: string, transform: string, param: Option<int>)
  datatype SortField = SortField(column: string, direction: string, nulls: string)
  datatype Layout = Layout(partition: seq<Field>, sort: seq<SortField>)

  /** A `TableInfo`: which incarnation, its columns, its partition spec and sort order. */
  datatype Info = Info(uuid: nat, columns: set<string>, layout: Layout)

  /** One record. `topic`, `partition` and `offset` say where it came from; a column absent from
      `values` is null. */
  datatype Row = Row(topic: string, partition: nat, offset: nat, values: map<string, string>)

  /** One uploaded parquet object and the partition tuple it is registered under. */
  datatype File = File(path: nat, tuple: Option<seq<Option<string>>>, rows: seq<Row>)

  /** How a request was built: begun at `began`, the table resolved by the client library at `ready`, under a
      catalog with this retention. */
  datatype Built = Built(began: nat, ready: nat, retention: Option<nat>)

  /** A prepared commit request. `basis` is its `read_snapshot`, `uuid` its `expected_table_uuid`. The rest is
      not on the wire: `spec` is the partition spec the tuples were computed under, `aligned` are the batch's
      columns as aligned to the table, `failed` the ones left out because their own add failed, `shape` is the
      table as the client library resolved it at `basis`. */
  datatype Payload = Payload(
    key: Key, identity: Option<seq<Range>>, uuid: nat, basis: nat, files: seq<File>,
    spec: seq<Field>, aligned: set<string>, failed: set<string>, shape: Info, built: Built)
  {
    /** The columns the files hold values of. */
    function Carried(): set<string> { aligned * shape.columns }

    /** Built in less than a quarter of the retention. */
    predicate Prompt() { Within(built.retention, 4, built.ready - built.began) }
  }

  /** `elapsed` is under one `part`-th of the retention; without a retention nothing ages. */
  predicate Within(retention: Option<nat>, part: nat, elapsed: int) {
    retention.None? || part * elapsed < retention.value
  }

  /** A sink's alter: the columns it asked for, the halves of the layout it declared, and the error it failed with, if
      it did: a refusal, or a transient error, or an answer nobody could read. */
  datatype Ask = Ask(add: set<string>, partition: bool, sort: bool, error: Option<Exn>, at: nat)

  datatype Alter = Alter(uuid: nat, snapshot: nat)
  datatype Publication = Publication(payload: Payload, table: Info, snapshot: nat)

  /**
   `stable` is the server property the sink's own comments rely on: an untyped 409 or 422 "means the
   same thing to every identical resend". `doomed` are the requests refused that way.
   `asks` are the alters sinks asked for, `had` the columns any incarnation ever had. Uploaded objects are numbered
   from 0 to `nextObject - 1`.
   */
  datatype State = State(
    stable: bool,
    now: nat,
    head: nat,
    floor: nat,
    live: Option<Info>,
    nextUuid: nat,
    alters: seq<Alter>,
    receipts: map<Key, Payload>,
    pubs: seq<Publication>,
    sends: set<Payload>,
    doomed: set<Payload>,
    asks: set<Ask>,
    had: set<string>,
    nextObject: nat)

  /** How the server answers one delivered commit request. */
  datatype Answer =
    | Committed
    | ReusedKey
    | NoSuchTable
    | Recreated
    | BasisExpired
    | DdlSinceBasis
    | Refused

  predicate AlteredSince(s: State, uuid: nat, basis: nat) {
    exists i :: 0 <= i < |s.alters| && s.alters[i].uuid == uuid && basis < s.alters[i].snapshot
  }

  /** The incarnation is gone: allocated once, and not what the name resolves to. */
  predicate Dead(s: State, uuid: nat) {
    uuid < s.nextUuid && (s.live.None? || s.live.value.uuid != uuid)
  }

  /** Nothing seen so far says that the incarnation is gone. */
  predicate MayLive(s: State, uuid: nat) {
    !Dead(s, uuid)
  }

  /** No delivery of `p`, however late, can ever publish it. */
  predicate Spent(s: State, p: Payload) {
    || p.key in s.receipts
    || Dead(s, p.uuid)
    || p.basis < s.floor
    || AlteredSince(s, p.uuid, p.basis)
    || (s.stable && p in s.doomed)
  }

  /** While the incarnation of `info` is live and unaltered since `basis`, the table is as `info` says. */
  predicate Grounded(s: State, basis: nat, info: Info) {
    s.live.Some? && s.live.value.uuid == info.uuid && !AlteredSince(s, info.uuid, basis)
    ==> s.live.value == info
  }

  predicate WellNamed(p: Payload) {
    match p.identity
    case Some(ranges) => p.key == KeyOf(p.uuid, ranges)
    case None => p.key.Anonymous?
  }

  /** The column was asked for between these times. */
  predicate AskedIn(s: State, column: string, from: nat, to: nat) {
    exists a | a in s.asks :: column in a.add && from <= a.at <= to
  }

  /** And that was not refused. */
  predicate AddedIn(s: State, column: string, from: nat, to: nat) {
    exists a | a in s.asks :: column in a.add && a.error.None? && from <= a.at <= to
  }

  /** An error of the client library other than the refusal for files without field ids. */
  predicate Degrades(error: Option<Exn>) {
    error.Some? && IsHoglakeError(error.value) && !error.value.IdlessFilesPresent?
  }

  /** It was asked for alone between these times, and that add failed, but not for files without field ids. */
  predicate FailedIn(s: State, column: string, from: nat, to: nat) {
    exists a | a in s.asks :: a.add == {column} && Degrades(a.error) && from <= a.at <= to
  }

  /** An alignment between these times kept and left out these columns: every one it kept the table had, or was asked
      for and did not refuse, and one is left out only if its own add failed. */
  predicate Aligned(s: State, kept: set<string>, failed: set<string>, from: nat, to: nat) {
    && (forall c :: c in kept ==> c in s.had || AddedIn(s, c, from, to))
    && (forall c :: c in failed ==> FailedIn(s, c, from, to))
  }

  lemma AlignedForGood(a: State, b: State, kept: set<string>, failed: set<string>, from: nat, to: nat, to': nat)
    requires Aligned(a, kept, failed, from, to) && a.asks <= b.asks && a.had <= b.had && to <= to'
    ensures Aligned(b, kept, failed, from, to')
  {
  }

  predicate WellSent(s: State, p: Payload) {
    && WellNamed(p)
    && p.uuid < s.nextUuid
    && p.basis <= s.head
    && p.shape.uuid == p.uuid && Grounded(s, p.basis, p.shape)
    && (p.Prompt() ==> p.shape.layout.partition == p.spec)
    && Aligned(s, p.aligned, p.failed, p.built.began, p.built.ready)
  }

  predicate WellPublished(s: State, pub: Publication) {
    && pub.payload in s.sends
    && pub.payload.key in s.receipts && s.receipts[pub.payload.key] == pub.payload
    && pub.table == pub.payload.shape
  }

  /** What every reachable server state keeps. */
  ghost predicate Valid(s: State) {
    && s.floor <= s.head
    && (s.live.Some? ==> s.live.value.uuid < s.nextUuid && s.live.value.columns <= s.had)
    && (forall i :: 0 <= i < |s.alters| ==> s.alters[i].snapshot <= s.head && s.alters[i].uuid < s.nextUuid)
    && (forall p :: p in s.sends ==> WellSent(s, p))
    && (forall i :: 0 <= i < |s.pubs| ==> WellPublished(s, s.pubs[i]))
    && (forall i, j :: 0 <= i < j < |s.pubs| ==> s.pubs[i].payload.key != s.pubs[j].payload.key)
    && (forall k :: k in s.receipts ==> exists i :: 0 <= i < |s.pubs| && s.pubs[i].payload.key == k)
  }

  function Initial(stable: bool): State {
    State(stable, 0, 0, 0, None, 0, [], map[], [], {}, {}, {}, {}, 0)
  }

  // ------------------------------------------------------------------------------------------
  // The commit transaction
  // ------------------------------------------------------------------------------------------

  function Publish(s: State, p: Payload): State
    requires s.live.Some?
  {
    s.(head := s.head + 1,
       receipts := s.receipts[p.key := p],
       pubs := s.pubs + [Publication(p, s.live.value, s.head + 1)])
  }

  /** The receipt is looked up first, then the incarnation is resolved, then the conflict window is
      judged; `refuse` is the server refusing for a reason of its own, with a plain 409 or 422. */
  function Deliver(s: State, p: Payload, refuse: bool): (State, Answer) {
    if p.key in s.receipts then
      (s, if s.receipts[p.key] == p then Committed else ReusedKey)
    else if s.live.None? then (s, NoSuchTable)
    else if s.live.value.uuid != p.uuid then (s, Recreated)
    else if p.basis < s.floor then (s, BasisExpired)
    else if AlteredSince(s, p.uuid, p.basis) then (s, DdlSinceBasis)
    else if refuse || (s.stable && p in s.doomed) then (s.(doomed := s.doomed + {p}), Refused)
    else (Publish(s, p), Committed)
  }

  // ------------------------------------------------------------------------------------------
  // Steps of everybody else
  // ------------------------------------------------------------------------------------------

  datatype Event =
    | Tick(dt: nat)
    | ForeignCommit
    | ForeignAlter(columns: set<string>, layout: Layout)
    | Drop
    | Create(columns: set<string>, layout: Layout)
    | Expire(floor: nat)
    | Late(payload: Payload, refuse: bool)

  function CreateTable(s: State, columns: set<string>, layout: Layout): State
    requires s.live.None?
  {
    s.(head := s.head + 1, nextUuid := s.nextUuid + 1, live := Some(Info(s.nextUuid, columns, layout)),
       had := s.had + columns)
  }

  function AlterTable(s: State, columns: set<string>, layout: Layout): State
    requires s.live.Some?
  {
    var u := s.live.value.uuid;
    s.(head := s.head + 1,
       live := Some(Info(u, columns, layout)), had := s.had + columns,
       alters := s.alters + [Alter(u, s.head + 1)])
  }

  /** One step of the environment; an event that does not apply changes nothing. */
  function Env(s: State, e: Event): State {
    match e
    case Tick(dt) => s.(now := s.now + dt)
    case ForeignCommit => s.(head := s.head + 1)
    case ForeignAlter(columns, layout) => if s.live.Some? then AlterTable(s, columns, layout) else s
    case Drop => if s.live.Some? then s.(head := s.head + 1, live := None) else s
    case Create(columns, layout) => if s.live.None? then CreateTable(s, columns, layout) else s
    case Expire(floor) => if s.floor <= floor <= s.head then s.(floor := floor) else s
    case Late(p, refuse) => if p in s.sends then Deliver(s, p, refuse).0 else s
  }

  // ------------------------------------------------------------------------------------------
  // What time does to a server state
  // ------------------------------------------------------------------------------------------

  /** `b` is a later state than `a`. Nothing is forgotten, no incarnation returns, a table altered by
      nobody keeps its shape, and whatever was published in between was not spent in `a`. */
  ghost predicate Evolves(a: State, b: State) {
    && a.stable == b.stable
    && a.now <= b.now && a.head <= b.head && a.floor <= b.floor && a.nextUuid <= b.nextUuid
    && a.nextObject <= b.nextObject
    && a.alters <= b.alters
    && a.pubs <= b.pubs
    && a.sends <= b.sends
    && a.doomed <= b.doomed
    && a.asks <= b.asks && a.had <= b.had
    && (forall k :: k in a.receipts ==> k in b.receipts && b.receipts[k] == a.receipts[k])
    && (forall u :: Dead(a, u) ==> Dead(b, u))
    && (forall i :: |a.alters| <= i < |b.alters| ==> a.head < b.alters[i].snapshot)
    && (b.live.Some? && b.live.value.uuid < a.nextUuid && !AlteredSince(b, b.live.value.uuid, a.head)
        ==> a.live == b.live)
    && (forall i :: |a.pubs| <= i < |b.pubs| ==>
          b.pubs[i].payload in b.sends &&
          (b.pubs[i].payload in a.sends ==> !Spent(a, b.pubs[i].payload)))
  }

  lemma AlteredSinceGrows(a: State, b: State, uuid: nat, basis: nat)
    requires a.alters <= b.alters && AlteredSince(a, uuid, basis)
    ensures AlteredSince(b, uuid, basis)
  {
    var i :| 0 <= i < |a.alters| && a.alters[i].uuid == uuid && basis < a.alters[i].snapshot;
    assert b.alters[i] == a.alters[i];
  }

  lemma SpentForGood(a: State, b: State, p: Payload)
    requires Evolves(a, b) && Spent(a, p)
    ensures Spent(b, p)
  {
    if AlteredSince(a, p.uuid, p.basis) {
      AlteredSinceGrows(a, b, p.uuid, p.basis);
    }
  }

  lemma EvolvesTransitive(a: State, b: State, c: State)
    requires Evolves(a, b) && Evolves(b, c) && Valid(b)
    ensures Evolves(a, c)
  {
    forall i | |a.alters| <= i < |c.alters| ensures a.head < c.alters[i].snapshot {
      if i < |b.alters| {
        assert c.alters[i] == b.alters[i];
      }
    }
    if c.live.Some? && c.live.value.uuid < a.nextUuid && !AlteredSince(c, c.live.value.uuid, a.head) {
      var u := c.live.value.uuid;
      if AlteredSince(b, u, a.head) {
        AlteredSinceGrows(b, c, u, a.head);
      }
    }
    forall i | |a.pubs| <= i < |c.pubs|
      ensures c.pubs[i].payload in c.sends
      ensures c.pubs[i].payload in a.sends ==> !Spent(a, c.pubs[i].payload)
    {
      if i < |b.pubs| {
        assert c.pubs[i] == b.pubs[i];
      } else if c.pubs[i].payload in a.sends && Spent(a, c.pubs[i].payload) {
        SpentForGood(a, b, c.pubs[i].payload);
      }
    }
  }

  /** A table that is gone stays gone until somebody creates one. */
  lemma GoneUntilCreated(a: State, b: State)
    requires Valid(b) && Evolves(a, b) && a.live.None? && b.nextUuid == a.nextUuid
    ensures b.live.None?
  {
    if b.live.Some? {
      assert Dead(a, b.live.value.uuid);
    }
  }

  lemma EvolvesReflexive(s: State)
    ensures Evolves(s, s)
  {
  }

  /** A shape read at `basis` stays the live table's for as long as the conflict window from `basis` is
      empty. */
  lemma GroundedForGood(a: State, b: State, basis: nat, info: Info)
    requires Evolves(a, b) && Grounded(a, basis, info)
    requires basis <= a.head && info.uuid < a.nextUuid
    ensures Grounded(b, basis, info)
  {
    if b.live.Some? && b.live.value.uuid == info.uuid && !AlteredSince(b, info.uuid, basis) {
      if AlteredSince(a, info.uuid, basis) {
        AlteredSinceGrows(a, b, info.uuid, basis);
      }
    }
  }

  /** Every request and publication keeps what was known of it, given a step that adds none. */
  lemma WellSentForGood(a: State, b: State, p: Payload)
    requires Valid(a) && Evolves(a, b) && p in a.sends
    ensures WellSent(b, p)
  {
    SentForGood(a, b, p);
  }

  lemma SentForGood(a: State, b: State, p: Payload)
    requires WellSent(a, p) && Evolves(a, b)
    ensures WellSent(b, p)
  {
    GroundedForGood(a, b, p.basis, p.shape);
    AlignedForGood(a, b, p.aligned, p.failed, p.built.began, p.built.ready, p.built.ready);
  }

  // ------------------------------------------------------------------------------------------
  // The commit transaction, judged
  // ------------------------------------------------------------------------------------------

  /** What an answer tells the sender about its request, for good. */
  ghost predicate AnswerMeans(s: State, p: Payload, a: Answer) {
    match a
    case Committed => p.key in s.receipts && s.receipts[p.key] == p
    case ReusedKey => p.key in s.receipts && s.receipts[p.key] != p
    case NoSuchTable => s.live.None? && Dead(s, p.uuid)
    case Recreated => s.live.Some? && Dead(s, p.uuid)
    case BasisExpired => s.live.Some? && p.basis < s.floor
    case DdlSinceBasis => s.live.Some? && AlteredSince(s, p.uuid, p.basis)
    case Refused => s.live.Some? && p in s.doomed
  }

  /** One delivery keeps the server valid, publishes at most `p` and only if it was not spent, and
      answers truthfully; any answer but the first two finds no receipt under the key. A conflict window that has
      expired is not judged. */
  lemma DeliverKeeps(s: State, p: Payload, refuse: bool)
    requires Valid(s) && p in s.sends
    ensures var (t, a) := Deliver(s, p, refuse);
      && Valid(t) && Evolves(s, t) && t.sends == s.sends
      && AnswerMeans(t, p, a)
      && (a.Committed? || a.ReusedKey? || p.key !in t.receipts)
      && (t.pubs == s.pubs || (a.Committed? && p.key !in s.receipts && t == Publish(s, p)))
      && (a.DdlSinceBasis? ==> s.floor <= p.basis)
  {
    var (t, a) := Deliver(s, p, refuse);
    DeliverEvolves(s, p, refuse);
    if t == s {
    } else if a.Refused? {
      assert t == s.(doomed := s.doomed + {p});
      StillValid(s, t);
    } else {
      PublishKeeps(s, p);
    }
  }

  /** A step that publishes nothing and asks nothing keeps a valid server valid. */
  lemma StillValid(s: State, t: State)
    requires Valid(s) && Evolves(s, t)
    requires t.sends == s.sends && t.pubs == s.pubs && t.receipts == s.receipts
    requires t.floor <= t.head
    requires t.live.Some? ==> t.live.value.uuid < t.nextUuid && t.live.value.columns <= t.had
    requires forall i :: 0 <= i < |t.alters| ==> t.alters[i].snapshot <= t.head && t.alters[i].uuid < t.nextUuid
    ensures Valid(t)
  {
    forall q | q in t.sends ensures WellSent(t, q) {
      WellSentForGood(s, t, q);
    }
    forall i | 0 <= i < |t.pubs| ensures WellPublished(t, t.pubs[i]) {
      assert WellPublished(s, s.pubs[i]);
    }
  }

  lemma PublishKeeps(s: State, p: Payload)
    requires Valid(s) && p in s.sends && !Spent(s, p) && s.live.Some? && s.live.value.uuid == p.uuid
    ensures Valid(Publish(s, p)) && Evolves(s, Publish(s, p))
  {
    var t := Publish(s, p);
    var n := |s.pubs|;
    PublishEvolves(s, p);
    forall q | q in t.sends ensures WellSent(t, q) {
      WellSentForGood(s, t, q);
    }
    PublishedWell(s, p);
    forall i, j | 0 <= i < j < |t.pubs| ensures t.pubs[i].payload.key != t.pubs[j].payload.key {
      assert WellPublished(s, s.pubs[i]);
    }
    forall k | k in t.receipts ensures exists i :: 0 <= i < |t.pubs| && t.pubs[i].payload.key == k {
      if k in s.receipts {
        var i :| 0 <= i < n && s.pubs[i].payload.key == k;
        assert t.pubs[i].payload.key == k;
      } else {
        assert t.pubs[n].payload.key == k;
      }
    }
  }

  lemma PublishedWell(s: State, p: Payload)
    requires Valid(s) && p in s.sends && !Spent(s, p) && s.live.Some? && s.live.value.uuid == p.uuid
    ensures var t := Publish(s, p); forall i :: 0 <= i < |t.pubs| ==> WellPublished(t, t.pubs[i])
  {
    var t := Publish(s, p);
    forall i | 0 <= i < |t.pubs| ensures WellPublished(t, t.pubs[i]) {
      if i < |s.pubs| {
        assert WellPublished(s, s.pubs[i]);
      } else {
        assert WellSent(s, p);
      }
    }
  }

  lemma DeliverEvolves(s: State, p: Payload, refuse: bool)
    requires Valid(s) && p in s.sends
    ensures Evolves(s, Deliver(s, p, refuse).0)
  {
    var (t, a) := Deliver(s, p, refuse);
    if t == s {
      EvolvesReflexive(s);
    } else if a.Refused? {
      assert t == s.(doomed := s.doomed + {p});
    } else {
      PublishEvolves(s, p);
    }
  }

  lemma PublishEvolves(s: State, p: Payload)
    requires p in s.sends && !Spent(s, p) && s.live.Some?
    ensures Evolves(s, Publish(s, p))
  {
    var t := Publish(s, p);
    assert t.pubs[|s.pubs|] == Publication(p, s.live.value, s.head + 1);
    assert t.alters == s.alters;
  }

  lemma EnvKeeps(s: State, e: Event)
    requires Valid(s)
    ensures Aged(s, Env(s, e))
  {
    if e.Late? {
      LateKeeps(s, e.payload, e.refuse);
    } else {
      EnvEvolves(s, e);
      EnvStillValid(s, e);
    }
  }

  lemma LateKeeps(s: State, p: Payload, refuse: bool)
    requires Valid(s)
    ensures Aged(s, Env(s, Late(p, refuse)))
  {
    if p in s.sends {
      DeliverKeeps(s, p, refuse);
    } else {
      EvolvesReflexive(s);
    }
  }

  /** Nobody else's alters are on record. */
  lemma EnvAsks(s: State, e: Event)
    ensures Env(s, e).asks == s.asks
  {
  }

  lemma EnvStillValid(s: State, e: Event)
    requires Valid(s) && !e.Late? && Evolves(s, Env(s, e))
    ensures Valid(Env(s, e))
  {
    if e.ForeignAlter? && s.live.Some? {
      AlterStillValid(s, e.columns, e.layout);
    } else {
      StillValid(s, Env(s, e));
    }
  }

  lemma AlterStillValid(s: State, columns: set<string>, layout: Layout)
    requires Valid(s) && s.live.Some? && Evolves(s, AlterTable(s, columns, layout))
    ensures Valid(AlterTable(s, columns, layout))
  {
    StillValid(s, AlterTable(s, columns, layout));
  }

  /** The environment, however long it is left alone. */
  ghost predicate Aged(a: State, b: State) {
    Valid(b) && Evolves(a, b) && b.sends == a.sends && b.nextObject == a.nextObject
  }

  lemma EnvAges(a: State, s: State, e: Event)
    requires Aged(a, s)
    ensures Aged(a, Env(s, e))
  {
    EnvKeeps(s, e);
    EvolvesTransitive(a, s, Env(s, e));
  }

  lemma EnvEvolves(s: State, e: Event)
    requires Valid(s) && !e.Late?
    ensures Evolves(s, Env(s, e))
  {
    match e
    case ForeignAlter(columns, layout) =>
      if s.live.Some? { AlterEvolves(s, columns, layout); } else { EvolvesReflexive(s); }
    case Create(columns, layout) =>
      if s.live.None? { CreateEvolves(s, columns, layout); } else { EvolvesReflexive(s); }
    case _ => QuietEvolves(s, e);
  }

  lemma QuietEvolves(s: State, e: Event)
    requires Valid(s) && !e.Late? && !e.ForeignAlter? && !e.Create?
    ensures Evolves(s, Env(s, e))
  {
  }

  lemma AlterEvolves(s: State, columns: set<string>, layout: Layout)
    requires Valid(s) && s.live.Some?
    ensures Evolves(s, AlterTable(s, columns, layout))
  {
    var t := AlterTable(s, columns, layout);
    assert t.alters[|s.alters|] == Alter(s.live.value.uuid, t.head);
  }

  lemma CreateEvolves(s: State, columns: set<string>, layout: Layout)
    requires Valid(s) && s.live.None?
    ensures Evolves(s, CreateTable(s, columns, layout))
  {
  }

  // ------------------------------------------------------------------------------------------
  // Whole runs of the server
  // ------------------------------------------------------------------------------------------

  /** Putting a request on the wire: from now on it may be delivered any number of times. */
  function Launch(s: State, p: Payload): State {
    s.(sends := s.sends + {p})
  }

  lemma LaunchKeeps(s: State, p: Payload)
    requires Valid(s) && WellSent(s, p)
    ensures Valid(Launch(s, p)) && Evolves(s, Launch(s, p))
  {
    var t := Launch(s, p);
    forall q | q in t.sends ensures WellSent(t, q) {
      if q in s.sends { WellSentForGood(s, t, q); }
    }
    forall i | 0 <= i < |t.pubs| ensures WellPublished(t, t.pubs[i]) {
      assert WellPublished(s, s.pubs[i]);
    }
  }

  datatype Action = Environment(e: Event) | Upload | Send(p: Payload)

  function Act(s: State, a: Action): State {
    match a
    case Environment(e) => Env(s, e)
    case Upload => s.(nextObject := s.nextObject + 1)
    case Send(p) => if WellSent(s, p) then Launch(s, p) else s
  }

  function Run(s: State, actions: seq<Action>): State
    decreases |actions|
  {
    if actions == [] then s else Run(Act(s, actions[0]), actions[1..])
  }

  lemma {:induction false} RunKeeps(s: State, actions: seq<Action>)
    requires Valid(s)
    ensures Valid(Run(s, actions)) && Evolves(s, Run(s, actions))
    decreases |actions|
  {
    if actions != [] {
      var t := Act(s, actions[0]);
      ActKeeps(s, actions[0]);
      RunKeeps(t, actions[1..]);
      EvolvesTransitive(s, t, Run(t, actions[1..]));
    } else {
      EvolvesReflexive(s);
    }
  }

  lemma ActKeeps(s: State, a: Action)
    requires Valid(s)
    ensures Valid(Act(s, a)) && Evolves(s, Act(s, a))
  {
    match a
    case Environment(e) => EnvKeeps(s, e);
    case Upload => StillValid(s, Act(s, a));
    case Send(p) => if WellSent(s, p) { LaunchKeeps(s, p); }
  }

  /** In every run, with requests delivered late and repeatedly, one identity is published at most
      once into one table incarnation. */
  lemma OncePerIncarnation(stable: bool, actions: seq<Action>, i: nat, j: nat)
    requires var s := Run(Initial(stable), actions);
      && i < |s.pubs| && j < |s.pubs|
      && s.pubs[i].payload.identity.Some? && s.pubs[j].payload.identity.Some?
      && multiset(s.pubs[i].payload.identity.value) == multiset(s.pubs[j].payload.identity.value)
      && s.pubs[i].table.uuid == s.pubs[j].table.uuid
    ensures i == j
  {
    RunKeeps(Initial(stable), actions);
    var s := Run(Initial(stable), actions);
    assert WellPublished(s, s.pubs[i]) && WellPublished(s, s.pubs[j]);
    assert WellSent(s, s.pubs[i].payload) && WellSent(s, s.pubs[j].payload);
  }
}
