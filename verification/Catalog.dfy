/**
 The server, the network in front of it and the client library's per-table cache, as the sink
 meets them. Every operation starts with any number of steps of everybody else.
 */
module Catalog {
  import opened Wrappers
  import opened FlushKey
  import opened Lake
  import opened Errors

  /** What the client library keeps per table handle: the last shape read, the snapshot it was
      resolved at and when. Its snapshot is the `read_snapshot` of the commits prepared from it. */
  datatype Cached = Cached(info: Info, snapshot: nat, readAt: nat)
  datatype Handle = Handle(uuid: nat, cache: Option<Cached>)

  type Group = (Option<seq<Option<string>>>, seq<Row>)

  /** A cached shape is the live one for as long as its conflict window is empty. */
  predicate Anchored(s: State, c: Cached) {
    && c.info.uuid < s.nextUuid && c.snapshot <= s.head && c.readAt <= s.now
    && Grounded(s, c.snapshot, c.info)
  }

  lemma AnchoredForGood(a: State, b: State, c: Cached)
    requires Anchored(a, c) && Evolves(a, b)
    ensures Anchored(b, c)
  {
    GroundedForGood(a, b, c.snapshot, c.info);
  }

  /** The ops of one alter: the halves of the layout it sets and the columns it adds. */
  datatype Ops = Ops(partition: Option<seq<Field>>, sort: Option<seq<SortField>>, add: set<string>)

  function Apply(ops: Ops, layout: Layout): Layout {
    Layout(match ops.partition case Some(p) => p case None => layout.partition,
           match ops.sort case Some(s) => s case None => layout.sort)
  }

  /** What the outcome of a send tells about its request. */
  ghost predicate SendMeans(s: State, p: Payload, r: Outcome<(), Exn>) {
    && (r.Ok? ==> AnswerMeans(s, p, Committed))
    && (r == Raise(Validation(KeyReused)) ==> AnswerMeans(s, p, ReusedKey))
    && (r.Raise? && Refuses(r.error) ==>
          p.key !in s.receipts && s.live.Some? && (s.stable || IsDestinationMoved(r.error) ==> Spent(s, p)))
    && (r.Raise? ==> IsAnsweredRefusal(r.error) || Unjudged(r.error) || r.error.NotFound?)
  }

  function Register(groups: seq<Group>, from: nat): (files: seq<File>)
    ensures |files| == |groups|
    ensures forall i :: 0 <= i < |files| ==>
              files[i] == File(from + i, groups[i].0, groups[i].1)
  {
    seq(|groups|, i requires 0 <= i < |groups| => File(from + i, groups[i].0, groups[i].1))
  }

  /** What a prepare is asked for: the groups, the columns of the shape they were narrowed to, the columns the batch
      was aligned to and the ones left out, the name, the incarnation and the spec they were computed under, and when
      all this began. */
  datatype Draft = Draft(groups: seq<Group>, columns: set<string>, aligned: set<string>, failed: set<string>,
                         key: Key, identity: Option<seq<Range>>, expected: nat, spec: seq<Field>, began: nat)

  /** The handle the library prepares with: the one it has while its shape is younger than half the
      retention, else a new read. */
  function Resolved(retention: Option<nat>, s: State, h: Handle): Handle {
    if h.cache.Some? && Within(retention, 2, s.now - h.cache.value.readAt) then h
    else if s.live.Some? then Fresh(s, s.live.value)
    else h
  }

  /** The request prepared with a handle resolved at `ready`; objects are numbered from `from`. */
  function Request(h: Handle, d: Draft, from: nat, retention: Option<nat>, ready: nat): Outcome<Payload, Exn> {
    if h.cache.None? then Raise(NotFound)
    else if h.cache.value.info.uuid != d.expected then Raise(IncarnationChanged(false))
    else if h.cache.value.info.columns != d.columns then Raise(Validation(Misaligned))
    else Ok(Payload(d.key, d.identity, d.expected, h.cache.value.snapshot, Register(d.groups, from), d.spec,
                    d.aligned, d.failed, h.cache.value.info, Built(d.began, ready, retention)))
  }

  /** What is on record of an alter, and of the error the client library raised for it. */
  function AskOf(ops: Ops, error: Option<Exn>, now: nat): Ask {
    Ask(ops.add, ops.partition.Some?, ops.sort.Some?, error, now)
  }

  function ErrorOf<T>(r: Outcome<T, Exn>): Option<Exn> {
    match r case Ok(_) => None case Raise(e) => Some(e)
  }

  /** What one add comes to: true if it was not refused, false if it failed with an error of the client library, but
      for two: after a race the answer is what a new read says, and files without field ids fail the flush for good. */
  ghost predicate AddMeans(a: State, b: State, name: string, live: set<string>, r: Outcome<bool, Exn>) {
    forall ask :: ask in b.asks && ask !in a.asks ==>
      && ask.add == {name}
      && match ask.error
         case None => r == Ok(true)
         case Some(e) =>
           if e.IdlessFilesPresent? then r == Raise(SinkError(false))
           else if e.CommitConflict? || e.DdlSinceReadSnapshot? then r.Ok? ==> r.value == (name in live)
           else if IsHoglakeError(e) then r == Ok(false)
           else r == Raise(e)
  }

  /** No alter in between was refused for files without field ids. */
  ghost predicate NoIdless(a: State, b: State) {
    forall ask :: ask in b.asks && ask !in a.asks ==> ask.error != Some(IdlessFilesPresent)
  }

  /** Between these states no partitioning was asked for. */
  ghost predicate NoPartitionAsked(a: State, b: State) {
    forall ask :: ask in b.asks && ask !in a.asks ==> !ask.partition
  }

  /** The table once these ops are applied to it, and asked for. */
  function Altered(s: State, ops: Ops): State
    requires s.live.Some?
  {
    WithAsk(AlterTable(s, s.live.value.columns + ops.add, Apply(ops, s.live.value.layout)), AskOf(ops, None, s.now))
  }

  /** The server would publish this request if it was delivered now. */
  predicate Publishable(s: State, p: Payload) {
    && p.key !in s.receipts && s.live.Some? && s.live.value.uuid == p.uuid && s.floor <= p.basis
    && !AlteredSince(s, p.uuid, p.basis) && p !in s.doomed
  }

  /** No request under this key was ever sent. */
  ghost predicate Unused(s: State, key: Key) {
    s.doomed <= s.sends && key !in s.receipts && forall p :: p in s.sends ==> p.key != key
  }

  /** The draft is for the table as it is. */
  predicate Matches(s: State, h: Handle, d: Draft) {
    s.live.Some? && h == Fresh(s, s.live.value) && d.expected == s.live.value.uuid && d.columns == s.live.value.columns
  }

  /** A request just prepared from a fresh read, under an unused key, would be published. */
  lemma FreshIsPublishable(s: State, n: nat, h: Handle, d: Draft, from: nat, retention: Option<nat>, ready: nat)
    requires Lake.Valid(s) && Unused(s, d.key) && Matches(s, h, d)
    ensures var r := Request(h, d, from, retention, ready);
      r.Ok? && Publishable(Stored(s, n), r.value)
  {
  }

  /** The server and what lies in front of it. While it is `calm` nobody else does anything, no time passes, every
      request is delivered, judged on its merits and answered, and every upload succeeds. */
  class Service {
    const calm: bool
    var st: State
    const retention: Option<nat>

    constructor (retention: Option<nat>, st: State, calm: bool)
      requires Lake.Valid(st)
      ensures this.retention == retention && this.st == st && this.calm == calm
    {
      this.retention := retention;
      this.st := st;
      this.calm := calm;
    }

    ghost predicate Valid()
      reads this
    {
      Lake.Valid(st)
    }

    /** Any number of steps of other writers, operators, the expiry job, the clock and the network. */
    method Interfere()
      requires Valid()
      modifies this
      ensures Aged(old(st), st) && st.asks == old(st).asks
      ensures calm ==> st == old(st)
    {
      var s := st;
      var steps: nat := *;
      while steps > 0 && !calm
        invariant Aged(old(st), s) && s.asks == old(st).asks
        invariant calm ==> s == old(st)
      {
        var e: Event := *;
        EnvAges(old(st), s, e);
        EnvAsks(s, e);
        s := Env(s, e);
        steps := steps - 1;
      }
      st := s;
    }

    /** Any failure that says nothing about the request. */
    method Misfortune() returns (e: Exn)
      ensures Unjudged(e)
    {
      e := *;
      if !Unjudged(e) {
        e := HttpError;
      }
    }

    /** `Table.info()`: reads the live shape and re-seeds the handle's cache from the same read. */
    method ReadInfo(h: Handle) returns (h': Handle, r: Outcome<Info, Exn>)
      requires Valid()
      modifies this
      ensures Aged(old(st), st) && st.asks == old(st).asks
      ensures r.Ok? ==> st.live == Some(r.value) && h' == Fresh(st, r.value)
      ensures r.Raise? ==> h' == h && (r.error.NotFound? || Unjudged(r.error))
      ensures calm ==> st == old(st) && (r.Ok? <==> st.live.Some?) && (r.Raise? ==> r.error == NotFound)
    {
      Interfere();
      h' := h;
      var reachable: bool := *;
      if !reachable && !calm {
        var e := Misfortune();
        r := Raise(e);
      } else if st.live.None? {
        r := Raise(NotFound);
      } else {
        r := Ok(st.live.value);
        h' := Fresh(st, st.live.value);
      }
    }

    /** The create request: the new table has the columns asked for and no layout yet. */
    method CreateNew(columns: set<string>) returns (r: Outcome<Handle, Exn>)
      requires Valid()
      modifies this
      ensures Aged(old(st), st)
      ensures r.Ok? ==> st.live.Some? && r.value == Fresh(st, st.live.value)
                        && st.live.value.layout == Layout([], []) && st.live.value.columns == columns
      ensures r.Raise? ==> r.error.AlreadyExists? || Unjudged(r.error)
      ensures calm && old(st).live.None? ==> r.Ok? && st == CreateTable(old(st), columns, Layout([], []))
      ensures calm && old(st).live.Some? ==> r == Raise(AlreadyExists) && st == old(st)
    {
      Interfere();
      var applied: bool, answered: bool := *, *;
      applied, answered := applied || calm, answered || calm;
      if applied && st.live.None? {
        EnvAges(old(st), st, Create(columns, Layout([], [])));
        st := Env(st, Create(columns, Layout([], [])));
        if answered {
          return Ok(Fresh(st, st.live.value));
        }
      } else if answered && st.live.Some? {
        return Raise(AlreadyExists);
      }
      var e := Misfortune();
      r := Raise(e);
    }

    /** `Table.alter`: one DDL commit. The receipt is the post-alter shape and re-seeds the cache. A
        faulty server may apply something other than `ops`, and an answer may be lost. What was asked for is on
        record. */
    method Alter(h: Handle, ops: Ops) returns (h': Handle, r: Outcome<Info, Exn>)
      requires Valid()
      modifies this
      ensures Aged(old(st), st)
      ensures r.Ok? ==> st.live == Some(r.value) && h' == Fresh(st, r.value)
      ensures r.Raise? ==> h' == h && !r.error.SinkError?
      ensures ops.partition.None? ==> NoPartitionAsked(old(st), st)
      ensures st.asks == old(st).asks + {AskOf(ops, ErrorOf(r), st.now)}
      ensures calm && old(st).live.Some? ==> r.Ok? && st == Altered(old(st), ops)
    {
      h', r := TryAlter(h, ops);
      ghost var was := st;
      var ask := AskOf(ops, ErrorOf(r), st.now);
      AskKeeps(old(st), st, ask);
      st := WithAsk(st, ask);
      assert r.Ok? ==> Fresh(st, r.value) == Fresh(was, r.value);
    }

    method TryAlter(h: Handle, ops: Ops) returns (h': Handle, r: Outcome<Info, Exn>)
      requires Valid()
      modifies this
      ensures Aged(old(st), st) && st.asks == old(st).asks
      ensures r.Ok? ==> st.live == Some(r.value) && h' == Fresh(st, r.value)
      ensures r.Raise? ==> h' == h && !r.error.SinkError?
      ensures calm && old(st).live.Some? ==>
                var was := old(st).live.value;
                r.Ok? && st == AlterTable(old(st), was.columns + ops.add, Apply(ops, was.layout))
    {
      Interfere();
      h' := h;
      var applied: bool, answered: bool, faithful: bool, e: Exn := *, *, *, *;
      applied, answered, faithful := applied || calm, answered || calm, faithful || calm;
      if applied && st.live.Some? {
        var columns, layout := st.live.value.columns + ops.add, Apply(ops, st.live.value.layout);
        if !faithful {
          columns, layout := *, *;
        }
        EnvAges(old(st), st, ForeignAlter(columns, layout));
        st := Env(st, ForeignAlter(columns, layout));
        if answered {
          h' := Fresh(st, st.live.value);
          return h', Ok(st.live.value);
        }
      } else if answered && (IsHoglakeError(e) || e.HttpError?) {
        return h', Raise(e);
      }
      e := Misfortune();
      r := Raise(e);
    }

    /** `prepare_append_tables`: resolve the shape, check the draft against it, then upload one object per
        group. */
    method PrepareAppendTables(h: Handle, d: Draft) returns (h': Handle, r: Outcome<Payload, Exn>, uploaded: nat)
      requires Valid()
      requires h.cache.Some? ==> Anchored(st, h.cache.value)
      modifies this
      ensures Valid() && Evolves(old(st), st) && st.sends == old(st.sends)
      ensures uploaded <= |d.groups| && st.nextObject == old(st.nextObject) + uploaded
      ensures h' == h || (h'.cache.Some? && Anchored(st, h'.cache.value))
      ensures h.cache.Some? && h' != h ==> !Within(retention, 2, st.now - h.cache.value.readAt)
      ensures r.Raise? ==> !r.error.SinkError?
      ensures r.Ok? ==> uploaded == |d.groups| && h'.cache.Some? && Anchored(st, h'.cache.value)
      ensures r.Ok? ==>
                var ready := r.value.built.ready;
                && old(st.now) <= ready <= st.now && r == Request(h', d, old(st.nextObject), retention, ready)
                && (h.cache.Some? && h' != h ==> !Within(retention, 2, ready - h.cache.value.readAt))
      ensures calm && h.cache.Some? && Within(retention, 2, old(st.now) - h.cache.value.readAt) ==>
                && h' == h && st == Stored(old(st), uploaded)
                && (Request(h, d, old(st.nextObject), retention, old(st.now)).Ok? ==> r.Ok?)
      ensures calm && Matches(old(st), h, d) && Unused(old(st), d.key) && Within(retention, 2, 0) ==>
                r.Ok? && Publishable(st, r.value)
    {
      if Matches(st, h, d) && Unused(st, d.key) {
        FreshIsPublishable(st, |d.groups|, h, d, st.nextObject, retention, st.now);
      }
      var info: Outcome<Info, Exn>;
      uploaded := 0;
      h', info := PreparedRead(h);
      if info.Raise? {
        return h', Raise(info.error), 0;
      }
      r := Request(h', d, st.nextObject, retention, st.now);
      if r.Raise? {
        return;
      }
      label read:
      var failure;
      uploaded, failure := Upload(|d.groups|);
      EvolvesTransitive(old(st), old@read(st), st);
      AnchoredForGood(old@read(st), st, h'.cache.value);
      if failure.Some? {
        r := Raise(failure.value);
      }
    }

    /** The shape commits are prepared against: the cached one until half the retention, else a new read. */
    method PreparedRead(h: Handle) returns (h': Handle, r: Outcome<Info, Exn>)
      requires Valid()
      requires h.cache.Some? ==> Anchored(st, h.cache.value)
      modifies this
      ensures Aged(old(st), st)
      ensures h'.cache.Some? ==> Anchored(st, h'.cache.value)
      ensures r.Raise? ==> h' == h && !r.error.SinkError?
      ensures r.Ok? ==> h' == Resolved(retention, st, h) && h'.cache.Some? && h'.cache.value.info == r.value
      ensures calm && h.cache.Some? && Within(retention, 2, old(st.now) - h.cache.value.readAt) ==>
                r.Ok? && st == old(st)
    {
      Interfere();
      if h.cache.Some? && Within(retention, 2, st.now - h.cache.value.readAt) {
        AnchoredForGood(old(st), st, h.cache.value);
        return h, Ok(h.cache.value.info);
      }
      label read:
      h', r := ReadInfo(h);
      EvolvesTransitive(old(st), old@read(st), st);
      if r.Raise? && h.cache.Some? {
        AnchoredForGood(old(st), st, h.cache.value);
      }
    }

    /** Up to `n` objects into the object store; fewer only if an upload fails. */
    method Upload(n: nat) returns (done: nat, failure: Option<Exn>)
      requires Valid()
      modifies this
      ensures Valid() && Evolves(old(st), st) && st.sends == old(st.sends)
      ensures done <= n && st.nextObject == old(st.nextObject) + done
      ensures failure.None? ==> done == n
      ensures failure.Some? ==> !failure.value.SinkError?
      ensures calm ==> failure.None? && st == Stored(old(st), n)
    {
      var closed: int, failed: bool, e: Exn := *, *, *;
      failed := failed && !calm;
      done := if failed && 0 <= closed <= n then closed else n;
      failure := if !failed then None else if e.SinkError? then Some(OsError) else Some(e);
      UploadKeeps(st, done);
      ghost var stored := Stored(st, done);
      st := Stored(st, done);
      Interfere();
      EvolvesTransitive(old(st), stored, st);
    }

    /** One request on the wire. The server may never see it or see it late (no answer then), or it may
        deliver it now and the answer may still be lost on the way back. */
    method Wire(p: Payload) returns (answer: Option<Answer>)
      requires Valid() && WellSent(st, p)
      modifies this
      ensures Valid() && Evolves(old(st), st) && st.sends == old(st.sends) + {p}
      ensures st.nextObject == old(st.nextObject)
      ensures answer.Some? ==> AnswerMeans(st, p, answer.value)
      ensures answer.Some? && !answer.value.Committed? && !answer.value.ReusedKey? ==> p.key !in st.receipts
      ensures calm && Publishable(old(st), p) ==> answer == Some(Committed)
    {
      answer := None;
      Interfere();
      var delivered: bool, answered: bool, refuse: bool := *, *, *;
      delivered, answered, refuse := delivered || calm, answered || calm, refuse && !calm;
      SendKeeps(old(st), st, p, delivered, refuse);
      st := Launch(st, p);
      if delivered {
        var (after, a) := Deliver(st, p, refuse);
        st := after;
        if answered {
          answer := Some(a);
        }
      }
    }

    /** `commit_prepared`: the library drops the handle's cache on refusals of its own choosing, and
        never on a transport failure. */
    method CommitPrepared(p: Payload, h: Option<Handle>) returns (h': Option<Handle>, r: Outcome<(), Exn>)
      requires Valid() && WellSent(st, p)
      modifies this
      ensures Valid() && Evolves(old(st), st) && st.sends == old(st.sends) + {p}
      ensures st.nextObject == old(st.nextObject)
      ensures SendMeans(st, p, r)
      ensures h'.Some? ==> h.Some? && (h' == h || h'.value == Handle(h.value.uuid, None))
      ensures h.Some? ==> h'.Some?
      ensures r.Ok? || !IsHoglakeError(r.error) ==> h' == h
      ensures calm && Publishable(old(st), p) ==> r.Ok?
    {
      var answer := Wire(p);
      r := Reply(p, answer);
      var drops: bool := *;
      h' := if r.Raise? && IsHoglakeError(r.error) && drops && h.Some?
            then Some(Handle(h.value.uuid, None)) else h;
    }

    /** The exception class each answer arrives as. A plain refusal is a conflict or a 422; a lost answer
        is a transport failure or a gateway's own. */
    method Reply(p: Payload, answer: Option<Answer>) returns (r: Outcome<(), Exn>)
      requires answer.Some? ==> AnswerMeans(st, p, answer.value)
      requires answer.Some? && !answer.value.Committed? && !answer.value.ReusedKey? ==> p.key !in st.receipts
      ensures SendMeans(st, p, r)
      ensures answer == Some(Committed) ==> r.Ok?
    {
      if answer.None? {
        var e := Misfortune();
        return Raise(e);
      }
      match answer.value
      case Committed => r := Ok(());
      case ReusedKey => r := Raise(Validation(KeyReused));
      case NoSuchTable => r := Raise(NotFound);
      case Recreated => r := Raise(IncarnationChanged(true));
      case BasisExpired => r := Raise(ReadSnapshotExpired);
      case DdlSinceBasis => r := Raise(DdlSinceReadSnapshot);
      case Refused =>
        var conflict: bool := *;
        r := Raise(if conflict then CommitConflict else Validation(OtherWhy));
    }
  }

  /** The handle after a read or an alter that returned `info`. */
  function Fresh(s: State, info: Info): Handle {
    Handle(info.uuid, Some(Cached(info, s.head, s.now)))
  }

  function WithAsk(s: State, ask: Ask): State {
    s.(asks := s.asks + {ask})
  }

  lemma AskKeeps(a: State, s: State, ask: Ask)
    requires Aged(a, s)
    ensures Aged(a, WithAsk(s, ask))
  {
    StillValid(s, WithAsk(s, ask));
    EvolvesTransitive(a, s, WithAsk(s, ask));
  }

  /** `n` more objects in the object store. */
  function Stored(s: State, n: nat): State {
    s.(nextObject := s.nextObject + n)
  }

  lemma UploadKeeps(s: State, n: nat)
    requires Lake.Valid(s)
    ensures Lake.Valid(Stored(s, n)) && Evolves(s, Stored(s, n))
  {
    StillValid(s, Stored(s, n));
  }

  /** Launching `p` and, if `delivered`, the transaction it starts, after a while of environment steps. */
  lemma SendKeeps(a: State, s: State, p: Payload, delivered: bool, refuse: bool)
    requires Aged(a, s) && WellSent(a, p)
    ensures var t := Launch(s, p); Lake.Valid(t) && Evolves(a, t) && t.sends == a.sends + {p}
    ensures delivered ==>
              var (t, answer) := Deliver(Launch(s, p), p, refuse);
              && Lake.Valid(t) && Evolves(a, t) && t.sends == a.sends + {p} && t.nextObject == a.nextObject
              && AnswerMeans(t, p, answer)
              && (answer.Committed? || answer.ReusedKey? || p.key !in t.receipts)
  {
    WellSentAged(a, s, p);
    LaunchKeeps(s, p);
    EvolvesTransitive(a, s, Launch(s, p));
    if delivered {
      DeliveryKeeps(a, Launch(s, p), p, refuse);
    }
  }

  lemma DeliveryKeeps(a: State, s: State, p: Payload, refuse: bool)
    requires Lake.Valid(s) && Evolves(a, s) && p in s.sends
    ensures var (t, answer) := Deliver(s, p, refuse);
      && Lake.Valid(t) && Evolves(a, t) && t.sends == s.sends && t.nextObject == s.nextObject
      && AnswerMeans(t, p, answer)
      && (answer.Committed? || answer.ReusedKey? || p.key !in t.receipts)
  {
    DeliverKeeps(s, p, refuse);
    EvolvesTransitive(a, s, Deliver(s, p, refuse).0);
  }

  lemma WellSentAged(a: State, b: State, p: Payload)
    requires WellSent(a, p) && Evolves(a, b)
    ensures WellSent(b, p)
  {
    SentForGood(a, b, p);
  }
}
