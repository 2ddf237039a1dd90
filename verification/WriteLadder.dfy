/**
 The retry ladder around one `Sink.Write`, and what a whole ladder promises about the flush it carries.
 */
module WriteLadder {
  import opened Wrappers
  import opened FlushKey
  import opened Lake
  import opened Errors
  import opened Flush
  import opened HoglakeSink
  import opened RetryBudget
  import opened PartitionFanout
  import opened Reconciliation

  /** After failed attempt number `attempt`, some pause the curve, a hint and the jitter can come to leaves no room for
      another attempt. */
  ghost predicate Late(t: Timing, attempt: nat, timeout: real) {
    exists hint: Option<real>, spread: real ::
      0.0 <= spread <= 1.0 && NoRoom(t, RetryDelay(attempt, hint, spread), timeout)
  }

  /** The pause before the next attempt; None if the deadline leaves no room for one. */
  method Pause(t: Timing, attempt: nat, timeout: real) returns (t': Option<Timing>)
    requires InBudget(t, attempt, timeout)
    ensures t'.Some? ==> OnTime(t'.value, attempt + 1, timeout)
    ensures t'.None? ==> Late(t, attempt, timeout)
  {
    var hint: Option<real>, spread: real := *, *;
    if !(0.0 <= spread <= 1.0) {
      spread := 0.0;
    }
    var delay := RetryDelay(attempt, hint, spread);
    DelayBounds(attempt, hint, spread);
    if NoRoom(t, delay, timeout) {
      return None;
    }
    PauseOnTime(t, attempt, timeout, hint, spread);
    t' := Some(Paused(t, delay, hint));
  }

  /** Reading the clock after an attempt. */
  method Clock(t: Timing, attempt: nat, timeout: real) returns (t': Timing)
    requires OnTime(t, attempt, timeout)
    ensures InBudget(t', attempt, timeout)
  {
    var cost: real := *;
    if cost < 0.0 {
      cost := 0.0;
    }
    AttemptInBudget(t, attempt, timeout, cost);
    t' := Attempted(t, cost);
  }

  /** The server, the held payload and the books at one moment. */
  datatype Moment = Moment(st: State, prepared: Option<Payload>, offsets: Option<seq<Range>>, rows: nat,
                           ledger: seq<Fate>, superseded: nat)

  ghost function Now(sink: Sink): Moment
    reads sink, sink.lake
  {
    Moment(sink.lake.st, sink.prepared, sink.preparedOffsets, sink.preparedRows, sink.ledger, sink.orphans[Superseded])
  }

  function Held(m: Moment, identity: Option<seq<Range>>): Option<Payload> {
    if identity.Some? && m.offsets == identity then m.prepared else None
  }

  predicate NoneOrHeld(m: Moment, identity: Option<seq<Range>>) {
    m.prepared.None? || Held(m, identity).Some?
  }

  predicate Skipped(batch: Batch) {
    Screen(batch) == Ok(None)
  }

  /** A flush as one ladder carries it: what it publishes, how it is recognized, and the publication count
      from which its own are counted. */
  datatype Flight = Flight(transform: Transform, cfg: Config, batch: Batch, identity: Option<seq<Range>>, since: nat)

  /** The payload held for the flush, if any, was built from its rows. */
  ghost predicate Mine(f: Flight, m: Moment) {
    Held(m, f.identity).Some? ==>
      m.rows == |f.batch.rows| && Made(f.transform, f.cfg, m.prepared.value, f.identity, f.batch.rows)
  }

  /** Everything done for the flush between two moments, by any number of attempts: only requests of its
      own rows were sent, the flush stays contained and, once `done`, closed, fates were only appended, and
      no upload was superseded unless another flush's was held at the start. A batch with nothing to publish
      leaves everything as it was. A request held while the table is gone is still the one held. */
  ghost predicate Progress(f: Flight, a: Moment, b: Moment, done: bool) {
    && Mine(f, b)
    && Served(f.transform, f.cfg, a.st, b.st, f.identity, f.batch.rows)
    && Guarded(a.st, Held(a, f.identity), b.st, Held(b, f.identity), f.since, f.identity, done)
    && a.ledger <= b.ledger
    && (NoneOrHeld(a, f.identity) && f.identity.Some? ==> NoneOrHeld(b, f.identity) && a.superseded == b.superseded)
    && (Skipped(f.batch) ==> a.st == b.st && a.prepared == b.prepared)
    && (Held(a, f.identity).Some? && !done && StillGone(a.st, b.st) ==>
          b.prepared == a.prepared && b.offsets == a.offsets)
  }

  /** An attempt that returned `published` published the flush, unless there was nothing to publish. */
  ghost predicate Returned(f: Flight, a: Moment, b: Moment, published: nat) {
    && Progress(f, a, b, !Skipped(f.batch))
    && (if Skipped(f.batch) then published == 0
        else b.prepared.None? && Landed(f.transform, f.cfg, b.st, f.identity, f.batch.rows, published))
  }

  lemma ProgressBegins(f: Flight, m: Moment)
    requires Lake.Valid(m.st) && Mine(f, m)
    ensures Progress(f, m, m, false)
  {
    EvolvesReflexive(m.st);
    IdleGuards(m.st, m.st, Held(m, f.identity), f.since, f.identity);
  }

  lemma ProgressContinues(f: Flight, a: Moment, b: Moment, c: Moment, done: bool)
    requires Progress(f, a, b, false) && Progress(f, b, c, done)
    ensures Progress(f, a, c, done)
  {
    ServedTransitive(f.transform, f.cfg, a.st, b.st, c.st, f.identity, f.batch.rows);
    if StillGone(a.st, c.st) {
      GoneUntilCreated(a.st, b.st);
    }
    GuardedTransitive(a.st, Held(a, f.identity), b.st, Held(b, f.identity), c.st, Held(c, f.identity),
                      f.since, f.identity, done);
  }

  ghost predicate Carries(sink: Sink, f: Flight) {
    f.transform == sink.transform && f.cfg == sink.cfg && Tabular(f.batch)
  }

  /** There is something to publish and nothing in its way: the service is calm, welcomes the sink and was never sent
      these ranges, and the sink has just started or was just reset and holds nothing for them. */
  ghost predicate Ready(sink: Sink, batch: Batch, offsets: Option<seq<Range>>)
    reads sink, sink.lake
  {
    && Screen(batch).Ok? && Screen(batch).value.Some? && sink.Holding(IdentityOf(offsets)).None?
    && sink.Unspoilt(Screen(batch).value.value, IdentityOf(offsets))
  }

  /** One more attempt. */
  method Attempt(sink: Sink, batch: Batch, offsets: Option<seq<Range>>, ghost f: Flight, ghost from: Moment)
    returns (r: Outcome<nat, Exn>)
    requires sink.Valid() && sink.Settled() && Progress(f, from, Now(sink), false)
    requires Carries(sink, f) && f.batch == batch && f.identity == IdentityOf(offsets)
    modifies sink, sink.lake
    ensures sink.Valid() && (r.Ok? || IsRetryable(r.error) ==> sink.Settled())
    ensures old(Ready(sink, batch, offsets)) ==> r == Ok(|batch.rows|)
    ensures r.Raise? ==> Progress(f, from, Now(sink), false)
    ensures r.Ok? ==> Returned(f, from, Now(sink), r.value)
  {
    r := sink.Write(batch, offsets, f.since);
    ProgressContinues(f, from, old(Now(sink)), Now(sink), r.Ok? && !Skipped(batch));
  }

  /** Between attempts: forget the destination, keep the payload. */
  method Reset(sink: Sink)
    requires sink.Valid()
    modifies sink`table, sink`tableUuid, sink`liveColumns, sink`liveInfo, sink`liveInfoReadAt, sink`reconciledSpecs
    ensures sink.Valid() && sink.Settled() && Now(sink) == old(Now(sink))
    ensures sink.table.None? && sink.liveInfo.None? && sink.liveColumns == {}
  {
    sink.ResetCaches();
  }

  /** Attempts until one returns, one is refused for good, they are used up or the deadline leaves no room.
      Every attempt gets the same rows and offsets; the caches, never the payload, are reset in between. */
  method WriteWithRetry(sink: Sink, batch: Batch, offsets: Option<seq<Range>>, attempts: nat, timeout: real,
                        ghost f: Flight)
    returns (r: Outcome<nat, Exn>, t: Timing, tried: nat)
    requires attempts > 0
    requires sink.Valid() && sink.Settled() && Mine(f, Now(sink))
    requires Carries(sink, f) && f.batch == batch && f.identity == IdentityOf(offsets)
    modifies sink, sink.lake
    ensures 0 < tried <= attempts && Finished(sink, f, old(Now(sink)), tried - 1, attempts, timeout, r, t)
    ensures old(Ready(sink, batch, offsets)) ==> r == Ok(|batch.rows|) && tried == 1
  {
    var attempt := 0;
    t := Timing(0.0, 0.0, false);
    ghost var from := Now(sink);
    ProgressBegins(f, from);
    BeginsOnTime(timeout);
    while true
      invariant attempt < attempts && OnTime(t, attempt, timeout) && Stands(sink, f, from, attempt)
      invariant old(Ready(sink, batch, offsets)) ==> attempt == 0 && Ready(sink, batch, offsets)
      decreases attempts - attempt
    {
      var again: bool;
      tried := attempt + 1;
      r, t, again := Round(sink, batch, offsets, attempt, attempts, t, timeout, f, from);
      if !again {
        return;
      }
      attempt := attempt + 1;
    }
  }

  /** Before attempt number `attempt` of a ladder that began at `from`: from the second one on nothing is cached. */
  ghost predicate Stands(sink: Sink, f: Flight, from: Moment, attempt: nat)
    reads sink, sink.lake
  {
    && sink.Valid() && sink.Settled() && Progress(f, from, Now(sink), false)
    && (attempt > 0 ==> sink.table.None? && sink.liveInfo.None? && sink.liveColumns == {})
  }

  /** After the last attempt, number `last`: what a ladder leaves behind, when it gives up, and its time. */
  ghost predicate Finished(sink: Sink, f: Flight, from: Moment, last: nat, attempts: nat, timeout: real,
                           r: Outcome<nat, Exn>, t: Timing)
    reads sink, sink.lake
  {
    && sink.Valid() && (r.Ok? || IsRetryable(r.error) ==> sink.Settled()) && LadderEnded(f, from, Now(sink), r)
    && (r.Raise? && IsRetryable(r.error) ==> last + 1 == attempts || Late(t, last, timeout))
    && (Accepted(attempts, timeout) && t.slowest <= Reserve(timeout)
        ==> t.elapsed <= LIVENESS && (!t.hinted ==> t.elapsed <= WorstCase(attempts, timeout)))
  }

  /** One attempt and, if another one follows, the pause and the reset before it. */
  method Round(sink: Sink, batch: Batch, offsets: Option<seq<Range>>, attempt: nat, attempts: nat, t: Timing,
               timeout: real, ghost f: Flight, ghost from: Moment)
    returns (r: Outcome<nat, Exn>, t': Timing, again: bool)
    requires Stands(sink, f, from, attempt)
    requires Carries(sink, f) && f.batch == batch && f.identity == IdentityOf(offsets)
    requires attempt < attempts && OnTime(t, attempt, timeout)
    modifies sink, sink.lake
    ensures old(Ready(sink, batch, offsets)) ==> r == Ok(|batch.rows|) && !again
    ensures again ==> r.Raise? && IsRetryable(r.error) && attempt + 1 < attempts && OnTime(t', attempt + 1, timeout)
    ensures if again then Stands(sink, f, from, attempt + 1)
            else Finished(sink, f, from, attempt, attempts, timeout, r, t')
  {
    r := Attempt(sink, batch, offsets, f, from);
    t', again := Judge(t, r, attempt, attempts, timeout);
    if again {
      Reset(sink);
    }
  }

  /** Whether attempt number `attempt`, having come back with `r`, is followed by another one. */
  method Judge(t: Timing, r: Outcome<nat, Exn>, attempt: nat, attempts: nat, timeout: real)
    returns (t': Timing, again: bool)
    requires attempt < attempts && OnTime(t, attempt, timeout)
    ensures again ==> r.Raise? && IsRetryable(r.error) && attempt + 1 < attempts && OnTime(t', attempt + 1, timeout)
    ensures !again ==> r.Ok? || !IsRetryable(r.error) || attempt + 1 == attempts || Late(t', attempt, timeout)
    ensures !again && Accepted(attempts, timeout) && t'.slowest <= Reserve(timeout)
            ==> t'.elapsed <= LIVENESS && (!t'.hinted ==> t'.elapsed <= WorstCase(attempts, timeout))
  {
    t' := Clock(t, attempt, timeout);
    var next: Option<Timing> := None;
    if r.Raise? && IsRetryable(r.error) && attempt < attempts - 1 {
      next := Pause(t', attempt, timeout);
    }
    again := next.Some?;
    if again {
      t' := next.value;
    } else {
      InTime(t', attempt, attempts, timeout);
    }
  }

  lemma InTime(t: Timing, last: nat, attempts: nat, timeout: real)
    requires InBudget(t, last, timeout) && last < attempts
    ensures Accepted(attempts, timeout) && t.slowest <= Reserve(timeout)
            ==> t.elapsed <= LIVENESS && (!t.hinted ==> t.elapsed <= WorstCase(attempts, timeout))
  {
    if Accepted(attempts, timeout) && t.slowest <= Reserve(timeout) {
      EndsInTime(t, last, attempts, timeout);
    }
  }

  // ------------------------------------------------------------------------------------------
  // What a ladder promises
  // ------------------------------------------------------------------------------------------

  /** Whatever was sent for these offset ranges before can no longer publish, and nothing of them was published
      from the `since`-th publication on. */
  ghost predicate SettledBefore(s: State, since: nat, identity: Option<seq<Range>>) {
    Contained(s, since, identity, None)
  }

  /** In particular ranges nothing was ever sent for. */
  lemma NeverSentIsSettled(s: State, identity: Option<seq<Range>>)
    requires Lake.Valid(s) && forall p :: p in s.sends ==> !Of(p, identity)
    ensures SettledBefore(s, 0, identity)
  {
    forall i | 0 <= i < |s.pubs| ensures !Of(s.pubs[i].payload, identity) {
      assert WellPublished(s, s.pubs[i]);
    }
  }

  /** What `WriteWithRetry` leaves behind: it raised, or it returned. */
  ghost predicate LadderEnded(f: Flight, a: Moment, b: Moment, r: Outcome<nat, Exn>) {
    && (r.Raise? ==> Progress(f, a, b, false))
    && (r.Ok? ==> Returned(f, a, b, r.value))
  }

  /** One ladder with nothing in flight before it, against a server whose refusals bind: at most one publication
      of its ranges, over all incarnations; and if it returned, there is one, now and in every later state in
      which nobody has sent these ranges again. */
  lemma ExactlyOnce(f: Flight, a: Moment, b: Moment, r: Outcome<nat, Exn>, later: State)
    requires LadderEnded(f, a, b, r) && f.identity.Some? && Held(a, f.identity).None? && !Skipped(f.batch)
    requires SettledBefore(a.st, f.since, f.identity) && b.st.stable
    requires Lake.Valid(later) && Evolves(b.st, later)
    requires forall p :: p in later.sends && p !in b.st.sends ==> !Of(p, f.identity)
    ensures AtMostOneSince(b.st, f.since, f.identity)
    ensures r.Ok? ==> AtMostOneSince(later, f.since, f.identity)
    ensures r.Ok? ==> exists i :: 0 <= i < |later.pubs| && Of(later.pubs[i].payload, f.identity)
  {
    if r.Ok? {
      ClosedForGood(b.st, later, f.since, f.identity);
      var key :| LandedAs(f.transform, f.cfg, b.st, key, f.identity, f.batch.rows, r.value);
      LandedIsPublished(f.transform, f.cfg, b.st, later, key, f.identity, f.batch.rows, r.value);
    }
  }

  lemma LandedIsPublished(transform: Transform, cfg: Config, b: State, later: State, key: Key,
                          identity: Option<seq<Range>>, rows: seq<Row>, published: nat)
    requires LandedAs(transform, cfg, b, key, identity, rows, published) && identity.Some?
    requires Lake.Valid(later) && Evolves(b, later)
    ensures exists i :: 0 <= i < |later.pubs| && Of(later.pubs[i].payload, identity)
  {
    ReceiptMeansOnePublication(later, key);
    var i :| 0 <= i < |later.pubs| && later.pubs[i].payload.key == key;
    assert WellPublished(later, later.pubs[i]) && WellSent(later, later.pubs[i].payload);
    assert Of(later.pubs[i].payload, identity);
  }

  /** Per incarnation no assumption about refusals is needed, and no matter how many ladders and
      processes carried the ranges. */
  lemma OncePerIncarnationAlways(s: State, identity: Option<seq<Range>>, i: nat, j: nat)
    requires Lake.Valid(s) && i < |s.pubs| && j < |s.pubs|
    requires Of(s.pubs[i].payload, identity) && Of(s.pubs[j].payload, identity)
    requires s.pubs[i].table.uuid == s.pubs[j].table.uuid
    ensures i == j
  {
    assert WellPublished(s, s.pubs[i]) && WellPublished(s, s.pubs[j]);
    assert WellSent(s, s.pubs[i].payload) && WellSent(s, s.pubs[j].payload);
  }
}
