/**
 The damped include set: what one poll of the endpoint does to the served values, and what histories of
 polls guarantee.

 `Poll` is one poll as a function. `HttpIncludeValues.PollOnce` is the loop body that computes it, and the
 properties are proved about every sequence of polls.
 */
module IncludeValues {
  import opened Wrappers
  import opened FlushKey

  /** A served value: an integer or a string. */
  datatype Value = Number(n: int) | Name(s: string)

  /** What a JSON array may hold. `shown` is how Python prints the scalar. */
  datatype Element = IntElement(n: int) | OtherScalar(shown: string) | Nested

  /** Fixed at construction. Pinned values are a permanent floor. */
  datatype Setup = Setup(pinned: set<Value>, confirmPolls: int)

  datatype State = State(values: Option<set<Value>>, absentPolls: map<Value, nat>, synced: bool)

  datatype Verdict = Failed | TypeFlip | EmptyRefused | BulkRefused | Accepted

  // ------------------------------------------------------------------------------------------
  // One poll
  // ------------------------------------------------------------------------------------------

  function Show(n: int): string {
    if n < 0 then "-" + Decimal(-n) else Decimal(n)
  }

  function AsName(v: Value): Value {
    match v case Number(n) => Name(Show(n)) case Name(_) => v
  }

  predicate AllNumbers(vs: set<Value>) { forall v :: v in vs ==> v.Number? }
  predicate AllNames(vs: set<Value>) { forall v :: v in vs ==> v.Name? }
  predicate OneType(vs: set<Value>) { AllNumbers(vs) || AllNames(vs) }

  /** Integers only stay integers; anything else is all strings. */
  function Homogeneous(vs: set<Value>): (r: set<Value>)
    ensures OneType(r)
    ensures OneType(vs) ==> r == vs
  {
    if AllNumbers(vs) then vs
    else
      var r := set v | v in vs :: AsName(v);
      assert AllNames(vs) ==> r == vs by {
        if AllNames(vs) {
          assert forall v :: v in vs ==> AsName(v) == v;
        }
      }
      r
  }

  function ElementValue(e: Element): Value {
    match e
    case IntElement(n) => Number(n)
    case OtherScalar(shown) => Name(shown)
    case Nested => Name("")
  }

  /** A fetched array as a set of one type; a nested element fails the poll. */
  function Normalize(elements: seq<Element>): (r: Outcome<set<Value>, Verdict>)
    ensures r.Ok? ==> OneType(r.value)
  {
    if exists i :: 0 <= i < |elements| && elements[i].Nested? then Raise(Failed)
    else Ok(Homogeneous(set i | 0 <= i < |elements| :: ElementValue(elements[i])))
  }

  function Served(s: State): set<Value> {
    match s.values
    case None => {}
    case Some(vs) => vs
  }

  predicate Clash(a: set<Value>, b: set<Value>) {
    a != {} && b != {} && AllNumbers(a) != AllNumbers(b)
  }

  function Count(m: map<Value, nat>, v: Value): nat { if v in m then m[v] else 0 }

  /** The served values the endpoint governs and did not mention. */
  function Missing(c: Setup, s: State, remote: set<Value>): set<Value> {
    Served(s) - remote - c.pinned
  }

  /** The counters of the missing values, one poll on. */
  function Counted(absentPolls: map<Value, nat>, missing: set<Value>): map<Value, nat> {
    map v | v in missing :: Count(absentPolls, v) + 1
  }

  /** The missing values whose countdown ends. */
  function Due(absentPolls: map<Value, nat>, missing: set<Value>, confirmPolls: int): set<Value> {
    set v | v in missing && Count(absentPolls, v) + 1 >= confirmPolls
  }

  function Confirmed(c: Setup, s: State, remote: set<Value>): set<Value> {
    Due(s.absentPolls, Missing(c, s, remote), c.confirmPolls)
  }

  /** The served values less the pins the endpoint does not mention. */
  function Managed(c: Setup, s: State, remote: set<Value>): set<Value> {
    Served(s) - (c.pinned - remote)
  }

  function Max(a: int, b: int): int { if a >= b then a else b }

  predicate Bulk(c: Setup, s: State, remote: set<Value>) {
    var managed := |Managed(c, s, remote)|;
    managed > 1 && |Confirmed(c, s, remote)| > Max(1, managed / 2)
  }

  predicate RefusesEmpty(c: Setup, s: State, remote: set<Value>) {
    remote == {} && (Served(s) - c.pinned != {} || (c.pinned == {} && (Served(s) != {} || s.values.None?)))
  }

  /** The served values with everything the poll adds. */
  function Grown(c: Setup, s: State, remote: set<Value>): set<Value> {
    Served(s) + (remote - Served(s)) + c.pinned
  }

  function Candidate(c: Setup, s: State, remote: set<Value>): set<Value> {
    Grown(c, s, remote) - Confirmed(c, s, remote)
  }

  /** A disputed removal: additions apply, counters stay. */
  function Add(c: Setup, s: State, remote: set<Value>): State {
    if remote - Served(s) == {} then s else s.(values := Some(Homogeneous(Grown(c, s, remote))))
  }

  function Commit(c: Setup, s: State, remote: set<Value>): State {
    var candidate := Candidate(c, s, remote);
    State(if candidate != Served(s) || s.values.None? then Some(Homogeneous(candidate)) else s.values,
          Counted(s.absentPolls, Missing(c, s, remote)) - Confirmed(c, s, remote), true)
  }

  /** A poll that fetched `remote`. */
  function Judge(c: Setup, s: State, remote: set<Value>): (State, Verdict) {
    if Clash(Served(s), remote) then (s, TypeFlip)
    else if RefusesEmpty(c, s, remote) then (s, EmptyRefused)
    else if Bulk(c, s, remote) then (Add(c, s, remote), BulkRefused)
    else (Commit(c, s, remote), Accepted)
  }

  /** One poll; None is a fetch that failed. */
  function Poll(c: Setup, s: State, fetched: Option<seq<Element>>): (State, Verdict) {
    match fetched
    case None => (s, Failed)
    case Some(elements) =>
      match Normalize(elements)
      case Raise(_) => (s, Failed)
      case Ok(remote) => Judge(c, s, remote)
  }

  // ------------------------------------------------------------------------------------------
  // The poller
  // ------------------------------------------------------------------------------------------

  class HttpIncludeValues {
    const pinned: set<Value>
    const confirmPolls: int
    var values: Option<set<Value>>
    var absentPolls: map<Value, nat>
    var synced: bool

    function Now(): State
      reads this
    {
      State(values, absentPolls, synced)
    }

    function Fixed(): Setup { Setup(pinned, confirmPolls) }

    /** Pins outside the bootstrap set are refused by `Create`. */
    constructor (pinned: set<Value>, confirmPolls: int, bootstrap: Option<set<Value>>)
      requires pinned <= Served(State(bootstrap, map[], false))
      ensures Now() == State(bootstrap, map[], false) && Fixed() == Setup(pinned, confirmPolls)
    {
      this.pinned, this.confirmPolls := pinned, confirmPolls;
      values, absentPolls, synced := bootstrap, map[], false;
    }

    method PollOnce(fetched: Option<seq<Element>>) returns (verdict: Verdict)
      modifies this
      ensures (Now(), verdict) == Poll(Fixed(), old(Now()), fetched)
    {
      if fetched.None? {
        return Failed;
      }
      var normalized := Normalize(fetched.value);
      if normalized.Raise? {
        return Failed;
      }
      verdict := Take(normalized.value);
    }

    method Take(remote: set<Value>) returns (verdict: Verdict)
      modifies this
      ensures (Now(), verdict) == Judge(Fixed(), old(Now()), remote)
    {
      var refused := Screen(remote);
      if refused.Some? {
        return refused.value;
      }
      verdict := Apply(remote);
    }

    /** The two refusals that come before anything is counted. */
    method Screen(remote: set<Value>) returns (refused: Option<Verdict>)
      ensures refused == if Clash(Served(Now()), remote) then Some(TypeFlip)
                         else if RefusesEmpty(Fixed(), Now(), remote) then Some(EmptyRefused)
                         else None
    {
      var current := if values.Some? then values.value else {};
      if Clash(current, remote) {
        return Some(TypeFlip);
      }
      if remote == {} {
        if current - pinned != {} {
          return Some(EmptyRefused);
        }
        if pinned == {} && (current != {} || values.None?) {
          return Some(EmptyRefused);
        }
      }
      refused := None;
    }

    method Apply(remote: set<Value>) returns (verdict: Verdict)
      requires !Clash(Served(Now()), remote) && !RefusesEmpty(Fixed(), Now(), remote)
      modifies this
      ensures (Now(), verdict) == Judge(Fixed(), old(Now()), remote)
    {
      var current := if values.Some? then values.value else {};
      var counters, confirmed, bulk := Weigh(remote);
      if bulk {
        AddOnly(remote);
        verdict := BulkRefused;
      } else {
        CommitPoll((current + (remote - current) + pinned) - confirmed, counters, remote);
        verdict := Accepted;
      }
    }

    /** The countdown as it would be, whose it ends, and whether those are too many at once. */
    method Weigh(remote: set<Value>) returns (counters: map<Value, nat>, confirmed: set<Value>, bulk: bool)
      ensures confirmed == Confirmed(Fixed(), Now(), remote)
      ensures counters == Counted(absentPolls, Missing(Fixed(), Now(), remote)) - confirmed
      ensures bulk == Bulk(Fixed(), Now(), remote)
    {
      var current := if values.Some? then values.value else {};
      counters, confirmed := CountAbsences(current - remote - pinned);
      counters := counters - confirmed;
      var managed := current - (pinned - remote);
      bulk := |managed| > 1 && |confirmed| > Max(1, |managed| / 2);
    }

    method AddOnly(remote: set<Value>)
      modifies this
      ensures Now() == Add(Fixed(), old(Now()), remote)
    {
      var current := if values.Some? then values.value else {};
      var additions := remote - current;
      if additions != {} {
        values := Some(Homogeneous(current + additions + pinned));
      }
    }

    method CommitPoll(candidate: set<Value>, counters: map<Value, nat>, ghost remote: set<Value>)
      requires candidate == Candidate(Fixed(), Now(), remote)
      requires counters == Counted(absentPolls, Missing(Fixed(), Now(), remote)) - Confirmed(Fixed(), Now(), remote)
      modifies this
      ensures Now() == Commit(Fixed(), old(Now()), remote)
    {
      absentPolls := counters;
      if values.None? || candidate != values.value {
        values := Some(Homogeneous(candidate));
      }
      synced := true;
    }

    /** The counters as they would be, and the values whose countdown ends. */
    method CountAbsences(missing: set<Value>) returns (tentative: map<Value, nat>, confirmed: set<Value>)
      ensures tentative == Counted(absentPolls, missing)
      ensures confirmed == Due(absentPolls, missing, confirmPolls)
    {
      tentative, confirmed := map[], {};
      var rest := missing;
      while rest != {}
        invariant rest <= missing
        invariant tentative == Counted(absentPolls, missing - rest)
        invariant confirmed == Due(absentPolls, missing - rest, confirmPolls)
        decreases rest
      {
        var v :| v in rest;
        assert missing - (rest - {v}) == (missing - rest) + {v};
        tentative := tentative[v := Count(absentPolls, v) + 1];
        if tentative[v] >= confirmPolls {
          confirmed := confirmed + {v};
        }
        rest := rest - {v};
      }
    }
  }

  /** Construction: pins outside the bootstrap set are refused. */
  method Create(pinned: set<Value>, confirmPolls: int, bootstrap: Option<set<Value>>)
    returns (r: Option<HttpIncludeValues>)
    ensures r.Some? <==> pinned <= Served(State(bootstrap, map[], false))
    ensures r.Some? ==> fresh(r.value) && r.value.Now() == State(bootstrap, map[], false)
                        && r.value.Fixed() == Setup(pinned, confirmPolls)
  {
    var held := if bootstrap.Some? then bootstrap.value else {};
    if pinned != {} && !(pinned <= held) {
      return None;
    }
    var source := new HttpIncludeValues(pinned, confirmPolls, bootstrap);
    r := Some(source);
  }

  // ------------------------------------------------------------------------------------------
  // Histories
  // ------------------------------------------------------------------------------------------

  /** One poll of a history: what it fetched and what it found and left. */
  datatype Event = Event(remote: set<Value>, verdict: Verdict, before: set<Value>, after: set<Value>)

  /** A history of polls, oldest first, and the state it leads to. A failed poll fetched nothing. */
  function Replay(c: Setup, start: State, polls: seq<Option<seq<Element>>>): (r: (State, seq<Event>))
    ensures |r.1| == |polls|
  {
    if polls == [] then (start, [])
    else
      var (s, events) := Replay(c, start, polls[..|polls| - 1]);
      var fetched := polls[|polls| - 1];
      var (t, verdict) := Poll(c, s, fetched);
      (t, events + [Event(Fetched(fetched), verdict, Served(s), Served(t))])
  }

  function Fetched(fetched: Option<seq<Element>>): set<Value> {
    if fetched.None? || Normalize(fetched.value).Raise? then {} else Normalize(fetched.value).value
  }

  function AcceptedOnly(events: seq<Event>): seq<Event> {
    if events == [] then []
    else
      var last := events[|events| - 1];
      AcceptedOnly(events[..|events| - 1]) + (if last.verdict.Accepted? then [last] else [])
  }

  /** The poll omitted a value it could have removed. */
  predicate Omits(c: Setup, e: Event, v: Value) {
    v in e.before && v !in e.remote && v !in c.pinned
  }

  /** How many of the latest accepted polls omitted `v` and left it served. */
  function Streak(c: Setup, accepted: seq<Event>, v: Value): nat {
    if accepted == [] then 0
    else
      var last := accepted[|accepted| - 1];
      if Omits(c, last, v) && v in last.after then Streak(c, accepted[..|accepted| - 1], v) + 1 else 0
  }

  /** What every reachable state keeps. */
  ghost predicate Good(c: Setup, s: State) {
    && OneType(Served(s))
    && c.pinned <= Served(s)
    && (forall v :: v in s.absentPolls ==> v in Served(s))
  }

  lemma PollKeeps(c: Setup, s: State, fetched: Option<seq<Element>>)
    requires Good(c, s)
    ensures Good(c, Poll(c, s, fetched).0)
    ensures Served(s) != {} ==>
              Served(Poll(c, s, fetched).0) != {} && !Clash(Served(s), Served(Poll(c, s, fetched).0))
  {
    if fetched.Some? && Normalize(fetched.value).Ok? {
      JudgeKeeps(c, s, Normalize(fetched.value).value);
    }
  }

  lemma GrownIsUnion(c: Setup, s: State, remote: set<Value>)
    requires Good(c, s) && OneType(remote) && !Clash(Served(s), remote)
    ensures Grown(c, s, remote) == Served(s) + remote && OneType(Served(s) + remote)
    ensures OneType(Candidate(c, s, remote)) && c.pinned <= Candidate(c, s, remote)
  {
    assert OneType(Served(s) + remote);
    assert Grown(c, s, remote) == Served(s) + remote;
  }

  /** What a poll leaves served, by verdict. */
  lemma JudgeServes(c: Setup, s: State, remote: set<Value>)
    requires Good(c, s) && OneType(remote)
    ensures var (t, verdict) := Judge(c, s, remote);
      && (verdict.Accepted? ==> !Clash(Served(s), remote) && !RefusesEmpty(c, s, remote)
                                && Served(t) == Candidate(c, s, remote))
      && (verdict.BulkRefused? ==> !Clash(Served(s), remote) && !RefusesEmpty(c, s, remote)
                                   && Served(t) == Served(s) + remote)
      && (!verdict.Accepted? && !verdict.BulkRefused? ==> t == s)
  {
    if !Clash(Served(s), remote) && !RefusesEmpty(c, s, remote) {
      GrownIsUnion(c, s, remote);
      if remote - Served(s) == {} {
        assert Served(s) + remote == Served(s);
      }
    }
  }

  lemma JudgeKeeps(c: Setup, s: State, remote: set<Value>)
    requires Good(c, s) && OneType(remote)
    ensures Good(c, Judge(c, s, remote).0)
    ensures Served(s) != {} ==>
              Served(Judge(c, s, remote).0) != {} && !Clash(Served(s), Served(Judge(c, s, remote).0))
  {
    var (t, verdict) := Judge(c, s, remote);
    JudgeServes(c, s, remote);
    if verdict.Accepted? || verdict.BulkRefused? {
      GrownIsUnion(c, s, remote);
      KeepsType(Served(s), remote, Served(t));
      if Served(s) != {} {
        NeverEmptied(c, s, remote);
      }
      assert forall v :: v in t.absentPolls ==> v in Served(t);
    }
  }

  lemma KeepsType(a: set<Value>, b: set<Value>, r: set<Value>)
    requires OneType(a) && OneType(b) && !Clash(a, b) && r <= a + b
    ensures OneType(r) && !Clash(a, r)
  {
  }

  /** The backstop against an emptied set is never reached, with or without pins. */
  lemma NeverEmptied(c: Setup, s: State, remote: set<Value>)
    requires !RefusesEmpty(c, s, remote) && Served(s) != {}
    ensures Candidate(c, s, remote) != {}
  {
    if remote != {} {
      var v :| v in remote;
      assert v in Candidate(c, s, remote);
    } else {
      var v :| v in Served(s);
      assert v !in Served(s) - c.pinned;
      assert v in Candidate(c, s, remote);
    }
  }

  lemma {:induction false} ReplayKeeps(c: Setup, start: State, polls: seq<Option<seq<Element>>>)
    requires Good(c, start)
    ensures Good(c, Replay(c, start, polls).0)
    ensures Served(start) != {} ==>
              Served(Replay(c, start, polls).0) != {} && !Clash(Served(start), Served(Replay(c, start, polls).0))
  {
    if polls != [] {
      ReplayKeeps(c, start, polls[..|polls| - 1]);
      PollKeeps(c, Replay(c, start, polls[..|polls| - 1]).0, polls[|polls| - 1]);
    }
  }

  lemma StreakStep(c: Setup, events: seq<Event>, e: Event, v: Value)
    ensures Streak(c, AcceptedOnly(events + [e]), v)
            == if !e.verdict.Accepted? then Streak(c, AcceptedOnly(events), v)
               else if Omits(c, e, v) && v in e.after then Streak(c, AcceptedOnly(events), v) + 1 else 0
  {
    var all := events + [e];
    assert all[..|all| - 1] == events;
    if e.verdict.Accepted? {
      var accepted := AcceptedOnly(all);
      assert accepted == AcceptedOnly(events) + [e];
      assert accepted[..|accepted| - 1] == AcceptedOnly(events) && accepted[|accepted| - 1] == e;
    } else {
      assert AcceptedOnly(events) + [] == AcceptedOnly(events);
    }
  }

  lemma CounterStep(c: Setup, s: State, fetched: Option<seq<Element>>, v: Value)
    requires Good(c, s)
    ensures var (t, verdict) := Poll(c, s, fetched);
      Count(t.absentPolls, v)
      == if !verdict.Accepted? then Count(s.absentPolls, v)
         else if Omits(c, Event(Fetched(fetched), verdict, Served(s), Served(t)), v) && v in Served(t)
         then Count(s.absentPolls, v) + 1 else 0
  {
    if fetched.Some? && Normalize(fetched.value).Ok? {
      JudgeServes(c, s, Normalize(fetched.value).value);
    }
  }

  /** The counters are the streaks: failed and refused polls count for nothing. */
  lemma {:induction false} CountersAreStreaks(c: Setup, start: State, polls: seq<Option<seq<Element>>>, v: Value)
    requires Good(c, start) && start.absentPolls == map[]
    ensures Count(Replay(c, start, polls).0.absentPolls, v)
            == Streak(c, AcceptedOnly(Replay(c, start, polls).1), v)
  {
    if polls != [] {
      var n := |polls| - 1;
      var (s, events) := Replay(c, start, polls[..n]);
      CountersAreStreaks(c, start, polls[..n], v);
      ReplayKeeps(c, start, polls[..n]);
      var (t, verdict) := Poll(c, s, polls[n]);
      CounterStep(c, s, polls[n], v);
      StreakStep(c, events, Event(Fetched(polls[n]), verdict, Served(s), Served(t)), v);
    }
  }

  /** Served, not fetched, not pinned, and with this poll omitted by as many successive accepted ones as it takes. */
  function Leaving(c: Setup, served: set<Value>, accepted: seq<Event>, remote: set<Value>): set<Value> {
    set v | v in served && v !in remote && v !in c.pinned && Streak(c, accepted, v) + 1 >= c.confirmPolls
  }

  /** Served, and not a pin the endpoint does not mention. */
  function Governed(c: Setup, served: set<Value>, remote: set<Value>): set<Value> {
    set v | v in served && (v in remote || v !in c.pinned)
  }

  /** The values of the array, none of them nested: integers if there is nothing else, and else all as strings. */
  predicate Reads(fetched: Option<seq<Element>>, remote: set<Value>) {
    && fetched.Some?
    && (forall e | e in fetched.value :: !e.Nested?)
    && (if forall e | e in fetched.value :: e.IntElement?
        then remote == set e | e in fetched.value :: Number(e.n)
        else remote == set e | e in fetched.value :: Name(if e.IntElement? then Show(e.n) else e.shown))
  }

  predicate Flips(served: set<Value>, remote: set<Value>) {
    exists v, w | v in served && w in remote :: v.Number? != w.Number?
  }

  /** An empty array, although something served could have been listed or nothing is served yet. */
  predicate Empties(c: Setup, values: Option<set<Value>>, remote: set<Value>) {
    remote == {}
    && match values case None => c.pinned == {} case Some(served) => exists v | v in served :: v !in c.pinned
  }

  /** More than one value and more than half of the governed ones would leave at once. */
  predicate Sweeps(c: Setup, served: set<Value>, accepted: seq<Event>, remote: set<Value>) {
    var leaving := |Leaving(c, served, accepted, remote)|;
    leaving > 1 && 2 * leaving > |Governed(c, served, remote)|
  }

  lemma NormalizeReads(fetched: Option<seq<Element>>, remote: set<Value>)
    ensures Reads(fetched, remote) <==> fetched.Some? && Normalize(fetched.value) == Ok(remote)
  {
    if fetched.Some? && forall e | e in fetched.value :: !e.Nested? {
      var elements := fetched.value;
      var raw := set i | 0 <= i < |elements| :: ElementValue(elements[i]);
      assert Normalize(elements) == Ok(Homogeneous(raw));
      RawValues(elements, raw);
      if forall e | e in elements :: e.IntElement? {
        assert raw == set e | e in elements :: Number(e.n);
      } else {
        NamesOf(elements, raw);
      }
    }
  }

  lemma RawValues(elements: seq<Element>, raw: set<Value>)
    requires raw == set i | 0 <= i < |elements| :: ElementValue(elements[i])
    ensures raw == set e | e in elements :: ElementValue(e)
    ensures (forall e | e in elements :: !e.Nested?) ==>
              (AllNumbers(raw) <==> forall e | e in elements :: e.IntElement?)
  {
    forall v ensures v in raw <==> exists e | e in elements :: v == ElementValue(e) {
      if e :| e in elements && v == ElementValue(e) {
        var i :| 0 <= i < |elements| && elements[i] == e;
      }
    }
    forall e | e in elements ensures ElementValue(e) in raw {
      var i :| 0 <= i < |elements| && elements[i] == e;
    }
  }

  lemma NamesOf(elements: seq<Element>, raw: set<Value>)
    requires raw == set e | e in elements :: ElementValue(e)
    requires forall e | e in elements :: !e.Nested?
    ensures (set v | v in raw :: AsName(v))
            == set e | e in elements :: Name(if e.IntElement? then Show(e.n) else e.shown)
  {
    forall e | e in elements
      ensures ElementValue(e) in raw && AsName(ElementValue(e)) == Name(if e.IntElement? then Show(e.n) else e.shown)
    {
    }
  }

  /** A poll fails exactly if nothing was fetched or an element is nested, and then changes nothing. */
  lemma FailedExactly(c: Setup, s: State, fetched: Option<seq<Element>>)
    ensures var (t, verdict) := Poll(c, s, fetched);
      && (verdict.Failed? <==> !exists remote :: Reads(fetched, remote))
      && (verdict.Failed? ==> t == s && (fetched.None? || exists e :: e in fetched.value && e.Nested?))
  {
    if fetched.Some? {
      forall remote ensures Reads(fetched, remote) <==> Normalize(fetched.value) == Ok(remote) {
        NormalizeReads(fetched, remote);
      }
      if Normalize(fetched.value).Ok? {
        assert Reads(fetched, Normalize(fetched.value).value);
      }
    }
  }

  /** After any history from a fresh start, what the next poll comes to: which refusal, or none, and what is served
      afterwards. */
  lemma PollExactly(c: Setup, start: State, polls: seq<Option<seq<Element>>>, fetched: Option<seq<Element>>,
                    remote: set<Value>)
    requires Good(c, start) && start.absentPolls == map[] && Reads(fetched, remote)
    ensures var (s, events) := Replay(c, start, polls);
      var served, accepted := Served(s), AcceptedOnly(events);
      var (t, verdict) := Poll(c, s, fetched);
      && verdict == (if Flips(served, remote) then TypeFlip
                     else if Empties(c, s.values, remote) then EmptyRefused
                     else if Sweeps(c, served, accepted, remote) then BulkRefused
                     else Accepted)
      && t.values == (match verdict
                      case Accepted => Some(served + remote - Leaving(c, served, accepted, remote))
                      case BulkRefused => Some(served + remote)
                      case _ => s.values)
      && t.synced == (s.synced || verdict.Accepted?)
  {
    var (s, events) := Replay(c, start, polls);
    NormalizeReads(fetched, remote);
    ReplayKeeps(c, start, polls);
    forall v ensures Count(s.absentPolls, v) == Streak(c, AcceptedOnly(events), v) {
      CountersAreStreaks(c, start, polls, v);
    }
    JudgeExactly(c, s, AcceptedOnly(events), remote);
  }

  lemma JudgeExactly(c: Setup, s: State, accepted: seq<Event>, remote: set<Value>)
    requires Good(c, s) && OneType(remote) && forall v :: Count(s.absentPolls, v) == Streak(c, accepted, v)
    ensures var served := Served(s);
      var (t, verdict) := Judge(c, s, remote);
      && verdict == (if Flips(served, remote) then TypeFlip
                     else if Empties(c, s.values, remote) then EmptyRefused
                     else if Sweeps(c, served, accepted, remote) then BulkRefused
                     else Accepted)
      && t.values == (match verdict
                      case Accepted => Some(served + remote - Leaving(c, served, accepted, remote))
                      case BulkRefused => Some(served + remote)
                      case _ => s.values)
      && t.synced == (s.synced || verdict.Accepted?)
  {
    FlipsIsClash(Served(s), remote);
    EmptiesIsRefused(c, s, remote);
    SweepsIsBulk(c, s, accepted, remote);
    JudgeValues(c, s, remote);
  }

  lemma FlipsIsClash(a: set<Value>, b: set<Value>)
    requires OneType(a) && OneType(b)
    ensures Flips(a, b) <==> Clash(a, b)
  {
    if Clash(a, b) {
      var v, w :| v in a && w in b;
      assert v.Number? != w.Number?;
    }
  }

  lemma EmptiesIsRefused(c: Setup, s: State, remote: set<Value>)
    requires Good(c, s)
    ensures Empties(c, s.values, remote) <==> RefusesEmpty(c, s, remote)
  {
    if s.values.Some? {
      if v :| v in s.values.value && v !in c.pinned {
        assert v in s.values.value - c.pinned;
      }
    }
  }

  lemma SweepsIsBulk(c: Setup, s: State, accepted: seq<Event>, remote: set<Value>)
    requires forall v :: Count(s.absentPolls, v) == Streak(c, accepted, v)
    ensures Leaving(c, Served(s), accepted, remote) == Confirmed(c, s, remote)
    ensures Sweeps(c, Served(s), accepted, remote) <==> Bulk(c, s, remote)
  {
    assert Leaving(c, Served(s), accepted, remote) == Confirmed(c, s, remote);
    assert Governed(c, Served(s), remote) == Managed(c, s, remote);
    RemovedAreConfirmed(c, s, remote);
    Subset(Confirmed(c, s, remote), Managed(c, s, remote));
  }

  lemma JudgeValues(c: Setup, s: State, remote: set<Value>)
    requires Good(c, s) && OneType(remote)
    ensures var (t, verdict) := Judge(c, s, remote);
      && t.values == (match verdict
                      case Accepted => Some(Served(s) + remote - Confirmed(c, s, remote))
                      case BulkRefused => Some(Served(s) + remote)
                      case _ => s.values)
  {
    JudgeServes(c, s, remote);
    var (t, verdict) := Judge(c, s, remote);
    if verdict.Accepted? || verdict.BulkRefused? {
      GrownIsUnion(c, s, remote);
    }
  }

  /** After any history from a fresh start, a served value leaves at the next poll exactly if the poll fetched an
      array of the served type without it, the value is not pinned, with this poll its streak of accepted polls that
      omitted it reaches the configured length, and it does so with at most half of the governed values, or alone. */
  lemma LeavesExactlyWhenConfirmed(c: Setup, start: State, polls: seq<Option<seq<Element>>>,
                                   fetched: Option<seq<Element>>, v: Value)
    requires Good(c, start) && start.absentPolls == map[]
    requires v in Served(Replay(c, start, polls).0)
    ensures var (s, events) := Replay(c, start, polls);
      var served, accepted := Served(s), AcceptedOnly(events);
      v !in Served(Poll(c, s, fetched).0) <==>
        exists remote :: Reads(fetched, remote) && v in Leaving(c, served, accepted, remote)
                         && !Flips(served, remote) && !Empties(c, s.values, remote)
                         && !Sweeps(c, served, accepted, remote)
  {
    var (s, events) := Replay(c, start, polls);
    FailedExactly(c, s, fetched);
    forall remote | Reads(fetched, remote)
      ensures fetched.Some? && Normalize(fetched.value) == Ok(remote)
    {
      NormalizeReads(fetched, remote);
    }
    if remote :| Reads(fetched, remote) {
      PollExactly(c, start, polls, fetched, remote);
    }
  }

  /** A streak of `n` is `n` successive accepted polls, each of which found the value served, omitted it and
      left it served. */
  lemma {:induction false} StreakMeans(c: Setup, accepted: seq<Event>, v: Value, n: nat)
    ensures Streak(c, accepted, v) >= n <==>
              n <= |accepted| && forall i :: |accepted| - n <= i < |accepted| ==>
                Omits(c, accepted[i], v) && v in accepted[i].after
  {
    if n > 0 && accepted != [] {
      var m := |accepted| - 1;
      StreakMeans(c, accepted[..m], v, n - 1);
      if Streak(c, accepted, v) >= n {
        forall i | |accepted| - n <= i < |accepted| ensures Omits(c, accepted[i], v) && v in accepted[i].after {
          if i < m { assert accepted[..m][i] == accepted[i]; }
        }
      } else if n <= |accepted| && Omits(c, accepted[m], v) && v in accepted[m].after {
        var i :| m - (n - 1) <= i < m && !(Omits(c, accepted[..m][i], v) && v in accepted[..m][i].after);
        assert accepted[..m][i] == accepted[i];
      }
    }
  }

  /** Right after a poll that fetched something of the served type, everything it fetched is served. */
  lemma AdditionsApply(c: Setup, s: State, fetched: Option<seq<Element>>)
    requires Good(c, s) && Fetched(fetched) != {} && !Clash(Served(s), Fetched(fetched))
    ensures Fetched(fetched) <= Served(Poll(c, s, fetched).0)
  {
    JudgeServes(c, s, Fetched(fetched));
  }

  /** One poll removes at most one value or half of what the endpoint governs; any poll that is not accepted
      removes nothing. */
  lemma RemovalBound(c: Setup, s: State, fetched: Option<seq<Element>>)
    requires Good(c, s)
    ensures var (t, verdict) := Poll(c, s, fetched);
      && |Served(s) - Served(t)| <= Max(1, |Managed(c, s, Fetched(fetched))| / 2)
      && (!verdict.Accepted? ==> Served(s) <= Served(t) && t.absentPolls == s.absentPolls)
  {
    if fetched.Some? && Normalize(fetched.value).Ok? {
      JudgeRemoves(c, s, Normalize(fetched.value).value);
    } else {
      assert Served(s) - Served(s) == {};
    }
  }

  lemma JudgeRemoves(c: Setup, s: State, remote: set<Value>)
    requires Good(c, s) && OneType(remote)
    ensures var (t, verdict) := Judge(c, s, remote);
      && |Served(s) - Served(t)| <= Max(1, |Managed(c, s, remote)| / 2)
      && (!verdict.Accepted? ==> Served(s) <= Served(t) && t.absentPolls == s.absentPolls)
  {
    JudgeServes(c, s, remote);
    var (t, verdict) := Judge(c, s, remote);
    if verdict.Accepted? {
      AcceptedRemoves(c, s, remote);
    } else {
      assert Served(s) - Served(t) == {};
    }
  }

  lemma AcceptedRemoves(c: Setup, s: State, remote: set<Value>)
    requires Good(c, s) && OneType(remote) && Judge(c, s, remote).1.Accepted?
    ensures |Served(s) - Served(Judge(c, s, remote).0)| <= Max(1, |Managed(c, s, remote)| / 2)
  {
    JudgeServes(c, s, remote);
    RemovedAreConfirmed(c, s, remote);
    Subset(Confirmed(c, s, remote), Managed(c, s, remote));
  }

  lemma RemovedAreConfirmed(c: Setup, s: State, remote: set<Value>)
    ensures Served(s) - Candidate(c, s, remote) == Confirmed(c, s, remote) <= Managed(c, s, remote)
  {
  }

  lemma {:induction false} Subset(a: set<Value>, b: set<Value>)
    requires a <= b
    ensures |a| <= |b|
    decreases a
  {
    if v :| v in a {
      Subset(a - {v}, b - {v});
    }
  }
}
