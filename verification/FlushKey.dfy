/**
 What names a flush: the offset ranges it publishes and the table incarnation it publishes them to.

 `KeyOf` is the name as a value. `FlushName` is the text the idempotency key is hashed from, and
 `SameNameSameFlush` shows that the two tell flushes apart equally well.
 */
module FlushKey {

  /** Everything between two offsets of one topic partition, both ends included. */
  datatype Range = Range(topic: string, partition: nat, first: nat, last: nat)

  /** An idempotency key: derived from incarnation and ranges, or random. */
  datatype Key = Named(uuid: nat, ranges: multiset<Range>) | Anonymous(id: nat)

  function KeyOf(uuid: nat, ranges: seq<Range>): Key { Named(uuid, multiset(ranges)) }

  // ------------------------------------------------------------------------------------------
  // Order
  // ------------------------------------------------------------------------------------------

  /** Code point order. */
  predicate TextLeq(a: string, b: string) {
    a == [] || (b != [] && (a[0] < b[0] || (a[0] == b[0] && TextLeq(a[1..], b[1..]))))
  }

  lemma {:induction false} TextTotal(a: string, b: string)
    ensures TextLeq(a, b) || TextLeq(b, a)
    ensures TextLeq(a, b) && TextLeq(b, a) ==> a == b
  {
    if a != [] && b != [] {
      TextTotal(a[1..], b[1..]);
      assert a == [a[0]] + a[1..] && b == [b[0]] + b[1..];
    }
  }

  lemma {:induction false} TextTransitive(a: string, b: string, c: string)
    requires TextLeq(a, b) && TextLeq(b, c)
    ensures TextLeq(a, c)
  {
    if a != [] && a[0] == b[0] == c[0] {
      TextTransitive(a[1..], b[1..], c[1..]);
    }
  }

  /** Tuples compare by topic, then partition, then both ends. */
  predicate Leq(a: Range, b: Range) {
    if a.topic != b.topic then TextLeq(a.topic, b.topic)
    else if a.partition != b.partition then a.partition < b.partition
    else if a.first != b.first then a.first < b.first
    else a.last <= b.last
  }

  lemma LeqTotal(a: Range, b: Range)
    ensures Leq(a, b) || Leq(b, a)
    ensures Leq(a, b) && Leq(b, a) ==> a == b
  {
    TextTotal(a.topic, b.topic);
  }

  lemma LeqTransitive(a: Range, b: Range, c: Range)
    requires Leq(a, b) && Leq(b, c)
    ensures Leq(a, c)
  {
    if a.topic != b.topic || b.topic != c.topic {
      TextTotal(a.topic, b.topic);
      TextTotal(b.topic, c.topic);
      TextTransitive(a.topic, b.topic, c.topic);
    }
  }

  predicate LeastOf(r: Range, rs: seq<Range>) {
    forall x :: x in rs ==> Leq(r, x)
  }

  predicate Sorted(rs: seq<Range>) {
    rs == [] || (LeastOf(rs[0], rs[1..]) && Sorted(rs[1..]))
  }

  function Insert(r: Range, rs: seq<Range>): seq<Range> {
    if rs == [] then [r]
    else if Leq(r, rs[0]) then [r] + rs
    else [rs[0]] + Insert(r, rs[1..])
  }

  /** The ranges as `_sink_write_kwargs` hands them over. */
  function Sort(rs: seq<Range>): seq<Range> {
    if rs == [] then [] else Insert(rs[0], Sort(rs[1..]))
  }

  lemma {:induction false} InsertKeeps(r: Range, rs: seq<Range>)
    ensures multiset(Insert(r, rs)) == multiset(rs) + multiset{r}
    ensures forall x :: x in Insert(r, rs) <==> x == r || x in rs
  {
    if rs != [] && !Leq(r, rs[0]) {
      InsertKeeps(r, rs[1..]);
      assert rs == [rs[0]] + rs[1..];
    }
    assert forall x :: x in Insert(r, rs) <==> x in multiset(Insert(r, rs));
  }

  lemma {:induction false} InsertSorts(r: Range, rs: seq<Range>)
    requires Sorted(rs)
    ensures Sorted(Insert(r, rs))
  {
    if rs != [] && !Leq(r, rs[0]) {
      InsertSorts(r, rs[1..]);
      InsertKeeps(r, rs[1..]);
      LeqTotal(r, rs[0]);
    } else if rs != [] {
      forall x | x in rs ensures Leq(r, x) {
        if x != rs[0] { LeqTransitive(r, rs[0], x); }
      }
      assert ([r] + rs)[1..] == rs;
    }
  }

  lemma {:induction false} SortSorts(rs: seq<Range>)
    ensures Sorted(Sort(rs)) && multiset(Sort(rs)) == multiset(rs)
  {
    if rs != [] {
      SortSorts(rs[1..]);
      InsertSorts(rs[0], Sort(rs[1..]));
      InsertKeeps(rs[0], Sort(rs[1..]));
      assert rs == [rs[0]] + rs[1..];
    }
  }

  lemma {:induction false} SortedUnique(a: seq<Range>, b: seq<Range>)
    requires Sorted(a) && Sorted(b) && multiset(a) == multiset(b)
    ensures a == b
  {
    assert |a| == |multiset(a)| == |multiset(b)| == |b|;
    if a != [] {
      SameHead(a, b);
      assert a == [a[0]] + a[1..] && b == [b[0]] + b[1..];
      assert multiset(a[1..]) == multiset(a) - multiset{a[0]};
      SortedUnique(a[1..], b[1..]);
    }
  }

  lemma SameHead(a: seq<Range>, b: seq<Range>)
    requires Sorted(a) && Sorted(b) && multiset(a) == multiset(b) && a != [] && b != []
    ensures a[0] == b[0]
  {
    assert a[0] in multiset(b) && b[0] in multiset(a);
    LeqTotal(a[0], b[0]);
    LeqTotal(a[0], a[0]);
    assert a == [a[0]] + a[1..] && b == [b[0]] + b[1..];
  }

  /** The order in which a dict yields its items does not matter. */
  lemma SortCanonical(a: seq<Range>, b: seq<Range>)
    ensures Sort(a) == Sort(b) <==> multiset(a) == multiset(b)
  {
    SortSorts(a);
    SortSorts(b);
    if multiset(a) == multiset(b) {
      SortedUnique(Sort(a), Sort(b));
    }
  }

  // ------------------------------------------------------------------------------------------
  // Text
  // ------------------------------------------------------------------------------------------

  function Digit(d: nat): char
    requires d < 10
  {
    '0' + d as char
  }

  function Decimal(n: nat): (s: string)
    ensures s != "" && forall c :: c in s ==> '0' <= c <= '9'
  {
    if n < 10 then [Digit(n)] else Decimal(n / 10) + [Digit(n % 10)]
  }

  lemma {:induction false} DecimalInjective(m: nat, n: nat)
    requires Decimal(m) == Decimal(n)
    ensures m == n
  {
    var s, t := Decimal(m), Decimal(n);
    assert s[|s| - 1] == Digit(m % 10) && t[|t| - 1] == Digit(n % 10);
    if m >= 10 && n >= 10 {
      assert Decimal(m / 10) == s[..|s| - 1] && Decimal(n / 10) == t[..|t| - 1];
      DecimalInjective(m / 10, n / 10);
    }
  }

  /** A text is cut in one way at the first occurrence of a separator. */
  lemma CutFirst(c: char, x: string, rest: string, y: string, rest': string)
    requires c !in x && c !in y && x + [c] + rest == y + [c] + rest'
    ensures x == y && rest == rest'
  {
    var s, t := x + [c] + rest, y + [c] + rest';
    assert s[|x|] == c && t[|y|] == c;
    assert forall k :: 0 <= k < |x| ==> s[k] != c;
    assert forall k :: 0 <= k < |y| ==> t[k] != c;
    assert x == s[..|x|] && y == t[..|y|];
    assert rest == s[|x| + 1..] && rest' == t[|y| + 1..];
  }

  /** And in one way at the last. */
  lemma CutLast(c: char, x: string, rest: string, y: string, rest': string)
    requires c !in rest && c !in rest' && x + [c] + rest == y + [c] + rest'
    ensures x == y && rest == rest'
  {
    var s, t := x + [c] + rest, y + [c] + rest';
    assert s[|x|] == c && t[|y|] == c;
    assert forall k :: |x| < k < |s| ==> s[k] == rest[k - |x| - 1];
    assert forall k :: |y| < k < |t| ==> t[k] == rest'[k - |y| - 1];
    assert x == s[..|x|] && y == t[..|y|];
    assert rest == s[|x| + 1..] && rest' == t[|y| + 1..];
  }

  function Span(r: Range): string {
    Decimal(r.first) + ['-'] + Decimal(r.last)
  }

  /** One line of the name. */
  function Line(r: Range): string {
    r.topic + [':'] + Decimal(r.partition) + [':'] + Span(r)
  }

  function Lines(rs: seq<Range>): (ls: seq<string>)
    ensures |ls| == |rs| && forall i :: 0 <= i < |ls| ==> ls[i] == Line(rs[i])
  {
    seq(|rs|, i requires 0 <= i < |rs| => Line(rs[i]))
  }

  function JoinLines(ls: seq<string>): string
    requires ls != []
  {
    if |ls| == 1 then ls[0] else ls[0] + ['\n'] + JoinLines(ls[1..])
  }

  /** The first line: the configured destination, `catalog/namespace/table`, and the incarnation. */
  function Header(destination: string, uuid: string): string {
    destination + ['/'] + uuid
  }

  /** The text hashed into the key: the header, then one line per range in sorted order. */
  function FlushName(destination: string, uuid: string, ranges: seq<Range>): string {
    JoinLines([Header(destination, uuid)] + Lines(Sort(ranges)))
  }

  /** Line by line the last two colons and the dash cut a range apart, whatever its topic. */
  lemma LineInjective(a: Range, b: Range)
    requires Line(a) == Line(b)
    ensures a == b
  {
    CutLast(':', a.topic + [':'] + Decimal(a.partition), Span(a), b.topic + [':'] + Decimal(b.partition), Span(b));
    CutLast(':', a.topic, Decimal(a.partition), b.topic, Decimal(b.partition));
    CutFirst('-', Decimal(a.first), Decimal(a.last), Decimal(b.first), Decimal(b.last));
    DecimalInjective(a.partition, b.partition);
    DecimalInjective(a.first, b.first);
    DecimalInjective(a.last, b.last);
  }

  predicate OneLine(s: string) { '\n' !in s }

  predicate AllOneLine(ls: seq<string>) {
    forall i :: 0 <= i < |ls| ==> OneLine(ls[i])
  }

  lemma JoinBreaks(ls: seq<string>)
    requires |ls| > 1
    ensures !OneLine(JoinLines(ls))
  {
    assert JoinLines(ls)[|ls[0]|] == '\n';
  }

  lemma {:induction false} JoinInjective(a: seq<string>, b: seq<string>)
    requires a != [] && b != [] && JoinLines(a) == JoinLines(b)
    requires AllOneLine(a) && AllOneLine(b)
    ensures a == b
  {
    assert OneLine(a[0]) && OneLine(b[0]);
    if |a| > 1 { JoinBreaks(a); }
    if |b| > 1 { JoinBreaks(b); }
    if |a| > 1 {
      CutFirst('\n', a[0], JoinLines(a[1..]), b[0], JoinLines(b[1..]));
      JoinInjective(a[1..], b[1..]);
      assert a == [a[0]] + a[1..] && b == [b[0]] + b[1..];
    }
  }

  predicate OneLineTopics(rs: seq<Range>) {
    forall r :: r in rs ==> OneLine(r.topic)
  }

  lemma LineIsOneLine(r: Range)
    requires OneLine(r.topic)
    ensures OneLine(Line(r))
  {
    assert OneLine(Decimal(r.partition)) && OneLine(Span(r));
  }

  lemma NameLines(header: string, rs: seq<Range>)
    requires OneLine(header) && OneLineTopics(rs)
    ensures AllOneLine([header] + Lines(Sort(rs)))
  {
    SortSorts(rs);
    var ls := [header] + Lines(Sort(rs));
    forall i | 0 <= i < |ls| ensures OneLine(ls[i]) {
      if i > 0 {
        assert Sort(rs)[i - 1] in multiset(rs);
        LineIsOneLine(Sort(rs)[i - 1]);
      }
    }
  }

  /** Two flushes into one configured destination share their name exactly if their incarnations and their sets
      of ranges agree, in whatever order the ranges are given, for topics that hold no newline. */
  lemma SameNameSameFlush(destination: string, u: string, a: seq<Range>, v: string, b: seq<Range>)
    requires OneLine(destination) && OneLine(u) && OneLine(v) && OneLineTopics(a) && OneLineTopics(b)
    ensures FlushName(destination, u, a) == FlushName(destination, v, b) <==> u == v && multiset(a) == multiset(b)
  {
    SortCanonical(a, b);
    if FlushName(destination, u, a) == FlushName(destination, v, b) {
      NameInjective(destination, u, a, v, b);
    }
  }

  lemma NameInjective(destination: string, u: string, a: seq<Range>, v: string, b: seq<Range>)
    requires OneLine(destination) && OneLine(u) && OneLine(v) && OneLineTopics(a) && OneLineTopics(b)
    requires FlushName(destination, u, a) == FlushName(destination, v, b)
    ensures u == v && Sort(a) == Sort(b)
  {
    NameLines(Header(destination, u), a);
    NameLines(Header(destination, v), b);
    JoinInjective([Header(destination, u)] + Lines(Sort(a)), [Header(destination, v)] + Lines(Sort(b)));
    SameLines(destination, u, Sort(a), v, Sort(b));
  }

  lemma SameLines(destination: string, u: string, a: seq<Range>, v: string, b: seq<Range>)
    requires [Header(destination, u)] + Lines(a) == [Header(destination, v)] + Lines(b)
    ensures u == v && a == b
  {
    var la, lb := [Header(destination, u)] + Lines(a), [Header(destination, v)] + Lines(b);
    assert la[0] == lb[0] && u == Header(destination, u)[|destination| + 1..];
    assert |a| == |b| by { assert |la| == |lb|; }
    forall i | 0 <= i < |a| ensures a[i] == b[i] {
      assert la[i + 1] == Line(a[i]) && lb[i + 1] == Line(b[i]);
      LineInjective(a[i], b[i]);
    }
  }

  /** So the text tells flushes apart exactly as the key does, however incarnations are written down. */
  lemma NameIsKey(destination: string, text: nat -> string, u: nat, a: seq<Range>, v: nat, b: seq<Range>)
    requires OneLine(destination) && OneLine(text(u)) && OneLine(text(v)) && (text(u) == text(v) ==> u == v)
    requires OneLineTopics(a) && OneLineTopics(b)
    ensures FlushName(destination, text(u), a) == FlushName(destination, text(v), b) <==> KeyOf(u, a) == KeyOf(v, b)
  {
    SameNameSameFlush(destination, text(u), a, text(v), b);
  }

  /** Why the topics must be one line: a newline lets one range read as two. */
  lemma NewlineTopicsCollide(destination: string, uuid: string)
    ensures FlushName(destination, uuid, [Range("t", 0, 1, 2), Range("u", 0, 3, 4)])
            == FlushName(destination, uuid, [Range("t:0:1-2\nu", 0, 3, 4)])
  {
    var h := Header(destination, uuid);
    var t, u, v := Range("t", 0, 1, 2), Range("u", 0, 3, 4), Range("t:0:1-2\nu", 0, 3, 4);
    assert Sort([]) == [] && Sort([u]) == Insert(u, Sort([])) == [u] && Sort([v]) == Insert(v, Sort([])) == [v];
    assert TextLeq("t", "u") && Sort([t, u]) == [t, u];
    assert Line(t) == "t:0:1-2" && Line(v) == Line(t) + ['\n'] + Line(u);
    assert ([h] + Lines([t, u]))[1..] == Lines([t, u]) && ([h] + Lines([v]))[1..] == Lines([v]);
    assert Lines([t, u])[1..] == Lines([u]);
    assert JoinLines(Lines([t, u])) == JoinLines(Lines([v]));
  }
}
