/**
 The grammar of `HOGLAKE_PARTITION_BY`: reading it, and writing it back.
 */
module PartitionSpec {
  import opened Wrappers
  import opened Lake
  import opened FlushKey
  import opened Names

  datatype Bad =
    | NoEntries | Malformed | UnknownTransform | BucketArity | BucketCount | BucketNonPositive | Arity
    | UnsafeName | Duplicated

  const Transforms: seq<string> := ["identity", "year", "month", "day", "hour", "bucket"]

  // ------------------------------------------------------------------------------------------
  // Characters
  // ------------------------------------------------------------------------------------------

  predicate IsSpace(c: char) {
    var n := c as int;
    || 9 <= n <= 13 || 28 <= n <= 32 || n == 0x85 || n == 0xA0 || n == 0x1680 || 0x2000 <= n <= 0x200A
    || n == 0x2028 || n == 0x2029 || n == 0x202F || n == 0x205F || n == 0x3000
  }

  function TrimLeft(s: string): string {
    if s != "" && IsSpace(s[0]) then TrimLeft(s[1..]) else s
  }

  function TrimRight(s: string): string {
    if s != "" && IsSpace(s[|s| - 1]) then TrimRight(s[..|s| - 1]) else s
  }

  function Strip(s: string): string { TrimRight(TrimLeft(s)) }

  predicate Trimmed(s: string) {
    s == "" || (!IsSpace(s[0]) && !IsSpace(s[|s| - 1]))
  }

  lemma {:induction false} TrimRightEnds(s: string)
    ensures TrimRight(s) <= s
    ensures TrimRight(s) == "" || !IsSpace(TrimRight(s)[|TrimRight(s)| - 1])
  {
    if s != "" && IsSpace(s[|s| - 1]) {
      TrimRightEnds(s[..|s| - 1]);
    }
  }

  lemma {:induction false} TrimLeftStarts(s: string)
    ensures TrimLeft(s) == "" || !IsSpace(TrimLeft(s)[0])
  {
    if s != "" && IsSpace(s[0]) {
      TrimLeftStarts(s[1..]);
    }
  }

  lemma StripTrims(s: string)
    ensures Trimmed(Strip(s))
  {
    TrimLeftStarts(s);
    TrimRightEnds(TrimLeft(s));
  }

  /** Python's `int` on ASCII digits: an optional sign, digits, single underscores between digits. */
  function Unsigned(s: string): Option<nat> {
    if s == "" || !IsDigit(s[|s| - 1]) then None
    else
      var digit := s[|s| - 1] as int - '0' as int;
      if |s| == 1 then Some(digit)
      else
        var q := s[..|s| - 1];
        match Unsigned(if q[|q| - 1] == '_' then q[..|q| - 1] else q)
        case None => None
        case Some(v) => Some(10 * v + digit)
  }

  function ParseInt(s: string): Option<int> {
    if s != "" && (s[0] == '-' || s[0] == '+') then
      match Unsigned(s[1..])
      case None => None
      case Some(n) => Some(if s[0] == '-' then -(n as int) else n as int)
    else
      match Unsigned(s)
      case None => None
      case Some(n) => Some(n)
  }

  lemma {:induction false} ReadDecimal(n: nat)
    ensures Unsigned(Decimal(n)) == Some(n)
  {
    var s := Decimal(n);
    if n >= 10 {
      ReadDecimal(n / 10);
      assert s[..|s| - 1] == Decimal(n / 10);
      var q := Decimal(n / 10);
      assert q[|q| - 1] in q;
    }
  }

  predicate AllDigits(s: string) { s != "" && forall i :: 0 <= i < |s| ==> IsDigit(s[i]) }

  /** A single underscore between digits is skipped. */
  lemma {:induction false} UnderscoreSkipped(s: string, t: string)
    requires AllDigits(s) && AllDigits(t)
    ensures Unsigned(s + "_" + t) == Unsigned(s + t) && Unsigned(s + t).Some?
    decreases |t|
  {
    var u, v := s + "_" + t, s + t;
    DigitsRead(v);
    assert u[|u| - 1] == v[|v| - 1] == t[|t| - 1];
    if |t| == 1 {
      assert u[..|u| - 1] == s + "_" && v[..|v| - 1] == s && (s + "_")[..|s|] == s;
    } else {
      var q := t[..|t| - 1];
      assert u[..|u| - 1] == s + "_" + q && v[..|v| - 1] == s + q;
      UnderscoreSkipped(s, q);
    }
  }

  lemma {:induction false} DigitsRead(s: string)
    requires AllDigits(s)
    ensures Unsigned(s).Some?
  {
    if |s| > 1 { DigitsRead(s[..|s| - 1]); }
  }

  /** A sign in front counts. */
  lemma SignedRead(n: nat)
    ensures ParseInt("+" + Decimal(n)) == Some(n) && ParseInt("-" + Decimal(n)) == Some(-(n as int))
  {
    ReadDecimal(n);
    assert ("+" + Decimal(n))[1..] == Decimal(n) && ("-" + Decimal(n))[1..] == Decimal(n);
  }

  lemma ReadInt(n: nat)
    ensures ParseInt(Decimal(n)) == Some(n)
  {
    ReadDecimal(n);
    assert Decimal(n)[0] in Decimal(n);
  }

  // ------------------------------------------------------------------------------------------
  // Splitting
  // ------------------------------------------------------------------------------------------

  function Deeper(depth: nat, c: char): nat {
    if c == '(' then depth + 1 else if c == ')' && depth > 0 then depth - 1 else depth
  }

  /** The pieces between commas outside parentheses, `current` being the piece read so far. */
  function Pieces(raw: string, depth: nat, current: string): (ps: seq<string>)
    ensures ps != []
  {
    if raw == "" then [current]
    else
      var d := Deeper(depth, raw[0]);
      if raw[0] == ',' && d == 0 then [current] + Pieces(raw[1..], d, "")
      else Pieces(raw[1..], d, current + [raw[0]])
  }

  /** Stripped, and without the blank ones. */
  function Entries(pieces: seq<string>): seq<string> {
    if pieces == [] then []
    else Entries(pieces[..|pieces| - 1]) + (var e := Strip(pieces[|pieces| - 1]); if e != "" then [e] else [])
  }

  method SplitTopLevelCommas(raw: string) returns (entries: seq<string>)
    ensures entries == Entries(Pieces(raw, 0, ""))
  {
    var pieces: seq<string>, depth: nat, current := [], 0, "";
    for i := 0 to |raw|
      invariant pieces + Pieces(raw[i..], depth, current) == Pieces(raw, 0, "")
    {
      assert raw[i..][0] == raw[i] && raw[i..][1..] == raw[i + 1..];
      var ch := raw[i];
      if ch == '(' {
        depth := depth + 1;
      } else if ch == ')' {
        depth := if depth - 1 > 0 then depth - 1 else 0;
      }
      if ch == ',' && depth == 0 {
        pieces := pieces + [current];
        current := "";
      } else {
        current := current + [ch];
      }
    }
    assert raw[|raw|..] == "";
    pieces := pieces + [current];
    entries := [];
    for i := 0 to |pieces|
      invariant entries == Entries(pieces[..i])
    {
      assert pieces[..i + 1][..i] == pieces[..i];
      if Strip(pieces[i]) != "" {
        entries := entries + [Strip(pieces[i])];
      }
    }
    assert pieces[..|pieces|] == pieces;
  }

  // ------------------------------------------------------------------------------------------
  // One entry
  // ------------------------------------------------------------------------------------------

  function NameLength(s: string): (n: nat)
    ensures n <= |s| && forall i :: 0 <= i < n ==> IsLetter(s[i]) || IsDigit(s[i])
  {
    if s != "" && (IsLetter(s[0]) || IsDigit(s[0])) then 1 + NameLength(s[1..]) else 0
  }

  /** The regex for `name ( arguments )`: name and arguments, the latter without surrounding space. A dot does
      not match a newline. */
  function Call(entry: string): Option<(string, string)> {
    var n := NameLength(entry);
    var rest := TrimLeft(entry[n..]);
    if n == 0 || !IsLetter(entry[0]) || |rest| < 2 || rest[0] != '(' || rest[|rest| - 1] != ')' then None
    else
      var args := Strip(rest[1..|rest| - 1]);
      if '\n' in args then None else Some((entry[..n], args))
  }

  function SplitCommas(s: string): (ps: seq<string>)
    ensures ps != []
  {
    if s == "" then [""]
    else if s[0] == ',' then [""] + SplitCommas(s[1..])
    else var ps := SplitCommas(s[1..]); [[s[0]] + ps[0]] + ps[1..]
  }

  function Arguments(args: string): seq<string> {
    if args == "" then []
    else var ps := SplitCommas(args); seq(|ps|, i requires 0 <= i < |ps| => Strip(ps[i]))
  }

  function ParseCall(transform: string, args: seq<string>): Outcome<Field, Bad> {
    if transform !in Transforms then Raise(UnknownTransform)
    else if transform == "bucket" then
      if |args| != 2 then Raise(BucketArity)
      else
        match ParseInt(args[1])
        case None => Raise(BucketCount)
        case Some(n) => if n <= 0 then Raise(BucketNonPositive) else Ok(Field(args[0], transform, Some(n)))
    else if |args| != 1 || args[0] == "" then Raise(Arity)
    else Ok(Field(args[0], transform, None))
  }

  function ParseEntry(entry: string): Outcome<Field, Bad> {
    var field :-
      match Call(entry)
      case None => if '(' in entry || ')' in entry then Raise(Malformed) else Ok(Field(entry, "identity", None))
      case Some((name, args)) => ParseCall(Lower(name), Arguments(args));
    if SafeIdentifier(field.column) then Ok(field) else Raise(UnsafeName)
  }

  // ------------------------------------------------------------------------------------------
  // The whole setting
  // ------------------------------------------------------------------------------------------

  /** Entries in order; one that was refused or repeats an earlier one refuses the setting. */
  function Gather(read: seq<Outcome<Field, Bad>>): Outcome<seq<Field>, Bad> {
    if read == [] then Ok([])
    else
      var before :- Gather(read[..|read| - 1]);
      var field :- read[|read| - 1];
      if field in before then Raise(Duplicated) else Ok(before + [field])
  }

  function ReadAll(entries: seq<string>): (read: seq<Outcome<Field, Bad>>)
    ensures |read| == |entries|
    ensures forall i :: 0 <= i < |read| ==> read[i] == ParseEntry(entries[i])
  {
    seq(|entries|, i requires 0 <= i < |entries| => ParseEntry(entries[i]))
  }

  function Parse(raw: string): Outcome<seq<Field>, Bad> {
    var entries := Entries(Pieces(raw, 0, ""));
    if entries == [] then Raise(NoEntries) else Gather(ReadAll(entries))
  }

  method ParseHoglakePartitionBy(raw: string) returns (r: Outcome<seq<Field>, Bad>)
    ensures r == Parse(raw)
  {
    var entries := SplitTopLevelCommas(raw);
    if entries == [] {
      return Raise(NoEntries);
    }
    ghost var read := ReadAll(entries);
    var fields: seq<Field>, seen: set<Field> := [], {};
    for i := 0 to |entries|
      invariant Gather(read[..i]) == Ok(fields)
      invariant forall f :: f in seen <==> f in fields
    {
      assert read[..i + 1][..i] == read[..i];
      var field := ParseEntry(entries[i]);
      var failed := if field.Raise? then Some(field.error) else if field.value in seen then Some(Duplicated) else None;
      if failed.Some? {
        RefusedForGood(read, i + 1);
        return Raise(failed.value);
      }
      seen := seen + {field.value};
      fields := fields + [field.value];
    }
    assert read[..|entries|] == read;
    r := Ok(fields);
  }

  lemma {:induction false} RefusedForGood(read: seq<Outcome<Field, Bad>>, k: nat)
    requires k <= |read| && Gather(read[..k]).Raise?
    ensures Gather(read) == Gather(read[..k])
    decreases |read|
  {
    if k == |read| {
      assert read[..k] == read;
    } else {
      var n := |read| - 1;
      assert read[..n][..k] == read[..k];
      RefusedForGood(read[..n], k);
    }
  }

  // ------------------------------------------------------------------------------------------
  // Writing it back
  // ------------------------------------------------------------------------------------------

  predicate ValidField(f: Field) {
    && IsIdentifier(f.column) && f.transform in Transforms
    && (if f.transform == "bucket" then f.param.Some? && f.param.value > 0 else f.param.None?)
  }

  predicate ValidSpec(fields: seq<Field>) {
    && fields != []
    && (forall i :: 0 <= i < |fields| ==> ValidField(fields[i]))
    && (forall i, j :: 0 <= i < j < |fields| ==> fields[i] != fields[j])
  }

  function Inner(f: Field): string
    requires ValidField(f)
  {
    f.column + (if f.param.Some? then ", " + Decimal(f.param.value) else "")
  }

  function Entry(f: Field): string
    requires ValidField(f)
  {
    f.transform + "(" + Inner(f) + ")"
  }

  /** How error messages print a configured spec. */
  function Print(fields: seq<Field>): string
    requires forall i :: 0 <= i < |fields| ==> ValidField(fields[i])
  {
    if fields == [] then ""
    else if |fields| == 1 then Entry(fields[0])
    else Entry(fields[0]) + (", " + Print(fields[1..]))
  }

  // ------------------------------------------------------------------------------------------
  // Round trip
  // ------------------------------------------------------------------------------------------

  /** A text without parentheses passes through the split, inside parentheses or without a comma. */
  lemma {:induction false} PiecesPass(x: string, rest: string, depth: nat, current: string)
    requires '(' !in x && ')' !in x && (depth > 0 || ',' !in x)
    ensures Pieces(x + rest, depth, current) == Pieces(rest, depth, current + x)
    decreases |x|
  {
    if x == "" {
      assert x + rest == rest && current + x == current;
    } else {
      assert (x + rest)[1..] == x[1..] + rest;
      PiecesPass(x[1..], rest, depth, current + [x[0]]);
      assert current + [x[0]] + x[1..] == current + x;
    }
  }

  lemma PiecesOne(c: char, rest: string, depth: nat, current: string)
    requires c != ','
    ensures Pieces([c] + rest, depth, current) == Pieces(rest, Deeper(depth, c), current + [c])
  {
    assert ([c] + rest)[1..] == rest;
  }

  predicate Word(s: string) {
    s != "" && forall i :: 0 <= i < |s| ==> IsLetter(s[i]) || IsDigit(s[i])
  }

  lemma DecimalWord(n: nat)
    ensures Word(Decimal(n))
  {
    forall i | 0 <= i < |Decimal(n)| ensures IsDigit(Decimal(n)[i]) {
      assert Decimal(n)[i] in Decimal(n);
    }
  }

  lemma WordIsPlain(s: string)
    requires Word(s)
    ensures '(' !in s && ')' !in s && ',' !in s && '\n' !in s && Trimmed(s)
  {
  }

  lemma TransformIsWord(f: Field)
    requires ValidField(f)
    ensures IsIdentifier(f.transform) && Lower(f.transform) == f.transform
  {
  }

  lemma InnerIsPlain(f: Field)
    requires ValidField(f)
    ensures '(' !in Inner(f) && ')' !in Inner(f) && '\n' !in Inner(f) && Trimmed(Inner(f)) && Inner(f) != ""
  {
    WordIsPlain(f.column);
    if f.param.Some? {
      DecimalWord(f.param.value);
      WordIsPlain(Decimal(f.param.value));
    }
  }

  /** An entry passes through the split as one piece, its inner comma included. */
  lemma EntryPasses(f: Field, rest: string, current: string)
    requires ValidField(f)
    ensures Pieces(Entry(f) + rest, 0, current) == Pieces(rest, 0, current + Entry(f))
  {
    var t, x := f.transform, Inner(f);
    InnerIsPlain(f);
    TransformIsWord(f);
    WordIsPlain(t);
    assert Entry(f) + rest == t + (['('] + (x + ([')'] + rest)));
    PiecesPass(t, ['('] + (x + ([')'] + rest)), 0, current);
    PiecesOne('(', x + ([')'] + rest), 0, current + t);
    PiecesPass(x, [')'] + rest, 1, current + t + ['(']);
    PiecesOne(')', rest, 1, current + t + ['('] + x);
    assert current + t + ['('] + x + [')'] == current + Entry(f);
  }

  lemma CommaCuts(rest: string, current: string)
    ensures Pieces(", " + rest, 0, current) == [current] + Pieces(rest, 0, " ")
  {
    assert (", " + rest)[1..] == [' '] + rest;
    PiecesOne(' ', rest, 0, "");
    assert "" + [' '] == " ";
  }

  lemma {:induction false} PrintPieces(fields: seq<Field>, current: string)
    requires fields != [] && forall i :: 0 <= i < |fields| ==> ValidField(fields[i])
    ensures var ps := Pieces(Print(fields), 0, current);
      && |ps| == |fields| && ps[0] == current + Entry(fields[0])
      && forall i :: 0 < i < |fields| ==> ps[i] == " " + Entry(fields[i])
    decreases |fields|
  {
    if |fields| == 1 {
      EntryPasses(fields[0], "", current);
      assert Entry(fields[0]) + "" == Entry(fields[0]);
    } else {
      var tail := fields[1..];
      EntryPasses(fields[0], ", " + Print(tail), current);
      CommaCuts(Print(tail), current + Entry(fields[0]));
      PrintPieces(tail, " ");
    }
  }

  lemma StripSpaced(e: string)
    requires Trimmed(e) && e != ""
    ensures Strip(e) == e && Strip(" " + e) == e
  {
    assert (" " + e)[1..] == e;
  }

  lemma EntryIsTrimmed(f: Field)
    requires ValidField(f)
    ensures Trimmed(Entry(f)) && Entry(f) != ""
  {
    TransformIsWord(f);
    WordIsPlain(f.transform);
  }

  lemma {:induction false} EntriesOf(ps: seq<string>, fields: seq<Field>)
    requires |ps| == |fields| && forall i :: 0 <= i < |fields| ==> ValidField(fields[i])
    requires forall i :: 0 <= i < |fields| ==> ps[i] == Entry(fields[i]) || ps[i] == " " + Entry(fields[i])
    ensures |Entries(ps)| == |fields| && forall i :: 0 <= i < |fields| ==> Entries(ps)[i] == Entry(fields[i])
  {
    if ps != [] {
      var n := |ps| - 1;
      EntriesOf(ps[..n], fields[..n]);
      EntryIsTrimmed(fields[n]);
      StripSpaced(Entry(fields[n]));
    }
  }

  lemma {:induction false} NameLengthOf(name: string, rest: string)
    requires Word(name) && rest != "" && !IsLetter(rest[0]) && !IsDigit(rest[0])
    ensures NameLength(name + rest) == |name|
  {
    var s := name + rest;
    if |name| > 1 {
      assert s[1..] == name[1..] + rest;
      NameLengthOf(name[1..], rest);
    } else {
      assert s[1..] == rest;
    }
  }

  lemma CallOfEntry(f: Field)
    requires ValidField(f)
    ensures Call(Entry(f)) == Some((f.transform, Inner(f)))
  {
    var e, rest := Entry(f), "(" + Inner(f) + ")";
    TransformIsWord(f);
    InnerIsPlain(f);
    assert e == f.transform + rest;
    NameLengthOf(f.transform, rest);
    assert e[|f.transform|..] == rest && e[..|f.transform|] == f.transform && e[0] == f.transform[0];
    assert TrimLeft(rest) == rest;
    assert rest[1..|rest| - 1] == Inner(f);
    StripSpaced(Inner(f));
  }

  lemma {:induction false} SplitOne(x: string)
    requires ',' !in x
    ensures SplitCommas(x) == [x]
  {
    if x != "" {
      SplitOne(x[1..]);
      assert x == [x[0]] + x[1..];
    }
  }

  lemma {:induction false} SplitTwo(x: string, y: string)
    requires ',' !in x && ',' !in y
    ensures SplitCommas(x + [','] + y) == [x, y]
  {
    var s := x + [','] + y;
    if x == "" {
      assert s[1..] == y;
      SplitOne(y);
    } else {
      assert s[1..] == x[1..] + [','] + y;
      SplitTwo(x[1..], y);
      assert x == [x[0]] + x[1..];
    }
  }

  lemma ArgumentsOfInner(f: Field)
    requires ValidField(f)
    ensures Arguments(Inner(f)) == if f.param.Some? then [f.column, Decimal(f.param.value)] else [f.column]
  {
    WordIsPlain(f.column);
    StripSpaced(f.column);
    if f.param.Some? {
      TwoArguments(f.column, Decimal(f.param.value), f.param.value);
      assert Inner(f) == f.column + [','] + (" " + Decimal(f.param.value));
    } else {
      SplitOne(f.column);
      assert Inner(f) == f.column;
    }
  }

  lemma TwoArguments(column: string, count: string, n: nat)
    requires Word(column) && count == Decimal(n)
    ensures Arguments(column + [','] + (" " + count)) == [column, count]
  {
    DecimalWord(n);
    WordIsPlain(column);
    WordIsPlain(count);
    StripSpaced(column);
    StripSpaced(count);
    SplitTwo(column, " " + count);
  }

  lemma EntryRoundTrip(f: Field)
    requires ValidField(f)
    ensures ParseEntry(Entry(f)) == Ok(f)
  {
    CallOfEntry(f);
    ArgumentsOfInner(f);
    TransformIsWord(f);
    if f.param.Some? {
      ReadInt(f.param.value);
    }
  }

  lemma {:induction false} GatherAll(read: seq<Outcome<Field, Bad>>, fields: seq<Field>)
    requires |read| == |fields| && forall i :: 0 <= i < |fields| ==> read[i] == Ok(fields[i])
    requires forall i, j :: 0 <= i < j < |fields| ==> fields[i] != fields[j]
    ensures Gather(read) == Ok(fields)
  {
    if read != [] {
      var n := |read| - 1;
      GatherAll(read[..n], fields[..n]);
      assert fields == fields[..n] + [fields[n]];
    }
  }

  /** Printing any list of distinct valid entries and reading it again gives the same triples. */
  lemma PrintParse(fields: seq<Field>)
    requires ValidSpec(fields)
    ensures Parse(Print(fields)) == Ok(fields)
  {
    PrintPieces(fields, "");
    EntriesOf(Pieces(Print(fields), 0, ""), fields);
    var entries := Entries(Pieces(Print(fields), 0, ""));
    forall i | 0 <= i < |fields| ensures ParseEntry(entries[i]) == Ok(fields[i]) {
      EntryRoundTrip(fields[i]);
    }
    GatherAll(ReadAll(entries), fields);
  }

  // ------------------------------------------------------------------------------------------
  // What is accepted
  // ------------------------------------------------------------------------------------------

  lemma TrimmedNames(s: string)
    requires SafeIdentifier(s) && Trimmed(s)
    ensures IsIdentifier(s)
  {
  }

  lemma EntryIsValid(entry: string)
    requires Trimmed(entry) && ParseEntry(entry).Ok?
    ensures ValidField(ParseEntry(entry).value)
  {
    match Call(entry)
    case None => TrimmedNames(entry);
    case Some((name, args)) =>
      var ps := SplitCommas(args);
      if args != "" {
        StripTrims(ps[0]);
        TrimmedNames(ParseEntry(entry).value.column);
      }
  }

  lemma {:induction false} EntriesAreTrimmed(ps: seq<string>)
    ensures forall i :: 0 <= i < |Entries(ps)| ==> Trimmed(Entries(ps)[i])
  {
    if ps != [] {
      EntriesAreTrimmed(ps[..|ps| - 1]);
      StripTrims(ps[|ps| - 1]);
    }
  }

  lemma {:induction false} GatherFields(read: seq<Outcome<Field, Bad>>)
    requires Gather(read).Ok?
    ensures var fields := Gather(read).value;
      && |fields| == |read|
      && (forall i :: 0 <= i < |fields| ==> read[i] == Ok(fields[i]))
      && (forall i, j :: 0 <= i < j < |fields| ==> fields[i] != fields[j])
  {
    if read != [] {
      GatherFields(read[..|read| - 1]);
    }
  }

  /** Whatever is accepted is a list of distinct valid entries, and its printed form reads the same. */
  lemma ParsePrint(raw: string)
    requires Parse(raw).Ok?
    ensures ValidSpec(Parse(raw).value)
    ensures Parse(Print(Parse(raw).value)) == Parse(raw)
  {
    var ps := Pieces(raw, 0, "");
    EntriesAreTrimmed(ps);
    var entries, fields := Entries(ps), Parse(raw).value;
    GatherFields(ReadAll(entries));
    forall i | 0 <= i < |fields| ensures ValidField(fields[i]) {
      EntryIsValid(entries[i]);
    }
    PrintParse(Parse(raw).value);
  }

  // ------------------------------------------------------------------------------------------
  // Every way to write it
  // ------------------------------------------------------------------------------------------

  predicate Blank(w: string) { forall i :: 0 <= i < |w| ==> IsSpace(w[i]) }

  /** Space inside the parentheses: a newline does not match there. */
  predicate Gap(w: string) { Blank(w) && '\n' !in w }

  /** How an entry may be written: as a bare column, or as a call with space around every token. */
  datatype Spelling =
    | Bare(column: string)
    | Called(name: string, w1: string, w2: string, column: string, w3: string)
    | Bucketed(name: string, w1: string, w2: string, column: string, w3: string, w4: string, count: string, w5: string)

  /** What stands between the parentheses, and what of it is not space. */
  function Core(e: Spelling): string {
    match e
    case Bare(column) => column
    case Called(_, _, _, column, _) => column
    case Bucketed(_, _, _, column, w3, w4, count, _) => column + w3 + [','] + (w4 + count)
  }

  function Lead(e: Spelling): string { if e.Bare? then "" else e.w2 }
  function Tail(e: Spelling): string { if e.Bare? then "" else if e.Called? then e.w3 else e.w5 }

  function Spelled(e: Spelling): string {
    if e.Bare? then e.column else e.name + e.w1 + ("(" + (Lead(e) + Core(e) + Tail(e)) + ")")
  }

  /** The spelling is one of this field: a bare identifier is its identity, names of transforms are read in any case,
      and a bucket count is whatever reads as a positive integer. */
  predicate Writes(e: Spelling, f: Field) {
    && IsIdentifier(e.column) && f.column == e.column
    && match e
       case Bare(_) => f.transform == "identity" && f.param == None
       case Called(name, w1, w2, _, w3) =>
         && f.transform == Lower(name) && f.transform in ["identity", "year", "month", "day", "hour"] && f.param == None
         && Blank(w1) && Gap(w2) && Gap(w3)
       case Bucketed(name, w1, w2, _, w3, w4, count, w5) =>
         && f.transform == "bucket" == Lower(name) && ParseInt(count).Some? && ParseInt(count).value > 0
         && f.param == ParseInt(count)
         && Blank(w1) && Gap(w2) && Gap(w3) && Gap(w4) && Gap(w5)
  }

  lemma {:induction false} TrimLeftBlank(w: string, s: string)
    requires Blank(w) && (s == "" || !IsSpace(s[0]))
    ensures TrimLeft(w + s) == s
  {
    if w == "" {
      assert w + s == s;
    } else {
      assert (w + s)[1..] == w[1..] + s;
      TrimLeftBlank(w[1..], s);
    }
  }

  lemma {:induction false} TrimRightBlank(s: string, w: string)
    requires Blank(w) && (s == "" || !IsSpace(s[|s| - 1]))
    ensures TrimRight(s + w) == s
  {
    if w == "" {
      assert s + w == s;
    } else {
      assert (s + w)[..|s + w| - 1] == s + w[..|w| - 1];
      TrimRightBlank(s, w[..|w| - 1]);
    }
  }

  lemma StripBlank(w: string, s: string, w': string)
    requires Blank(w) && Blank(w') && Trimmed(s) && s != ""
    ensures Strip(w + s + w') == s
  {
    assert w + s + w' == w + (s + w');
    TrimLeftBlank(w, s + w');
    TrimRightBlank(s, w');
  }

  /** An integer's text has digits, underscores and a sign. */
  lemma {:induction false} UnsignedText(s: string)
    requires Unsigned(s).Some?
    ensures forall c :: c in s ==> IsDigit(c) || c == '_'
  {
    if |s| > 1 {
      var q := s[..|s| - 1];
      assert s == q + [s[|s| - 1]];
      if q[|q| - 1] == '_' {
        assert q == q[..|q| - 1] + ['_'];
        UnsignedText(q[..|q| - 1]);
      } else {
        UnsignedText(q);
      }
    }
  }

  lemma IntText(s: string)
    requires ParseInt(s).Some?
    ensures s != "" && Trimmed(s) && '(' !in s && ')' !in s && ',' !in s && '\n' !in s
  {
    if s[0] == '-' || s[0] == '+' {
      UnsignedText(s[1..]);
      assert s == [s[0]] + s[1..];
      assert s[|s| - 1] in s[1..];
    } else {
      UnsignedText(s);
      assert s[0] in s && s[|s| - 1] in s;
    }
  }

  predicate NoMarks(s: string) { '(' !in s && ')' !in s }

  lemma CoreIsPlain(e: Spelling, f: Field)
    requires Writes(e, f)
    ensures NoMarks(Core(e)) && '\n' !in Core(e) && Trimmed(Core(e)) && Core(e) != ""
    ensures NoMarks(Lead(e)) && NoMarks(Tail(e)) && Blank(Lead(e)) && Blank(Tail(e))
  {
    WordIsPlain(e.column);
    if e.Bucketed? {
      IntText(e.count);
      assert Core(e)[0] == e.column[0];
      assert Core(e)[|Core(e)| - 1] == e.count[|e.count| - 1];
    }
  }

  lemma NameIsWord(name: string)
    requires Lower(name) in Transforms
    ensures IsIdentifier(name)
  {
    forall i | 0 <= i < |name| ensures IsLetter(name[i]) {
      assert Lower(name)[i] == LowerChar(name[i]);
    }
    assert |Lower(name)| == |name|;
  }

  /** A call is read as its name and what stands between the parentheses. */
  lemma CallOf(name: string, w1: string, lead: string, core: string, tail: string)
    requires IsIdentifier(name) && Blank(w1) && Blank(lead) && Blank(tail)
    requires Trimmed(core) && core != "" && '\n' !in core
    ensures Call(name + w1 + ("(" + (lead + core + tail) + ")")) == Some((name, core))
  {
    var rest := "(" + (lead + core + tail) + ")";
    var entry := name + w1 + rest;
    assert entry == name + (w1 + rest);
    NameLengthOf(name, w1 + rest);
    assert entry[|name|..] == w1 + rest && entry[..|name|] == name;
    TrimLeftBlank(w1, rest);
    assert rest[1..|rest| - 1] == lead + core + tail;
    StripBlank(lead, core, tail);
  }

  lemma CallOfSpelled(e: Spelling, f: Field)
    requires Writes(e, f) && !e.Bare?
    ensures Call(Spelled(e)) == Some((e.name, Core(e)))
  {
    NameIsWord(e.name);
    CoreIsPlain(e, f);
    CallOf(e.name, e.w1, Lead(e), Core(e), Tail(e));
  }

  lemma ArgumentsOfCore(e: Spelling, f: Field)
    requires Writes(e, f) && !e.Bare?
    ensures Arguments(Core(e)) == if e.Bucketed? then [e.column, e.count] else [e.column]
  {
    WordIsPlain(e.column);
    StripSpaced(e.column);
    if e.Bucketed? {
      IntText(e.count);
      SplitTwo(e.column + e.w3, e.w4 + e.count);
      StripBlank("", e.column, e.w3);
      StripBlank(e.w4, e.count, "");
      assert "" + e.column + e.w3 == e.column + e.w3 && e.w4 + e.count + "" == e.w4 + e.count;
    } else {
      SplitOne(e.column);
    }
  }

  lemma SpelledReads(e: Spelling, f: Field)
    requires Writes(e, f)
    ensures ParseEntry(Spelled(e)) == Ok(f)
  {
    if e.Bare? {
      WordIsPlain(e.column);
      BareIsNoCall(e.column);
    } else {
      CallOfSpelled(e, f);
      ArgumentsOfCore(e, f);
    }
  }

  lemma BareIsNoCall(column: string)
    requires Word(column)
    ensures Call(column).None?
  {
    WordIsPlain(column);
    var rest := TrimLeft(column[NameLength(column)..]);
    TrimLeftPart(column[NameLength(column)..]);
    if rest != "" { assert rest[0] in column; }
  }

  lemma {:induction false} TrimLeftPart(s: string)
    ensures forall c :: c in TrimLeft(s) ==> c in s
  {
    if s != "" && IsSpace(s[0]) { TrimLeftPart(s[1..]); }
  }

  /** The text passes the split as one piece. */
  ghost predicate Passes(p: string) {
    forall rest, current :: Pieces(p + rest, 0, current) == Pieces(rest, 0, current + p)
  }

  lemma SpelledPasses(w: string, e: Spelling, w': string, f: Field)
    requires Writes(e, f) && Blank(w) && Blank(w')
    ensures Passes(w + Spelled(e) + w')
  {
    if e.Bare? {
      WordIsPlain(e.column);
      PlainPasses(w + e.column + w');
    } else {
      CallMarks(w, e, w', f);
      CallText(w, e.name, e.w1, Lead(e) + Core(e) + Tail(e), w');
      AnyCallPasses(w + e.name + e.w1, Lead(e) + Core(e) + Tail(e), w');
    }
  }

  lemma CallMarks(w: string, e: Spelling, w': string, f: Field)
    requires Writes(e, f) && !e.Bare? && Blank(w) && Blank(w')
    ensures NoMarks(w + e.name + e.w1) && ',' !in w + e.name + e.w1 && NoMarks(w') && ',' !in w'
    ensures NoMarks(Lead(e) + Core(e) + Tail(e))
  {
    CoreIsPlain(e, f);
    NameIsWord(e.name);
    WordIsPlain(e.name);
  }

  lemma CallText(w: string, name: string, w1: string, inner: string, w': string)
    ensures w + name + w1 + ['('] + inner + [')'] + w' == w + (name + w1 + ("(" + inner + ")")) + w'
  {
  }

  lemma PlainPasses(p: string)
    requires NoMarks(p) && ',' !in p
    ensures Passes(p)
  {
    forall rest, current ensures Pieces(p + rest, 0, current) == Pieces(rest, 0, current + p) {
      PiecesPass(p, rest, 0, current);
    }
  }

  lemma AnyCallPasses(before: string, inner: string, after: string)
    requires NoMarks(before) && ',' !in before && NoMarks(inner) && NoMarks(after) && ',' !in after
    ensures Passes(before + ['('] + inner + [')'] + after)
  {
    var p := before + ['('] + inner + [')'] + after;
    forall rest, current ensures Pieces(p + rest, 0, current) == Pieces(rest, 0, current + p) {
      CallPasses(before, inner, after, rest, current);
    }
  }

  lemma CallPasses(before: string, inner: string, after: string, rest: string, current: string)
    requires NoMarks(before) && ',' !in before && NoMarks(inner) && NoMarks(after) && ',' !in after
    ensures var p := before + ['('] + inner + [')'] + after;
      Pieces(p + rest, 0, current) == Pieces(rest, 0, current + p)
  {
    var p := before + ['('] + inner + [')'] + after;
    assert p + rest == before + (['('] + (inner + ([')'] + (after + rest))));
    PiecesPass(before, ['('] + (inner + ([')'] + (after + rest))), 0, current);
    PiecesOne('(', inner + ([')'] + (after + rest)), 0, current + before);
    PiecesPass(inner, [')'] + (after + rest), 1, current + before + ['(']);
    PiecesOne(')', after + rest, 1, current + before + ['('] + inner);
    PiecesPass(after, rest, 0, current + before + ['('] + inner + [')']);
    assert current + before + ['('] + inner + [')'] + after == current + p;
  }

  function Joined(ps: seq<string>): string
    requires ps != []
  {
    if |ps| == 1 then ps[0] else ps[0] + (",") + Joined(ps[1..])
  }

  ghost predicate AllPass(ps: seq<string>) {
    forall i :: 0 <= i < |ps| ==> Passes(ps[i])
  }

  lemma {:induction false} JoinedPieces(ps: seq<string>, current: string, first: string)
    requires ps != [] && AllPass(ps) && first == current + ps[0]
    ensures Pieces(Joined(ps), 0, current) == [first] + ps[1..]
    decreases |ps|
  {
    if |ps| == 1 {
      LastPiece(ps[0], current);
    } else {
      var rest := "," + Joined(ps[1..]);
      assert Joined(ps) == ps[0] + rest;
      NextPiece(ps[0], rest, current);
      assert rest[1..] == Joined(ps[1..]);
      JoinedPieces(ps[1..], "", ps[1]);
      assert [ps[1]] + ps[1..][1..] == ps[1..];
    }
  }

  lemma LastPiece(p: string, current: string)
    requires Passes(p)
    ensures Pieces(p, 0, current) == [current + p]
  {
    assert p + "" == p && Pieces(p + "", 0, current) == Pieces("", 0, current + p);
  }

  lemma NextPiece(p: string, rest: string, current: string)
    requires Passes(p)
    ensures Pieces(p + rest, 0, current) == Pieces(rest, 0, current + p)
  {
  }

  /** One entry of a setting as an operator writes it: the spelling with space around it, of this field. */
  datatype Written = Written(w: string, e: Spelling, w': string, f: Field)

  predicate WellWritten(t: Written) { Writes(t.e, t.f) && Blank(t.w) && Blank(t.w') }

  function Text(t: Written): string { t.w + Spelled(t.e) + t.w' }

  function Texts(ts: seq<Written>): (ps: seq<string>)
    ensures |ps| == |ts| && forall i :: 0 <= i < |ts| ==> ps[i] == Text(ts[i])
  {
    seq(|ts|, i requires 0 <= i < |ts| => Text(ts[i]))
  }

  function Fields(ts: seq<Written>): (fs: seq<Field>)
    ensures |fs| == |ts| && forall i :: 0 <= i < |ts| ==> fs[i] == ts[i].f
  {
    seq(|ts|, i requires 0 <= i < |ts| => ts[i].f)
  }

  lemma TextReads(t: Written)
    requires WellWritten(t)
    ensures Passes(Text(t)) && Strip(Text(t)) != "" && ParseEntry(Strip(Text(t))) == Ok(t.f)
  {
    SpelledPasses(t.w, t.e, t.w', t.f);
    SpelledTrimmed(t.e, t.f);
    StripBlank(t.w, Spelled(t.e), t.w');
    SpelledReads(t.e, t.f);
  }

  lemma SpelledTrimmed(e: Spelling, f: Field)
    requires Writes(e, f)
    ensures Trimmed(Spelled(e)) && Spelled(e) != ""
  {
    if e.Bare? { WordIsPlain(e.column); } else { NameIsWord(e.name); WordIsPlain(e.name); }
  }

  lemma {:induction false} StrippedEntries(ps: seq<string>)
    requires forall i :: 0 <= i < |ps| ==> Strip(ps[i]) != ""
    ensures |Entries(ps)| == |ps| && forall i :: 0 <= i < |ps| ==> Entries(ps)[i] == Strip(ps[i])
  {
    if ps != [] {
      StrippedEntries(ps[..|ps| - 1]);
    }
  }

  /** However the entries of distinct fields are written, with whatever space and case, the setting is read as those
      fields; if a field is written twice it is refused. */
  lemma WrittenParses(ts: seq<Written>)
    requires ts != [] && forall i :: 0 <= i < |ts| ==> WellWritten(ts[i])
    ensures Parse(Joined(Texts(ts))) == if Distinct(Fields(ts)) then Ok(Fields(ts)) else Raise(Duplicated)
  {
    var ps := Texts(ts);
    forall i | 0 <= i < |ps|
      ensures Passes(ps[i]) && Strip(ps[i]) != "" && ParseEntry(Strip(ps[i])) == Ok(Fields(ts)[i])
    {
      TextReads(ts[i]);
    }
    JoinedSplits(ps);
    EntriesGather(ps, Fields(ts));
  }

  lemma JoinedSplits(ps: seq<string>)
    requires ps != [] && AllPass(ps)
    ensures Pieces(Joined(ps), 0, "") == ps
  {
    JoinedPieces(ps, "", ps[0]);
    assert [ps[0]] + ps[1..] == ps;
  }

  lemma EntriesGather(ps: seq<string>, fields: seq<Field>)
    requires |ps| == |fields|
    requires forall i :: 0 <= i < |ps| ==> Strip(ps[i]) != "" && ParseEntry(Strip(ps[i])) == Ok(fields[i])
    ensures |Entries(ps)| == |ps|
    ensures Gather(ReadAll(Entries(ps))) == if Distinct(fields) then Ok(fields) else Raise(Duplicated)
  {
    StrippedEntries(ps);
    GatherWritten(ReadAll(Entries(ps)), fields);
  }

  predicate Distinct(fields: seq<Field>) {
    forall i, j :: 0 <= i < j < |fields| ==> fields[i] != fields[j]
  }

  lemma {:induction false} GatherWritten(read: seq<Outcome<Field, Bad>>, fields: seq<Field>)
    requires |read| == |fields| && forall i :: 0 <= i < |fields| ==> read[i] == Ok(fields[i])
    ensures Gather(read) == if Distinct(fields) then Ok(fields) else Raise(Duplicated)
  {
    if read != [] {
      var n := |read| - 1;
      GatherWritten(read[..n], fields[..n]);
      assert fields == fields[..n] + [fields[n]];
      if fields[n] in fields[..n] {
        var i :| 0 <= i < n && fields[..n][i] == fields[n];
      }
    }
  }

  /** A blank piece, as a trailing comma leaves it, is no entry. */
  lemma {:induction false} BlankIsNoEntry(a: seq<string>, w: string, b: seq<string>)
    requires Blank(w)
    ensures Entries(a + [w] + b) == Entries(a + b)
  {
    if b == [] {
      assert a + [w] + b == a + [w] && a + b == a && (a + [w])[..|a|] == a;
      TrimLeftBlank(w, "");
      assert w + "" == w;
    } else {
      var n := |b| - 1;
      assert (a + [w] + b)[..|a| + 1 + n] == a + [w] + b[..n] && (a + b)[..|a| + n] == a + b[..n];
      BlankIsNoEntry(a, w, b[..n]);
    }
  }
}
