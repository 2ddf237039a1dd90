/**
 Integers a VARIANT column cannot hold, and their rewriting to strings before the cast.

 The JSON library is a pair of functions about which only two facts are used: an integer of a parsed
 document stands in the text in decimal, and a rewritten document reads back as itself.
 */
module VariantSource {
  import opened Wrappers
  import opened FlushKey
  import opened Names

  /** `Number` is a JSON number that is not read as an integer. The items of a list have empty keys. */
  datatype Json = Null | Bool(b: bool) | Int(n: int) | Number(r: real) | Text(s: string)
                | List(items: Items) | Object(items: Items)
  datatype Items = End | Item(key: string, value: Json, rest: Items)

  const INT64_MAX := 0x7FFF_FFFF_FFFF_FFFF
  const UINT64_MAX := 0xFFFF_FFFF_FFFF_FFFF

  predicate Unshreddable(n: int) { INT64_MAX < n <= UINT64_MAX }

  // ------------------------------------------------------------------------------------------
  // The rewriting
  // ------------------------------------------------------------------------------------------

  /** The rewritten document, and whether anything in it changed. */
  function Walk(node: Json): (Json, bool) {
    match node
    case Int(n) => if Unshreddable(n) then (Text(Decimal(n)), true) else (node, false)
    case List(items) => var (fixed, changed) := WalkItems(items); (List(fixed), changed)
    case Object(items) => var (fixed, changed) := WalkItems(items); (Object(fixed), changed)
    case _ => (node, false)
  }

  function WalkItems(items: Items): (Items, bool) {
    match items
    case End => (End, false)
    case Item(key, value, rest) =>
      var (v, changed) := Walk(value);
      var (r, more) := WalkItems(rest);
      (Item(key, v, r), changed || more)
  }

  /** The document holds this integer somewhere. */
  predicate Holds(node: Json, n: int) {
    match node
    case Int(m) => m == n
    case List(items) => HoldsItem(items, n)
    case Object(items) => HoldsItem(items, n)
    case _ => false
  }

  predicate HoldsItem(items: Items, n: int) {
    items.Item? && (Holds(items.value, n) || HoldsItem(items.rest, n))
  }

  ghost predicate Shreddable(node: Json) {
    forall n :: Unshreddable(n) ==> !Holds(node, n)
  }

  lemma {:induction false} WalkHolds(node: Json, n: int)
    ensures Holds(Walk(node).0, n) <==> Holds(node, n) && !Unshreddable(n)
  {
    match node
    case List(items) => WalkItemsHold(items, n);
    case Object(items) => WalkItemsHold(items, n);
    case _ =>
  }

  lemma {:induction false} WalkItemsHold(items: Items, n: int)
    ensures HoldsItem(WalkItems(items).0, n) <==> HoldsItem(items, n) && !Unshreddable(n)
  {
    if items.Item? {
      WalkHolds(items.value, n);
      WalkItemsHold(items.rest, n);
    }
  }

  /** The flag says exactly whether there was something to rewrite, and without it the document is as it was. */
  lemma {:induction false} WalkChanges(node: Json)
    ensures Walk(node).1 <==> exists n :: Unshreddable(n) && Holds(node, n)
    ensures !Walk(node).1 ==> Walk(node).0 == node
  {
    match node
    case Int(n) =>
      if Unshreddable(n) { assert Holds(node, n); }
    case List(items) => WalkItemsChange(items); HoldsInItems(items, node);
    case Object(items) => WalkItemsChange(items); HoldsInItems(items, node);
    case _ =>
  }

  lemma HoldsInItems(items: Items, node: Json)
    requires node == List(items) || node == Object(items)
    ensures (exists n :: Unshreddable(n) && Holds(node, n)) <==> exists n :: Unshreddable(n) && HoldsItem(items, n)
  {
    if n :| Unshreddable(n) && HoldsItem(items, n) {
      assert Holds(node, n);
    }
  }

  lemma {:induction false} WalkItemsChange(items: Items)
    ensures WalkItems(items).1 <==> exists n :: Unshreddable(n) && HoldsItem(items, n)
    ensures !WalkItems(items).1 ==> WalkItems(items).0 == items
  {
    if items.Item? {
      WalkChanges(items.value);
      WalkItemsChange(items.rest);
      if n :| Unshreddable(n) && (Holds(items.value, n) || HoldsItem(items.rest, n)) {
        assert HoldsItem(items, n);
      }
    }
  }

  /** What stands at a path: a scalar, or a container with its keys. */
  datatype Spot = Scalar(v: Json) | Keys(isObject: bool, keys: seq<string>) | Nowhere

  function KeysOf(items: Items): seq<string> {
    match items
    case End => []
    case Item(key, _, rest) => [key] + KeysOf(rest)
  }

  function At(node: Json, path: seq<nat>): Spot
    decreases node, 0
  {
    match node
    case List(items) => if path == [] then Keys(false, KeysOf(items)) else ItemAt(items, path[0], path[1..])
    case Object(items) => if path == [] then Keys(true, KeysOf(items)) else ItemAt(items, path[0], path[1..])
    case _ => if path == [] then Scalar(node) else Nowhere
  }

  function ItemAt(items: Items, i: nat, path: seq<nat>): Spot
    decreases items, 1
  {
    match items
    case End => Nowhere
    case Item(_, value, rest) => if i == 0 then At(value, path) else ItemAt(rest, i - 1, path)
  }

  function Rewritten(spot: Spot): Spot {
    if spot.Scalar? && spot.v.Int? && Unshreddable(spot.v.n) then Scalar(Text(Decimal(spot.v.n))) else spot
  }

  /** Place by place: an unshreddable integer became its decimal text, everything else is where and what it was. */
  lemma {:induction false} WalkAt(node: Json, path: seq<nat>)
    ensures At(Walk(node).0, path) == Rewritten(At(node, path))
    decreases node, 0
  {
    match node
    case List(items) => if path == [] { WalkKeys(items); } else { WalkItemAt(items, path[0], path[1..]); }
    case Object(items) => if path == [] { WalkKeys(items); } else { WalkItemAt(items, path[0], path[1..]); }
    case _ =>
  }

  lemma {:induction false} WalkItemAt(items: Items, i: nat, path: seq<nat>)
    ensures ItemAt(WalkItems(items).0, i, path) == Rewritten(ItemAt(items, i, path))
    decreases items, 1
  {
    if items.Item? {
      if i == 0 { WalkAt(items.value, path); } else { WalkItemAt(items.rest, i - 1, path); }
    }
  }

  lemma {:induction false} WalkKeys(items: Items)
    ensures KeysOf(WalkItems(items).0) == KeysOf(items)
  {
    if items.Item? { WalkKeys(items.rest); }
  }

  // ------------------------------------------------------------------------------------------
  // The prefilter
  // ------------------------------------------------------------------------------------------

  predicate DigitsAt(s: string, from: nat, count: nat) {
    from + count <= |s| && forall i :: from <= i < from + count ==> IsDigit(s[i])
  }

  /** The regex `9[0-9]{18}|1[0-9]{19}`, anywhere in the text. */
  predicate MatchesAt(s: string, i: nat) {
    && i < |s|
    && ((s[i] == '9' && DigitsAt(s, i + 1, 18)) || (s[i] == '1' && DigitsAt(s, i + 1, 19)))
  }

  predicate Flagged(s: string) {
    exists i | 0 <= i < |s| :: MatchesAt(s, i)
  }

  ghost predicate Occurs(x: string, s: string) {
    exists i :: OccursAt(x, s, i)
  }

  predicate OccursAt(x: string, s: string, i: int) {
    0 <= i && i + |x| <= |s| && s[i..i + |x|] == x
  }

  function Power(k: nat): (p: nat)
    ensures p > 0
  {
    if k == 0 then 1 else 10 * Power(k - 1)
  }

  lemma TenthBounds(n: nat, d: nat, q: nat)
    requires d * (10 * q) <= n < (d + 1) * (10 * q) && q > 0 && d >= 1
    ensures d * q <= n / 10 < (d + 1) * q && n >= 10
  {
    assert d * (10 * q) == 10 * (d * q) && (d + 1) * (10 * q) == 10 * ((d + 1) * q);
    assert d * q >= q;
  }

  /** The length and leading digit of a decimal text. */
  lemma {:induction false} LeadingDigit(n: nat, d: nat, k: nat)
    requires 1 <= d <= 9 && d * Power(k) <= n < (d + 1) * Power(k)
    ensures |Decimal(n)| == k + 1 && Decimal(n)[0] == Digit(d)
    decreases k
  {
    if k > 0 {
      TenthBounds(n, d, Power(k - 1));
      LeadingDigit(n / 10, d, k - 1);
    }
  }

  lemma Powers()
    ensures Power(18) == 1_000_000_000_000_000_000 && Power(19) == 10_000_000_000_000_000_000
  {
    assert Power(6) == 1_000_000;
    assert Power(12) == 1_000_000_000_000;
  }

  lemma DecimalDigits(n: nat)
    ensures DigitsAt(Decimal(n), 0, |Decimal(n)|)
  {
    forall i | 0 <= i < |Decimal(n)| ensures IsDigit(Decimal(n)[i]) {
      assert Decimal(n)[i] in Decimal(n);
    }
  }

  /** Nineteen digits from a nine, or twenty from a one. */
  lemma WindowDigits(n: nat)
    requires Unshreddable(n)
    ensures var x := Decimal(n); (|x| == 19 && x[0] == '9') || (|x| == 20 && x[0] == '1')
  {
    Powers();
    if n < 10_000_000_000_000_000_000 {
      LeadingDigit(n, 9, 18);
    } else {
      LeadingDigit(n, 1, 19);
    }
  }

  /** The decimal text of every integer in the window trips the prefilter, in whatever text it stands. */
  lemma WindowIsFlagged(n: nat, s: string)
    requires Unshreddable(n) && Occurs(Decimal(n), s)
    ensures Flagged(s)
  {
    var x := Decimal(n);
    WindowDigits(n);
    DecimalDigits(n);
    var i :| OccursAt(x, s, i);
    forall j | i <= j < i + |x| ensures s[j] == x[j - i] {
      assert s[i..i + |x|][j - i] == s[j];
    }
    assert MatchesAt(s, i);
  }

  /** What the prefilter was shaped to let pass: nineteen digits that do not start with a nine. */
  lemma TimestampsPass(n: nat)
    requires 1_000_000_000_000_000_000 <= n < 9_000_000_000_000_000_000
    ensures !Flagged(Decimal(n))
  {
    Powers();
    LeadingDigit(n, n / Power(18), 18);
  }

  // ------------------------------------------------------------------------------------------
  // One value
  // ------------------------------------------------------------------------------------------

  type Loads = string -> Option<Json>
  type Dumps = Json -> string

  /** What is assumed of the JSON library. */
  ghost predicate Faithful(loads: Loads, dumps: Dumps) {
    && (forall raw, n: nat :: loads(raw).Some? && Holds(loads(raw).value, n) ==> Occurs(Decimal(n), raw))
    && (forall raw :: loads(raw).Some? ==> ReadsBack(loads, dumps, Walk(loads(raw).value).0))
  }

  predicate ReadsBack(loads: Loads, dumps: Dumps, doc: Json) {
    loads(dumps(doc)) == Some(doc)
  }

  function Coerce(loads: Loads, dumps: Dumps, raw: Option<string>): Option<string> {
    if raw.None? then None
    else
      match loads(raw.value)
      case None => raw
      case Some(doc) => if Walk(doc).1 then Some(dumps(Walk(doc).0)) else raw
  }

  /** The cast of this text meets no unshreddable integer. */
  ghost predicate Safe(loads: Loads, value: Option<string>) {
    value.Some? && loads(value.value).Some? ==> Shreddable(loads(value.value).value)
  }

  lemma CoerceIsSafe(loads: Loads, dumps: Dumps, raw: Option<string>)
    requires Faithful(loads, dumps)
    ensures Safe(loads, Coerce(loads, dumps, raw))
    ensures Safe(loads, raw) <==> Coerce(loads, dumps, raw) == raw
  {
    if raw.Some? && loads(raw.value).Some? {
      var doc := loads(raw.value).value;
      WalkChanges(doc);
      assert ReadsBack(loads, dumps, Walk(doc).0);
      forall n ensures Unshreddable(n) ==> !Holds(Walk(doc).0, n) {
        WalkHolds(doc, n);
      }
      if Walk(doc).1 {
        var n :| Unshreddable(n) && Holds(doc, n);
        assert !Safe(loads, raw);
      }
    }
  }

  /** The place holds the decimal text of an integer above INT64 and up to UINT64, and any other place what it
      held. */
  predicate PlaceBecomes(before: Spot, after: Spot) {
    if before.Scalar? && before.v.Int? && 9_223_372_036_854_775_807 < before.v.n <= 18_446_744_073_709_551_615
    then after == Scalar(Text(Decimal(before.v.n)))
    else after == before
  }

  ghost predicate DocumentBecomes(before: Json, after: Json) {
    forall path :: PlaceBecomes(At(before, path), At(after, path))
  }

  /** What a text is rewritten to: null and text that is no document stay, and a document becomes one that can be
      read and differs in nothing but such integers. */
  ghost predicate TextBecomes(loads: Loads, before: Option<string>, after: Option<string>) {
    if before.None? || loads(before.value).None? then after == before
    else
      && after.Some? && loads(after.value).Some?
      && DocumentBecomes(loads(before.value).value, loads(after.value).value)
  }

  lemma CoerceBecomes(loads: Loads, dumps: Dumps, raw: Option<string>)
    requires Faithful(loads, dumps)
    ensures TextBecomes(loads, raw, Coerce(loads, dumps, raw))
  {
    if raw.Some? && loads(raw.value).Some? {
      var doc := loads(raw.value).value;
      WalkChanges(doc);
      assert ReadsBack(loads, dumps, Walk(doc).0);
      forall path ensures PlaceBecomes(At(doc, path), At(Walk(doc).0, path)) {
        WalkAt(doc, path);
      }
    }
  }

  // ------------------------------------------------------------------------------------------
  // A batch
  // ------------------------------------------------------------------------------------------

  /** A column of text, or of another type, of which only its identity matters. */
  datatype Column = Strings(values: seq<Option<string>>) | Other(content: nat)
  type Table = seq<(string, Column)>

  const PREFIX := "__millpond_variant_src_"

  predicate SameName(a: string, b: string) { Lower(a) == Lower(b) }

  /** The last column of this name, whatever its case: the one `by_lower` keeps. */
  function LastNamed<T>(columns: seq<(string, T)>, name: string): (i: Option<nat>)
    ensures i.Some? ==> i.value < |columns| && SameName(columns[i.value].0, name)
    ensures i.Some? ==> forall j :: i.value < j < |columns| ==> !SameName(columns[j].0, name)
    ensures i.None? ==> forall j :: 0 <= j < |columns| ==> !SameName(columns[j].0, name)
  {
    if columns == [] then None
    else if SameName(columns[|columns| - 1].0, name) then Some(|columns| - 1)
    else LastNamed(columns[..|columns| - 1], name)
  }

  /** The first column of this name, whatever its case: the one a query reads. */
  function FirstNamed<T>(columns: seq<(string, T)>, name: string): (i: Option<nat>)
    ensures i.Some? ==> i.value < |columns| && SameName(columns[i.value].0, name)
    ensures i.Some? ==> forall j :: 0 <= j < i.value ==> !SameName(columns[j].0, name)
    ensures i.None? ==> forall j :: 0 <= j < |columns| ==> !SameName(columns[j].0, name)
  {
    if columns == [] then None
    else if SameName(columns[0].0, name) then Some(0)
    else match FirstNamed(columns[1..], name) case None => None case Some(i) => Some(i + 1)
  }

  predicate NeedsFix(loads: Loads, dumps: Dumps, c: Column) {
    && c.Strings?
    && (exists r | 0 <= r < |c.values| :: c.values[r].Some? && Flagged(c.values[r].value))
    && (exists r | 0 <= r < |c.values| :: Coerce(loads, dumps, c.values[r]) != c.values[r])
  }

  function Fixed(loads: Loads, dumps: Dumps, values: seq<Option<string>>): (fixed: seq<Option<string>>)
    ensures |fixed| == |values| && forall r :: 0 <= r < |values| ==> fixed[r] == Coerce(loads, dumps, values[r])
  {
    seq(|values|, r requires 0 <= r < |values| => Coerce(loads, dumps, values[r]))
  }

  ghost predicate AllSafe(loads: Loads, c: Column) {
    c.Strings? ==> forall r :: 0 <= r < |c.values| ==> Safe(loads, c.values[r])
  }

  /** A column that needs no fix holds no unshreddable integer: the prefilter misses none. */
  lemma UnfixedIsSafe(loads: Loads, dumps: Dumps, c: Column)
    requires Faithful(loads, dumps) && !NeedsFix(loads, dumps, c)
    ensures AllSafe(loads, c)
  {
    if c.Strings? {
      forall r | 0 <= r < |c.values| ensures Safe(loads, c.values[r]) {
        var v := c.values[r];
        CoerceIsSafe(loads, dumps, v);
        if !Safe(loads, v) {
          var n :| Unshreddable(n) && Holds(loads(v.value).value, n);
          WindowIsFlagged(n, v.value);
        }
      }
    }
  }

  /** A column needs a fix exactly if it holds an unshreddable integer. */
  lemma NeedsFixExactly(loads: Loads, dumps: Dumps, c: Column)
    requires Faithful(loads, dumps)
    ensures NeedsFix(loads, dumps, c) <==> !AllSafe(loads, c)
  {
    if NeedsFix(loads, dumps, c) {
      var r :| 0 <= r < |c.values| && Coerce(loads, dumps, c.values[r]) != c.values[r];
      CoerceIsSafe(loads, dumps, c.values[r]);
    } else {
      UnfixedIsSafe(loads, dumps, c);
    }
  }

  predicate Fixes(loads: Loads, dumps: Dumps, batch: Table, source: string) {
    LastNamed(batch, source).Some? && NeedsFix(loads, dumps, batch[LastNamed(batch, source).value].1)
  }

  /** The hidden column of a source: the last column of its name, every value coerced. */
  function Hidden(loads: Loads, dumps: Dumps, batch: Table, source: string): (string, Column)
    requires Fixes(loads, dumps, batch, source)
  {
    (PREFIX + source, Strings(Fixed(loads, dumps, batch[LastNamed(batch, source).value].1.values)))
  }

  /** A hidden column of this source: named after it, with every text of the last column of the source's name as it is
      to be cast. */
  ghost predicate Hides(loads: Loads, batch: Table, source: string, column: (string, Column)) {
    var last := LastNamed(batch, source);
    && column.0 == PREFIX + source && column.1.Strings? && last.Some? && batch[last.value].1.Strings?
    && var before, after := batch[last.value].1.values, column.1.values;
       |after| == |before| && forall r :: 0 <= r < |before| ==> TextBecomes(loads, before[r], after[r])
  }

  lemma HiddenHides(loads: Loads, dumps: Dumps, batch: Table, source: string)
    requires Faithful(loads, dumps) && Fixes(loads, dumps, batch, source)
    ensures Hides(loads, batch, source, Hidden(loads, dumps, batch, source))
  {
    var before := batch[LastNamed(batch, source).value].1.values;
    forall r | 0 <= r < |before| ensures TextBecomes(loads, before[r], Coerce(loads, dumps, before[r])) {
      CoerceBecomes(loads, dumps, before[r]);
    }
  }

  /** Every name in the map is that of a hidden column of its source. */
  ghost predicate AllHidden(loads: Loads, batch: Table, hidden: Table, src: map<string, string>) {
    forall s :: s in src ==> src[s] == PREFIX + s && exists c :: c in hidden && Hides(loads, batch, s, c)
  }

  lemma SourcesHidden(loads: Loads, dumps: Dumps, batch: Table, sources: seq<string>)
    requires Faithful(loads, dumps)
    ensures AllHidden(loads, batch, HiddenColumns(loads, dumps, batch, sources),
                      HiddenNames(loads, dumps, batch, sources))
  {
    var src, hidden := HiddenNames(loads, dumps, batch, sources), HiddenColumns(loads, dumps, batch, sources);
    forall s | s in src ensures exists c :: c in hidden && Hides(loads, batch, s, c) {
      var c := Hidden(loads, dumps, batch, s);
      HiddenHides(loads, dumps, batch, s);
      assert HiddenOf(loads, dumps, batch, sources, c);
      HiddenColumnsAre(loads, dumps, batch, sources, c);
    }
  }

  /** The hidden columns of the sources that need one, in the order of the sources. */
  function HiddenColumns(loads: Loads, dumps: Dumps, batch: Table, sources: seq<string>): Table {
    if sources == [] then []
    else
      var source := sources[|sources| - 1];
      HiddenColumns(loads, dumps, batch, sources[..|sources| - 1])
      + if Fixes(loads, dumps, batch, source) then [Hidden(loads, dumps, batch, source)] else []
  }

  /** Where their casts are to read. */
  function HiddenNames(loads: Loads, dumps: Dumps, batch: Table, sources: seq<string>): map<string, string> {
    map s | s in sources && Fixes(loads, dumps, batch, s) :: PREFIX + s
  }

  ghost predicate HiddenOf(loads: Loads, dumps: Dumps, batch: Table, sources: seq<string>, column: (string, Column)) {
    exists s :: s in sources && Fixes(loads, dumps, batch, s) && column == Hidden(loads, dumps, batch, s)
  }

  lemma {:induction false} HiddenColumnsAre(loads: Loads, dumps: Dumps, batch: Table, sources: seq<string>,
                                            column: (string, Column))
    ensures column in HiddenColumns(loads, dumps, batch, sources) <==> HiddenOf(loads, dumps, batch, sources, column)
  {
    if sources != [] {
      var n := |sources| - 1;
      HiddenColumnsAre(loads, dumps, batch, sources[..n], column);
      assert sources == sources[..n] + [sources[n]];
    }
  }

  method SanitizeVariantSources(loads: Loads, dumps: Dumps, batch: Table, sources: seq<string>)
    returns (out: Table, src: map<string, string>)
    ensures out == batch + HiddenColumns(loads, dumps, batch, sources)
    ensures src == HiddenNames(loads, dumps, batch, sources)
    ensures Faithful(loads, dumps) ==> AllHidden(loads, batch, out[|batch|..], src)
  {
    out, src := batch, map[];
    for k := 0 to |sources|
      invariant out == batch + HiddenColumns(loads, dumps, batch, sources[..k])
      invariant src == HiddenNames(loads, dumps, batch, sources[..k])
    {
      var source := sources[k];
      HiddenNext(loads, dumps, batch, sources, k);
      var at := LastNamed(batch, source);
      if at.Some? && NeedsFix(loads, dumps, batch[at.value].1) {
        var fixed := Fixed(loads, dumps, batch[at.value].1.values);
        var hidden := PREFIX + source;
        out, src := out + [(hidden, Strings(fixed))], src[source := hidden];
      }
    }
    assert sources[..|sources|] == sources;
    assert out[|batch|..] == HiddenColumns(loads, dumps, batch, sources);
    if Faithful(loads, dumps) {
      SourcesHidden(loads, dumps, batch, sources);
    }
  }

  lemma HiddenNext(loads: Loads, dumps: Dumps, batch: Table, sources: seq<string>, k: nat)
    requires k < |sources|
    ensures var source := sources[k];
      && HiddenColumns(loads, dumps, batch, sources[..k + 1]) == HiddenColumns(loads, dumps, batch, sources[..k])
         + (if Fixes(loads, dumps, batch, source) then [Hidden(loads, dumps, batch, source)] else [])
      && var before := HiddenNames(loads, dumps, batch, sources[..k]);
         HiddenNames(loads, dumps, batch, sources[..k + 1])
         == if Fixes(loads, dumps, batch, source) then before[source := PREFIX + source] else before
  {
    assert sources[..k + 1][..k] == sources[..k];
    assert sources[..k + 1] == sources[..k] + [sources[k]];
  }

  // ------------------------------------------------------------------------------------------
  // The projection
  // ------------------------------------------------------------------------------------------

  /** One item of the SELECT list: a column of the batch, or a source's cast of the column `from`. */
  datatype Part = Plain(name: string) | Companion(source: string, from: string)

  /** The source configured for a column of this name: the last one, as a dict keeps it. */
  function Active(sources: seq<string>, name: string): (s: Option<string>)
    ensures s.Some? ==> s.value in sources && SameName(s.value, name)
    ensures s.None? ==> forall t :: t in sources ==> !SameName(t, name)
  {
    if sources == [] then None
    else if SameName(sources[|sources| - 1], name) then Some(sources[|sources| - 1])
    else Active(sources[..|sources| - 1], name)
  }

  lemma {:induction false} ActiveFolds(sources: seq<string>, a: string, b: string)
    requires SameName(a, b)
    ensures Active(sources, a) == Active(sources, b)
  {
    if sources != [] { ActiveFolds(sources[..|sources| - 1], a, b); }
  }

  function Present(columns: seq<string>, hidden: set<string>): (present: seq<string>)
    ensures forall n :: n in present <==> n in columns && n !in hidden
  {
    if columns == [] then []
    else
      var last := columns[|columns| - 1];
      assert columns == columns[..|columns| - 1] + [last];
      Present(columns[..|columns| - 1], hidden) + (if last in hidden then [] else [last])
  }

  predicate AnyNamed(names: seq<string>, name: string) {
    exists n | n in names :: SameName(n, name)
  }

  /** Every column, and after the first column of a source its cast. */
  function Selected(present: seq<string>, sources: seq<string>, src: map<string, string>): seq<Part> {
    if present == [] then []
    else
      var before, name := present[..|present| - 1], present[|present| - 1];
      Selected(before, sources, src) + [Plain(name)] + CastAfter(before, name, sources, src)
  }

  /** The cast of the source of this column, unless a column of its name came before. */
  function CastAfter(before: seq<string>, name: string, sources: seq<string>, src: map<string, string>): (c: seq<Part>)
    ensures |c| <= 1 && forall p :: p in c ==> p.Companion?
  {
    match Active(sources, name)
    case Some(s) => if AnyNamed(before, name) then [] else [Companion(s, if s in src then src[s] else name)]
    case None => []
  }

  predicate AnyActive(present: seq<string>, sources: seq<string>) {
    exists n | n in present :: Active(sources, n).Some?
  }

  /** `None` is the star form. */
  function SelectList(columns: seq<string>, sources: seq<string>, src: map<string, string>): Option<seq<Part>> {
    var present := Present(columns, src.Values);
    if src == map[] && !AnyActive(present, sources) then None else Some(Selected(present, sources, src))
  }

  method BuildInsertSelect(columns: seq<string>, sources: seq<string>, src: map<string, string>)
    returns (parts: Option<seq<Part>>)
    ensures parts == SelectList(columns, sources, src)
  {
    var present := Present(columns, src.Values);
    if src == map[] && !AnyActive(present, sources) {
      return None;
    }
    var list: seq<Part> := [];
    var projected: set<string> := {};
    for k := 0 to |present|
      invariant list == Selected(present[..k], sources, src)
      invariant projected == Projected(present[..k], sources)
    {
      var name := present[k];
      SelectedNext(present, sources, src, k);
      list := list + [Plain(name)];
      var source := Active(sources, name);
      if source.Some? && source.value !in projected {
        var from := if source.value in src then src[source.value] else name;
        list := list + [Companion(source.value, from)];
        projected := projected + {source.value};
      }
    }
    assert present[..|present|] == present;
    parts := Some(list);
  }

  /** The sources that columns of these names are cast for. */
  function Projected(names: seq<string>, sources: seq<string>): set<string> {
    set n | n in names && Active(sources, n).Some? :: Active(sources, n).value
  }

  /** One more column. */
  lemma SelectedNext(present: seq<string>, sources: seq<string>, src: map<string, string>, k: nat)
    requires k < |present|
    ensures var name, before, after := present[k], present[..k], present[..k + 1];
      var source := Active(sources, name);
      if source.Some? && source.value !in Projected(before, sources)
      then && Projected(after, sources) == Projected(before, sources) + {source.value}
           && Selected(after, sources, src)
              == Selected(before, sources, src) + [Plain(name)]
                 + [Companion(source.value, if source.value in src then src[source.value] else name)]
      else && Projected(after, sources) == Projected(before, sources)
           && Selected(after, sources, src) == Selected(before, sources, src) + [Plain(name)]
  {
    var name, before, after := present[k], present[..k], present[..k + 1];
    assert after[..k] == before && after[k] == name;
    ProjectedNext(before, sources, name);
    assert after == before + [name];
    if Active(sources, name).Some? {
      ProjectedAre(before, sources, name);
    }
  }

  lemma ProjectedNext(before: seq<string>, sources: seq<string>, name: string)
    ensures Projected(before + [name], sources)
            == Projected(before, sources) + (if Active(sources, name).Some? then {Active(sources, name).value} else {})
  {
    assert forall n :: n in before + [name] <==> n in before || n == name;
  }

  /** A source has been projected exactly if a column of its name came before. */
  lemma ProjectedAre(before: seq<string>, sources: seq<string>, name: string)
    requires Active(sources, name).Some?
    ensures AnyNamed(before, name) <==> Active(sources, name).value in Projected(before, sources)
  {
    forall n | n in before && SameName(n, name) ensures Active(sources, n) == Active(sources, name) {
      ActiveFolds(sources, n, name);
    }
  }

  /** The columns a projection lists, in order. */
  function Listed(parts: seq<Part>): seq<string> {
    if parts == [] then []
    else
      var last := parts[|parts| - 1];
      Listed(parts[..|parts| - 1]) + (if last.Plain? then [last.name] else [])
  }

  lemma {:induction false} ListedBoth(a: seq<Part>, b: seq<Part>)
    ensures Listed(a + b) == Listed(a) + Listed(b)
  {
    if b == [] {
      assert a + b == a;
    } else {
      assert (a + b)[..|a + b| - 1] == a + b[..|b| - 1];
      ListedBoth(a, b[..|b| - 1]);
    }
  }

  /** Every present column is listed, once and in order. */
  lemma {:induction false} SelectedLists(present: seq<string>, sources: seq<string>, src: map<string, string>)
    ensures Listed(Selected(present, sources, src)) == present
  {
    if present != [] {
      var n := |present| - 1;
      var before, cast := Selected(present[..n], sources, src), CastAfter(present[..n], present[n], sources, src);
      SelectedLists(present[..n], sources, src);
      ListedNext(before, present[n], cast);
    }
  }

  lemma ListedNext(before: seq<Part>, name: string, cast: seq<Part>)
    requires |cast| <= 1 && forall p :: p in cast ==> p.Companion?
    ensures Listed(before + [Plain(name)] + cast) == Listed(before) + [name]
  {
    var parts := before + [Plain(name)];
    assert parts[..|before|] == before;
    if cast == [] {
      assert parts + cast == parts;
    } else {
      assert cast[0] in cast && (parts + cast)[..|parts|] == parts;
    }
  }

  /** And no source is cast twice. */
  lemma {:induction false} CastsDiffer(present: seq<string>, sources: seq<string>, src: map<string, string>, i: nat,
                                       j: nat)
    requires i < j < |Selected(present, sources, src)|
    requires Selected(present, sources, src)[i].Companion? && Selected(present, sources, src)[j].Companion?
    ensures Selected(present, sources, src)[i].source != Selected(present, sources, src)[j].source
  {
    var n := |present| - 1;
    var before, cast := Selected(present[..n], sources, src), CastAfter(present[..n], present[n], sources, src);
    if j < |before| {
      CastsDiffer(present[..n], sources, src, i, j);
    } else {
      assert cast != [] && Selected(present, sources, src)[j] == cast[0] && i < |before|;
      EarlierSource(present[..n], present[n], sources, src, before[i]);
    }
  }

  lemma EarlierSource(before: seq<string>, name: string, sources: seq<string>, src: map<string, string>, p: Part)
    requires p in Selected(before, sources, src) && p.Companion? && CastAfter(before, name, sources, src) != []
    ensures p.source != CastAfter(before, name, sources, src)[0].source
  {
    CompanionsAre(before, sources, src, p.source, p.from);
    var i :| CastAt(before, sources, src, p.source, p.from, i);
    assert before[i] in before;
  }

  lemma {:induction false} PresentBoth(a: seq<string>, b: seq<string>, hidden: set<string>)
    ensures Present(a + b, hidden) == Present(a, hidden) + Present(b, hidden)
  {
    if b == [] {
      assert a + b == a;
    } else {
      assert (a + b)[..|a + b| - 1] == a + b[..|b| - 1];
      PresentBoth(a, b[..|b| - 1], hidden);
    }
  }

  lemma {:induction false} PresentAll(columns: seq<string>, hidden: set<string>)
    ensures |Present(columns, hidden)| <= |columns|
    ensures Present(columns, hidden) == columns <==> forall n :: n in columns ==> n !in hidden
  {
    if columns != [] {
      PresentAll(columns[..|columns| - 1], hidden);
      assert columns == columns[..|columns| - 1] + [columns[|columns| - 1]];
    }
  }

  /** A source is cast exactly if it is the configured one of its name and a column of that name is present, and
      what is read is its hidden column, or else the first of that name. */
  lemma {:induction false} CompanionsAre(present: seq<string>, sources: seq<string>, src: map<string, string>,
                                         source: string, from: string)
    ensures Companion(source, from) in Selected(present, sources, src)
            <==> exists i :: CastAt(present, sources, src, source, from, i)
  {
    if present != [] {
      var n := |present| - 1;
      var before := present[..n];
      CompanionsAre(before, sources, src, source, from);
      EarlierCasts(present, sources, src, source, from);
      LastCast(present, sources, src, source, from);
    }
  }

  lemma EarlierCasts(present: seq<string>, sources: seq<string>, src: map<string, string>, source: string, from: string)
    requires present != []
    ensures var n := |present| - 1;
      forall i :: i != n ==>
        (CastAt(present[..n], sources, src, source, from, i) <==> CastAt(present, sources, src, source, from, i))
  {
  }

  lemma LastCast(present: seq<string>, sources: seq<string>, src: map<string, string>, source: string, from: string)
    requires present != []
    ensures var n := |present| - 1;
      Companion(source, from) in Selected(present, sources, src)
      <==> || Companion(source, from) in Selected(present[..n], sources, src)
           || CastAt(present, sources, src, source, from, n)
  {
    var n := |present| - 1;
    var before, name := present[..n], present[n];
    assert AnyNamed(before, name) <==> exists j :: 0 <= j < n && SameName(present[j], name);
    if SameName(source, name) {
      ActiveFolds(sources, source, name);
    }
  }

  predicate CastAt(present: seq<string>, sources: seq<string>, src: map<string, string>, source: string, from: string,
                   i: int)
  {
    && 0 <= i < |present| && SameName(present[i], source)
    && (forall j :: 0 <= j < i ==> !SameName(present[j], source))
    && Active(sources, source) == Some(source)
    && from == if source in src then src[source] else present[i]
  }
}
