/**
 Which column the cast of a VARIANT companion reads, and for which batches it may read it.

 A layout is what a batch looks like without its values. Two properties of a layout are decided exactly: that no
 batch of it makes a cast meet an unshreddable integer, and that every batch of it has its source column cast.
 */
module VariantCast {
  import opened Wrappers
  import opened Names
  import opened VariantSource

  /** Each column's name, and whether it holds text. */
  type Layout = seq<(string, bool)>

  /** A batch of this layout: as many columns with these names, and the text columns equally long. */
  ghost predicate Fits(batch: Table, layout: Layout) {
    && |batch| == |layout|
    && (forall i :: 0 <= i < |batch| ==> batch[i].0 == layout[i].0 && batch[i].1.Strings? == layout[i].1)
    && (forall i, j :: 0 <= i < |batch| && 0 <= j < |batch| && batch[i].1.Strings? && batch[j].1.Strings? ==>
          |batch[i].1.values| == |batch[j].1.values|)
  }

  function NamesOf(batch: Table): seq<string> {
    seq(|batch|, i requires 0 <= i < |batch| => batch[i].0)
  }

  /** The INSERT of this batch casts `column` for this source: what the projection built from the sanitized batch
      names, looked up in that batch. */
  ghost predicate Reads(loads: Loads, dumps: Dumps, batch: Table, sources: seq<string>, source: string,
                        column: Column)
  {
    exists from :: ReadsFrom(loads, dumps, batch, sources, source, column, from)
  }

  ghost predicate ReadsFrom(loads: Loads, dumps: Dumps, batch: Table, sources: seq<string>, source: string,
                            column: Column, from: string)
  {
    var out := batch + HiddenColumns(loads, dumps, batch, sources);
    var parts := SelectList(NamesOf(out), sources, HiddenNames(loads, dumps, batch, sources));
    && parts.Some? && Companion(source, from) in parts.value
    && FirstNamed(out, from).Some? && column == out[FirstNamed(out, from).value].1
  }

  /** The source column as it is to be cast: every value coerced. */
  function Coerced(loads: Loads, dumps: Dumps, column: Column): Column {
    if column.Strings? then Strings(Fixed(loads, dumps, column.values)) else column
  }

  /** No text can reach the cast that the scan has not seen: either one column has the source's name or the first
      of them is not text, and no text column takes the hidden column's name once there can be one. */
  predicate CastIsGuarded(layout: Layout, source: string) {
    var first, last := FirstNamed(layout, source), LastNamed(layout, source);
    var taken := FirstNamed(layout, PREFIX + source);
    first.Some? ==>
      && (first == last || !layout[first.value].1)
      && (layout[last.value].1 && taken.Some? ==> !layout[taken.value].1)
  }

  /** The columns of the source's name are one, or none that counts is text, and a text one leaves the hidden name
      free. */
  predicate CastIsItsOwn(layout: Layout, source: string) {
    var first, last := FirstNamed(layout, source), LastNamed(layout, source);
    var taken := FirstNamed(layout, PREFIX + source);
    first.Some? ==>
      if layout[last.value].1 then first == last && taken.None? else !layout[first.value].1
  }

  // ------------------------------------------------------------------------------------------
  // What is read
  // ------------------------------------------------------------------------------------------

  /** The first column of the source's name, unless the last one needs a fix: then the first of the hidden name. */
  function CastColumn(loads: Loads, dumps: Dumps, batch: Table, source: string): Option<Column> {
    match FirstNamed(batch, source)
    case None => None
    case Some(first) =>
      if !Fixes(loads, dumps, batch, source) then Some(batch[first].1)
      else match FirstNamed(batch, PREFIX + source)
           case Some(taken) => Some(batch[taken].1)
           case None => Some(Hidden(loads, dumps, batch, source).1)
  }

  lemma SamePrefixed(a: string, b: string)
    ensures SameName(PREFIX + a, PREFIX + b) <==> SameName(a, b)
  {
    var p := |PREFIX|;
    assert Lower(PREFIX + a) == Lower(PREFIX) + Lower(a);
    assert Lower(PREFIX + b) == Lower(PREFIX) + Lower(b);
    assert Lower(a) == Lower(PREFIX + a)[p..] && Lower(b) == Lower(PREFIX + b)[p..];
  }

  lemma FirstOfBatch<T>(batch: seq<(string, T)>, more: seq<(string, T)>, name: string)
    ensures FirstNamed(batch, name).Some? ==> FirstNamed(batch + more, name) == FirstNamed(batch, name)
    ensures FirstNamed(batch, name).None? && FirstNamed(batch + more, name).Some? ==>
              FirstNamed(batch + more, name).value >= |batch|
    ensures FirstNamed(batch, name).None? && FirstNamed(more, name).Some? ==> FirstNamed(batch + more, name).Some?
  {
    var all := batch + more;
    assert forall i :: 0 <= i < |batch| ==> all[i] == batch[i];
    assert forall i :: 0 <= i < |more| ==> all[|batch| + i] == more[i];
  }

  lemma FoldedLookup<T>(columns: seq<(string, T)>, a: string, b: string)
    requires SameName(a, b)
    ensures FirstNamed(columns, a) == FirstNamed(columns, b) && LastNamed(columns, a) == LastNamed(columns, b)
  {
  }

  /** A column that another source's spelling added under the same name has the same content. */
  lemma HiddenAlike(loads: Loads, dumps: Dumps, batch: Table, s: string, t: string)
    requires SameName(s, t) && Fixes(loads, dumps, batch, s)
    ensures Fixes(loads, dumps, batch, t) && Hidden(loads, dumps, batch, s).1 == Hidden(loads, dumps, batch, t).1
  {
    FoldedLookup(batch, s, t);
  }

  /** With the hidden name free, what is found under it is the source's hidden column. */
  lemma HiddenFound(loads: Loads, dumps: Dumps, batch: Table, sources: seq<string>, source: string)
    requires source in sources && Fixes(loads, dumps, batch, source) && FirstNamed(batch, PREFIX + source).None?
    ensures var out := batch + HiddenColumns(loads, dumps, batch, sources);
      && FirstNamed(out, PREFIX + source).Some?
      && out[FirstNamed(out, PREFIX + source).value].1 == Hidden(loads, dumps, batch, source).1
  {
    var more := HiddenColumns(loads, dumps, batch, sources);
    var own := Hidden(loads, dumps, batch, source);
    assert HiddenOf(loads, dumps, batch, sources, own);
    HiddenColumnsAre(loads, dumps, batch, sources, own);
    FirstOfBatch(batch, more, PREFIX + source);
    var k := FirstNamed(batch + more, PREFIX + source).value;
    var found := (batch + more)[k];
    assert found == more[k - |batch|];
    HiddenColumnsAre(loads, dumps, batch, sources, found);
    var s :| s in sources && Fixes(loads, dumps, batch, s) && found == Hidden(loads, dumps, batch, s);
    SamePrefixed(s, source);
    HiddenAlike(loads, dumps, batch, s, source);
  }

  /** The column a built projection looks up. */
  lemma FromFound(loads: Loads, dumps: Dumps, batch: Table, sources: seq<string>, source: string, from: string)
    requires source in sources && FirstNamed(batch, source).Some?
    requires if Fixes(loads, dumps, batch, source) then from == PREFIX + source else SameName(from, source)
    ensures var out := batch + HiddenColumns(loads, dumps, batch, sources);
      && FirstNamed(out, from).Some?
      && CastColumn(loads, dumps, batch, source) == Some(out[FirstNamed(out, from).value].1)
  {
    var more := HiddenColumns(loads, dumps, batch, sources);
    if !Fixes(loads, dumps, batch, source) {
      FoldedLookup(batch, from, source);
      FirstOfBatch(batch, more, from);
    } else if FirstNamed(batch, from).Some? {
      FirstOfBatch(batch, more, from);
    } else {
      HiddenFound(loads, dumps, batch, sources, source);
    }
  }

  lemma HiddenIsNamed(loads: Loads, dumps: Dumps, batch: Table, sources: seq<string>, k: nat)
    requires k < |HiddenColumns(loads, dumps, batch, sources)|
    ensures HiddenColumns(loads, dumps, batch, sources)[k].0 in HiddenNames(loads, dumps, batch, sources).Values
  {
    var src, column := HiddenNames(loads, dumps, batch, sources), HiddenColumns(loads, dumps, batch, sources)[k];
    HiddenColumnsAre(loads, dumps, batch, sources, column);
    var s :| s in sources && Fixes(loads, dumps, batch, s) && column == Hidden(loads, dumps, batch, s);
    assert src[s] == column.0;
  }

  /** The hidden columns are never in the list of columns, so one of the source's name is the batch's own. */
  lemma PresentIsOwn(loads: Loads, dumps: Dumps, batch: Table, sources: seq<string>, name: string)
    requires var out := batch + HiddenColumns(loads, dumps, batch, sources);
      name in Present(NamesOf(out), HiddenNames(loads, dumps, batch, sources).Values)
    ensures FirstNamed(batch, name).Some?
  {
    var more := HiddenColumns(loads, dumps, batch, sources);
    forall k | 0 <= k < |more| ensures more[k].0 != name {
      HiddenIsNamed(loads, dumps, batch, sources, k);
    }
    var names := NamesOf(batch + more);
    var i :| 0 <= i < |names| && names[i] == name;
    assert batch[i].0 == name;
  }

  /** Every column of the batch is selected, once and in order, exactly if none has the very name of a hidden one: a
      column that took such a name does not land. The star form selects whatever there is, and nothing is hidden. */
  lemma ColumnsLandExactly(loads: Loads, dumps: Dumps, batch: Table, sources: seq<string>)
    ensures var src := HiddenNames(loads, dumps, batch, sources);
      var out := batch + HiddenColumns(loads, dumps, batch, sources);
      var parts := SelectList(NamesOf(out), sources, src);
      && (parts.None? ==> out == batch)
      && (parts.Some? ==> (Listed(parts.value) == NamesOf(batch) <==> forall c :: c in batch ==> c.0 !in src.Values))
  {
    var src, more := HiddenNames(loads, dumps, batch, sources), HiddenColumns(loads, dumps, batch, sources);
    forall k | 0 <= k < |more| ensures more[k].0 in src.Values {
      HiddenIsNamed(loads, dumps, batch, sources, k);
    }
    if src == map[] && more != [] { HiddenIsNamed(loads, dumps, batch, sources, 0); }
    PresentOfBatch(batch, more, src.Values);
    SelectedLists(Present(NamesOf(batch + more), src.Values), sources, src);
  }

  lemma PresentOfBatch(batch: Table, more: Table, hidden: set<string>)
    requires forall k :: 0 <= k < |more| ==> more[k].0 in hidden
    ensures Present(NamesOf(batch + more), hidden) == NamesOf(batch) <==> forall c :: c in batch ==> c.0 !in hidden
  {
    assert NamesOf(batch + more) == NamesOf(batch) + NamesOf(more);
    PresentBoth(NamesOf(batch), NamesOf(more), hidden);
    NonePresent(NamesOf(more), hidden);
    PresentAll(NamesOf(batch), hidden);
    forall i | 0 <= i < |batch| ensures NamesOf(batch)[i] in NamesOf(batch) && batch[i] in batch {
    }
  }

  lemma {:induction false} NonePresent(columns: seq<string>, hidden: set<string>)
    requires forall n :: n in columns ==> n in hidden
    ensures Present(columns, hidden) == []
  {
    if columns != [] {
      assert columns == columns[..|columns| - 1] + [columns[|columns| - 1]];
      NonePresent(columns[..|columns| - 1], hidden);
    }
  }

  lemma ReadsAre(loads: Loads, dumps: Dumps, batch: Table, sources: seq<string>, source: string, column: Column)
    requires Reads(loads, dumps, batch, sources, source, column)
    ensures CastColumn(loads, dumps, batch, source) == Some(column)
  {
    var src := HiddenNames(loads, dumps, batch, sources);
    var out := batch + HiddenColumns(loads, dumps, batch, sources);
    var present := Present(NamesOf(out), src.Values);
    var from :| ReadsFrom(loads, dumps, batch, sources, source, column, from);
    CompanionsAre(present, sources, src, source, from);
    var i :| CastAt(present, sources, src, source, from, i);
    PresentIsOwn(loads, dumps, batch, sources, present[i]);
    FoldedLookup(batch, present[i], source);
    FromFound(loads, dumps, batch, sources, source, from);
  }

  /** A source is cast if a column of its name is in the list of columns. */
  lemma CastIsRead(loads: Loads, dumps: Dumps, batch: Table, sources: seq<string>, source: string)
    requires Active(sources, source) == Some(source) && FirstNamed(batch, source).Some?
    requires batch[FirstNamed(batch, source).value].0 !in HiddenNames(loads, dumps, batch, sources).Values
    ensures CastColumn(loads, dumps, batch, source).Some?
    ensures Reads(loads, dumps, batch, sources, source, CastColumn(loads, dumps, batch, source).value)
  {
    var src := HiddenNames(loads, dumps, batch, sources);
    var out := batch + HiddenColumns(loads, dumps, batch, sources);
    var names := NamesOf(out);
    var present := Present(names, src.Values);
    var name := batch[FirstNamed(batch, source).value].0;
    assert names[FirstNamed(batch, source).value] == name;
    ActiveFolds(sources, name, source);
    var i := FirstSpelled(present, source);
    var from := if source in src then src[source] else present[i];
    assert CastAt(present, sources, src, source, from, i);
    CompanionsAre(present, sources, src, source, from);
    FromFound(loads, dumps, batch, sources, source, from);
    assert ReadsFrom(loads, dumps, batch, sources, source, CastColumn(loads, dumps, batch, source).value, from);
  }

  lemma FirstSpelled(names: seq<string>, name: string) returns (i: nat)
    requires AnyNamed(names, name)
    ensures i < |names| && SameName(names[i], name) && forall j :: 0 <= j < i ==> !SameName(names[j], name)
  {
    i := 0;
    while !SameName(names[i], name)
      invariant i < |names| && forall j :: 0 <= j < i ==> !SameName(names[j], name)
      invariant exists j :: i <= j < |names| && SameName(names[j], name)
      decreases |names| - i
    {
      i := i + 1;
    }
  }

  // ------------------------------------------------------------------------------------------
  // Poisoned batches
  // ------------------------------------------------------------------------------------------

  /** One row: the poison in these columns, null in every other text column, and all other columns different. */
  function Poisoned(layout: Layout, at: set<nat>, poison: string): Table {
    seq(|layout|, i requires 0 <= i < |layout| =>
      (layout[i].0, if layout[i].1 then Strings([if i in at then Some(poison) else None]) else Other(i)))
  }

  lemma PoisonedFits(layout: Layout, at: set<nat>, poison: string)
    ensures Fits(Poisoned(layout, at, poison), layout)
  {
  }

  lemma SameLookup(batch: Table, layout: Layout, name: string)
    requires Fits(batch, layout)
    ensures FirstNamed(batch, name) == FirstNamed(layout, name) && LastNamed(batch, name) == LastNamed(layout, name)
  {
  }

  /** Exactly the sources whose last column is a poisoned text column need a fix. */
  lemma PoisonNeedsFix(loads: Loads, dumps: Dumps, layout: Layout, at: set<nat>, poison: string, source: string)
    requires Faithful(loads, dumps) && !Safe(loads, Some(poison))
    ensures var last := LastNamed(layout, source);
      Fixes(loads, dumps, Poisoned(layout, at, poison), source)
      <==> last.Some? && layout[last.value].1 && last.value in at
  {
    var batch := Poisoned(layout, at, poison);
    PoisonedFits(layout, at, poison);
    SameLookup(batch, layout, source);
    var last := LastNamed(layout, source);
    if last.Some? && layout[last.value].1 && last.value in at {
      PoisonIsFixed(loads, dumps, poison);
      assert batch[last.value].1 == Strings([Some(poison)]);
    }
  }

  lemma PoisonIsFixed(loads: Loads, dumps: Dumps, poison: string)
    requires Faithful(loads, dumps) && !Safe(loads, Some(poison))
    ensures NeedsFix(loads, dumps, Strings([Some(poison)])) && !AllSafe(loads, Strings([Some(poison)]))
  {
    var c := Strings([Some(poison)]);
    CoerceIsSafe(loads, dumps, Some(poison));
    var n :| Unshreddable(n) && Holds(loads(poison).value, n);
    WindowIsFlagged(n, poison);
    assert c.values[0] == Some(poison);
  }

  /** With only columns poisoned whose names are at least as long as the source's, no hidden name is the source's
      own, so the source is cast. */
  lemma PoisonIsRead(loads: Loads, dumps: Dumps, layout: Layout, sources: seq<string>, source: string, at: set<nat>,
                     poison: string)
    requires Faithful(loads, dumps) && !Safe(loads, Some(poison))
    requires Active(sources, source) == Some(source) && FirstNamed(layout, source).Some?
    requires forall i :: i in at ==> i < |layout| && |layout[i].0| >= |source|
    ensures var batch := Poisoned(layout, at, poison);
      && CastColumn(loads, dumps, batch, source).Some?
      && Reads(loads, dumps, batch, sources, source, CastColumn(loads, dumps, batch, source).value)
  {
    var batch := Poisoned(layout, at, poison);
    PoisonedFits(layout, at, poison);
    SameLookup(batch, layout, source);
    var src := HiddenNames(loads, dumps, batch, sources);
    forall s | s in src ensures |src[s]| > |source| {
      PoisonNeedsFix(loads, dumps, layout, at, poison, s);
      assert |s| == |layout[LastNamed(layout, s).value].0|;
    }
    CastIsRead(loads, dumps, batch, sources, source);
  }

  // ------------------------------------------------------------------------------------------
  // The exact conditions
  // ------------------------------------------------------------------------------------------

  ghost predicate ReadIn(loads: Loads, dumps: Dumps, layout: Layout, sources: seq<string>, source: string,
                         batch: Table, column: Column)
  {
    Fits(batch, layout) && Reads(loads, dumps, batch, sources, source, column)
  }

  /** In no batch of this layout the cast of this source meets an unshreddable integer. */
  ghost predicate AlwaysSafe(loads: Loads, dumps: Dumps, layout: Layout, sources: seq<string>, source: string) {
    forall batch, column :: ReadIn(loads, dumps, layout, sources, source, batch, column) ==> AllSafe(loads, column)
  }

  /** In every batch of this layout the cast of this source reads the first column of its name, value by value
      coerced. */
  ghost predicate AlwaysItsOwn(loads: Loads, dumps: Dumps, layout: Layout, sources: seq<string>, source: string) {
    forall batch, column :: ReadIn(loads, dumps, layout, sources, source, batch, column) ==>
      ReadsOwn(loads, dumps, batch, source, column)
  }

  predicate ReadsOwn(loads: Loads, dumps: Dumps, batch: Table, source: string, column: Column) {
    var first := FirstNamed(batch, source);
    first.Some? && column == Coerced(loads, dumps, batch[first.value].1)
  }

  lemma CoercedIsSafe(loads: Loads, dumps: Dumps, column: Column)
    requires Faithful(loads, dumps)
    ensures AllSafe(loads, Coerced(loads, dumps, column))
    ensures AllSafe(loads, column) ==> Coerced(loads, dumps, column) == column
  {
    if column.Strings? {
      forall r | 0 <= r < |column.values|
        ensures Safe(loads, Coerce(loads, dumps, column.values[r]))
        ensures Safe(loads, column.values[r]) ==> Coerce(loads, dumps, column.values[r]) == column.values[r]
      {
        CoerceIsSafe(loads, dumps, column.values[r]);
      }
      if AllSafe(loads, column) {
        assert Fixed(loads, dumps, column.values) == column.values;
      }
    }
  }

  lemma GuardedIsSafe(loads: Loads, dumps: Dumps, layout: Layout, sources: seq<string>, source: string, batch: Table,
                      column: Column)
    requires Faithful(loads, dumps) && CastIsGuarded(layout, source)
    requires ReadIn(loads, dumps, layout, sources, source, batch, column)
    ensures AllSafe(loads, column)
  {
    ReadsAre(loads, dumps, batch, sources, source, column);
    SameLookup(batch, layout, source);
    SameLookup(batch, layout, PREFIX + source);
    var last := batch[LastNamed(batch, source).value].1;
    CoercedIsSafe(loads, dumps, last);
    if !Fixes(loads, dumps, batch, source) {
      UnfixedIsSafe(loads, dumps, last);
    }
  }

  lemma OwnIsRead(loads: Loads, dumps: Dumps, layout: Layout, sources: seq<string>, source: string, batch: Table,
                  column: Column)
    requires Faithful(loads, dumps) && CastIsItsOwn(layout, source)
    requires ReadIn(loads, dumps, layout, sources, source, batch, column)
    ensures ReadsOwn(loads, dumps, batch, source, column)
  {
    ReadsAre(loads, dumps, batch, sources, source, column);
    SameLookup(batch, layout, source);
    SameLookup(batch, layout, PREFIX + source);
    if !Fixes(loads, dumps, batch, source) {
      var last := batch[LastNamed(batch, source).value].1;
      UnfixedIsSafe(loads, dumps, last);
      CoercedIsSafe(loads, dumps, last);
    }
  }

  /** The columns of a layout whose poisoning breaks a cast that is not guarded: the first, if the scan looks at
      another; or else the last together with the one that took the hidden name. */
  function Breaking(layout: Layout, source: string): set<nat> {
    var first, last := FirstNamed(layout, source), LastNamed(layout, source);
    var taken := FirstNamed(layout, PREFIX + source);
    if first.None? || last.None? then {}
    else if first != last && layout[first.value].1 then {first.value}
    else if taken.Some? then {last.value, taken.value}
    else {last.value}
  }

  /** A cast that is not guarded meets the poison in one batch of the layout with a single row. */
  lemma UnguardedBreaks(loads: Loads, dumps: Dumps, layout: Layout, sources: seq<string>, source: string,
                        poison: string)
    returns (column: Column)
    requires Faithful(loads, dumps) && !Safe(loads, Some(poison))
    requires Active(sources, source) == Some(source) && !CastIsGuarded(layout, source)
    ensures ReadIn(loads, dumps, layout, sources, source, Poisoned(layout, Breaking(layout, source), poison), column)
    ensures !AllSafe(loads, column)
  {
    var at := Breaking(layout, source);
    var batch := Poisoned(layout, at, poison);
    PoisonedFits(layout, at, poison);
    PoisonNeedsFix(loads, dumps, layout, at, poison, source);
    PoisonIsRead(loads, dumps, layout, sources, source, at, poison);
    PoisonIsFixed(loads, dumps, poison);
    SameLookup(batch, layout, source);
    SameLookup(batch, layout, PREFIX + source);
    column := CastColumn(loads, dumps, batch, source).value;
    assert column == Strings([Some(poison)]);
  }

  lemma StrayCastBreaks(loads: Loads, dumps: Dumps, layout: Layout, sources: seq<string>, source: string,
                        poison: string)
    returns (column: Column)
    requires Faithful(loads, dumps) && !Safe(loads, Some(poison))
    requires Active(sources, source) == Some(source) && !CastIsItsOwn(layout, source)
    ensures var batch := Poisoned(layout, Breaking(layout, source), poison);
      && ReadIn(loads, dumps, layout, sources, source, batch, column)
      && !ReadsOwn(loads, dumps, batch, source, column)
  {
    if !CastIsGuarded(layout, source) {
      column := UnguardedBreaks(loads, dumps, layout, sources, source, poison);
      var batch := Poisoned(layout, Breaking(layout, source), poison);
      if FirstNamed(batch, source).Some? {
        CoercedIsSafe(loads, dumps, batch[FirstNamed(batch, source).value].1);
      }
    } else {
      column := StrayKindBreaks(loads, dumps, layout, sources, source, poison);
    }
  }

  /** What is left: the scan fixes the last column, and the first or the one that took the hidden name is not text. */
  lemma StrayKindBreaks(loads: Loads, dumps: Dumps, layout: Layout, sources: seq<string>, source: string,
                        poison: string)
    returns (column: Column)
    requires Faithful(loads, dumps) && !Safe(loads, Some(poison)) && Active(sources, source) == Some(source)
    requires CastIsGuarded(layout, source) && !CastIsItsOwn(layout, source)
    ensures var batch := Poisoned(layout, Breaking(layout, source), poison);
      && ReadIn(loads, dumps, layout, sources, source, batch, column)
      && !ReadsOwn(loads, dumps, batch, source, column)
  {
    var at := Breaking(layout, source);
    var batch := Poisoned(layout, at, poison);
    PoisonedFits(layout, at, poison);
    PoisonNeedsFix(loads, dumps, layout, at, poison, source);
    PoisonIsRead(loads, dumps, layout, sources, source, at, poison);
    SameLookup(batch, layout, source);
    SameLookup(batch, layout, PREFIX + source);
    column := CastColumn(loads, dumps, batch, source).value;
    var first, taken := FirstNamed(layout, source).value, FirstNamed(layout, PREFIX + source);
    assert Fixes(loads, dumps, batch, source);
    assert taken.Some? ==> taken.value != first && column == Other(taken.value);
    assert taken.None? ==> column.Strings? && batch[first].1 == Other(first);
    assert layout[first].1 || Coerced(loads, dumps, batch[first].1) == Other(first);
  }

  /** For every layout and every configured source: its cast never meets an unshreddable integer exactly if it is
      guarded. */
  lemma SafeExactly(loads: Loads, dumps: Dumps, layout: Layout, sources: seq<string>, source: string, poison: string)
    requires Faithful(loads, dumps) && !Safe(loads, Some(poison)) && Active(sources, source) == Some(source)
    ensures AlwaysSafe(loads, dumps, layout, sources, source) <==> CastIsGuarded(layout, source)
  {
    if CastIsGuarded(layout, source) {
      forall batch, column | ReadIn(loads, dumps, layout, sources, source, batch, column)
        ensures AllSafe(loads, column)
      {
        GuardedIsSafe(loads, dumps, layout, sources, source, batch, column);
      }
    } else {
      var column := UnguardedBreaks(loads, dumps, layout, sources, source, poison);
    }
  }

  /** And it always casts its own column, coerced, exactly if that column is alone of its name and the hidden name
      is free, or there is nothing to coerce. */
  lemma OwnExactly(loads: Loads, dumps: Dumps, layout: Layout, sources: seq<string>, source: string, poison: string)
    requires Faithful(loads, dumps) && !Safe(loads, Some(poison)) && Active(sources, source) == Some(source)
    ensures AlwaysItsOwn(loads, dumps, layout, sources, source) <==> CastIsItsOwn(layout, source)
  {
    if CastIsItsOwn(layout, source) {
      forall batch, column | ReadIn(loads, dumps, layout, sources, source, batch, column)
        ensures ReadsOwn(loads, dumps, batch, source, column)
      {
        OwnIsRead(loads, dumps, layout, sources, source, batch, column);
      }
    } else {
      var column := StrayCastBreaks(loads, dumps, layout, sources, source, poison);
    }
  }
}
