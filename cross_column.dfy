/** CrossColumnMappingTransformer: an ordered sequence of (source column,
    value map) entries that progressively rewrites one adjust column. */
module CrossColumnMapping {
  import opened Table
  import opened Errors
  import opened OrderedMappings

  /** The `mappings` argument as the caller passes it: its entries in iteration
      order, and whether the container is an ordered dict. */
  datatype MappingsArg = MappingsArg(entries: seq<Entry>, ordered: bool)

  /** A constructed transformer. It is never changed after construction. */
  datatype Transformer = Transformer(mappings: seq<Entry>, adjustColumn: string)

  /** Construction: `adjust_column` must be a string, and more than one entry
      needs an ordered container; a single unordered entry is accepted. The
      argument is stored exactly as given. */
  function New(mappings: MappingsArg, adjustColumn: Value): (r: Result<Transformer, Error>)
    ensures r.Success? <==> adjustColumn.Str? && (|mappings.entries| <= 1 || mappings.ordered)
    ensures r.Success? ==> r.value.mappings == mappings.entries && r.value.adjustColumn == adjustColumn.s
    ensures !adjustColumn.Str? ==> r == Failure(AdjustColumnNotString)
    ensures adjustColumn.Str? && |mappings.entries| > 1 && !mappings.ordered
      ==> r == Failure(MappingsNotOrdered)
    ensures r.Failure? ==> r.error.Kind() == TypeError
  {
    if !adjustColumn.Str? then Failure(AdjustColumnNotString)
    else if |mappings.entries| > 1 && !mappings.ordered then Failure(MappingsNotOrdered)
    else Success(Transformer(mappings.entries, adjustColumn.s))
  }

  /** Nothing is learned from the data: `fit` hands back the transformer. */
  function Fit(t: Transformer, x: Table): (r: Transformer)
    ensures r == t
  {
    t
  }

  /** One pass of a value map over a column: row i takes `values[source[i]]`
      when `source[i]` is a key, and keeps `target[i]` otherwise. */
  function Substitute(source: Column, target: Column, values: map<Value, Value>): (r: Column)
    requires |source| == |target|
    ensures |r| == |target|
    ensures forall i :: 0 <= i < |r| && source[i] in values ==> r[i] == values[source[i]]
    ensures forall i :: 0 <= i < |r| && source[i] !in values ==> r[i] == target[i]
  {
    if source == [] then []
    else
      [if source[0] in values then values[source[0]] else target[0]]
      + Substitute(source[1..], target[1..], values)
  }

  /** Every source column of the entries is a column of the table. */
  ghost predicate SourcesIn(es: seq<Entry>, x: Table)
  {
    forall k :: 0 <= k < |es| ==> es[k].column in x.columns
  }

  /** Applies one entry to the table: its source column, as it stands now,
      selects the rows of the adjust column to overwrite. */
  function ApplyEntry(x: Table, adjust: string, e: Entry): (r: Table)
    requires x.Valid() && adjust in x.columns && e.column in x.columns
    ensures r.Valid() && r.rows == x.rows && r.columns.Keys == x.columns.Keys
    ensures forall c :: c in x.columns && c != adjust ==> r.columns[c] == x.columns[c]
  {
    x.Put(adjust, Substitute(x.columns[e.column], x.columns[adjust], e.values))
  }

  /** Applies the entries in order, each pass seeing the previous passes' writes. */
  function ApplyEntries(x: Table, adjust: string, es: seq<Entry>): (r: Table)
    requires x.Valid() && adjust in x.columns && SourcesIn(es, x)
    ensures r.Valid() && r.rows == x.rows && r.columns.Keys == x.columns.Keys
    ensures forall c :: c in x.columns && c != adjust ==> r.columns[c] == x.columns[c]
    decreases |es|
  {
    if es == [] then x
    else ApplyEntries(ApplyEntry(x, adjust, es[0]), adjust, es[1..])
  }

  /** Applying one more entry is one more pass over the result so far. */
  lemma {:induction false} ApplyEntriesSnoc(x: Table, adjust: string, es: seq<Entry>, e: Entry)
    requires x.Valid() && adjust in x.columns && SourcesIn(es + [e], x)
    ensures SourcesIn(es, x) && e.column in x.columns
    ensures ApplyEntries(x, adjust, es + [e]) == ApplyEntry(ApplyEntries(x, adjust, es), adjust, e)
    decreases |es|
  {
    assert (es + [e])[|es|] == e;
    assert forall k :: 0 <= k < |es| ==> (es + [e])[k] == es[k];
    if es == [] {
      assert [e][1..] == [];
    } else {
      assert (es + [e])[1..] == es[1..] + [e];
      ApplyEntriesSnoc(ApplyEntry(x, adjust, es[0]), adjust, es[1..], e);
    }
  }

  /** Row i exists in every source column. */
  ghost predicate RowIn(x: Table, es: seq<Entry>, i: nat)
  {
    forall k :: 0 <= k < |es| ==> es[k].column in x.columns && i < |x.columns[es[k].column]|
  }

  /** Reference definition of the outcome for row i: the value written by the
      LAST entry whose source value at row i is a key of its map, or None when
      no entry matches the row. */
  function LastMatch(x: Table, es: seq<Entry>, i: nat): (r: Option<Value>)
    requires RowIn(x, es, i)
    decreases |es|
  {
    if es == [] then None
    else
      var e := es[|es| - 1];
      var v := x.columns[e.column][i];
      if v in e.values then Some(e.values[v]) else LastMatch(x, es[..|es| - 1], i)
  }

  /** Last write wins. When no entry reads the adjust column, row i of the
      adjust column ends as the value of the last entry matching row i, and
      keeps its original value when no entry matches it. */
  lemma {:induction false} LastWriteWins(x: Table, adjust: string, es: seq<Entry>, i: nat)
    requires x.Valid() && adjust in x.columns && SourcesIn(es, x) && i < x.rows
    requires adjust !in Columns(es)
    ensures RowIn(x, es, i)
    ensures ApplyEntries(x, adjust, es).columns[adjust][i]
      == match LastMatch(x, es, i) case Some(v) => v case None => x.columns[adjust][i]
    decreases |es|
  {
    if es != [] {
      var init, e := es[..|es| - 1], es[|es| - 1];
      assert es == init + [e];
      ApplyEntriesSnoc(x, adjust, init, e);
      assert e.column != adjust by {
        assert Columns(es)[|es| - 1] == e.column;
      }
      assert adjust !in Columns(init) by {
        forall k | 0 <= k < |init| ensures Columns(init)[k] != adjust {
          assert Columns(init)[k] == init[k].column == es[k].column == Columns(es)[k];
        }
      }
      LastWriteWins(x, adjust, init, i);
      var y := ApplyEntries(x, adjust, init);
      assert y.columns[e.column] == x.columns[e.column];
      assert ApplyEntries(x, adjust, es).columns[adjust]
        == Substitute(x.columns[e.column], y.columns[adjust], e.values);
    }
  }

  /** No entry matches row i. */
  ghost predicate Unmatched(x: Table, es: seq<Entry>, i: nat)
    requires RowIn(x, es, i)
  {
    forall k :: 0 <= k < |es| ==> x.columns[es[k].column][i] !in es[k].values
  }

  lemma {:induction false} UnmatchedHasNoMatch(x: Table, es: seq<Entry>, i: nat)
    requires RowIn(x, es, i)
    ensures Unmatched(x, es, i) <==> LastMatch(x, es, i).None?
    decreases |es|
  {
    if es != [] {
      var init := es[..|es| - 1];
      assert forall k :: 0 <= k < |init| ==> init[k] == es[k];
      UnmatchedHasNoMatch(x, init, i);
    }
  }

  /** A row that no entry matches keeps its adjust value. */
  lemma {:induction false} UnmatchedRowKept(x: Table, adjust: string, es: seq<Entry>, i: nat)
    requires x.Valid() && adjust in x.columns && SourcesIn(es, x) && i < x.rows
    requires RowIn(x, es, i) && Unmatched(x, es, i)
    ensures ApplyEntries(x, adjust, es).columns[adjust][i] == x.columns[adjust][i]
    decreases |es|
  {
    if es != [] {
      var y, tl := ApplyEntry(x, adjust, es[0]), es[1..];
      assert forall c :: c in x.columns ==> y.columns[c][i] == x.columns[c][i];
      assert forall k :: 0 <= k < |tl| ==> tl[k] == es[k+1];
      assert SourcesIn(tl, y) && RowIn(y, tl, i);
      assert Unmatched(y, tl, i) by {
        forall k | 0 <= k < |tl|
          ensures y.columns[tl[k].column][i] !in tl[k].values
        {
          assert x.columns[es[k+1].column][i] !in es[k+1].values;
        }
      }
      UnmatchedRowKept(y, adjust, tl, i);
    }
  }

  /** Two entries: a row matched by the second takes the second's value, one
      matched by the first only keeps the first's value. */
  lemma LaterEntryOverrides(x: Table, adjust: string, e1: Entry, e2: Entry, i: nat)
    requires x.Valid() && adjust in x.columns && e1.column in x.columns && e2.column in x.columns
    requires i < x.rows && e2.column != adjust
    ensures x.columns[e2.column][i] in e2.values
      ==> ApplyEntries(x, adjust, [e1, e2]).columns[adjust][i] == e2.values[x.columns[e2.column][i]]
    ensures x.columns[e2.column][i] !in e2.values && x.columns[e1.column][i] in e1.values
      ==> ApplyEntries(x, adjust, [e1, e2]).columns[adjust][i] == e1.values[x.columns[e1.column][i]]
  {
    var y := ApplyEntry(x, adjust, e1);
    assert [e1, e2][1..] == [e2] && [e2][1..] == [];
    assert ApplyEntries(x, adjust, [e1, e2]) == ApplyEntries(y, adjust, [e2]);
    assert ApplyEntries(y, adjust, [e2]) == ApplyEntries(ApplyEntry(y, adjust, e2), adjust, []);
    assert y.columns[e2.column] == x.columns[e2.column];
  }

  /** A single entry rewrites each matched row from its own map (this holds
      even when the entry's source column is the adjust column). */
  lemma SingleEntry(x: Table, adjust: string, e: Entry, i: nat)
    requires x.Valid() && adjust in x.columns && e.column in x.columns && i < x.rows
    ensures x.columns[e.column][i] in e.values
      ==> ApplyEntries(x, adjust, [e]).columns[adjust][i] == e.values[x.columns[e.column][i]]
    ensures x.columns[e.column][i] !in e.values
      ==> ApplyEntries(x, adjust, [e]).columns[adjust][i] == x.columns[adjust][i]
  {
  }

  /** The position of the first entry, in entry order, whose source column the
      table lacks. */
  function FirstMissing(es: seq<Entry>, x: Table): (r: Option<nat>)
    ensures r.None? <==> SourcesIn(es, x)
    ensures r.Some? ==> (r.value < |es| && es[r.value].column !in x.columns && SourcesIn(es[..r.value], x))
  {
    if es == [] then None
    else if es[0].column !in x.columns then Some(0)
    else
      assert forall k :: 1 <= k < |es| ==> es[k] == es[1..][k - 1];
      match FirstMissing(es[1..], x)
      case None => None
      case Some(k) =>
        assert es[..k + 1] == [es[0]] + es[1..][..k];
        Some(k + 1)
  }

  /** The first missing source column is the one found by scanning the
      entries in order. */
  lemma FirstMissingIsFirst(es: seq<Entry>, x: Table, k: nat)
    requires k < |es| && es[k].column !in x.columns && SourcesIn(es[..k], x)
    ensures FirstMissing(es, x) == Some(k)
  {
  }

  /** What `transform` returns: the source columns are checked first, then
      the adjust column, and only then are the entries applied. */
  function TransformSpec(t: Transformer, x: Table): (r: Result<Table, Error>)
    requires x.Valid()
    ensures r.Success? <==> SourcesIn(t.mappings, x) && t.adjustColumn in x.columns
    ensures !SourcesIn(t.mappings, x) ==> (r.Failure? && r.error.ColumnNotInX?
      && r.error.column in Columns(t.mappings) && r.error.column !in x.columns)
    ensures SourcesIn(t.mappings, x) && t.adjustColumn !in x.columns
      ==> r == Failure(AdjustColumnNotInX(t.adjustColumn))
    ensures r.Failure? ==> r.error.Kind() == ValueError
    ensures r.Success? ==> (r.value.Valid() && r.value.rows == x.rows
      && r.value.columns.Keys == x.columns.Keys
      && forall c :: c in x.columns && c != t.adjustColumn ==> r.value.columns[c] == x.columns[c])
  {
    match FirstMissing(t.mappings, x)
    case Some(k) => Failure(ColumnNotInX(t.mappings[k].column))
    case None =>
      if t.adjustColumn !in x.columns then Failure(AdjustColumnNotInX(t.adjustColumn))
      else Success(ApplyEntries(x, t.adjustColumn, t.mappings))
  }

  /** Fitting does not change what transform does. */
  lemma FitKeepsTransform(t: Transformer, x: Table, y: Table)
    requires y.Valid()
    ensures TransformSpec(Fit(t, x), y) == TransformSpec(t, y)
  {
  }

  /** Applying an entry to `x` with its adjust column replaced by `c` replaces
      that column by one pass of the entry over `c`. */
  lemma ApplyEntryOnColumn(x: Table, adjust: string, e: Entry, c: Column)
    requires x.Valid() && adjust in x.columns && e.column in x.columns && |c| == x.rows
    ensures x.Put(adjust, c).Valid()
    ensures ApplyEntry(x.Put(adjust, c), adjust, e)
      == x.Put(adjust, Substitute(if e.column == adjust then c else x.columns[e.column], c, e.values))
  {
  }

  /** Scans the entries in order for a source column the table lacks. */
  method CheckSources(es: seq<Entry>, x: Table) returns (missing: Option<nat>)
    ensures missing == FirstMissing(es, x)
  {
    var k := 0;
    while k < |es|
      invariant k <= |es|
      invariant SourcesIn(es[..k], x)
    {
      if es[k].column !in x.columns {
        FirstMissingIsFirst(es, x, k);
        return Some(k);
      }
      assert es[..k + 1] == es[..k] + [es[k]];
      k := k + 1;
    }
    assert es[..|es|] == es;
    return None;
  }

  /** One pass of entry `e` over the adjust column held in `col`, row by row.
      When the entry's source column is the adjust column, the source is read
      from `col` itself. */
  method ApplyEntryInPlace(x: Table, adjust: string, e: Entry, col: array<Value>)
    requires e.column in x.columns && |x.columns[e.column]| == col.Length
    modifies col
    ensures col[..] == Substitute(if e.column == adjust then old(col[..]) else x.columns[e.column],
                                  old(col[..]), e.values)
  {
    ghost var before := col[..];
    ghost var source := if e.column == adjust then before else x.columns[e.column];
    var i := 0;
    while i < col.Length
      invariant 0 <= i <= col.Length
      invariant forall j :: 0 <= j < i ==>
        col[j] == if source[j] in e.values then e.values[source[j]] else before[j]
      invariant forall j :: i <= j < col.Length ==> col[j] == before[j]
    {
      var v := if e.column == adjust then col[i] else x.columns[e.column][i];
      if v in e.values {
        col[i] := e.values[v];
      }
      i := i + 1;
    }
    ghost var want := Substitute(source, before, e.values);
    assert forall j :: 0 <= j < col.Length ==> col[j] == want[j];
    assert col[..] == want;
  }

  /** Rewrites a copy of the adjust column in place, entry by entry, and
      returns it. */
  method RewriteAdjust(x: Table, adjust: string, es: seq<Entry>) returns (c: Column)
    requires x.Valid() && adjust in x.columns && SourcesIn(es, x)
    ensures |c| == x.rows && x.Put(adjust, c) == ApplyEntries(x, adjust, es)
  {
    var n := x.rows;
    var col := new Value[n](j requires 0 <= j < n => x.columns[adjust][j]);
    assert col[..] == x.columns[adjust];
    assert x.Put(adjust, col[..]) == x;
    var k := 0;
    while k < |es|
      invariant k <= |es| && col.Length == n
      invariant SourcesIn(es[..k], x)
      invariant ApplyEntries(x, adjust, es[..k]) == x.Put(adjust, col[..])
    {
      var e := es[k];
      assert es[..k + 1] == es[..k] + [e];
      ApplyEntriesSnoc(x, adjust, es[..k], e);
      ApplyEntryOnColumn(x, adjust, e, col[..]);
      ApplyEntryInPlace(x, adjust, e, col);
      k := k + 1;
    }
    assert es[..|es|] == es;
    c := col[..];
  }

  /** `transform`: checks the columns, then applies the entries. */
  method Transform(t: Transformer, x: Table) returns (r: Result<Table, Error>)
    requires x.Valid()
    ensures r == TransformSpec(t, x)
  {
    var missing := CheckSources(t.mappings, x);
    if missing.Some? {
      return Failure(ColumnNotInX(t.mappings[missing.value].column));
    }
    if t.adjustColumn !in x.columns {
      return Failure(AdjustColumnNotInX(t.adjustColumn));
    }
    var c := RewriteAdjust(x, t.adjustColumn, t.mappings);
    r := Success(x.Put(t.adjustColumn, c));
  }
}
