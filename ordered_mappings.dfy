/** The `mappings` argument: an ordered sequence of (source column, value map)
    entries, as a Python ordered dict holds them. */
module OrderedMappings {
  import opened Table
  import opened Errors

  /** One mapping entry: values of `column` that are keys of `values` select the
      rows to rewrite, and the key's image is the value written. */
  datatype Entry = Entry(column: string, values: map<Value, Value>)

  /** The source columns of the entries, in order. */
  function Columns(es: seq<Entry>): (cs: seq<string>)
    ensures |cs| == |es|
    ensures forall k :: 0 <= k < |es| ==> cs[k] == es[k].column
  {
    if es == [] then [] else [es[0].column] + Columns(es[1..])
  }

  /** No source column appears twice, as in any dict. */
  ghost predicate DistinctColumns(es: seq<Entry>)
  {
    forall j, k :: 0 <= j < k < |es| ==> es[j].column != es[k].column
  }

  /** The value map stored under `column`, if there is one. */
  function Lookup(es: seq<Entry>, column: string): (r: Option<map<Value, Value>>)
    ensures r.None? <==> column !in Columns(es)
    ensures r.Some? ==> exists k :: (0 <= k < |es| && es[k].column == column && r.value == es[k].values
      && forall j :: 0 <= j < k ==> es[j].column != column)
  {
    if es == [] then None
    else if es[0].column == column then Some(es[0].values)
    else Lookup(es[1..], column)
  }

  /** `d[column] = values` on an ordered dict: an existing key keeps its
      position and takes the new value; a new key goes to the end. */
  function Assigned(es: seq<Entry>, column: string, values: map<Value, Value>): (r: seq<Entry>)
  {
    if es == [] then [Entry(column, values)]
    else if es[0].column == column then [Entry(column, values)] + es[1..]
    else [es[0]] + Assigned(es[1..], column, values)
  }

  /** A new key is inserted last, so insertion order is application order. */
  lemma {:induction false} AssignedNewKeyAppends(es: seq<Entry>, column: string, values: map<Value, Value>)
    requires column !in Columns(es)
    ensures Assigned(es, column, values) == es + [Entry(column, values)]
  {
    if es != [] {
      assert Columns(es) == [es[0].column] + Columns(es[1..]);
      AssignedNewKeyAppends(es[1..], column, values);
      assert es == [es[0]] + es[1..];
    }
  }

  /** An existing key at position k is replaced in place; nothing else moves. */
  lemma {:induction false} AssignedExistingKeyReplaces(es: seq<Entry>, column: string, values: map<Value, Value>, k: nat)
    requires k < |es| && es[k].column == column
    requires forall j :: 0 <= j < k ==> es[j].column != column
    ensures Assigned(es, column, values) == es[k := Entry(column, values)]
  {
    var e := Entry(column, values);
    if k == 0 {
      assert [e] + es[1..] == es[0 := e];
    } else {
      var tail := es[1..];
      assert es[0].column != column;
      assert forall j :: 0 <= j < k - 1 ==> tail[j].column != column by {
        forall j | 0 <= j < k - 1 ensures tail[j].column != column {
          assert tail[j] == es[j + 1];
        }
      }
      AssignedExistingKeyReplaces(tail, column, values, k - 1);
      assert [es[0]] + tail[k - 1 := e] == es[k := e];
    }
  }

  /** After `d[column] = values`, `d[column]` is `values` and every other key is
      looked up as before. */
  lemma {:induction false} AssignedLookup(es: seq<Entry>, column: string, values: map<Value, Value>, other: string)
    ensures Lookup(Assigned(es, column, values), column) == Some(values)
    ensures other != column ==> Lookup(Assigned(es, column, values), other) == Lookup(es, other)
  {
    if es != [] && es[0].column != column {
      AssignedLookup(es[1..], column, values, other);
      var r := Assigned(es, column, values);
      assert r[0] == es[0] && r[1..] == Assigned(es[1..], column, values);
    }
  }

  /** Assignment keeps the key order: an existing key stays where it is, a
      new key is added last. */
  lemma {:induction false} AssignedColumns(es: seq<Entry>, column: string, values: map<Value, Value>)
    ensures Columns(Assigned(es, column, values))
      == if column in Columns(es) then Columns(es) else Columns(es) + [column]
  {
    if es != [] {
      var r := Assigned(es, column, values);
      assert Columns(es) == [es[0].column] + Columns(es[1..]);
      assert Columns(r) == [r[0].column] + Columns(r[1..]);
      if es[0].column != column {
        assert r[1..] == Assigned(es[1..], column, values);
        AssignedColumns(es[1..], column, values);
      } else {
        assert r[1..] == es[1..];
      }
    }
  }

  /** Assignment keeps the keys distinct. */
  lemma AssignedDistinct(es: seq<Entry>, column: string, values: map<Value, Value>)
    requires DistinctColumns(es)
    ensures DistinctColumns(Assigned(es, column, values))
  {
    var r := Assigned(es, column, values);
    AssignedColumns(es, column, values);
    var cs, rs := Columns(es), Columns(r);
    forall j, k | 0 <= j < k < |r| ensures r[j].column != r[k].column {
      assert rs[j] == r[j].column && rs[k] == r[k].column;
      if k == |es| {
        assert rs[j] == cs[j];
      } else {
        assert rs[j] == cs[j] && rs[k] == cs[k];
      }
    }
  }

  /** An OrderedDict that the caller fills by successive assignment. */
  class OrderedDict {
    var entries: seq<Entry>

    /** A dict holds each key once. */
    ghost predicate Valid()
      reads this
    {
      DistinctColumns(entries)
    }

    constructor ()
      ensures Valid() && entries == []
    {
      entries := [];
    }

    /** `self[column] = values`. */
    method Set(column: string, values: map<Value, Value>)
      requires Valid()
      modifies this
      ensures Valid()
      ensures entries == Assigned(old(entries), column, values)
    {
      AssignedDistinct(entries, column, values);
      var k := 0;
      while k < |entries| && entries[k].column != column
        invariant 0 <= k <= |entries|
        invariant forall j :: 0 <= j < k ==> entries[j].column != column
      {
        k := k + 1;
      }
      if k < |entries| {
        AssignedExistingKeyReplaces(entries, column, values, k);
        entries := entries[k := Entry(column, values)];
      } else {
        AssignedNewKeyAppends(entries, column, values);
        entries := entries + [Entry(column, values)];
      }
    }
  }
}
