/** The expected outputs of the transformer's unit tests, replayed on the
    model. The fixture builders of the tests are not part of this model: only
    the input columns that the expected outputs pin down are fixed, and every
    other input column is a parameter. Rows are positional, so the index
    variations the tests run over do not arise. */
module Scenarios {
  import opened Table
  import opened Errors
  import opened OrderedMappings
  import opened CrossColumnMapping

  /** Column `a` of the first fixture table. */
  const A1: Column := [Int(1), Int(2), Int(3), Int(4), Int(5), Int(6)]

  /** The first fixture table: column `a` as above, column `b` arbitrary. */
  function Df1(b: Column): (x: Table)
  {
    Table(|b|, map["a" := A1, "b" := b])
  }

  /** `{"a": {1: "aa", ..., 6: "ff"}}`: every value of `a` is a key. */
  const FullMap: map<Value, Value> := map[
    Int(1) := Str("aa"), Int(2) := Str("bb"), Int(3) := Str("cc"),
    Int(4) := Str("dd"), Int(5) := Str("ee"), Int(6) := Str("ff")]

  /** `{"a": {1: "aa", 2: "bb", 3: "cc"}}`: values 4 to 6 are not keys. */
  const PartialMap: map<Value, Value> := map[
    Int(1) := Str("aa"), Int(2) := Str("bb"), Int(3) := Str("cc")]

  /** A single entry on `a`, passed as a plain (unordered) dict. */
  function SingleOn(values: map<Value, Value>): (m: MappingsArg)
  {
    MappingsArg([Entry("a", values)], false)
  }

  /** Constructing and transforming with one entry unfolds to one pass. */
  lemma OneEntryTransform(values: map<Value, Value>, b: Column)
    requires |b| == 6
    ensures New(SingleOn(values), Str("b")).Success?
    ensures TransformSpec(New(SingleOn(values), Str("b")).value, Df1(b))
      == Success(Df1(b).Put("b", Substitute(A1, b, values)))
  {
    var x, e := Df1(b), Entry("a", values);
    assert [e][1..] == [];
    assert ApplyEntries(x, "b", [e]) == ApplyEntry(x, "b", e);
  }

  /** `expected_df_1`: a mapping covering every value of `a` sets each row
      of `b` to the image of `a`, and `a` is unchanged. */
  lemma ExpectedOutput(b: Column)
    requires |b| == 6
    ensures New(SingleOn(FullMap), Str("b")).Success?
    ensures TransformSpec(New(SingleOn(FullMap), Str("b")).value, Df1(b))
      == Success(Table(6, map["a" := A1,
                     "b" := [Str("aa"), Str("bb"), Str("cc"), Str("dd"), Str("ee"), Str("ff")]]))
  {
    OneEntryTransform(FullMap, b);
    var s := Substitute(A1, b, FullMap);
    assert s == [Str("aa"), Str("bb"), Str("cc"), Str("dd"), Str("ee"), Str("ff")];
    assert Df1(b).Put("b", s).columns == map["a" := A1, "b" := s];
  }

  /** `expected_df_2`: rows whose `a` value is not a key keep their `b` value. */
  lemma NonSpecifiedValuesUnchanged(b: Column)
    requires |b| == 6 && b[3] == Str("d") && b[4] == Str("e") && b[5] == Str("f")
    ensures New(SingleOn(PartialMap), Str("b")).Success?
    ensures TransformSpec(New(SingleOn(PartialMap), Str("b")).value, Df1(b))
      == Success(Table(6, map["a" := A1,
                     "b" := [Str("aa"), Str("bb"), Str("cc"), Str("d"), Str("e"), Str("f")]]))
  {
    OneEntryTransform(PartialMap, b);
    var s := Substitute(A1, b, PartialMap);
    assert A1[3] !in PartialMap && A1[4] !in PartialMap && A1[5] !in PartialMap;
    assert s == [Str("aa"), Str("bb"), Str("cc"), Str("d"), Str("e"), Str("f")];
    assert Df1(b).Put("b", s).columns == map["a" := A1, "b" := s];
  }

  /** A missing adjust column fails with the value error naming it, and no
      table is returned. */
  lemma AdjustColumnNotInTable(b: Column)
    requires |b| == 6
    ensures New(SingleOn(FullMap), Str("c")).Success?
    ensures TransformSpec(New(SingleOn(FullMap), Str("c")).value, Df1(b))
      == Failure(AdjustColumnNotInX("c"))
    ensures AdjustColumnNotInX("c").Kind() == ValueError
    ensures AdjustColumnNotInX("c").Message() == ClassName + ": " + ("variable " + "c" + " is not in X")
  {
  }

  /** A non-string adjust column is refused at construction. */
  lemma AdjustColumnNonString()
    ensures New(MappingsArg([Entry("a", map[Str("a") := Int(1)])], false), Int(1))
      == Failure(AdjustColumnNotString)
    ensures AdjustColumnNotString.Kind() == TypeError
    ensures AdjustColumnNotString.Message() == ClassName + ": " + "adjust_column should be a string"
  {
  }

  /** Two entries in a plain dict are refused at construction. */
  lemma MappingsNotOrderedDict()
    ensures New(MappingsArg([Entry("a", map[Str("a") := Int(1)]),
                             Entry("b", map[Str("b") := Int(2)])], false), Str("c"))
      == Failure(MappingsNotOrdered)
    ensures MappingsNotOrdered.Kind() == TypeError
    ensures MappingsNotOrdered.Message() == ClassName + ": "
      + "mappings should be an ordered dict for 'replace' mappings using multiple columns"
  {
  }

  /** The seventh fixture table: columns `a` and `b` as the expected output
      fixes them, the adjust column `c` arbitrary. */
  function Df7(c: Column): (x: Table)
  {
    Table(|c|, map["a" := A7, "b" := B7, "c" := c])
  }

  const A7: Column := [Int(4), Int(2), Int(2), Int(1), Int(3)]
  const B7: Column := [Str("x"), Str("z"), Str("y"), Str("x"), Str("x")]

  const MapOnA: map<Value, Value> := map[Int(1) := Str("aa"), Int(2) := Str("bb")]
  const MapOnB: map<Value, Value> := map[Str("x") := Str("cc"), Str("z") := Str("dd")]

  /** `expected_df_3` */
  const Expected3: Table := Table(5, map[
    "a" := A7, "b" := B7,
    "c" := [Str("cc"), Str("dd"), Str("bb"), Str("cc"), Str("cc")]])

  /** The pass on `a`: rows 1 to 3 are matched, rows 0 and 4 are not. */
  lemma PassOnA(c: Column)
    requires |c| == 5
    ensures Substitute(A7, c, MapOnA) == [c[0], Str("bb"), Str("bb"), Str("aa"), c[4]]
  {
    var s := Substitute(A7, c, MapOnA);
    assert A7[0] !in MapOnA && A7[4] !in MapOnA;
    assert s[0] == c[0] && s[1] == Str("bb") && s[2] == Str("bb") && s[3] == Str("aa") && s[4] == c[4];
  }

  /** The pass on `b`: every row but row 2 is matched. */
  lemma PassOnB(c: Column)
    requires |c| == 5
    ensures Substitute(B7, c, MapOnB) == [Str("cc"), Str("dd"), c[2], Str("cc"), Str("cc")]
  {
    var s := Substitute(B7, c, MapOnB);
    assert B7[2] !in MapOnB;
    assert s[0] == Str("cc") && s[1] == Str("dd") && s[2] == c[2] && s[3] == Str("cc") && s[4] == Str("cc");
  }

  /** The ordered dict filled by `mapping["a"] = ...` then `mapping["b"] = ...`
      holds the two entries in that order. */
  lemma OrderedDictBuilt()
    ensures Assigned(Assigned([], "a", MapOnA), "b", MapOnB)
      == [Entry("a", MapOnA), Entry("b", MapOnB)]
  {
  }

  /** With both entries applied in order, row 1 (a = 2, b = "z") is matched by
      both and takes the later "dd"; row 2 (a = 2, b = "y") is matched only by
      the first and keeps "bb". Columns `a` and `b` are unchanged. */
  lemma MultipleMappingsInOrder(c: Column)
    requires |c| == 5
    ensures ApplyEntries(Df7(c), "c", [Entry("a", MapOnA), Entry("b", MapOnB)]) == Expected3
  {
    var x, e1, e2 := Df7(c), Entry("a", MapOnA), Entry("b", MapOnB);
    var afterA := [c[0], Str("bb"), Str("bb"), Str("aa"), c[4]];
    var afterB := [Str("cc"), Str("dd"), Str("bb"), Str("cc"), Str("cc")];
    var y := ApplyEntry(x, "c", e1);
    PassOnA(c);
    assert y.columns["c"] == afterA;
    var z := ApplyEntry(y, "c", e2);
    PassOnB(afterA);
    assert y.columns["b"] == B7;
    assert z.columns["c"] == afterB;
    assert [e1, e2][1..] == [e2] && [e2][1..] == [];
    assert ApplyEntries(y, "c", [e2]) == z;
    assert ApplyEntries(x, "c", [e1, e2]) == ApplyEntries(y, "c", [e2]);
    assert z.columns == x.columns["c" := afterB];
  }

  /** Order is load-bearing: with the entries swapped, row 1 ends as "bb". */
  lemma ReversedOrderDiffers(c: Column)
    requires |c| == 5
    ensures ApplyEntries(Df7(c), "c", [Entry("b", MapOnB), Entry("a", MapOnA)]).columns["c"][1] == Str("bb")
    ensures ApplyEntries(Df7(c), "c", [Entry("b", MapOnB), Entry("a", MapOnA)]) != Expected3
  {
    LaterEntryOverrides(Df7(c), "c", Entry("b", MapOnB), Entry("a", MapOnA), 1);
  }

  /** `test_multiple_mappings_ordered_dict`, step by step: fill an ordered dict,
      construct the transformer and transform the seventh fixture table. */
  method MultipleMappingsOrderedDict(c: Column) returns (r: Result<Table, Error>)
    requires |c| == 5
    ensures r == Success(Expected3)
  {
    var mapping := new OrderedDict();
    mapping.Set("a", MapOnA);
    mapping.Set("b", MapOnB);
    OrderedDictBuilt();
    var t := New(MappingsArg(mapping.entries, true), Str("c"));
    assert t.Success?;
    MultipleMappingsInOrder(c);
    r := Transform(t.value, Df7(c));
  }
}
