/** The completeness check: which required columns are absent from the frame
    or hold a null. */
module Columns {
  import opened Bars

  /** The eight columns every bar frame must carry, in the order they are checked. */
  const Required: seq<string> :=
    ["time", "open", "high", "low", "close", "tick_volume", "spread", "real_volume"]

  /** No name occurs twice in `names`. */
  predicate Distinct(names: seq<string>) {
    forall i, j :: 0 <= i < j < |names| ==> names[i] != names[j]
  }

  lemma RequiredDistinct()
    ensures Distinct(Required)
  {
  }

  /** `xs` is obtained from `ys` by deleting elements: its names come from
      `ys`, in `ys`'s order. */
  predicate IsSubsequence(xs: seq<string>, ys: seq<string>)
    decreases |ys|
  {
    if xs == [] then true
    else if ys == [] then false
    else if xs[0] == ys[0] then IsSubsequence(xs[1..], ys[1..])
    else IsSubsequence(xs, ys[1..])
  }

  /** The names of `cols` that are not among the frame's columns, in order. */
  function Absent(cols: seq<string>, present: set<string>): (r: seq<string>)
    ensures IsSubsequence(r, cols)
    ensures forall c :: c in r <==> c in cols && c !in present
    ensures r == [] <==> forall c :: c in cols ==> c in present
    ensures Distinct(cols) ==> Distinct(r)
  {
    if cols == [] then []
    else if cols[0] !in present then [cols[0]] + Absent(cols[1..], present)
    else Absent(cols[1..], present)
  }

  /** The columns of `cols` that are present and hold a null: the intended
      reading of the null scan, which skips absent columns. */
  function Nulled(cols: seq<string>, present: set<string>, withNulls: set<string>): (r: seq<string>)
    ensures IsSubsequence(r, cols)
    ensures forall c :: c in r <==> c in cols && c in present && c in withNulls
    ensures r == [] <==> forall c :: c in cols ==> c !in present || c !in withNulls
    ensures Distinct(cols) ==> Distinct(r)
  {
    if cols == [] then []
    else if cols[0] in present && cols[0] in withNulls then [cols[0]] + Nulled(cols[1..], present, withNulls)
    else Nulled(cols[1..], present, withNulls)
  }

  /** The two lists have no name in common, so together they are no longer
      than `cols`, and for a duplicate-free `cols` their concatenation names
      each column once. */
  lemma {:induction false} AbsentNulledFit(cols: seq<string>, present: set<string>, withNulls: set<string>)
    ensures forall c :: c in Absent(cols, present) ==> c !in Nulled(cols, present, withNulls)
    ensures |Absent(cols, present)| + |Nulled(cols, present, withNulls)| <= |cols|
    ensures Distinct(cols) ==> Distinct(Absent(cols, present) + Nulled(cols, present, withNulls))
  {
    if cols != [] {
      AbsentNulledFit(cols[1..], present, withNulls);
    }
    if Distinct(cols) {
      DistinctConcat(Absent(cols, present), Nulled(cols, present, withNulls));
    }
  }

  /** Two duplicate-free lists with no name in common concatenate to one. */
  lemma DistinctConcat(a: seq<string>, b: seq<string>)
    requires Distinct(a) && Distinct(b)
    requires forall c :: c in a ==> c !in b
    ensures Distinct(a + b)
  {
    forall i, j | 0 <= i < j < |a + b| ensures (a + b)[i] != (a + b)[j] {
      if i < |a| && |a| <= j {
        assert (a + b)[i] in a && (a + b)[j] in b;
      }
    }
  }

  /** The missing list of the completeness check: first the required columns
      absent from the frame, then the present ones holding a null, each part
      in the order of `Required`. */
  function MissingFields(df: Frame): (missing: seq<string>)
    ensures |missing| <= |Required|
    ensures forall c :: c in missing <==> c in Required && (c !in df.columns || c in df.nullColumns)
    ensures missing == [] <==> forall c :: c in Required ==> c in df.columns && c !in df.nullColumns
    ensures Distinct(missing)
  {
    AbsentNulledFit(Required, df.columns, df.nullColumns);
    RequiredDistinct();
    Absent(Required, df.columns) + Nulled(Required, df.columns, df.nullColumns)
  }

  /** A duplicate-free list has as many elements as the set of its names. */
  lemma {:induction false} DistinctCard(xs: seq<string>)
    requires Distinct(xs)
    ensures |set c | c in xs| == |xs|
  {
    if xs != [] {
      DistinctCard(xs[1..]);
      assert (set c | c in xs) == {xs[0]} + (set c | c in xs[1..]);
      assert xs[0] !in xs[1..];
    }
  }

  /** The length of the missing list, by which the completeness check feeds
      its counter, is the number of required columns that are absent or hold
      a null. */
  lemma MissingCount(df: Frame)
    ensures |MissingFields(df)|
      == |set c | c in Required && (c !in df.columns || c in df.nullColumns)|
  {
    var missing := MissingFields(df);
    DistinctCard(missing);
    assert (set c | c in missing) == set c | c in Required && (c !in df.columns || c in df.nullColumns);
  }

  /** A frame that has every required column, with or without nulls. */
  predicate HasRequired(df: Frame) {
    forall c :: c in Required ==> c in df.columns
  }

  /** A frame whose required columns are all present and free of nulls. */
  predicate Clean(df: Frame) {
    forall c :: c in Required ==> c in df.columns && c !in df.nullColumns
  }

  /** Dropping one required column from a clean frame makes exactly that column missing. */
  lemma DropOneColumn(df: Frame, col: string)
    requires Clean(df) && col in Required
    ensures MissingFields(Frame(df.bars, df.columns - {col}, df.nullColumns)) == [col]
  {
    var present := df.columns - {col};
    RequiredDistinct();
    AbsentOnlyOne(Required, present, col);
  }

  /** When `col` is the only name of a duplicate-free list missing from
      `present`, filtering for absent names leaves just `[col]`. */
  lemma {:induction false} AbsentOnlyOne(cols: seq<string>, present: set<string>, col: string)
    requires Distinct(cols) && col in cols && col !in present
    requires forall c :: c in cols && c != col ==> c in present
    ensures Absent(cols, present) == [col]
  {
    if cols[0] == col {
      assert forall c :: c in cols[1..] ==> c in present;
    } else {
      assert col in cols[1..];
      AbsentOnlyOne(cols[1..], present, col);
    }
  }

  // ---------------------------------------------------- the code as written

  /** What looking up a column can end in: the value, or `KeyError(column)`. */
  datatype Lookup<T> = Found(value: T) | KeyError(column: string)

  /** The null scan as written: it indexes every listed column, so an absent
      column raises `KeyError` for the first such column. */
  function NullScanAsWritten(cols: seq<string>, df: Frame): (r: Lookup<seq<string>>)
    ensures r.KeyError? <==> exists c :: c in cols && c !in df.columns
    ensures r.KeyError? ==> r.column in cols && r.column !in df.columns
  {
    if cols == [] then Found([])
    else if cols[0] !in df.columns then KeyError(cols[0])
    else match NullScanAsWritten(cols[1..], df)
         case KeyError(c) => KeyError(c)
         case Found(rest) => Found(if cols[0] in df.nullColumns then [cols[0]] + rest else rest)
  }

  /** The first name of `cols` that is not among `present`, if any: where a
      run of lookups by name, made in list order, raises `KeyError`. */
  function FirstAbsent(cols: seq<string>, present: set<string>): (r: Option<string>)
    ensures r.None? <==> forall c :: c in cols ==> c in present
    ensures r.Some? ==> r.value in cols && r.value !in present
    ensures r.Some? ==> exists i :: 0 <= i < |cols| && cols[i] == r.value && forall j :: 0 <= j < i ==> cols[j] in present
  {
    if cols == [] then None
    else if cols[0] !in present then Some(cols[0])
    else FirstAbsent(cols[1..], present)
  }

  /** The name FirstAbsent gives is the first absent one: every name listed
      before it is present. */
  lemma {:induction false} FirstAbsentIsFirst(cols: seq<string>, present: set<string>, i: nat)
    requires i < |cols| && cols[i] !in present
    requires forall j :: 0 <= j < i ==> cols[j] in present
    ensures FirstAbsent(cols, present) == Some(cols[i])
  {
    if i > 0 {
      FirstAbsentIsFirst(cols[1..], present, i - 1);
    }
  }

  /** The null scan raises for exactly the column FirstAbsent names. */
  lemma {:induction false} NullScanRaisesAtFirstAbsentName(cols: seq<string>, df: Frame)
    ensures NullScanAsWritten(cols, df).KeyError? ==>
      FirstAbsent(cols, df.columns) == Some(NullScanAsWritten(cols, df).column)
  {
    if cols != [] && cols[0] in df.columns {
      NullScanRaisesAtFirstAbsentName(cols[1..], df);
    }
  }

  /** The `missing` list of the completeness check as the code computes it. */
  function MissingAsWritten(df: Frame): (r: Lookup<seq<string>>)
    ensures r.KeyError? <==> !HasRequired(df)
    ensures r.KeyError? ==> r.column in Required && r.column !in df.columns
  {
    match NullScanAsWritten(Required, df)
    case KeyError(c) => KeyError(c)
    case Found(nulls) => Found(Absent(Required, df.columns) + nulls)
  }

  /** Where the code does not raise, it computes exactly MissingFields, and
      its first list is then empty. */
  lemma AsWrittenAgreesWhenPresent(df: Frame)
    requires HasRequired(df)
    ensures MissingAsWritten(df) == Found(MissingFields(df))
    ensures Absent(Required, df.columns) == []
  {
    NullScanMatchesNulled(Required, df);
  }

  lemma {:induction false} NullScanMatchesNulled(cols: seq<string>, df: Frame)
    requires forall c :: c in cols ==> c in df.columns
    ensures NullScanAsWritten(cols, df) == Found(Nulled(cols, df.columns, df.nullColumns))
  {
    if cols != [] {
      NullScanMatchesNulled(cols[1..], df);
    }
  }

  /** The scan raises for the first absent column of `cols`, in list order. */
  lemma {:induction false} NullScanRaisesAtFirstAbsent(cols: seq<string>, df: Frame, i: nat)
    requires i < |cols| && cols[i] !in df.columns
    requires forall j :: 0 <= j < i ==> cols[j] in df.columns
    ensures NullScanAsWritten(cols, df) == KeyError(cols[i])
  {
    if i > 0 {
      NullScanRaisesAtFirstAbsent(cols[1..], df, i - 1);
    }
  }

  /** A frame without a `spread` column, otherwise clean: the code raises
      `KeyError('spread')` where the intended result lists `spread` as missing. */
  lemma MissingColumnRaises(df: Frame)
    requires Clean(df)
    ensures MissingAsWritten(Frame(df.bars, df.columns - {"spread"}, df.nullColumns)) == KeyError("spread")
    ensures MissingFields(Frame(df.bars, df.columns - {"spread"}, df.nullColumns)) == ["spread"]
  {
    var dropped := Frame(df.bars, df.columns - {"spread"}, df.nullColumns);
    DropOneColumn(df, "spread");
    assert "spread" in Required;
  }
}
