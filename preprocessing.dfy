/**
 * The offline preprocessing pipeline: IQR outlier removal on one column,
 * the aggregate features over the repayment, bill and payment series, and
 * the stage order of the whole pipeline.  `log1p` and `sqrt` are taken as
 * parameters; nothing is assumed about them.
 */
module Preprocessing {
  import opened Frames
  import opened Stats

  // ---- selecting rows by position ----

  predicate Increasing(idx: seq<nat>) {
    forall a, b :: 0 <= a < b < |idx| ==> idx[a] < idx[b]
  }

  predicate Below(idx: seq<nat>, n: nat) {
    forall k :: 0 <= k < |idx| ==> idx[k] < n
  }

  /** The values of `xs` at the positions `idx`, in the order of `idx`. */
  function Pick<T>(xs: seq<T>, idx: seq<nat>): (ys: seq<T>)
    requires Below(idx, |xs|)
    ensures |ys| == |idx| && forall k :: 0 <= k < |idx| ==> ys[k] == xs[idx[k]]
  {
    seq(|idx|, k requires 0 <= k < |idx| => xs[idx[k]])
  }

  /**
   * `g` holds the rows of `f` at the increasing positions `idx`: the same
   * columns, each column's values at those positions, in their order.
   */
  ghost predicate SelectionOf(g: Frame, f: Frame, idx: seq<nat>) {
    && WellFormed(f) && Increasing(idx) && Below(idx, f.height)
    && g.columns == f.columns && g.height == |idx| && g.data.Keys == f.data.Keys
    && forall c :: c in f.data ==> g.data[c] == Pick(f.data[c], idx)
  }

  /** `df[mask]` for the mask that holds exactly at the positions `idx`. */
  function SelectRows(f: Frame, idx: seq<nat>): (g: Frame)
    requires WellFormed(f) && Increasing(idx) && Below(idx, f.height)
    ensures WellFormed(g) && SelectionOf(g, f, idx)
  {
    Frame(f.columns, map c | c in f.data :: Pick(f.data[c], idx), |idx|)
  }

  /** A selection of a selection is a selection of the original rows. */
  lemma SelectionCompose(h: Frame, g: Frame, f: Frame, a: seq<nat>, b: seq<nat>)
    requires SelectionOf(g, f, a) && WellFormed(g) && SelectionOf(h, g, b)
    ensures Below(b, |a|) && SelectionOf(h, f, Pick(a, b))
  {
    var ab := Pick(a, b);
    forall c | c in f.data
      ensures h.data[c] == Pick(f.data[c], ab)
    {
      assert h.data[c] == Pick(Pick(f.data[c], a), b);
    }
  }

  // ---- remove_outliers_iqr ----

  /** The closed interval a row's value must lie in to be kept. */
  datatype Fences = Fences(lower: real, upper: real)

  /** Q1 - 1.5 IQR and Q3 + 1.5 IQR of the values `xs`. */
  function IqrFences(xs: seq<real>): (fe: Fences)
    requires |xs| > 0
    ensures fe.upper - fe.lower == 4.0 * (Quantile(xs, 0.75) - Quantile(xs, 0.25))
    ensures fe.lower <= Quantile(xs, 0.25) <= Quantile(xs, 0.75) <= fe.upper
  {
    var q1 := Quantile(xs, 0.25);
    var q3 := Quantile(xs, 0.75);
    QuantileMonotone(xs, 0.25, 0.75);
    var iqr := q3 - q1;
    Fences(q1 - 1.5 * iqr, q3 + 1.5 * iqr)
  }

  /** `(x >= lower) & (x <= upper)` */
  predicate Within(x: real, fe: Fences) {
    x >= fe.lower && x <= fe.upper
  }

  /** The positions from `i` on where the mask `Within(xs[j], fe)` holds, in increasing order. */
  function MaskFrom(xs: seq<real>, fe: Fences, i: nat): (idx: seq<nat>)
    requires i <= |xs|
    ensures Increasing(idx) && Below(idx, |xs|)
    ensures forall k :: 0 <= k < |idx| ==> i <= idx[k]
    ensures forall j :: i <= j < |xs| ==> (j in idx <==> Within(xs[j], fe))
    decreases |xs| - i
  {
    if i == |xs| then []
    else
      var rest := MaskFrom(xs, fe, i + 1);
      if Within(xs[i], fe) then
        assert forall k :: 0 < k < |rest| + 1 ==> ([i] + rest)[k] == rest[k - 1];
        [i] + rest
      else
        rest
  }

  /** The positions where the mask holds. */
  function MaskPositions(xs: seq<real>, fe: Fences): (idx: seq<nat>)
    ensures Increasing(idx) && Below(idx, |xs|)
    ensures forall j :: 0 <= j < |xs| ==> (j in idx <==> Within(xs[j], fe))
  {
    MaskFrom(xs, fe, 0)
  }

  /**
   * `remove_outliers_iqr(df, column)`: the rows whose value in `column` lies
   * within the fences of that column's quartiles, in their original order.
   * An empty frame stays empty (pandas' quartiles are NaN there and every
   * comparison fails).
   */
  function RemoveOutliersIqr(f: Frame, col: string): (r: Result<Frame>)
    requires WellFormed(f)
    ensures r.Err? <==> col !in f.columns
    ensures r.Err? ==> r.error == KeyError(col)
    ensures r.Ok? ==> WellFormed(r.value) && r.value.columns == f.columns
    ensures r.Ok? && f.height == 0 ==> r.value == f
    ensures r.Ok? && f.height > 0 ==>
      var xs := Column(f, col); var fe := IqrFences(xs); var idx := MaskPositions(xs, fe);
      && SelectionOf(r.value, f, idx)
      && (forall j :: 0 <= j < f.height ==> (j in idx <==> Within(xs[j], fe)))
      && (forall k :: 0 <= k < r.value.height ==> Within(Column(r.value, col)[k], fe))
  {
    if col !in f.columns then Err(KeyError(col))
    else if f.height == 0 then Ok(f)
    else
      var xs := Column(f, col);
      var g := SelectRows(f, MaskPositions(xs, IqrFences(xs)));
      assert col in f.data;
      Ok(g)
  }

  /** `lower <= Q1` when both quartiles fall between the same two sorted values. */
  lemma LowerFenceInSameGap(a: real, b: real, t1: real, t3: real)
    requires a <= b && 0.0 <= t1 && 2.5 * t1 <= 1.5 * t3
    ensures Lerp(a, b, t1) - 1.5 * (Lerp(a, b, t3) - Lerp(a, b, t1)) <= a
  {
    assert Lerp(a, b, t1) - 1.5 * (Lerp(a, b, t3) - Lerp(a, b, t1)) - a
        == (2.5 * t1 - 1.5 * t3) * (b - a);
  }

  /**
   * The sorted value at the third quartile's position lies within the
   * fences.
   */
  lemma {:induction false} ThirdQuartileValueWithin(xs: seq<real>)
    requires |xs| > 0
    ensures var s := SortAsc(xs); var l3 := Position(0.75, |xs|).Floor;
      0 <= l3 < |s| && Within(s[l3], IqrFences(xs))
  {
    ThirdQuartileBelowUpper(xs);
    ThirdQuartileAboveLower(xs);
  }

  /** The sorted value at the third quartile's position is at most Q3, hence below the upper fence. */
  lemma ThirdQuartileBelowUpper(xs: seq<real>)
    requires |xs| > 0
    ensures var s := SortAsc(xs); var l3 := Position(0.75, |xs|).Floor;
      0 <= l3 < |s| && s[l3] <= IqrFences(xs).upper
  {
    var s := SortAsc(xs);
    var h3 := Position(0.75, |xs|);
    InterpolateBetween(s, h3);
    assert Interpolate(s, h3) == Quantile(xs, 0.75);
  }

  /**
   * The sorted value at the third quartile's position is at least the lower
   * fence: either Q1 is below a later sorted value, or both quartiles fall
   * in the same gap, where the fence is below its left end.
   */
  lemma {:induction false} ThirdQuartileAboveLower(xs: seq<real>)
    requires |xs| > 0
    ensures var s := SortAsc(xs); var l3 := Position(0.75, |xs|).Floor;
      0 <= l3 < |s| && IqrFences(xs).lower <= s[l3]
  {
    var n := |xs|;
    var s := SortAsc(xs);
    var h1, h3 := Position(0.25, n), Position(0.75, n);
    var l1, l3 := h1.Floor, h3.Floor;
    assert h3 - h1 == 0.5 * (n - 1) as real;
    InterpolateBetween(s, h1);
    InterpolateBetween(s, h3);
    var q1, q3 := Interpolate(s, h1), Interpolate(s, h3);
    assert q1 == Quantile(xs, 0.25) && q3 == Quantile(xs, 0.75);
    if l1 < l3 {
      assert q1 <= s[l1 + 1] <= s[l3];
    } else if l1 + 1 < n {
      LowerFenceInSameGap(s[l1], s[l1 + 1], h1 - l1 as real, h3 - l3 as real);
    }
  }

  /**
   * Outlier removal never empties a non-empty frame: some row holds the
   * sorted value at the third quartile's position, and that value lies
   * within the fences.
   */
  lemma RemoveOutliersKeepsARow(f: Frame, col: string)
    requires WellFormed(f) && col in f.columns && f.height > 0
    ensures RemoveOutliersIqr(f, col).value.height > 0
  {
    var xs := Column(f, col);
    ThirdQuartileValueWithin(xs);
    var s := SortAsc(xs);
    var v := s[Position(0.75, |xs|).Floor];
    assert v in multiset(xs);
    var i :| 0 <= i < |xs| && xs[i] == v;
    assert i in MaskPositions(xs, IqrFences(xs));
  }

  // ---- engineer_features ----

  const PayCols: seq<string> := ["PAY_0", "PAY_2", "PAY_3", "PAY_4", "PAY_5", "PAY_6"]
  const BillCols: seq<string> := ["BILL_AMT1", "BILL_AMT2", "BILL_AMT3", "BILL_AMT4", "BILL_AMT5", "BILL_AMT6"]
  const PayAmtCols: seq<string> := ["PAY_AMT1", "PAY_AMT2", "PAY_AMT3", "PAY_AMT4", "PAY_AMT5", "PAY_AMT6"]

  /** One block of `engineer_features`: its six source columns and the labels of the aggregates it adds. */
  datatype Aggregates = Aggregates(sources: seq<string>, avgLabel: string, stdLabel: string, maxLabel: Option<string>)

  const PayStatus := Aggregates(PayCols, "avg_pay_status", "std_pay_status", Some("max_pay_status"))
  const BillAmount := Aggregates(BillCols, "avg_bill_amt", "std_bill_amt", Some("max_bill_amt"))
  /** The payment-amount block adds no maximum. */
  const PayAmount := Aggregates(PayAmtCols, "avg_pay_amt", "std_pay_amt", None)

  /** The labels one block writes. */
  function BlockLabels(g: Aggregates): set<string> {
    {g.avgLabel, g.stdLabel} + (match g.maxLabel case None => {} case Some(m) => {m})
  }

  predicate HasAll(f: Frame, cols: seq<string>) {
    forall k :: 0 <= k < |cols| ==> cols[k] in f.columns
  }

  /** A frame with at least the labels of `f` holds whatever `f` holds. */
  lemma HasAllGrows(f: Frame, g: Frame, cols: seq<string>)
    requires HasAll(f, cols) && Labels(f.columns) <= Labels(g.columns)
    ensures HasAll(g, cols)
  {
    assert forall k :: 0 <= k < |cols| ==> cols[k] in Labels(f.columns);
  }

  /** The first of `cols` that the frame lacks, if any. */
  function MissingColumn(f: Frame, cols: seq<string>): (m: Option<string>)
    ensures m.None? <==> HasAll(f, cols)
    ensures m.Some? ==> m.value in cols && m.value !in f.columns
  {
    if cols == [] then None
    else if cols[0] !in f.columns then Some(cols[0])
    else
      var m := MissingColumn(f, cols[1..]);
      assert forall k :: 1 <= k < |cols| ==> cols[k] == cols[1..][k - 1];
      m
  }

  /** Row `i` of `df[cols]`: the row's values in `cols`, in that order. */
  function RowValues(f: Frame, cols: seq<string>, i: nat): (xs: seq<real>)
    requires WellFormed(f) && HasAll(f, cols) && i < f.height
    ensures |xs| == |cols| && forall k :: 0 <= k < |cols| ==> xs[k] == Column(f, cols[k])[i]
  {
    seq(|cols|, k requires 0 <= k < |cols| => Column(f, cols[k])[i])
  }

  /** How a block reduces one row's source values: `mean`, `std` or `max` along axis 1. */
  datatype Reduction = MeanOf | StdOf | MaxOfRow

  function Reduce(red: Reduction, xs: seq<real>, sqrt: real -> real): real
    requires |xs| >= 2
  {
    match red
    case MeanOf => Mean(xs)
    case StdOf => sqrt(SampleVariance(xs))
    case MaxOfRow => MaxOf(xs)
  }

  /** `df[cols].<reduction>(axis=1)`: each row's reduction of its values in `cols`. */
  function Series(f: Frame, cols: seq<string>, red: Reduction, sqrt: real -> real): (xs: seq<real>)
    requires WellFormed(f) && HasAll(f, cols) && |cols| >= 2
    ensures |xs| == f.height
    ensures forall i :: 0 <= i < f.height ==> xs[i] == Reduce(red, RowValues(f, cols, i), sqrt)
  {
    seq(f.height, i requires 0 <= i < f.height => Reduce(red, RowValues(f, cols, i), sqrt))
  }

  /** A row-wise reduction reads only its source columns. */
  lemma SameSeries(f: Frame, g: Frame, cols: seq<string>, red: Reduction, sqrt: real -> real)
    requires WellFormed(f) && HasAll(f, cols) && |cols| >= 2
    requires WellFormed(g) && HasAll(g, cols) && g.height == f.height
    requires forall k :: 0 <= k < |cols| ==> Column(g, cols[k]) == Column(f, cols[k])
    ensures Series(g, cols, red, sqrt) == Series(f, cols, red, sqrt)
  {
    forall i | 0 <= i < f.height
      ensures RowValues(g, cols, i) == RowValues(f, cols, i)
    {
    }
  }

  /**
   * One block's writes on a frame holding its sources: the row mean, the
   * row standard deviation and, for blocks that have one, the row maximum,
   * each computed from the frame as the previous writes left it.
   */
  function WithAggregates(f: Frame, g: Aggregates, sqrt: real -> real): (h: Frame)
    requires WellFormed(f) && HasAll(f, g.sources) && |g.sources| >= 2
    ensures WellFormed(h) && h.height == f.height && f.columns <= h.columns
    ensures Labels(h.columns) == Labels(f.columns) + BlockLabels(g)
    ensures forall c :: c in f.data && c !in BlockLabels(g) ==> h.data[c] == f.data[c]
  {
    var f1 := WithColumn(f, g.avgLabel, Series(f, g.sources, MeanOf, sqrt));
    ExtendsWithColumn(f, g.avgLabel, Series(f, g.sources, MeanOf, sqrt));
    HasAllGrows(f, f1, g.sources);
    var f2 := WithColumn(f1, g.stdLabel, Series(f1, g.sources, StdOf, sqrt));
    ExtendsWithColumn(f1, g.stdLabel, Series(f1, g.sources, StdOf, sqrt));
    ExtendsTrans(f, f1, f2, {g.avgLabel}, {g.stdLabel});
    HasAllGrows(f1, f2, g.sources);
    match g.maxLabel
    case None => f2
    case Some(m) =>
      var f3 := WithColumn(f2, m, Series(f2, g.sources, MaxOfRow, sqrt));
      ExtendsWithColumn(f2, m, Series(f2, g.sources, MaxOfRow, sqrt));
      ExtendsTrans(f, f2, f3, {g.avgLabel} + {g.stdLabel}, {m});
      f3
  }

  /** A block either raises KeyError before writing anything or performs all its writes. */
  function AggregateStep(f: Frame, g: Aggregates, sqrt: real -> real): (r: (Frame, Option<Error>))
    requires WellFormed(f) && |g.sources| >= 2
    ensures WellFormed(r.0)
    ensures r.1.None? <==> HasAll(f, g.sources)
    ensures r.1.Some? ==> r.0 == f && r.1.value.column in g.sources && r.1.value.column !in f.columns
    ensures r.1.None? ==> r.0 == WithAggregates(f, g, sqrt)
  {
    match MissingColumn(f, g.sources)
    case Some(c) => (f, Some(KeyError(c)))
    case None => (WithAggregates(f, g, sqrt), None)
  }

  /** Every block reduces at least two sources (the sample deviation needs two). */
  predicate Runnable(gs: seq<Aggregates>) {
    forall j :: 0 <= j < |gs| ==> |gs[j].sources| >= 2
  }

  /** Blocks run in order; the first KeyError stops the run, keeping the earlier blocks' columns. */
  function RunBlocks(f: Frame, gs: seq<Aggregates>, sqrt: real -> real): (r: (Frame, Option<Error>))
    requires WellFormed(f) && Runnable(gs)
    decreases |gs|
  {
    if gs == [] then (f, None)
    else
      var step := AggregateStep(f, gs[0], sqrt);
      if step.1.Some? then step else RunBlocks(step.0, gs[1..], sqrt)
  }

  /** The three blocks of `engineer_features`, in source order. */
  const Blocks: seq<Aggregates> := [PayStatus, BillAmount, PayAmount]

  /**
   * The frame after `engineer_features` and the error it raised, if any.
   * The frame is updated in place, so the blocks that ran before a KeyError
   * keep their columns.
   */
  function Engineered(f: Frame, sqrt: real -> real): (Frame, Option<Error>)
    requires WellFormed(f)
  {
    var pay := AggregateStep(f, PayStatus, sqrt);
    if pay.1.Some? then pay else EngineeredAfterPay(pay.0, sqrt)
  }

  /** The bill and payment-amount blocks, which run once the repayment-status block succeeded. */
  function EngineeredAfterPay(f: Frame, sqrt: real -> real): (Frame, Option<Error>)
    requires WellFormed(f)
  {
    var bill := AggregateStep(f, BillAmount, sqrt);
    if bill.1.Some? then bill else AggregateStep(bill.0, PayAmount, sqrt)
  }

  /** The straight-line blocks are the block list run in order. */
  lemma EngineeredIsRun(f: Frame, sqrt: real -> real)
    requires WellFormed(f)
    ensures Engineered(f, sqrt) == RunBlocks(f, Blocks, sqrt)
  {
    RunBlocksCons(f, PayStatus, [BillAmount, PayAmount], sqrt);
    assert [PayStatus] + [BillAmount, PayAmount] == Blocks;
    var pay := AggregateStep(f, PayStatus, sqrt);
    if pay.1.None? {
      AfterPayIsRun(pay.0, sqrt);
    }
  }

  lemma AfterPayIsRun(f: Frame, sqrt: real -> real)
    requires WellFormed(f)
    ensures EngineeredAfterPay(f, sqrt) == RunBlocks(f, [BillAmount, PayAmount], sqrt)
  {
    RunBlocksCons(f, BillAmount, [PayAmount], sqrt);
    assert [BillAmount] + [PayAmount] == [BillAmount, PayAmount];
    var bill := AggregateStep(f, BillAmount, sqrt);
    if bill.1.None? {
      RunBlocksCons(bill.0, PayAmount, [], sqrt);
      assert [PayAmount] + [] == [PayAmount];
    }
  }

  /** One block on the DataFrame object: look up the sources, then assign the aggregate columns one by one. */
  method AddAggregates(df: Table, g: Aggregates, sqrt: real -> real) returns (err: Option<Error>)
    requires df.Valid() && |g.sources| >= 2
    modifies df
    ensures df.Valid()
    ensures (df.Value(), err) == AggregateStep(old(df.Value()), g, sqrt)
  {
    var missing := MissingColumn(df.Value(), g.sources);
    if missing.Some? {
      return Some(KeyError(missing.value));
    }
    ghost var f0 := df.Value();
    df.Assign(g.avgLabel, Series(df.Value(), g.sources, MeanOf, sqrt));
    HasAllGrows(f0, df.Value(), g.sources);
    ghost var f1 := df.Value();
    df.Assign(g.stdLabel, Series(df.Value(), g.sources, StdOf, sqrt));
    HasAllGrows(f1, df.Value(), g.sources);
    if g.maxLabel.Some? {
      df.Assign(g.maxLabel.value, Series(df.Value(), g.sources, MaxOfRow, sqrt));
    }
    err := None;
  }

  /** `engineer_features(df)`: adds the aggregate columns to `df` in place. */
  method EngineerFeatures(df: Table, sqrt: real -> real) returns (err: Option<Error>)
    requires df.Valid()
    modifies df
    ensures df.Valid()
    ensures (df.Value(), err) == Engineered(old(df.Value()), sqrt)
  {
    err := AddAggregates(df, PayStatus, sqrt);
    if err.Some? {
      return;
    }
    err := AddAggregates(df, BillAmount, sqrt);
    if err.Some? {
      return;
    }
    err := AddAggregates(df, PayAmount, sqrt);
  }

  /** Running `[g] + rest`: the block `g`, then `rest` unless `g` raised. */
  lemma RunBlocksCons(f: Frame, g: Aggregates, rest: seq<Aggregates>, sqrt: real -> real)
    requires WellFormed(f) && |g.sources| >= 2 && Runnable(rest)
    ensures var step := AggregateStep(f, g, sqrt);
      RunBlocks(f, [g] + rest, sqrt) == if step.1.Some? then step else RunBlocks(step.0, rest, sqrt)
  {
    assert ([g] + rest)[1..] == rest;
  }

  // ---- what engineer_features guarantees ----

  /** Every label any of the blocks writes. */
  function AllBlockLabels(gs: seq<Aggregates>): set<string> {
    if gs == [] then {} else BlockLabels(gs[0]) + AllBlockLabels(gs[1..])
  }

  predicate Disjoint(labels: set<string>, cols: seq<string>) {
    forall k :: 0 <= k < |cols| ==> cols[k] !in labels
  }

  /**
   * Each block has at least two sources and distinct labels, none of them a
   * source; no block writes a later block's source or an earlier block's
   * label.
   */
  predicate Independent(gs: seq<Aggregates>) {
    && Runnable(gs)
    && (forall j :: 0 <= j < |gs| ==> Disjoint(BlockLabels(gs[j]), gs[j].sources))
    && (forall j :: 0 <= j < |gs| ==> gs[j].avgLabel != gs[j].stdLabel)
    && (forall j :: 0 <= j < |gs| && gs[j].maxLabel.Some? ==>
          gs[j].maxLabel.value != gs[j].avgLabel && gs[j].maxLabel.value != gs[j].stdLabel)
    && (forall j, k :: 0 <= j < k < |gs| ==>
          Disjoint(BlockLabels(gs[j]), gs[k].sources) && BlockLabels(gs[j]) !! BlockLabels(gs[k]))
  }

  /** The labels `engineer_features` may write. */
  const EngineeredLabels: set<string> := {
    "avg_pay_status", "std_pay_status", "max_pay_status",
    "avg_bill_amt", "std_bill_amt", "max_bill_amt",
    "avg_pay_amt", "std_pay_amt"
  }

  /** No block writes one of its own or a later block's sources. */
  lemma SourcesApart()
    ensures Disjoint(BlockLabels(PayStatus), PayCols)
    ensures Disjoint(BlockLabels(BillAmount), BillCols)
    ensures Disjoint(BlockLabels(PayAmount), PayAmtCols)
    ensures Disjoint(BlockLabels(PayStatus), BillCols)
    ensures Disjoint(BlockLabels(PayStatus), PayAmtCols)
    ensures Disjoint(BlockLabels(BillAmount), PayAmtCols)
  {
  }

  /** The three blocks write eight different labels, `max_pay_amt` not among them. */
  lemma LabelsApart()
    ensures BlockLabels(PayStatus) !! BlockLabels(BillAmount)
    ensures BlockLabels(PayStatus) !! BlockLabels(PayAmount)
    ensures BlockLabels(BillAmount) !! BlockLabels(PayAmount)
    ensures BlockLabels(PayStatus) + BlockLabels(BillAmount) + BlockLabels(PayAmount) == EngineeredLabels
    ensures "max_pay_amt" !in EngineeredLabels
  {
  }

  /** The three blocks are independent and together write exactly the eight aggregate labels. */
  lemma BlocksIndependent()
    ensures Independent(Blocks)
    ensures AllBlockLabels(Blocks) == EngineeredLabels
  {
    SourcesApart();
    LabelsApart();
    assert Blocks[1..] == [BillAmount, PayAmount] && Blocks[1..][1..] == [PayAmount];
    assert [PayAmount][1..] == [];
    assert AllBlockLabels([PayAmount]) == BlockLabels(PayAmount);
    assert AllBlockLabels([BillAmount, PayAmount]) == BlockLabels(BillAmount) + BlockLabels(PayAmount);
  }

  lemma IndependentTail(gs: seq<Aggregates>)
    requires Independent(gs) && gs != []
    ensures Independent(gs[1..])
  {
    var rest := gs[1..];
    forall j, k | 0 <= j < k < |rest|
      ensures Disjoint(BlockLabels(rest[j]), rest[k].sources)
      ensures BlockLabels(rest[j]) !! BlockLabels(rest[k])
    {
      assert rest[j] == gs[j + 1] && rest[k] == gs[k + 1];
    }
  }

  /** Two frames whose labels differ only by labels outside `cols` hold `cols` alike. */
  lemma SourcesAlike(f: Frame, h: Frame, cols: seq<string>, labels: set<string>)
    requires WellFormed(f) && WellFormed(h) && Disjoint(labels, cols)
    requires Labels(h.columns) == Labels(f.columns) + labels
    ensures HasAll(h, cols) <==> HasAll(f, cols)
    ensures HasAll(f, cols) ==> forall k :: 0 <= k < |cols| ==> cols[k] in f.data && cols[k] in h.data
  {
    assert forall k :: 0 <= k < |cols| ==>
      (cols[k] in h.columns <==> cols[k] in Labels(h.columns)) &&
      (cols[k] in f.columns <==> cols[k] in Labels(f.columns));
  }

  /** Running blocks keeps the row count and the existing columns, first and in order. */
  lemma {:induction false} RunBlocksShape(f: Frame, gs: seq<Aggregates>, sqrt: real -> real)
    requires WellFormed(f) && Runnable(gs)
    ensures var h := RunBlocks(f, gs, sqrt).0;
      WellFormed(h) && h.height == f.height && f.columns <= h.columns
    decreases |gs|
  {
    if gs != [] && HasAll(f, gs[0].sources) {
      var f1 := WithAggregates(f, gs[0], sqrt);
      assert Runnable(gs[1..]) by {
        assert forall j :: 0 <= j < |gs| - 1 ==> gs[1..][j] == gs[j + 1];
      }
      RunBlocksShape(f1, gs[1..], sqrt);
      var h := RunBlocks(f1, gs[1..], sqrt).0;
      assert RunBlocks(f, gs, sqrt).0 == h;
      PrefixTrans(f.columns, f1.columns, h.columns);
    }
  }

  /** Running blocks adds only block labels, and all of them when it succeeds. */
  lemma {:induction false} RunBlocksLabels(f: Frame, gs: seq<Aggregates>, sqrt: real -> real)
    requires WellFormed(f) && Runnable(gs)
    ensures var r := RunBlocks(f, gs, sqrt); var lh := Labels(r.0.columns);
      && Labels(f.columns) <= lh <= Labels(f.columns) + AllBlockLabels(gs)
      && (r.1.None? ==> lh == Labels(f.columns) + AllBlockLabels(gs))
    decreases |gs|
  {
    if gs != [] && HasAll(f, gs[0].sources) {
      var f1 := WithAggregates(f, gs[0], sqrt);
      assert Runnable(gs[1..]) by {
        assert forall j :: 0 <= j < |gs| - 1 ==> gs[1..][j] == gs[j + 1];
      }
      RunBlocksLabels(f1, gs[1..], sqrt);
      assert RunBlocks(f, gs, sqrt) == RunBlocks(f1, gs[1..], sqrt);
      assert AllBlockLabels(gs) == BlockLabels(gs[0]) + AllBlockLabels(gs[1..]);
    }
  }

  /** Running blocks leaves every column outside the blocks' labels as it was. */
  lemma {:induction false} RunBlocksKeeps(f: Frame, gs: seq<Aggregates>, sqrt: real -> real)
    requires WellFormed(f) && Runnable(gs)
    ensures var h := RunBlocks(f, gs, sqrt).0;
      forall c :: c in f.data && c !in AllBlockLabels(gs) ==> c in h.data && h.data[c] == f.data[c]
    decreases |gs|
  {
    if gs != [] && HasAll(f, gs[0].sources) {
      var f1 := WithAggregates(f, gs[0], sqrt);
      assert Runnable(gs[1..]) by {
        assert forall j :: 0 <= j < |gs| - 1 ==> gs[1..][j] == gs[j + 1];
      }
      RunBlocksKeeps(f1, gs[1..], sqrt);
      assert RunBlocks(f, gs, sqrt) == RunBlocks(f1, gs[1..], sqrt);
    }
  }

  /**
   * Running blocks fails exactly when some block's source column is missing
   * from the frame it started from, and then names such a column.
   */
  lemma {:induction false} RunBlocksError(f: Frame, gs: seq<Aggregates>, sqrt: real -> real)
    requires WellFormed(f) && Independent(gs)
    ensures var e := RunBlocks(f, gs, sqrt).1;
      && (e.None? <==> forall j :: 0 <= j < |gs| ==> HasAll(f, gs[j].sources))
      && (e.Some? ==> e.value.column !in f.columns)
      && (e.Some? ==> exists j :: 0 <= j < |gs| && e.value.column in gs[j].sources)
    decreases |gs|
  {
    if gs != [] && HasAll(f, gs[0].sources) {
      var f1 := WithAggregates(f, gs[0], sqrt);
      var rest := gs[1..];
      IndependentTail(gs);
      RunBlocksError(f1, rest, sqrt);
      forall j | 0 <= j < |rest|
        ensures HasAll(f1, rest[j].sources) <==> HasAll(f, rest[j].sources)
      {
        assert rest[j] == gs[j + 1];
        SourcesAlike(f, f1, rest[j].sources, BlockLabels(gs[0]));
      }
      var e := RunBlocks(f, gs, sqrt).1;
      if e.Some? {
        var j :| 0 <= j < |rest| && e.value.column in rest[j].sources;
        assert rest[j] == gs[j + 1];
        assert e.value.column !in Labels(f1.columns);
      } else {
        assert forall j :: 1 <= j < |gs| ==> gs[j] == rest[j - 1];
      }
    }
  }

  /** `out` holds the block's aggregates of the source values in `src`, one per row of `src`. */
  ghost predicate AggregatesHold(src: Frame, out: Frame, g: Aggregates, sqrt: real -> real) {
    && WellFormed(src) && HasAll(src, g.sources) && |g.sources| >= 2
    && g.avgLabel in out.data && out.data[g.avgLabel] == Series(src, g.sources, MeanOf, sqrt)
    && g.stdLabel in out.data && out.data[g.stdLabel] == Series(src, g.sources, StdOf, sqrt)
    && (g.maxLabel.Some? ==>
          g.maxLabel.value in out.data && out.data[g.maxLabel.value] == Series(src, g.sources, MaxOfRow, sqrt))
  }

  /**
   * Read row by row: each row of `out` holds the mean, the sample standard
   * deviation and, where the block has one, the maximum of that row's
   * source values in `src`.
   */
  lemma AggregatesPerRow(src: Frame, out: Frame, g: Aggregates, sqrt: real -> real)
    requires AggregatesHold(src, out, g, sqrt)
    ensures |out.data[g.avgLabel]| == src.height && |out.data[g.stdLabel]| == src.height
    ensures forall i :: 0 <= i < src.height ==>
      && out.data[g.avgLabel][i] == Mean(RowValues(src, g.sources, i))
      && out.data[g.stdLabel][i] == sqrt(SampleVariance(RowValues(src, g.sources, i)))
    ensures g.maxLabel.Some? ==>
      && |out.data[g.maxLabel.value]| == src.height
      && forall i :: 0 <= i < src.height ==> out.data[g.maxLabel.value][i] == MaxOf(RowValues(src, g.sources, i))
  {
  }

  /** Each row of a block's result holds the block's aggregates of that row's source values. */
  lemma WithAggregatesValues(f: Frame, g: Aggregates, sqrt: real -> real)
    requires WellFormed(f) && HasAll(f, g.sources) && |g.sources| >= 2
    requires Disjoint(BlockLabels(g), g.sources) && g.avgLabel != g.stdLabel
    requires g.maxLabel.Some? ==> g.maxLabel.value != g.avgLabel && g.maxLabel.value != g.stdLabel
    ensures AggregatesHold(f, WithAggregates(f, g, sqrt), g, sqrt)
  {
    var src := g.sources;
    var f1 := WithColumn(f, g.avgLabel, Series(f, src, MeanOf, sqrt));
    HasAllGrows(f, f1, src);
    var f2 := WithColumn(f1, g.stdLabel, Series(f1, src, StdOf, sqrt));
    HasAllGrows(f1, f2, src);
    SourcesAlike(f, f1, src, {g.avgLabel});
    SourcesAlike(f, f2, src, {g.avgLabel, g.stdLabel});
    SameSeries(f, f1, src, StdOf, sqrt);
    if g.maxLabel.Some? {
      SameSeries(f, f2, src, MaxOfRow, sqrt);
    }
  }

  /** Aggregates computed from `mid`'s sources hold for any frame that agrees with `mid` on them. */
  lemma CarryAggregates(src: Frame, mid: Frame, out: Frame, g: Aggregates, sqrt: real -> real)
    requires AggregatesHold(mid, out, g, sqrt)
    requires WellFormed(src) && HasAll(src, g.sources) && src.height == mid.height
    requires forall k :: 0 <= k < |g.sources| ==> Column(src, g.sources[k]) == Column(mid, g.sources[k])
    ensures AggregatesHold(src, out, g, sqrt)
  {
    SameSeries(mid, src, g.sources, MeanOf, sqrt);
    SameSeries(mid, src, g.sources, StdOf, sqrt);
    SameSeries(mid, src, g.sources, MaxOfRow, sqrt);
  }

  /**
   * Aggregates of `mid`'s sources are those of `src` when `mid` is `src`
   * with only `written` labels added or changed, none of them a source.
   */
  lemma CarryPast(src: Frame, mid: Frame, out: Frame, written: set<string>, g: Aggregates, sqrt: real -> real)
    requires WellFormed(src) && WellFormed(mid) && mid.height == src.height
    requires Disjoint(written, g.sources)
    requires Labels(mid.columns) == Labels(src.columns) + written
    requires forall c :: c in src.data && c !in written ==> mid.data[c] == src.data[c]
    requires AggregatesHold(mid, out, g, sqrt)
    ensures AggregatesHold(src, out, g, sqrt)
  {
    SourcesAlike(src, mid, g.sources, written);
    CarryAggregates(src, mid, out, g, sqrt);
  }

  /** Aggregates stay in place when later writes avoid the block's labels. */
  lemma KeepAggregates(src: Frame, mid: Frame, out: Frame, g: Aggregates, sqrt: real -> real)
    requires AggregatesHold(src, mid, g, sqrt)
    requires forall c :: c in BlockLabels(g) && c in mid.data ==> c in out.data && out.data[c] == mid.data[c]
    ensures AggregatesHold(src, out, g, sqrt)
  {
  }

  /** A label of the first block is written by none of the later ones. */
  lemma {:induction false} LaterLabels(gs: seq<Aggregates>)
    requires Independent(gs) && gs != []
    ensures BlockLabels(gs[0]) !! AllBlockLabels(gs[1..])
  {
    forall c | c in AllBlockLabels(gs[1..])
      ensures c !in BlockLabels(gs[0])
    {
      var j := LabelOwner(gs[1..], c);
      assert gs[1..][j] == gs[j + 1];
    }
  }

  /** The block that writes a given label. */
  lemma {:induction false} LabelOwner(gs: seq<Aggregates>, c: string) returns (j: nat)
    requires c in AllBlockLabels(gs)
    ensures j < |gs| && c in BlockLabels(gs[j])
    decreases |gs|
  {
    if c in BlockLabels(gs[0]) {
      j := 0;
    } else {
      var k := LabelOwner(gs[1..], c);
      j := k + 1;
    }
  }

  /**
   * Once the first block's sources are present, its aggregates of them
   * stay in the frame whatever the later blocks do, a KeyError included.
   */
  lemma RunBlocksFirst(f: Frame, gs: seq<Aggregates>, sqrt: real -> real)
    requires WellFormed(f) && Independent(gs) && gs != [] && HasAll(f, gs[0].sources)
    ensures AggregatesHold(f, RunBlocks(f, gs, sqrt).0, gs[0], sqrt)
  {
    var f1 := WithAggregates(f, gs[0], sqrt);
    var rest := gs[1..];
    IndependentTail(gs);
    assert RunBlocks(f, gs, sqrt) == RunBlocks(f1, rest, sqrt);
    WithAggregatesValues(f, gs[0], sqrt);
    RunBlocksKeeps(f1, rest, sqrt);
    LaterLabels(gs);
    KeepAggregates(f, f1, RunBlocks(f1, rest, sqrt).0, gs[0], sqrt);
  }

  /**
   * After a successful run the result holds, for each block, the aggregates
   * of its source values in the frame the run started from.
   */
  lemma {:induction false} RunBlocksValues(f: Frame, gs: seq<Aggregates>, sqrt: real -> real)
    requires WellFormed(f) && Independent(gs)
    ensures var r := RunBlocks(f, gs, sqrt);
      r.1.None? ==> forall j :: 0 <= j < |gs| ==> AggregatesHold(f, r.0, gs[j], sqrt)
    decreases |gs|
  {
    if gs != [] && HasAll(f, gs[0].sources) {
      var f1 := WithAggregates(f, gs[0], sqrt);
      var rest := gs[1..];
      var r := RunBlocks(f1, rest, sqrt);
      IndependentTail(gs);
      RunBlocksValues(f1, rest, sqrt);
      if r.1.None? {
        RunBlocksFirst(f, gs, sqrt);
        forall j | 1 <= j < |gs|
          ensures AggregatesHold(f, r.0, gs[j], sqrt)
        {
          assert rest[j - 1] == gs[j];
          CarryPast(f, f1, r.0, BlockLabels(gs[0]), gs[j], sqrt);
        }
      }
    }
  }

  // ---- engineer_features on the three blocks ----

  /**
   * `engineer_features` keeps the rows, the existing columns (first, in
   * order) and every column outside the eight aggregate labels; it adds
   * nothing but those labels, and all eight when it succeeds, so in
   * particular never a `max_pay_amt` column.
   */
  lemma EngineeredShape(f: Frame, sqrt: real -> real)
    requires WellFormed(f)
    ensures var r := Engineered(f, sqrt); var h := r.0;
      && WellFormed(h) && h.height == f.height && f.columns <= h.columns
      && Labels(h.columns) <= Labels(f.columns) + EngineeredLabels
      && (r.1.None? ==> Labels(h.columns) == Labels(f.columns) + EngineeredLabels)
      && (forall c :: c in f.data && c !in EngineeredLabels ==> h.data[c] == f.data[c])
      && ("max_pay_amt" in h.columns <==> "max_pay_amt" in f.columns)
  {
    EngineeredIsRun(f, sqrt);
    BlocksIndependent();
    LabelsApart();
    RunBlocksShape(f, Blocks, sqrt);
    RunBlocksLabels(f, Blocks, sqrt);
    RunBlocksKeeps(f, Blocks, sqrt);
    var h := Engineered(f, sqrt).0;
    assert "max_pay_amt" in h.columns <==> "max_pay_amt" in Labels(h.columns);
    assert "max_pay_amt" in f.columns <==> "max_pay_amt" in Labels(f.columns);
  }

  /**
   * `engineer_features` raises KeyError exactly when one of the eighteen
   * source columns is missing, and names a missing one.
   */
  lemma EngineeredError(f: Frame, sqrt: real -> real)
    requires WellFormed(f)
    ensures var e := Engineered(f, sqrt).1;
      && (e.None? <==> HasAll(f, PayCols) && HasAll(f, BillCols) && HasAll(f, PayAmtCols))
      && (e.Some? ==> e.value.column !in f.columns)
      && (e.Some? ==> (e.value.column in PayCols || e.value.column in BillCols || e.value.column in PayAmtCols))
  {
    EngineeredIsRun(f, sqrt);
    BlocksIndependent();
    RunBlocksError(f, Blocks, sqrt);
    assert Blocks[0] == PayStatus && Blocks[1] == BillAmount && Blocks[2] == PayAmount;
  }

  /**
   * After a successful `engineer_features`, each row holds the mean, the
   * sample standard deviation and (except for the payment amounts) the
   * maximum of its own six values in each series.
   */
  lemma EngineeredValues(f: Frame, sqrt: real -> real)
    requires WellFormed(f)
    ensures var r := Engineered(f, sqrt);
      r.1.None? ==>
        && AggregatesHold(f, r.0, PayStatus, sqrt)
        && AggregatesHold(f, r.0, BillAmount, sqrt)
        && AggregatesHold(f, r.0, PayAmount, sqrt)
  {
    EngineeredIsRun(f, sqrt);
    BlocksIndependent();
    RunBlocksValues(f, Blocks, sqrt);
    assert Blocks[0] == PayStatus && Blocks[1] == BillAmount && Blocks[2] == PayAmount;
  }

  /**
   * The frame is updated in place: when a bill or payment-amount column is
   * missing, the repayment-status aggregates written before the KeyError
   * stay in the frame.
   */
  lemma EngineeredPartial(f: Frame, sqrt: real -> real)
    requires WellFormed(f) && HasAll(f, PayCols)
    ensures var r := Engineered(f, sqrt);
      && AggregatesHold(f, r.0, PayStatus, sqrt)
      && (r.1.Some? ==> r.1.value.column in BillCols || r.1.value.column in PayAmtCols)
  {
    EngineeredIsRun(f, sqrt);
    BlocksIndependent();
    assert Blocks[0] == PayStatus;
    RunBlocksFirst(f, Blocks, sqrt);
    EngineeredError(f, sqrt);
    var e := Engineered(f, sqrt).1;
    if e.Some? {
      assert e.value.column !in PayCols by {
        assert forall k :: 0 <= k < |PayCols| ==> PayCols[k] in f.columns;
      }
    }
  }

  // ---- clean_and_engineer ----

  /** The two outlier passes, LIMIT_BAL first; the AGE quartiles are those of the rows the first pass kept. */
  function Filtered(df: Frame): (r: Result<Frame>)
    requires WellFormed(df)
    ensures r.Err? <==> "LIMIT_BAL" !in df.columns || "AGE" !in df.columns
    ensures r.Err? ==> r.error.column !in df.columns
    ensures r.Ok? ==> WellFormed(r.value) && r.value.columns == df.columns
  {
    match RemoveOutliersIqr(df, "LIMIT_BAL")
    case Err(e) => Err(e)
    case Ok(f1) => RemoveOutliersIqr(f1, "AGE")
  }

  /** `np.log1p(df['LIMIT_BAL'])`, one value per row. */
  function LogLimit(f: Frame, log1p: real -> real): (xs: seq<real>)
    requires WellFormed(f) && "LIMIT_BAL" in f.columns
    ensures |xs| == f.height && forall i :: 0 <= i < f.height ==> xs[i] == log1p(Column(f, "LIMIT_BAL")[i])
  {
    var limit := Column(f, "LIMIT_BAL");
    seq(|limit|, i requires 0 <= i < |limit| => log1p(limit[i]))
  }

  /** The frame after the two passes and the log column, before the aggregates. */
  function Prepared(df: Frame, log1p: real -> real): (r: Result<Frame>)
    requires WellFormed(df)
    ensures r.Err? <==> Filtered(df).Err?
    ensures r.Err? ==> r.error == Filtered(df).error
    ensures r.Ok? ==>
      var f2, f3 := Filtered(df).value, r.value;
      && WellFormed(f3) && df.columns <= f3.columns
      && Labels(f3.columns) == Labels(df.columns) + {"log_limit_bal"}
      && f3.height == f2.height
      && "LIMIT_BAL" in f2.columns && "log_limit_bal" in f3.data
      && (forall i :: 0 <= i < f2.height ==> f3.data["log_limit_bal"][i] == log1p(Column(f2, "LIMIT_BAL")[i]))
      && (forall c :: c in f2.data && c != "log_limit_bal" ==> f3.data[c] == f2.data[c])
  {
    if Filtered(df).Err? then Err(Filtered(df).error)
    else
      var f2 := Filtered(df).value;
      Ok(WithColumn(f2, "log_limit_bal", LogLimit(f2, log1p)))
  }

  /** `clean_and_engineer(df)` as a value: the caller's frame is never changed. */
  function CleanedAndEngineered(df: Frame, log1p: real -> real, sqrt: real -> real): Result<Frame>
    requires WellFormed(df)
  {
    match Prepared(df, log1p)
    case Err(e) => Err(e)
    case Ok(f3) =>
      var r := Engineered(f3, sqrt);
      if r.1.Some? then Err(r.1.value) else Ok(r.0)
  }

  /**
   * `clean_and_engineer(df)`: the boolean-mask selections make a new
   * frame, which the log column and `engineer_features` then update in place.
   */
  method CleanAndEngineer(df: Frame, log1p: real -> real, sqrt: real -> real) returns (r: Result<Frame>)
    requires WellFormed(df)
    ensures r == CleanedAndEngineered(df, log1p, sqrt)
  {
    var step := RemoveOutliersIqr(df, "LIMIT_BAL");
    if step.Err? {
      return Err(step.error);
    }
    step := RemoveOutliersIqr(step.value, "AGE");
    if step.Err? {
      return Err(step.error);
    }
    var table := new Table.Of(step.value);
    table.Assign("log_limit_bal", LogLimit(step.value, log1p));
    var err := EngineerFeatures(table, sqrt);
    if err.Some? {
      return Err(err.value);
    }
    return Ok(table.Value());
  }

  /**
   * The two passes keep the rows at some increasing list of positions of
   * the input, and a non-empty input keeps at least one row.
   */
  lemma FilteredRows(df: Frame)
    requires WellFormed(df) && Filtered(df).Ok?
    ensures exists idx :: SelectionOf(Filtered(df).value, df, idx)
    ensures df.height > 0 ==> Filtered(df).value.height > 0
  {
    var f1 := RemoveOutliersIqr(df, "LIMIT_BAL").value;
    var f2 := Filtered(df).value;
    if df.height == 0 {
      assert SelectionOf(f2, df, []);
    } else {
      var a := MaskPositions(Column(df, "LIMIT_BAL"), IqrFences(Column(df, "LIMIT_BAL")));
      RemoveOutliersKeepsARow(df, "LIMIT_BAL");
      RemoveOutliersKeepsARow(f1, "AGE");
      var b := MaskPositions(Column(f1, "AGE"), IqrFences(Column(f1, "AGE")));
      SelectionCompose(f2, f1, df, a, b);
    }
  }

  /** The two passes in the opposite order: AGE first, then LIMIT_BAL on the rows it kept. */
  function FilteredAgeFirst(df: Frame): Result<Frame>
    requires WellFormed(df)
  {
    match RemoveOutliersIqr(df, "AGE")
    case Err(e) => Err(e)
    case Ok(f1) => RemoveOutliersIqr(f1, "LIMIT_BAL")
  }

  /** When the values within the fences are exactly the first `m`, the mask holds at positions 0 to m - 1. */
  lemma {:induction false} MaskFromPrefix(xs: seq<real>, fe: Fences, m: nat, i: nat)
    requires m <= |xs| && i <= |xs|
    requires forall j :: 0 <= j < m ==> Within(xs[j], fe)
    requires forall j :: m <= j < |xs| ==> !Within(xs[j], fe)
    ensures var idx := MaskFrom(xs, fe, i);
      |idx| == (if i < m then m - i else 0) && forall k :: 0 <= k < |idx| ==> idx[k] == i + k
    decreases |xs| - i
  {
    if i < |xs| {
      MaskFromPrefix(xs, fe, m, i + 1);
      var rest := MaskFrom(xs, fe, i + 1);
      if i < m {
        assert MaskFrom(xs, fe, i) == [i] + rest;
        assert forall k :: 0 < k < |rest| + 1 ==> ([i] + rest)[k] == rest[k - 1];
      } else {
        assert MaskFrom(xs, fe, i) == rest;
      }
    }
  }

  /**
   * When the values within the fences are exactly the first `m`, one pass
   * keeps the first `m` rows of every column.
   */
  lemma PassKeepsPrefix(f: Frame, col: string, m: nat)
    requires WellFormed(f) && col in f.columns && 0 < f.height && m <= f.height
    requires var xs := Column(f, col); var fe := IqrFences(xs);
      && (forall j :: 0 <= j < m ==> Within(xs[j], fe))
      && (forall j :: m <= j < f.height ==> !Within(xs[j], fe))
    ensures var r := RemoveOutliersIqr(f, col);
      && r.Ok? && r.value.height == m
      && forall c :: c in f.columns ==> c in r.value.columns && Column(r.value, c) == Column(f, c)[..m]
  {
    var xs := Column(f, col);
    var idx := MaskPositions(xs, IqrFences(xs));
    MaskFromPrefix(xs, IqrFences(xs), m, 0);
    var g := RemoveOutliersIqr(f, col).value;
    assert SelectionOf(g, f, idx);
    forall c | c in f.columns
      ensures Column(g, c) == Column(f, c)[..m]
    {
      assert c in Labels(f.columns);
      PickFirst(f.data[c], idx, m);
    }
  }

  /** Picking positions 0 to m - 1 gives the first `m` values. */
  lemma PickFirst<T>(xs: seq<T>, idx: seq<nat>, m: nat)
    requires m <= |xs| && |idx| == m && forall k :: 0 <= k < m ==> idx[k] == k
    ensures Below(idx, |xs|) && Pick(xs, idx) == xs[..m]
  {
  }

  /** The fences of five sorted values, from the second and fourth. */
  lemma FencesOfFive(xs: seq<real>)
    requires |xs| == 5 && SortedAsc(xs)
    ensures IqrFences(xs) == Fences(xs[1] - 1.5 * (xs[3] - xs[1]), xs[3] + 1.5 * (xs[3] - xs[1]))
  {
    QuartilesOfFive(xs);
  }

  /** The fences of four sorted values, from the interpolated quartiles. */
  lemma FencesOfFour(xs: seq<real>)
    requires |xs| == 4 && SortedAsc(xs)
    ensures var q1, q3 := Lerp(xs[0], xs[1], 0.75), Lerp(xs[2], xs[3], 0.25);
      IqrFences(xs) == Fences(q1 - 1.5 * (q3 - q1), q3 + 1.5 * (q3 - q1))
  {
    QuartilesOfFour(xs);
  }

  /** A five-row frame on which the order of the two passes shows. */
  function OrderExample(): (f: Frame)
    ensures WellFormed(f) && f.height == 5 && "LIMIT_BAL" in f.columns && "AGE" in f.columns
    ensures Column(f, "LIMIT_BAL") == [0.0, 0.0, 0.0, 0.0, 100.0]
    ensures Column(f, "AGE") == [0.0, 0.0, 0.0, 10.0, 1000.0]
  {
    var cols := ["LIMIT_BAL", "AGE"];
    assert Labels(cols) == {"LIMIT_BAL", "AGE"};
    assert cols[1..] == ["AGE"] && cols[1..][1..] == [];
    Frame(cols, map["LIMIT_BAL" := [0.0, 0.0, 0.0, 0.0, 100.0], "AGE" := [0.0, 0.0, 0.0, 10.0, 1000.0]], 5)
  }

  /** LIMIT_BAL over [0, 0, 0, 0, 100]: the fences are [0, 0], so the last row goes. */
  lemma LimitFirstPass(f: Frame)
    requires WellFormed(f) && "LIMIT_BAL" in f.columns && "AGE" in f.columns && f.height == 5
    requires var l := Column(f, "LIMIT_BAL");
      l[0] == 0.0 && l[1] == 0.0 && l[2] == 0.0 && l[3] == 0.0 && l[4] == 100.0
    ensures var r := RemoveOutliersIqr(f, "LIMIT_BAL");
      && r.Ok? && r.value.height == 4 && "AGE" in r.value.columns
      && Column(r.value, "AGE") == Column(f, "AGE")[..4]
  {
    var xs := Column(f, "LIMIT_BAL");
    assert SortedAsc(xs);
    FencesOfFive(xs);
    PassKeepsPrefix(f, "LIMIT_BAL", 4);
  }

  /** AGE over [0, 0, 0, 10]: the quartiles 0 and 2.5 give fences [-3.75, 6.25], so age 10 goes. */
  lemma AgeAfterLimit(g: Frame)
    requires WellFormed(g) && "AGE" in g.columns && g.height == 4
    requires var a := Column(g, "AGE"); a[0] == 0.0 && a[1] == 0.0 && a[2] == 0.0 && a[3] == 10.0
    ensures var r := RemoveOutliersIqr(g, "AGE"); r.Ok? && r.value.height == 3
  {
    var xs := Column(g, "AGE");
    assert SortedAsc(xs);
    FencesOfFour(xs);
    PassKeepsPrefix(g, "AGE", 3);
  }

  /** AGE over [0, 0, 0, 10, 1000]: the quartiles 0 and 10 give fences [-15, 25], so only age 1000 goes. */
  lemma AgeFirstPass(f: Frame)
    requires WellFormed(f) && "LIMIT_BAL" in f.columns && "AGE" in f.columns && f.height == 5
    requires var a := Column(f, "AGE");
      a[0] == 0.0 && a[1] == 0.0 && a[2] == 0.0 && a[3] == 10.0 && a[4] == 1000.0
    ensures var r := RemoveOutliersIqr(f, "AGE");
      && r.Ok? && r.value.height == 4 && "LIMIT_BAL" in r.value.columns
      && Column(r.value, "LIMIT_BAL") == Column(f, "LIMIT_BAL")[..4]
  {
    var xs := Column(f, "AGE");
    assert SortedAsc(xs);
    FencesOfFive(xs);
    PassKeepsPrefix(f, "AGE", 4);
  }

  /** LIMIT_BAL over [0, 0, 0, 0]: the fences are [0, 0] and every row stays. */
  lemma LimitAfterAge(g: Frame)
    requires WellFormed(g) && "LIMIT_BAL" in g.columns && g.height == 4
    requires var l := Column(g, "LIMIT_BAL"); l[0] == 0.0 && l[1] == 0.0 && l[2] == 0.0 && l[3] == 0.0
    ensures var r := RemoveOutliersIqr(g, "LIMIT_BAL"); r.Ok? && r.value.height == 4
  {
    var xs := Column(g, "LIMIT_BAL");
    assert SortedAsc(xs);
    FencesOfFour(xs);
    PassKeepsPrefix(g, "LIMIT_BAL", 4);
  }

  /**
   * The order of the passes matters: the AGE quartiles are taken over the
   * rows the LIMIT_BAL pass kept.  On a frame with LIMIT_BAL
   * [0, 0, 0, 0, 100] and AGE [0, 0, 0, 10, 1000], such as `OrderExample()`,
   * the pipeline's order keeps three rows where the opposite order keeps four.
   */
  lemma FilterOrderMatters(f: Frame)
    requires WellFormed(f) && "LIMIT_BAL" in f.columns && "AGE" in f.columns && f.height == 5
    requires var l := Column(f, "LIMIT_BAL");
      l[0] == 0.0 && l[1] == 0.0 && l[2] == 0.0 && l[3] == 0.0 && l[4] == 100.0
    requires var a := Column(f, "AGE");
      a[0] == 0.0 && a[1] == 0.0 && a[2] == 0.0 && a[3] == 10.0 && a[4] == 1000.0
    ensures Filtered(f).Ok? && Filtered(f).value.height == 3
    ensures FilteredAgeFirst(f).Ok? && FilteredAgeFirst(f).value.height == 4
    ensures Filtered(f) != FilteredAgeFirst(f)
  {
    LimitFirstPass(f);
    AgeAfterLimit(RemoveOutliersIqr(f, "LIMIT_BAL").value);
    AgeFirstPass(f);
    LimitAfterAge(RemoveOutliersIqr(f, "AGE").value);
  }

  /**
   * `clean_and_engineer` raises KeyError exactly when one of the twenty
   * columns it reads is missing from its input, and names a missing one.
   */
  lemma CleanAndEngineerError(df: Frame, log1p: real -> real, sqrt: real -> real)
    requires WellFormed(df)
    ensures var r := CleanedAndEngineered(df, log1p, sqrt);
      && (r.Err? <==> || "LIMIT_BAL" !in df.columns || "AGE" !in df.columns
                      || !HasAll(df, PayCols) || !HasAll(df, BillCols) || !HasAll(df, PayAmtCols))
      && (r.Err? ==> r.error.column !in df.columns)
  {
    if Filtered(df).Ok? {
      var f3 := Prepared(df, log1p).value;
      EngineeredError(f3, sqrt);
      LogLabelIsNew();
      SourcesKept(df, f3, PayCols);
      SourcesKept(df, f3, BillCols);
      SourcesKept(df, f3, PayAmtCols);
    }
  }

  /** `log_limit_bal` is neither a source of the aggregates nor one of their labels. */
  lemma LogLabelIsNew()
    ensures "log_limit_bal" !in PayCols && "log_limit_bal" !in BillCols && "log_limit_bal" !in PayAmtCols
    ensures "log_limit_bal" !in EngineeredLabels
    ensures Disjoint({"log_limit_bal"}, PayCols) && Disjoint({"log_limit_bal"}, BillCols)
    ensures Disjoint({"log_limit_bal"}, PayAmtCols)
  {
  }

  /** Adding a label that is not a source leaves the presence of every source as it was. */
  lemma SourcesKept(f: Frame, g: Frame, cols: seq<string>)
    requires Labels(g.columns) == Labels(f.columns) + {"log_limit_bal"}
    requires "log_limit_bal" !in cols
    ensures HasAll(g, cols) <==> HasAll(f, cols)
    ensures forall c :: c in cols ==> (c in g.columns <==> c in f.columns)
  {
    assert forall c :: c in cols ==> (c in g.columns <==> c in Labels(g.columns));
    assert forall c :: c in cols ==> (c in f.columns <==> c in Labels(f.columns));
  }

  /**
   * On success the output has one row per row the passes kept, in order;
   * it holds every column of the kept rows other than the added ones,
   * `log1p` of each row's LIMIT_BAL, and the three blocks' aggregates of
   * each row's own series.  The input's columns come first, followed only
   * by `log_limit_bal` and the aggregate labels.
   */
  lemma CleanAndEngineerResult(df: Frame, log1p: real -> real, sqrt: real -> real)
    requires WellFormed(df) && CleanedAndEngineered(df, log1p, sqrt).Ok?
    ensures var h := CleanedAndEngineered(df, log1p, sqrt).value; var kept := Filtered(df).value;
      && WellFormed(h) && df.columns <= h.columns
      && Labels(h.columns) == Labels(df.columns) + {"log_limit_bal"} + EngineeredLabels
      && h.height == kept.height
      && "LIMIT_BAL" in kept.columns && "log_limit_bal" in h.data
      && (forall i :: 0 <= i < kept.height ==> h.data["log_limit_bal"][i] == log1p(Column(kept, "LIMIT_BAL")[i]))
      && (forall c :: c in kept.data && c != "log_limit_bal" && c !in EngineeredLabels ==> h.data[c] == kept.data[c])
      && AggregatesHold(kept, h, PayStatus, sqrt)
      && AggregatesHold(kept, h, BillAmount, sqrt)
      && AggregatesHold(kept, h, PayAmount, sqrt)
  {
    var f2 := Filtered(df).value;
    var f3 := Prepared(df, log1p).value;
    EngineeredShape(f3, sqrt);
    EngineeredValues(f3, sqrt);
    LogLabelIsNew();
    var h := Engineered(f3, sqrt).0;
    CarryPast(f2, f3, h, {"log_limit_bal"}, PayStatus, sqrt);
    CarryPast(f2, f3, h, {"log_limit_bal"}, BillAmount, sqrt);
    CarryPast(f2, f3, h, {"log_limit_bal"}, PayAmount, sqrt);
  }
}
