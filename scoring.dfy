/**
 * The deterministic logic of the assessment dashboard: the one-row feature
 * frame built from the applicant form, the integer risk score derived from
 * the classifier's default probability, the Low/Medium/High bucketing and
 * the summary text and badge chosen by the bucket.  The probability itself
 * comes from the classifier and is an input here.
 */
module Scoring {
  import opened Frames

  /** The six values the sidebar form collects. */
  datatype Applicant = Applicant(
    age: int,
    limitBal: int,
    avgPayAmt: int,
    maxBillAmt: int,
    education: string,
    maritalStatus: string)

  /** The choices the two select boxes offer, in the order they are listed. */
  const EducationOptions: seq<string> := ["Graduate", "University", "High School"]
  const MaritalOptions: seq<string> := ["Single", "Married", "Others"]

  /** The ranges the number inputs enforce. */
  predicate FormRanges(a: Applicant) {
    && 18 <= a.age <= 100
    && 10000 <= a.limitBal <= 1000000
    && 0 <= a.avgPayAmt <= 100000
    && 0 <= a.maxBillAmt <= 1000000
    && a.education in EducationOptions
    && a.maritalStatus in MaritalOptions
  }

  // ---- categorical encodings ----

  function EncodeEducation(education: string): (code: int)
    ensures 1 <= code <= 3
  {
    if education == "Graduate" then 1 else if education == "University" then 2 else 3
  }

  function EncodeMarital(status: string): (code: int)
    ensures 1 <= code <= 3
  {
    if status == "Married" then 1 else if status == "Single" then 2 else 3
  }

  /**
   * Education codes follow the order of the select box; marital codes do
   * not (Married is 1, Single 2).  Each encoding takes its three options to
   * three different codes.
   */
  lemma EncodingTables()
    ensures forall i :: 0 <= i < 3 ==> EncodeEducation(EducationOptions[i]) == i + 1
    ensures EncodeMarital("Married") == 1 && EncodeMarital("Single") == 2
    ensures EncodeMarital("Others") == 3
    ensures forall i, j :: 0 <= i < 3 && 0 <= j < 3 ==>
      (EncodeEducation(EducationOptions[i]) == EncodeEducation(EducationOptions[j]) <==> i == j)
    ensures forall i, j :: 0 <= i < 3 && 0 <= j < 3 ==>
      (EncodeMarital(MaritalOptions[i]) == EncodeMarital(MaritalOptions[j]) <==> i == j)
  {
    assert EncodeEducation(EducationOptions[0]) == 1 && EncodeEducation(EducationOptions[1]) == 2;
    assert EncodeEducation(EducationOptions[2]) == 3;
    assert EncodeMarital(MaritalOptions[1]) == 1 && EncodeMarital(MaritalOptions[0]) == 2;
    assert EncodeMarital(MaritalOptions[2]) == 3;
  }

  // ---- the feature frame handed to the classifier ----

  /** The six labels the form writes, in the order it writes them. */
  const WrittenLabels: seq<string> :=
    ["AGE", "LIMIT_BAL", "avg_pay_amt", "max_bill_amt", "EDUCATION", "MARRIAGE"]

  /** The value the form writes under each of `WrittenLabels`. */
  function WrittenValues(a: Applicant): (vs: seq<real>)
    ensures |vs| == |WrittenLabels|
  {
    [a.age as real, a.limitBal as real, a.avgPayAmt as real, a.maxBillAmt as real,
     EncodeEducation(a.education) as real, EncodeMarital(a.maritalStatus) as real]
  }

  /** The frame after the zero fill and the six column writes. */
  function UserFrame(featureList: seq<string>, a: Applicant): Frame {
    var f0 := ZeroFrame(featureList);
    var f1 := WithScalar(f0, "AGE", a.age as real);
    var f2 := WithScalar(f1, "LIMIT_BAL", a.limitBal as real);
    var f3 := WithScalar(f2, "avg_pay_amt", a.avgPayAmt as real);
    var f4 := WithScalar(f3, "max_bill_amt", a.maxBillAmt as real);
    var f5 := WithScalar(f4, "EDUCATION", EncodeEducation(a.education) as real);
    WithScalar(f5, "MARRIAGE", EncodeMarital(a.maritalStatus) as real)
  }

  /** Builds the classifier's input frame in place: zeros, then six column writes. */
  method BuildUserData(featureList: seq<string>, a: Applicant) returns (userData: Table)
    requires Distinct(featureList)
    ensures fresh(userData) && userData.Valid()
    ensures userData.Value() == UserFrame(featureList, a)
  {
    userData := new Table.Zeros(featureList);
    userData.AssignScalar("AGE", a.age as real);
    userData.AssignScalar("LIMIT_BAL", a.limitBal as real);
    userData.AssignScalar("avg_pay_amt", a.avgPayAmt as real);
    userData.AssignScalar("max_bill_amt", a.maxBillAmt as real);
    userData.AssignScalar("EDUCATION", EncodeEducation(a.education) as real);
    userData.AssignScalar("MARRIAGE", EncodeMarital(a.maritalStatus) as real);
  }

  /** Scalar column writes `f[names[k]] = vals[k]`, performed in order. */
  function ApplyWrites(f: Frame, names: seq<string>, vals: seq<real>): Frame
    requires |names| == |vals|
    decreases |names|
  {
    if names == [] then f
    else ApplyWrites(WithScalar(f, names[0], vals[0]), names[1..], vals[1..])
  }

  /**
   * Scalar writes keep the row count and the existing columns first and in
   * order, and add exactly the written labels.
   */
  lemma ApplyWritesShape(f: Frame, names: seq<string>, vals: seq<real>)
    requires WellFormed(f) && |names| == |vals|
    ensures var g := ApplyWrites(f, names, vals);
      && WellFormed(g) && g.height == f.height
      && f.columns <= g.columns
      && Labels(g.columns) == Labels(f.columns) + Labels(names)
  {
    ApplyWritesWellFormed(f, names, vals);
    ApplyWritesPrefix(f, names, vals);
    ApplyWritesLabels(f, names, vals);
  }

  /** Scalar writes keep a frame well formed and keep its row count. */
  lemma {:induction false} ApplyWritesWellFormed(f: Frame, names: seq<string>, vals: seq<real>)
    requires WellFormed(f) && |names| == |vals|
    ensures var g := ApplyWrites(f, names, vals); WellFormed(g) && g.height == f.height
    decreases |names|
  {
    if names != [] {
      var f1 := WithColumn(f, names[0], Broadcast(f.height, vals[0]));
      ApplyWritesWellFormed(f1, names[1..], vals[1..]);
    }
  }

  /** Scalar writes keep the existing columns first and in order. */
  lemma {:induction false} ApplyWritesPrefix(f: Frame, names: seq<string>, vals: seq<real>)
    requires |names| == |vals|
    ensures f.columns <= ApplyWrites(f, names, vals).columns
    decreases |names|
  {
    if names != [] {
      var f1 := WithColumn(f, names[0], Broadcast(f.height, vals[0]));
      ApplyWritesPrefix(f1, names[1..], vals[1..]);
      PrefixTrans(f.columns, f1.columns, ApplyWrites(f1, names[1..], vals[1..]).columns);
    }
  }

  /** Scalar writes add exactly the written labels to the column labels. */
  lemma {:induction false} ApplyWritesLabels(f: Frame, names: seq<string>, vals: seq<real>)
    requires |names| == |vals|
    ensures Labels(ApplyWrites(f, names, vals).columns) == Labels(f.columns) + Labels(names)
    decreases |names|
  {
    if names != [] {
      var f1 := WithColumn(f, names[0], Broadcast(f.height, vals[0]));
      ApplyWritesLabels(f1, names[1..], vals[1..]);
      assert Labels(names) == {names[0]} + Labels(names[1..]);
    }
  }

  /** When every written label already exists, the columns are unchanged. */
  lemma {:induction false} ApplyWritesKeepsColumns(f: Frame, names: seq<string>, vals: seq<real>)
    requires |names| == |vals|
    requires forall k :: 0 <= k < |names| ==> names[k] in f.columns
    ensures ApplyWrites(f, names, vals).columns == f.columns
    decreases |names|
  {
    if names != [] {
      var f1 := WithScalar(f, names[0], vals[0]);
      var rest := names[1..];
      assert forall k :: 0 <= k < |rest| ==> rest[k] == names[k + 1];
      ApplyWritesKeepsColumns(f1, rest, vals[1..]);
    }
  }

  /**
   * After distinct scalar writes every written label holds its value in
   * every row, and every other column is as it was.
   */
  lemma ApplyWritesValues(f: Frame, names: seq<string>, vals: seq<real>)
    requires |names| == |vals| && Distinct(names)
    ensures var g := ApplyWrites(f, names, vals);
      && g.height == f.height
      && g.data.Keys == f.data.Keys + Labels(names)
      && (forall k :: 0 <= k < |names| ==> g.data[names[k]] == Broadcast(f.height, vals[k]))
      && (forall c :: c in f.data && c !in names ==> g.data[c] == f.data[c])
  {
    ApplyWritesKeys(f, names, vals);
    ApplyWritesWritten(f, names, vals);
    ApplyWritesOthers(f, names, vals);
  }

  /** Scalar writes keep the row count and add exactly the written labels as keys. */
  lemma {:induction false} ApplyWritesKeys(f: Frame, names: seq<string>, vals: seq<real>)
    requires |names| == |vals|
    ensures var g := ApplyWrites(f, names, vals);
      g.height == f.height && g.data.Keys == f.data.Keys + Labels(names)
    decreases |names|
  {
    if names != [] {
      var f1 := WithColumn(f, names[0], Broadcast(f.height, vals[0]));
      ApplyWritesKeys(f1, names[1..], vals[1..]);
      assert Labels(names) == {names[0]} + Labels(names[1..]);
    }
  }

  /** After distinct scalar writes every written label holds its value in every row. */
  lemma {:induction false} ApplyWritesWritten(f: Frame, names: seq<string>, vals: seq<real>)
    requires |names| == |vals| && Distinct(names)
    ensures var g := ApplyWrites(f, names, vals);
      forall k :: 0 <= k < |names| ==> names[k] in g.data && g.data[names[k]] == Broadcast(f.height, vals[k])
    decreases |names|
  {
    if names != [] {
      var f1 := WithColumn(f, names[0], Broadcast(f.height, vals[0]));
      var rest, restVals := names[1..], vals[1..];
      assert Distinct(rest);
      ApplyWritesWritten(f1, rest, restVals);
      ApplyWritesOthers(f1, rest, restVals);
      var g := ApplyWrites(f1, rest, restVals);
      assert ApplyWrites(f, names, vals) == g;
      forall k | 0 <= k < |names|
        ensures names[k] in g.data && g.data[names[k]] == Broadcast(f.height, vals[k])
      {
        if k > 0 {
          assert names[k] == rest[k - 1] && vals[k] == restVals[k - 1];
        } else {
          assert names[0] !in rest;
        }
      }
    }
  }

  /** Scalar writes leave every column they do not name as it was. */
  lemma {:induction false} ApplyWritesOthers(f: Frame, names: seq<string>, vals: seq<real>)
    requires |names| == |vals|
    ensures var g := ApplyWrites(f, names, vals);
      forall c :: c in f.data && c !in names ==> c in g.data && g.data[c] == f.data[c]
    decreases |names|
  {
    if names != [] {
      var f1 := WithColumn(f, names[0], Broadcast(f.height, vals[0]));
      ApplyWritesOthers(f1, names[1..], vals[1..]);
    }
  }

  lemma UserFrameIsWrites(featureList: seq<string>, a: Applicant)
    ensures Distinct(WrittenLabels)
    ensures UserFrame(featureList, a) == ApplyWrites(ZeroFrame(featureList), WrittenLabels, WrittenValues(a))
  {
    var ns, vs := WrittenLabels, WrittenValues(a);
    var f := ZeroFrame(featureList);
    assert ns[1..] == ["LIMIT_BAL", "avg_pay_amt", "max_bill_amt", "EDUCATION", "MARRIAGE"];
    assert ns[1..][1..] == ["avg_pay_amt", "max_bill_amt", "EDUCATION", "MARRIAGE"];
    assert ns[1..][1..][1..] == ["max_bill_amt", "EDUCATION", "MARRIAGE"];
    assert ns[1..][1..][1..][1..] == ["EDUCATION", "MARRIAGE"];
    assert ns[1..][1..][1..][1..][1..] == ["MARRIAGE"];
    assert ns[1..][1..][1..][1..][1..][1..] == [];
  }

  /**
   * The frame has one row.  The feature list comes first, in its own order,
   * followed by the written labels it lacks (pandas appends a column when a
   * new label is assigned).  The written labels hold the form's values and
   * every other feature is 0.
   */
  lemma UserFrameContents(featureList: seq<string>, a: Applicant)
    requires Distinct(featureList)
    ensures var f := UserFrame(featureList, a);
      && WellFormed(f) && f.height == 1
      && featureList <= f.columns
      && Labels(f.columns) == Labels(featureList) + Labels(WrittenLabels)
      && (forall k :: 0 <= k < |WrittenLabels| ==>
            WrittenLabels[k] in f.data && f.data[WrittenLabels[k]] == [WrittenValues(a)[k]])
      && (forall c :: c in featureList && c !in WrittenLabels ==> c in f.data && f.data[c] == [0.0])
  {
    UserFrameIsWrites(featureList, a);
    WritesOnZeros(featureList, WrittenLabels, WrittenValues(a));
  }

  /** A zero frame after distinct scalar writes, whatever the labels and values. */
  lemma WritesOnZeros(featureList: seq<string>, names: seq<string>, vals: seq<real>)
    requires Distinct(featureList) && Distinct(names) && |vals| == |names|
    ensures var f := ApplyWrites(ZeroFrame(featureList), names, vals);
      && WellFormed(f) && f.height == 1
      && featureList <= f.columns
      && Labels(f.columns) == Labels(featureList) + Labels(names)
      && (forall k :: 0 <= k < |names| ==> names[k] in f.data && f.data[names[k]] == [vals[k]])
      && (forall c :: c in featureList && c !in names ==> c in f.data && f.data[c] == [0.0])
  {
    var f0 := ZeroFrame(featureList);
    ApplyWritesShape(f0, names, vals);
    ApplyWritesValues(f0, names, vals);
    var g := ApplyWrites(f0, names, vals);
    forall k | 0 <= k < |names|
      ensures names[k] in g.data && g.data[names[k]] == [vals[k]]
    {
      assert names[k] in Labels(names);
      assert g.data[names[k]] == Broadcast(1, vals[k]);
    }
    assert forall c :: c in featureList ==> c in f0.data;
  }

  /** When the feature list already holds all six written labels, no column is added. */
  lemma UserFrameNoExtraColumns(featureList: seq<string>, a: Applicant)
    requires Distinct(featureList)
    requires forall k :: 0 <= k < |WrittenLabels| ==> WrittenLabels[k] in featureList
    ensures UserFrame(featureList, a).columns == featureList
  {
    UserFrameIsWrites(featureList, a);
    ApplyWritesKeepsColumns(ZeroFrame(featureList), WrittenLabels, WrittenValues(a));
  }

  /** The form as it first appears: the widgets' default values and the first option of each select box. */
  const DefaultApplicant := Applicant(35, 50000, 10000, 60000, "Graduate", "Single")

  /** The frame's one row holds the written values under their labels and 0 under every other feature. */
  lemma FrameOfValues(featureList: seq<string>, a: Applicant, vs: seq<real>)
    requires Distinct(featureList) && WrittenValues(a) == vs
    ensures var f := UserFrame(featureList, a);
      && (forall k :: 0 <= k < |WrittenLabels| ==> WrittenLabels[k] in f.data && f.data[WrittenLabels[k]] == [vs[k]])
      && (forall c :: c in featureList && c !in WrittenLabels ==> c in f.data && f.data[c] == [0.0])
  {
    UserFrameContents(featureList, a);
  }

  /**
   * The default form lies within the widgets' ranges, and its frame's one
   * row holds age 35, limit 50000, payment 10000, bill 60000, education 1
   * and marital status 2, with 0 in every other feature.
   */
  lemma DefaultForm(featureList: seq<string>)
    requires Distinct(featureList)
    ensures FormRanges(DefaultApplicant)
    ensures var f := UserFrame(featureList, DefaultApplicant);
      var vs := [35.0, 50000.0, 10000.0, 60000.0, 1.0, 2.0];
      && (forall k :: 0 <= k < |WrittenLabels| ==> WrittenLabels[k] in f.data && f.data[WrittenLabels[k]] == [vs[k]])
      && (forall c :: c in featureList && c !in WrittenLabels ==> c in f.data && f.data[c] == [0.0])
  {
    assert WrittenValues(DefaultApplicant) == [35.0, 50000.0, 10000.0, 60000.0, 1.0, 2.0];
    FrameOfValues(featureList, DefaultApplicant, [35.0, 50000.0, 10000.0, 60000.0, 1.0, 2.0]);
  }

  // ---- score, level, summary, badge ----

  /** Python's `int()` on a float: truncation toward zero. */
  function Truncate(x: real): (r: int)
    ensures x >= 0.0 ==> r as real <= x < r as real + 1.0
    ensures x < 0.0 ==> r as real - 1.0 < x <= r as real
  {
    if x >= 0.0 then x.Floor else -((-x).Floor)
  }

  /** `int((1 - p) * 1000)` for the predicted default probability `p`. */
  function RiskScore(p: real): (score: int)
    ensures 0.0 <= p <= 1.0 ==> 0 <= score <= 1000
    ensures p <= 1.0 ==> score == ((1.0 - p) * 1000.0).Floor
  {
    Truncate((1.0 - p) * 1000.0)
  }

  lemma ScoreEndpoints()
    ensures RiskScore(0.0) == 1000 && RiskScore(1.0) == 0
    ensures RiskScore(0.301) == 699
  {
  }

  /** A higher default probability never gives a higher score. */
  lemma ScoreAntitone(p: real, p': real)
    requires 0.0 <= p <= p' <= 1.0
    ensures RiskScore(p') <= RiskScore(p)
  {
    assert (1.0 - p') * 1000.0 <= (1.0 - p) * 1000.0;
  }

  datatype RiskLevel = Low | Medium | High {
    /** The string the dashboard uses for the level. */
    function Label(): string {
      match this
      case Low => "Low"
      case Medium => "Medium"
      case High => "High"
    }

    /** Low < Medium < High in riskiness. */
    function Rank(): nat {
      match this
      case Low => 0
      case Medium => 1
      case High => 2
    }
  }

  function Bucket(score: int): (level: RiskLevel)
    ensures level == Low <==> score >= 700
    ensures level == Medium <==> 500 <= score < 700
    ensures level == High <==> score < 500
  {
    if score >= 700 then Low
    else if score >= 500 then Medium
    else High
  }

  lemma BucketBoundaries()
    ensures Bucket(1000) == Low && Bucket(700) == Low
    ensures Bucket(699) == Medium && Bucket(500) == Medium
    ensures Bucket(499) == High && Bucket(0) == High
  {
  }

  /** A higher score never gives a riskier level. */
  lemma BucketMonotone(score: int, score': int)
    requires score <= score'
    ensures Bucket(score').Rank() <= Bucket(score).Rank()
  {
  }

  /**
   * Through the score, the level is a function of the probability:
   * Low up to 0.3, Medium up to 0.5, High above.
   */
  lemma LevelByProbability(p: real)
    requires 0.0 <= p <= 1.0
    ensures Bucket(RiskScore(p)) == Low <==> p <= 0.3
    ensures Bucket(RiskScore(p)) == Medium <==> 0.3 < p <= 0.5
    ensures Bucket(RiskScore(p)) == High <==> p > 0.5
  {
  }

  /** The prewritten summaries, keyed by level label. */
  const AiSummaries: map<string, string> := map[
    "Low" := "The applicant is assessed as low credit risk, with timely payments and stable financial behavior. Their high monthly payments and responsible credit use support a strong credit profile.",
    "Medium" := "The applicant is assessed to have moderate credit risk. While they do not exhibit strong financial distress, there are some inconsistencies in repayments or moderate credit usage that warrant attention.",
    "High" := "The applicant is identified as high credit risk. Indicators such as delayed payments, low repayments relative to bills, or inconsistent credit behavior have significantly raised their default risk."
  ]

  /** `ai_summaries[risk_level]`: the lookup never misses, and each level has its own text. */
  function Summary(level: RiskLevel): (text: string)
    ensures level.Label() in AiSummaries && text == AiSummaries[level.Label()]
    ensures forall other: RiskLevel :: other != level ==> text != AiSummaries[other.Label()]
  {
    AiSummaries[level.Label()]
  }

  datatype Badge = Success | Warning | Error

  /** The `if risk_level == ...` chain that picks the badge style. */
  function BadgeFor(levelName: string): Badge {
    if levelName == "Low" then Success
    else if levelName == "Medium" then Warning
    else Error
  }

  lemma BadgeByLevel(level: RiskLevel)
    ensures BadgeFor(level.Label()) == match level
      case Low => Success
      case Medium => Warning
      case High => Error
  {
  }

  /** What the results panel shows for one prediction. */
  datatype Assessment = Assessment(score: int, level: RiskLevel, summary: string, badge: Badge)

  function Assess(p: real): (r: Assessment)
    ensures 0.0 <= p <= 1.0 ==> 0 <= r.score <= 1000
    ensures p <= 1.0 ==> r.score == ((1.0 - p) * 1000.0).Floor
    ensures r.level == Bucket(r.score)
    ensures r.level == Low <==> r.score >= 700
    ensures r.level == High <==> r.score < 500
    ensures r.summary == AiSummaries[r.level.Label()]
    ensures r.badge == Success <==> r.level == Low
    ensures r.badge == Warning <==> r.level == Medium
    ensures r.badge == Error <==> r.level == High
  {
    var score := RiskScore(p);
    var level := Bucket(score);
    Assessment(score, level, Summary(level), BadgeFor(level.Label()))
  }
}
