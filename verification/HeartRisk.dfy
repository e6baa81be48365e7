/** The heart-risk service's rules (`main.py`): the banding of the classifier's probability
    into a risk level, and the warning and tips chosen from the questionnaire. The
    classifier itself is not modelled: its probability is an input.

    The decisions are made on enumerations (the kind of warning, the risk factors, the kind
    of general tip); `Render` turns them into the texts the service returns. */
module HeartRisk {
  import opened Base

  datatype RiskLevel = Low | Medium | High

  function Label(r: RiskLevel): string {
    match r
    case Low => "Low Risk"
    case Medium => "Medium Risk"
    case High => "High Risk"
  }

  function Rank(r: RiskLevel): nat {
    match r
    case Low => 0
    case Medium => 1
    case High => 2
  }

  /** The thresholds as the double-precision values the comparisons use: `0.20` is the
      double nearest to one fifth, `0.50` is exact. */
  const LowBelow: real := 0.200000000000000011102230246251565404236316680908203125
  const MediumBelow: real := 0.5

  /** The banding of the probability of risk: each band is an interval, Low below the first
      threshold, Medium from it up to the second, High from the second on. */
  function Band(p: real): (r: RiskLevel)
    ensures r == Low <==> p < LowBelow
    ensures r == Medium <==> LowBelow <= p < MediumBelow
    ensures r == High <==> MediumBelow <= p
  {
    if p < LowBelow then Low
    else if p < MediumBelow then Medium
    else High
  }

  /** A higher probability never gives a lower band. */
  lemma BandMonotone(p: real, q: real)
    requires p <= q
    ensures Rank(Band(p)) <= Rank(Band(q))
  {
  }

  function Advice(r: RiskLevel): string {
    match r
    case Low => "Your overall risk profile is low. Great job! Review your personalized tips for maintenance."
    case Medium => "Your overall risk profile is medium. This indicates some risk factors should be addressed. We recommend reviewing your tips and scheduling a professional assessment with your doctor."
    case High => "Your overall risk profile is high. Please seek immediate medical advice or consult a doctor."
  }

  /** `HeartRiskInput`: the ten answers in `MODEL_FEATURE_COLUMNS` order. A flag is set when
      it equals 1. */
  datatype Profile = Profile(age: real, gender: int, highBp: int, highCholesterol: int,
                             smoking: int, familyHistory: int, chronicStress: int,
                             shortnessOfBreath: int, painArmsJawBack: int, coldSweatsNausea: int)

  predicate HasAcuteSymptoms(p: Profile) {
    p.shortnessOfBreath == 1 || p.painArmsJawBack == 1 || p.coldSweatsNausea == 1
  }

  /** The risk factors that earn a personalized tip. */
  datatype Factor = Smoking | HighBp | HighCholesterol | ChronicStress | FamilyHistory

  /** The order in which the factors are looked at. */
  const FactorOrder: seq<Factor> := [Smoking, HighBp, HighCholesterol, ChronicStress, FamilyHistory]

  function Answer(p: Profile, f: Factor): int {
    match f
    case Smoking => p.smoking
    case HighBp => p.highBp
    case HighCholesterol => p.highCholesterol
    case ChronicStress => p.chronicStress
    case FamilyHistory => p.familyHistory
  }

  datatype Warning = NoWarning | Urgent | Recommended

  /** The five fixed general tips. */
  datatype GeneralTip = WeeklyActivity | BalancedDiet | FullCheckUp | ModerateActivity | DailyWalk

  /** The result of `generate_personalized_tips` before it is turned into text. */
  datatype Tips = Tips(warning: Warning, personalized: seq<Factor>, general: seq<GeneralTip>)

  /** `generate_personalized_tips`: a warning alone for symptoms with a Medium or High
      profile; otherwise the tips of the factors answered 1, in the fixed order, and general
      tips that depend on whether there was any. */
  function GenerateTips(p: Profile, risk: RiskLevel): (t: Tips)
    ensures t.warning != NoWarning ==> t.personalized == [] && t.general == []
  {
    if HasAcuteSymptoms(p) && risk == High then Tips(Urgent, [], [])
    else if HasAcuteSymptoms(p) && risk == Medium then Tips(Recommended, [], [])
    else
      var personalized :=
        (if p.smoking == 1 then [Smoking] else [])
        + (if p.highBp == 1 then [HighBp] else [])
        + (if p.highCholesterol == 1 then [HighCholesterol] else [])
        + (if p.chronicStress == 1 then [ChronicStress] else [])
        + (if p.familyHistory == 1 then [FamilyHistory] else []);
      var general :=
        if personalized == [] then (if risk == Low then [WeeklyActivity, BalancedDiet] else [FullCheckUp, ModerateActivity])
        else [DailyWalk];
      Tips(NoWarning, personalized, general)
  }

  /** A warning is given exactly for symptoms with a Medium or High profile: the urgent one
      for High, the recommendation for Medium. */
  lemma WarningExactlyForAcuteSymptoms(p: Profile, risk: RiskLevel)
    ensures GenerateTips(p, risk).warning == Urgent <==> HasAcuteSymptoms(p) && risk == High
    ensures GenerateTips(p, risk).warning == Recommended <==> HasAcuteSymptoms(p) && risk == Medium
  {
  }

  /** With a Low profile the symptoms are not looked at: the result is that of the same
      answers without symptoms. */
  lemma LowRiskIgnoresSymptoms(p: Profile)
    ensures GenerateTips(p, Low)
         == GenerateTips(p.(shortnessOfBreath := 0, painArmsJawBack := 0, coldSweatsNausea := 0), Low)
  {
  }

  /** The factors of `fs` answered 1, in the order of `fs`. */
  function Raised(p: Profile, fs: seq<Factor>): seq<Factor> {
    if |fs| == 0 then []
    else (if Answer(p, fs[0]) == 1 then [fs[0]] else []) + Raised(p, fs[1..])
  }

  /** `Raised` keeps exactly the factors answered 1. */
  lemma {:induction false} RaisedMembers(p: Profile, fs: seq<Factor>, f: Factor)
    ensures f in Raised(p, fs) <==> f in fs && Answer(p, f) == 1
    decreases |fs|
  {
    if |fs| > 0 {
      RaisedMembers(p, fs[1..], f);
      assert fs == [fs[0]] + fs[1..];
    }
  }

  /** `Raised` keeps the order of `fs`, so distinct factors stay distinct. */
  lemma {:induction false} RaisedDistinct(p: Profile, fs: seq<Factor>)
    requires forall i, j :: 0 <= i < j < |fs| ==> fs[i] != fs[j]
    ensures forall k, m :: 0 <= k < m < |Raised(p, fs)| ==> Raised(p, fs)[k] != Raised(p, fs)[m]
    decreases |fs|
  {
    if |fs| > 0 {
      assert fs[0] !in fs[1..] by {
        forall i | 0 <= i < |fs[1..]| ensures fs[1..][i] != fs[0] {
          assert fs[1..][i] == fs[i + 1];
        }
      }
      RaisedDistinct(p, fs[1..]);
      var r := Raised(p, fs);
      var rest := Raised(p, fs[1..]);
      if Answer(p, fs[0]) == 1 {
        assert r == [fs[0]] + rest;
        forall k, m | 0 <= k < m < |r| ensures r[k] != r[m] {
          assert r[m] == rest[m - 1];
          if k == 0 {
            assert r[0] == fs[0];
            RaisedMembers(p, fs[1..], fs[0]);
            assert rest[m - 1] in rest;
          } else {
            assert r[k] == rest[k - 1];
          }
        }
      } else {
        assert r == rest;
      }
    }
  }

  /** `Raised` over the fixed order, spelled out factor by factor. */
  lemma RaisedInFactorOrder(p: Profile)
    ensures Raised(p, FactorOrder)
         == (if p.smoking == 1 then [Smoking] else [])
          + (if p.highBp == 1 then [HighBp] else [])
          + (if p.highCholesterol == 1 then [HighCholesterol] else [])
          + (if p.chronicStress == 1 then [ChronicStress] else [])
          + (if p.familyHistory == 1 then [FamilyHistory] else [])
  {
    var s5 := [FamilyHistory];
    var s4 := [ChronicStress] + s5;
    var s3 := [HighCholesterol] + s4;
    var s2 := [HighBp] + s3;
    var s1 := [Smoking] + s2;
    assert s5[1..] == [];
    assert s4[1..] == s5 && s3[1..] == s4 && s2[1..] == s3 && s1[1..] == s2;
    assert s1 == FactorOrder;
    assert Raised(p, s5) == (if p.familyHistory == 1 then [FamilyHistory] else []);
    assert Raised(p, s4) == (if p.chronicStress == 1 then [ChronicStress] else []) + Raised(p, s5);
    assert Raised(p, s3) == (if p.highCholesterol == 1 then [HighCholesterol] else []) + Raised(p, s4);
    assert Raised(p, s2) == (if p.highBp == 1 then [HighBp] else []) + Raised(p, s3);
    assert Raised(p, s1) == (if p.smoking == 1 then [Smoking] else []) + Raised(p, s2);
  }

  /** Without a warning, the personalized tips are the factors answered 1 in the fixed order. */
  lemma PersonalizedFollowsFactorOrder(p: Profile, risk: RiskLevel)
    requires !(HasAcuteSymptoms(p) && risk != Low)
    ensures GenerateTips(p, risk).personalized == Raised(p, FactorOrder)
  {
    RaisedInFactorOrder(p);
  }

  /** Every personalized tip is for a factor answered 1, every factor answered 1 gets one
      unless a warning was given, and none appears twice. */
  lemma PersonalizedExactlyRaised(p: Profile, risk: RiskLevel)
    ensures var t := GenerateTips(p, risk);
      && (forall f :: f in t.personalized ==> Answer(p, f) == 1)
      && (t.warning == NoWarning ==> forall f :: Answer(p, f) == 1 ==> f in t.personalized)
      && (forall k, m :: 0 <= k < m < |t.personalized| ==> t.personalized[k] != t.personalized[m])
  {
    if !(HasAcuteSymptoms(p) && risk != Low) {
      PersonalizedFollowsFactorOrder(p, risk);
      RaisedDistinct(p, FactorOrder);
      forall f ensures f in Raised(p, FactorOrder) <==> Answer(p, f) == 1 {
        RaisedMembers(p, FactorOrder, f);
      }
    }
  }

  /** The general tips: without personalized tips, the maintenance pair for a Low profile and
      the check-up pair otherwise; with at least one, the single walking tip. */
  lemma GeneralTipsRule(p: Profile, risk: RiskLevel)
    requires GenerateTips(p, risk).warning == NoWarning
    ensures var t := GenerateTips(p, risk);
      && (t.personalized == [] && risk == Low ==> t.general == [WeeklyActivity, BalancedDiet])
      && (t.personalized == [] && risk != Low ==> t.general == [FullCheckUp, ModerateActivity])
      && (t.personalized != [] ==> t.general == [DailyWalk])
      && |t.general| == (if t.personalized == [] then 2 else 1)
  {
  }

  function WarningText(w: Warning): string {
    match w
    case NoWarning => ""
    case Urgent => "URGENT: " + "Symptoms reported with a High Risk profile need immediate medical assessment. Contact a doctor now."
    case Recommended => "RECOMMENDED: " + "Symptoms reported need a medical assessment. Please contact a doctor as soon as possible to review your profile."
  }

  datatype TipCategory = TipCategory(title: string, points: seq<string>)

  function TipFor(f: Factor): TipCategory {
    TipCategory(TipTitle(f), TipPoints(f))
  }

  function TipTitle(f: Factor): string {
    match f
    case Smoking => "QUIT SMOKING"
    case HighBp => "BLOOD PRESSURE MANAGEMENT"
    case HighCholesterol => "CHOLESTEROL MANAGEMENT"
    case ChronicStress => "MENTAL HEALTH"
    case FamilyHistory => "FAMILY HISTORY"
  }

  /** A category's two numbered points. */
  function TwoPoints(first: string, second: string): (r: seq<string>)
    ensures |r| == 2 && r[0] == first && r[1] == second
  {
    [first, second]
  }

  function TipPoints(f: Factor): seq<string> {
    match f
    case Smoking => TwoPoints(
      "1. Drink more water to flush toxins.",
      "2. Add vitamin C daily to support your lungs.")
    case HighBp => TwoPoints(
      "1. Cut down salt to help lower pressure.",
      "2. Check your BP regularly to stay on track.")
    case HighCholesterol => TwoPoints(
      "1. Eat more fiber (oats, fruits) to reduce bad fats.",
      "2. Avoid fried foods to keep levels stable.")
    case ChronicStress => TwoPoints(
      "1. Dedicate time daily for relaxation, mindfulness, or deep breathing.",
      "2. Ensure you get 7-9 hours of quality sleep daily.")
    case FamilyHistory => TwoPoints(
      "1. Get routine checkups to catch issues early.",
      "2. Maintain a healthy weight to reduce risk.")
  }

  function GeneralText(g: GeneralTip): string {
    match g
    case WeeklyActivity => "Maintain your healthy profile by aiming for at least 150 minutes of weekly activity."
    case BalancedDiet => "Continue eating a balanced diet low in processed foods and added sugars."
    case FullCheckUp => "Schedule a full check-up with a healthcare provider to identify unseen risk factors."
    case ModerateActivity => "Aim for at least 30 minutes of moderate activity (like brisk walking) most days of the week."
    case DailyWalk => "Walk 30 minutes daily or aim for 150 minutes of moderate activity per week."
  }

  /** The tips as the service returns them: `{urgent_warning, personalized_tips, general_tips}`. */
  datatype RenderedTips = RenderedTips(urgentWarning: string, personalizedTips: seq<TipCategory>, generalTips: seq<string>)

  /** The `personalized_tips` list: one category per factor, in order. */
  function RenderFactors(fs: seq<Factor>): (r: seq<TipCategory>)
    ensures |r| == |fs|
    ensures forall k :: 0 <= k < |fs| ==> r[k] == TipFor(fs[k])
  {
    seq(|fs|, k requires 0 <= k < |fs| => TipFor(fs[k]))
  }

  function Render(t: Tips): (r: RenderedTips)
    ensures r.personalizedTips == RenderFactors(t.personalized) && |r.generalTips| == |t.general|
    ensures forall k :: 0 <= k < |t.general| ==> r.generalTips[k] == GeneralText(t.general[k])
  {
    RenderedTips(WarningText(t.warning),
                 RenderFactors(t.personalized),
                 seq(|t.general|, k requires 0 <= k < |t.general| => GeneralText(t.general[k])))
  }

  /** A warning's text starts with its own tag. */
  lemma WarningTagged(w: Warning)
    requires w != NoWarning
    ensures |WarningText(w)| > 0 && WarningText(w)[0] == (if w == Urgent then 'U' else 'R')
  {
    match w
    case Urgent =>
    case Recommended =>
  }

  /** The warning text is empty exactly when there is no warning. */
  lemma WarningTextEmpty(w: Warning)
    ensures WarningText(w) == "" <==> w == NoWarning
  {
    if w != NoWarning {
      WarningTagged(w);
    }
  }

  /** The two warnings read differently. */
  lemma WarningTextsDiffer(w: Warning, v: Warning)
    requires w != v
    ensures WarningText(w) != WarningText(v)
  {
    if w == NoWarning || v == NoWarning {
      WarningTextEmpty(w);
      WarningTextEmpty(v);
    } else {
      WarningTagged(w);
      WarningTagged(v);
      assert WarningText(w)[0] != WarningText(v)[0];
    }
  }

  function Initial(f: Factor): char {
    match f
    case Smoking => 'Q'
    case HighBp => 'B'
    case HighCholesterol => 'C'
    case ChronicStress => 'M'
    case FamilyHistory => 'F'
  }

  lemma TitleStartsWithInitial(f: Factor)
    ensures |TipTitle(f)| > 0 && TipTitle(f)[0] == Initial(f)
  {
    match f
    case Smoking =>
    case HighBp =>
    case HighCholesterol =>
    case ChronicStress =>
    case FamilyHistory =>
  }

  /** Every tip has two points, and distinct factors have distinct titles. */
  lemma TitlesDistinct(f: Factor, g: Factor)
    ensures |TipFor(f).points| == 2
    ensures f != g ==> TipFor(f).title != TipFor(g).title
  {
    if f != g {
      TitleStartsWithInitial(f);
      TitleStartsWithInitial(g);
      InitialsDistinct(f, g);
    }
  }

  lemma InitialsDistinct(f: Factor, g: Factor)
    requires f != g
    ensures Initial(f) != Initial(g)
  {
  }

  /** Rendering keeps the factors' tips in order: two points each, and distinct titles for
      distinct factors. */
  lemma RenderedTitlesDistinct(fs: seq<Factor>)
    requires forall k, m :: 0 <= k < m < |fs| ==> fs[k] != fs[m]
    ensures var r := RenderFactors(fs);
      && (forall k :: 0 <= k < |r| ==> |r[k].points| == 2)
      && (forall k, m :: 0 <= k < m < |r| ==> r[k].title != r[m].title)
  {
    var r := RenderFactors(fs);
    forall k | 0 <= k < |r| ensures |r[k].points| == 2 {
      TitlesDistinct(fs[k], fs[k]);
    }
    forall k, m | 0 <= k < m < |r| ensures r[k].title != r[m].title {
      TitlesDistinct(fs[k], fs[m]);
    }
  }

  /** `c` is the tip of some factor answered 1. */
  predicate IsRaisedTip(p: Profile, c: TipCategory) {
    exists f :: Answer(p, f) == 1 && c == TipFor(f)
  }

  /** Rendering a list of factors answered 1 gives tips of factors answered 1, and every
      factor in the list has its tip in the result. */
  lemma RenderedFactorsRaised(p: Profile, fs: seq<Factor>)
    requires forall f :: f in fs ==> Answer(p, f) == 1
    ensures var r := RenderFactors(fs);
      && (forall k :: 0 <= k < |r| ==> IsRaisedTip(p, r[k]))
      && (forall f :: f in fs ==> TipFor(f) in r)
  {
    var r := RenderFactors(fs);
    forall k | 0 <= k < |r| ensures IsRaisedTip(p, r[k]) {
      var f := fs[k];
      assert f in fs;
      assert Answer(p, f) == 1 && r[k] == TipFor(f);
    }
    forall f | f in fs ensures TipFor(f) in r {
      var k :| 0 <= k < |fs| && fs[k] == f;
      assert r[k] == TipFor(f);
    }
  }

  /** In the returned tips (`Render` puts `RenderFactors` of the personalized factors in
      `personalized_tips`), every entry is the tip of a factor answered 1, each with two
      points, and no title appears twice; without a warning every factor answered 1 has its
      tip there. */
  lemma RenderedTipsAreRaised(p: Profile, risk: RiskLevel)
    ensures var t := GenerateTips(p, risk); var r := RenderFactors(t.personalized);
      && (forall k :: 0 <= k < |r| ==> IsRaisedTip(p, r[k]))
      && (forall k :: 0 <= k < |r| ==> |r[k].points| == 2)
      && (forall k, m :: 0 <= k < m < |r| ==> r[k].title != r[m].title)
      && (t.warning == NoWarning ==> forall f :: Answer(p, f) == 1 ==> TipFor(f) in r)
  {
    var t := GenerateTips(p, risk);
    PersonalizedExactlyRaised(p, risk);
    RenderedTitlesDistinct(t.personalized);
    RenderedFactorsRaised(p, t.personalized);
  }

  /** The `/predict` answer: the error object when no model was loaded, otherwise the band,
      the probability, and the tips for the band. */
  datatype Prediction =
    | ModelNotLoaded
    | Prediction(level: RiskLevel, probability: real, tips: Tips)

  /** `predict_risk`, with the classifier's probability of risk as `proba`. */
  function PredictRisk(modelLoaded: bool, p: Profile, proba: real): (r: Prediction)
    ensures r.ModelNotLoaded? <==> !modelLoaded
  {
    if !modelLoaded then ModelNotLoaded
    else
      var level := Band(proba);
      Prediction(level, proba, GenerateTips(p, level))
  }

  /** The fields of a successful answer: `risk_level`, `advice`, `probability`, and the
      rendered tips. */
  datatype Answered = Answered(riskLevel: string, advice: string, probability: real, tips: RenderedTips)

  function Respond(r: Prediction): (a: Option<Answered>)
    ensures a.None? <==> r.ModelNotLoaded?
  {
    if r.ModelNotLoaded? then None
    else Some(Answered(Label(r.level), Advice(r.level), r.probability, Render(r.tips)))
  }

  /** A prediction reports the probability unchanged, the band it falls in, and the urgent
      warning only for a probability of at least one half with symptoms; a warning comes
      without tips. */
  lemma PredictionIsConsistent(p: Profile, proba: real)
    ensures var r := PredictRisk(true, p, proba);
      && r.probability == proba
      && (r.level == Low <==> proba < LowBelow)
      && (r.level == High <==> MediumBelow <= proba)
      && (r.tips.warning == Urgent <==> MediumBelow <= proba && HasAcuteSymptoms(p))
      && (r.tips.warning == Recommended <==> LowBelow <= proba < MediumBelow && HasAcuteSymptoms(p))
      && (r.tips.warning != NoWarning ==> r.tips.personalized == [] && r.tips.general == [])
  {
  }

  /** The labels name the bands apart. */
  lemma LabelsDistinct(a: RiskLevel, b: RiskLevel)
    ensures Label(a) == Label(b) <==> a == b
  {
    if a != b {
      assert Label(a)[0] != Label(b)[0];
    }
  }

  /** The answer names the prediction's band and carries a non-empty warning exactly when
      the prediction has one. */
  lemma AnswerNamesBand(r: Prediction)
    requires r.Prediction?
    ensures Respond(r).Some?
    ensures var a := Respond(r).value;
      && a.probability == r.probability
      && (a.riskLevel == "Low Risk" <==> r.level == Low)
      && (a.riskLevel == "High Risk" <==> r.level == High)
      && (a.tips.urgentWarning == "" <==> r.tips.warning == NoWarning)
  {
    RespondFields(r);
    LabelNames(r.level);
    WarningTextEmpty(r.tips.warning);
  }

  lemma RespondFields(r: Prediction)
    requires r.Prediction?
    ensures Respond(r).Some?
    ensures Respond(r).value.riskLevel == Label(r.level)
    ensures Respond(r).value.probability == r.probability
    ensures Respond(r).value.tips.urgentWarning == WarningText(r.tips.warning)
  {
  }

  /** Only the Low band is labelled "Low Risk", and only the High band "High Risk". */
  lemma LabelNames(l: RiskLevel)
    ensures Label(l) == "Low Risk" <==> l == Low
    ensures Label(l) == "High Risk" <==> l == High
  {
    LabelsDistinct(l, Low);
    LabelsDistinct(l, High);
  }
}
