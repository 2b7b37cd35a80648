/** The 7-feature input record of the interest-rate model
    (utils/helpers.py, process_prediction_input). */
module Features {
  import opened Optional
  import GradeEncoding
  import Settings

  /** Column names of the record, in the order the model expects. */
  const FeatureNames: seq<string> :=
    ["dti", "loan_amount", "term_months", "grade_encoded",
     "verification_status_Verified", "verification_status_Not Verified", "purpose_debt"]

  /** The verification slot pair: (Verified, Not Verified). Everything other
      than the two exact strings, 'Source Verified' included, is the all-zero
      baseline. */
  function VerificationSlots(verificationStatus: string): (real, real) {
    if verificationStatus == "Verified" then (1.0, 0.0)
    else if verificationStatus == "Not Verified" then (0.0, 1.0)
    else (0.0, 0.0)
  }

  /** The purpose slot: set only for the exact string 'Debt consolidation'. */
  function PurposeSlot(purpose: string): real {
    if purpose == "Debt consolidation" then 1.0 else 0.0
  }

  /** The record's value: the inputs in declared order, or None when
      calculate_grade_encoded raises on the sub-grade. */
  function FeatureVector(dti: real, loanAmount: real, termMonths: int, grade: string,
                         subGrade: string, verificationStatus: string, purpose: string): Option<seq<real>>
  {
    match GradeEncoding.CalculateGradeEncoded(grade, subGrade)
    case None => None
    case Some(code) =>
      var (verified, notVerified) := VerificationSlots(verificationStatus);
      Some([dti, loanAmount, termMonths as real, code as real,
            verified, notVerified, PurposeSlot(purpose)])
  }

  /** process_prediction_input: a dictionary of zeroed slots, the
      verification and purpose slots overwritten when their input matches,
      then the columns read out in FEATURE_NAMES order. */
  method ProcessPredictionInput(dti: real, loanAmount: real, termMonths: int, grade: string,
                                subGrade: string, verificationStatus: string, purpose: string)
    returns (features: Option<seq<real>>)
    ensures features == FeatureVector(dti, loanAmount, termMonths, grade, subGrade,
                                      verificationStatus, purpose)
    ensures features.Some? ==> |features.value| == |FeatureNames|
  {
    var encoded := GradeEncoding.CalculateGradeEncoded(grade, subGrade);
    if encoded.None? {
      return None;
    }
    var data: map<string, real> := map[
      "dti" := dti,
      "loan_amount" := loanAmount,
      "term_months" := termMonths as real,
      "grade_encoded" := encoded.value as real,
      "verification_status_Verified" := 0.0,
      "verification_status_Not Verified" := 0.0,
      "purpose_debt" := 0.0];
    if verificationStatus == "Verified" {
      data := data["verification_status_Verified" := 1.0];
    } else if verificationStatus == "Not Verified" {
      data := data["verification_status_Not Verified" := 1.0];
    }
    if purpose == "Debt consolidation" {
      data := data["purpose_debt" := 1.0];
    }
    ghost var expected := FeatureVector(dti, loanAmount, termMonths, grade, subGrade,
                                        verificationStatus, purpose).value;
    assert forall k :: 0 <= k < |FeatureNames| ==>
      FeatureNames[k] in data && data[FeatureNames[k]] == expected[k];
    var row: seq<real> := [];
    var i := 0;
    while i < |FeatureNames|
      invariant 0 <= i <= |FeatureNames|
      invariant row == expected[..i]
    {
      assert expected[..i + 1] == expected[..i] + [expected[i]];
      row := row + [data[FeatureNames[i]]];
      i := i + 1;
    }
    assert |expected| == |FeatureNames| && row == expected;
    features := Some(row);
  }

  /** A recorded verification class, read back from the two slots. */
  datatype Verification = IsVerified | IsNotVerified | Baseline

  function VerificationOf(verificationStatus: string): Verification {
    if verificationStatus == "Verified" then IsVerified
    else if verificationStatus == "Not Verified" then IsNotVerified
    else Baseline
  }

  /** Reads the class back from a slot pair the encoder produced. */
  function DecodeVerification(verified: real, notVerified: real): Verification {
    if verified == 1.0 then IsVerified
    else if notVerified == 1.0 then IsNotVerified
    else Baseline
  }

  /** The record's layout and contents: seven values in declared order, the
      first three inputs copied, the grade code from calculate_grade_encoded,
      slots that are 0 or 1 with the two verification slots never both 1,
      a verification class that reads back from its slots, and a purpose
      slot set exactly for 'Debt consolidation'. */
  lemma FeatureVectorContents(dti: real, loanAmount: real, termMonths: int, grade: string,
                              subGrade: string, verificationStatus: string, purpose: string)
    ensures var f := FeatureVector(dti, loanAmount, termMonths, grade, subGrade, verificationStatus, purpose);
      var code := GradeEncoding.CalculateGradeEncoded(grade, subGrade);
      && (f.Some? <==> code.Some?)
      && (f.Some? ==>
        && |f.value| == |FeatureNames| == 7
        && f.value[0] == dti && f.value[1] == loanAmount && f.value[2] == termMonths as real
        && f.value[3] == code.value as real
        && (forall k :: 4 <= k < 7 ==> f.value[k] == 0.0 || f.value[k] == 1.0)
        && !(f.value[4] == 1.0 && f.value[5] == 1.0)
        && DecodeVerification(f.value[4], f.value[5]) == VerificationOf(verificationStatus)
        && (f.value[6] == 1.0 <==> purpose == "Debt consolidation"))
  {
  }

  /** The verification policy spelled out: Verified is (1, 0), Not Verified
      is (0, 1), Source Verified and every other string is (0, 0). */
  lemma VerificationSlotCases(verificationStatus: string)
    ensures verificationStatus == "Verified" ==> VerificationSlots(verificationStatus) == (1.0, 0.0)
    ensures verificationStatus == "Not Verified" ==> VerificationSlots(verificationStatus) == (0.0, 1.0)
    ensures verificationStatus != "Verified" && verificationStatus != "Not Verified" ==>
      VerificationSlots(verificationStatus) == (0.0, 0.0)
    ensures VerificationSlots("Source Verified") == (0.0, 0.0)
  {
  }

  /** Of the ten purposes the form offers, only the first, 'Debt consolidation',
      sets the purpose slot. */
  lemma OnePurposeSetsDebtSlot()
    ensures forall i :: 0 <= i < |Settings.PurposeOptions| ==>
      (PurposeSlot(Settings.PurposeOptions[i]) == 1.0 <==> i == 0)
  {
    Settings.PurposeOptionsDistinct();
  }
}
