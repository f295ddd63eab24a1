/**
 * The two ways a transaction is collected: the manual form, whose 30 text
 * fields are each validated and then turned into an upper-case keyed object,
 * and the JSON file picker / drop zone, which only hands JSON files on.
 */
module Input {
  import opened Wrappers
  import opened Strings
  import opened JsValues
  import opened Normalizer

  /** The texts typed into v1..v28. */
  type FeatureTexts = s: seq<string> | |s| == FeatureCount witness seq(28, _ => "")

  /** The manual form's values: v1..v28, amount, time, all as typed. */
  datatype FormValues = FormValues(features: FeatureTexts, amount: string, time: string) {

    /** The text of field `k` in the order v1..v28, amount, time. */
    function Get(k: nat): string
      requires 1 <= k <= FieldCount
    {
      if k <= FeatureCount then features[k - 1]
      else if k == FeatureCount + 1 then amount
      else time
    }
  }

  /** The form's initial and reset state: every field empty. */
  const EmptyForm := FormValues(seq(28, _ => ""), "", "")

  /** The per-field rule: the text is a number (`!isNaN(Number(val))`) and is not blank once trimmed. */
  predicate FieldValid(text: string, parse: string -> Num) {
    parse(text) != NaN && Trim(text) != ""
  }

  /** The form can be submitted only when all 30 fields pass the per-field rule. */
  predicate FormValid(form: FormValues, parse: string -> Num) {
    forall k :: 1 <= k <= FieldCount ==> FieldValid(form.Get(k), parse)
  }

  /** A blank field is rejected whatever the number parser makes of it. */
  lemma BlankFieldInvalid(text: string, parse: string -> Num)
    ensures AllWhitespace(text) ==> !FieldValid(text, parse)
    ensures FieldValid(text, parse) ==> exists i :: 0 <= i < |text| && !IsJsWhitespace(text[i])
  {
  }

  /** A freshly reset form cannot be submitted. */
  lemma EmptyFormInvalid(parse: string -> Num)
    ensures !FormValid(EmptyForm, parse)
  {
    assert EmptyForm.Get(1) == "";
    assert !FieldValid("", parse);
  }

  /** The record the form's texts convert to: field `k` is `Number()` of text `k`. */
  function FromForm(form: FormValues, parse: string -> Num): (t: Transaction)
    ensures forall k :: 1 <= k <= FieldCount ==> t.Get(k) == parse(form.Get(k))
  {
    var features := seq(FeatureCount, i requires 0 <= i < FeatureCount => parse(form.features[i]));
    assert |features| == FeatureCount;
    Transaction(features, parse(form.amount), parse(form.time))
  }

  /** `onSubmit`'s conversion: the values keyed `V1`..`V28`, `Amount`, `Time`, each coerced with `Number()`. */
  function FormToRaw(form: FormValues, parse: string -> Num): (m: map<string, Value>)
    ensures forall k :: 1 <= k <= FieldCount ==>
      Key(FieldAt(k), Upper) in m && m[Key(FieldAt(k), Upper)] == Number(parse(form.Get(k)))
  {
    Encode(FromForm(form, parse), Upper)
  }

  /**
   * The object the form builds normalises to the record of the form's own
   * values, and a valid form yields no not-a-number field.
   */
  lemma FormSubmissionNormalizes(form: FormValues, parse: string -> Num)
    ensures Normalize(FormToRaw(form, parse), parse) == Success(FromForm(form, parse))
    ensures FormValid(form, parse) ==> forall k :: 1 <= k <= FieldCount ==> FromForm(form, parse).Get(k) != NaN
  {
    NormalizeEncodeRoundTrip(FromForm(form, parse), Upper, parse);
  }

  /** The form's "Fill Sample Data" values. */
  const SampleTexts: seq<string> :=
    [ "-1.3598", "-0.07278", "2.5363", "1.3781", "-0.3383", "0.4624", "0.2396", "0.0986",
      "0.3634", "0.0908", "-0.5514", "-0.6178", "-0.9913", "-0.3111", "1.4681", "-0.4704",
      "0.2079", "0.0257", "0.4034", "0.2514", "-0.0182", "-0.0351", "-0.1435", "0.1001",
      "-0.0458", "0.0616", "-0.0823", "0.0085" ]

  const SampleForm := FormValues(SampleTexts, "100.00", "45000")

  /** Submitting the sample yields a complete record: V1 from "-1.3598", Amount from "100.00", Time from "45000". */
  lemma SampleSubmission(parse: string -> Num)
    ensures Normalize(FormToRaw(SampleForm, parse), parse).Success?
    ensures var t := Normalize(FormToRaw(SampleForm, parse), parse).value;
      t.Get(1) == parse("-1.3598") && t.Get(28) == parse("0.0085")
      && t.amount == parse("100.00") && t.time == parse("45000")
  {
    FormSubmissionNormalizes(SampleForm, parse);
    assert SampleForm.Get(1) == "-1.3598" && SampleForm.Get(28) == "0.0085";
  }

  /** The name and declared MIME type of a chosen or dropped file. */
  datatype FileInfo = FileInfo(mimeType: string, name: string)

  /** A file is read only if its type is `application/json` or its name ends with `.json` (case-sensitive). */
  predicate AcceptsFile(file: FileInfo) {
    file.mimeType == "application/json" || EndsWith(file.name, ".json")
  }

  /** A file is accepted exactly when it declares the JSON type or its name is some stem followed by `.json`. */
  lemma AcceptsFileCharacterised(file: FileInfo)
    ensures AcceptsFile(file) <==>
      file.mimeType == "application/json" || exists stem :: file.name == stem + ".json"
  {
    EndsWithIsConcatenation(file.name, ".json");
    if exists stem :: file.name == stem + ".json" {
      var stem :| file.name == stem + ".json";
      assert EndsWith(stem + ".json", ".json");
    }
  }

  /** Any name ending in `.json` is accepted whatever its type; a text file named `data.txt` is not. */
  lemma FileAcceptanceExamples(prefix: string, mimeType: string)
    ensures AcceptsFile(FileInfo(mimeType, prefix + ".json"))
    ensures !AcceptsFile(FileInfo("text/plain", "data.txt"))
    ensures !AcceptsFile(FileInfo("", "DATA.JSON"))
  {
    EndsWithIsConcatenation(prefix + ".json", ".json");
    assert "data.txt"[4..] != ".json";
    assert "DATA.JSON"[4..] != ".json";
  }
}
