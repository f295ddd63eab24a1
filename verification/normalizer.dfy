/**
 * `normalizeJsonData`: turns an untyped key/value object into the fixed
 * 30-field transaction record the scoring service expects, looking each field
 * up under its upper-case key first and its lower-case key second, and failing
 * on the first field found under neither.
 */
module Normalizer {
  import opened Wrappers
  import opened Strings
  import opened JsValues

  const FeatureCount: nat := 28
  /** The 28 features, then Amount, then Time. */
  const FieldCount: nat := 30

  /** The 28 anonymised features of a transaction, in order V1..V28. */
  type Features = s: seq<Num> | |s| == FeatureCount witness seq(28, _ => NaN)

  /** The canonical record sent to the scoring service. */
  datatype Transaction = Transaction(features: Features, amount: Num, time: Num) {

    /** Field `k` in the order V1..V28, Amount, Time. */
    function Get(k: nat): Num
      requires 1 <= k <= FieldCount
    {
      if k <= FeatureCount then features[k - 1]
      else if k == FeatureCount + 1 then amount
      else time
    }
  }

  /** Two records with the same 30 fields are the same record. */
  lemma TransactionsEqual(t: Transaction, u: Transaction)
    requires forall k :: 1 <= k <= FieldCount ==> t.Get(k) == u.Get(k)
    ensures t == u
  {
    forall i | 0 <= i < FeatureCount
      ensures t.features[i] == u.features[i]
    {
      assert t.Get(i + 1) == u.Get(i + 1);
    }
    assert t.amount == u.amount by { assert t.Get(FeatureCount + 1) == u.Get(FeatureCount + 1); }
    assert t.time == u.time by { assert t.Get(FieldCount) == u.Get(FieldCount); }
  }

  datatype Field = Feature(index: nat) | AmountField | TimeField

  /** The field at position `k` of the canonical order. */
  function FieldAt(k: nat): Field
    requires 1 <= k <= FieldCount
  {
    if k <= FeatureCount then Feature(k)
    else if k == FeatureCount + 1 then AmountField
    else TimeField
  }

  datatype KeyCase = Upper | Lower

  /** The key a field is stored under: `V7`/`v7`, `Amount`/`amount`, `Time`/`time`. */
  function Key(f: Field, c: KeyCase): string {
    match f
    case Feature(i) => (if c == Upper then "V" else "v") + Decimal(i)
    case AmountField => if c == Upper then "Amount" else "amount"
    case TimeField => if c == Upper then "Time" else "time"
  }

  /** The 60 keys the normaliser reads name 60 different fields-and-cases. */
  lemma KeysDistinct(j: nat, k: nat, c: KeyCase, d: KeyCase)
    requires 1 <= j <= FieldCount && 1 <= k <= FieldCount
    requires Key(FieldAt(j), c) == Key(FieldAt(k), d)
    ensures j == k && c == d
  {
    var a, b := Key(FieldAt(j), c), Key(FieldAt(k), d);
    assert a[0] == b[0];
    if j <= FeatureCount && k <= FeatureCount {
      assert a[1..] == Decimal(j) && b[1..] == Decimal(k);
      DecimalInjective(j, k);
    }
  }

  /** The same keys, stated for every pair at once. */
  lemma KeysInjective()
    ensures forall j, k, c, d ::
      1 <= j <= FieldCount && 1 <= k <= FieldCount && Key(FieldAt(j), c) == Key(FieldAt(k), d) ==> j == k && c == d
  {
    forall j, k, c, d | 1 <= j <= FieldCount && 1 <= k <= FieldCount && Key(FieldAt(j), c) == Key(FieldAt(k), d)
      ensures j == k && c == d
    {
      KeysDistinct(j, k, c, d);
    }
  }

  /** `data[key] !== undefined`: an absent key and a key holding `undefined` look the same. */
  predicate Present(data: map<string, Value>, key: string) {
    key in data && data[key] != Undefined
  }

  /** The value the normaliser reads for a field: the upper-case key if present, else the lower-case key. */
  function Lookup(data: map<string, Value>, f: Field): Option<Value> {
    if Present(data, Key(f, Upper)) then Some(data[Key(f, Upper)])
    else if Present(data, Key(f, Lower)) then Some(data[Key(f, Lower)])
    else None
  }

  predicate Found(data: map<string, Value>, f: Field) {
    Lookup(data, f).Some?
  }

  /** The message thrown for a field found under neither key, e.g. `Missing field: v7 or V7`. */
  function MissingMessage(f: Field): string {
    "Missing field: " + Key(f, Lower) + " or " + Key(f, Upper)
  }

  /** The error message names the missing field: different fields give different messages. */
  lemma MissingMessageIdentifiesField(j: nat, k: nat)
    requires 1 <= j <= FieldCount && 1 <= k <= FieldCount
    requires MissingMessage(FieldAt(j)) == MissingMessage(FieldAt(k))
    ensures j == k
  {
    var prefix := "Missing field: ";
    var a, b := Key(FieldAt(j), Lower), Key(FieldAt(k), Lower);
    var m := MissingMessage(FieldAt(j));
    assert m == prefix + a + " or " + Key(FieldAt(j), Upper);
    assert m == prefix + b + " or " + Key(FieldAt(k), Upper);
    // Upper- and lower-case keys have the same length, so equal messages have equal key lengths.
    assert |a| == |b|;
    assert m[|prefix|..|prefix| + |a|] == a;
    assert m[|prefix|..|prefix| + |b|] == b;
    KeysDistinct(j, k, Lower, Lower);
  }

  /** Reads one field, coercing it with `Number()`, or fails with the field's message. */
  function ReadField(data: map<string, Value>, f: Field, parse: string -> Num): (r: Result<Num, string>)
    ensures r.Success? <==> Found(data, f)
    ensures r.Success? ==> r.value == Coerce(Lookup(data, f).value, parse)
    ensures r.Failure? ==> r.error == MissingMessage(f)
  {
    match Lookup(data, f)
    case Some(v) => Success(Coerce(v, parse))
    case None => Failure(MissingMessage(f))
  }

  /** The value field `k` normalises to, when it is found. */
  function FieldValue(data: map<string, Value>, k: nat, parse: string -> Num): Num
    requires 1 <= k <= FieldCount && Found(data, FieldAt(k))
  {
    Coerce(Lookup(data, FieldAt(k)).value, parse)
  }

  /** No field before position `k` is missing, and field `k` is: `k` is the first missing field. */
  predicate FirstMissing(data: map<string, Value>, k: nat) {
    && 1 <= k <= FieldCount
    && !Found(data, FieldAt(k))
    && forall j :: 1 <= j < k ==> Found(data, FieldAt(j))
  }

  /** The loop over features `i`..28, stopping at the first one that is missing. */
  function ReadFeatures(data: map<string, Value>, parse: string -> Num, i: nat): (r: Result<seq<Num>, string>)
    requires 1 <= i <= FeatureCount + 1
    ensures r.Success? <==> forall k :: i <= k <= FeatureCount ==> Found(data, FieldAt(k))
    ensures r.Success? ==> |r.value| == FeatureCount + 1 - i
    ensures r.Success? ==> forall k :: i <= k <= FeatureCount ==> r.value[k - i] == FieldValue(data, k, parse)
    ensures r.Failure? ==>
      (exists k :: && i <= k <= FeatureCount && r.error == MissingMessage(FieldAt(k))
                   && !Found(data, FieldAt(k)) && forall j :: i <= j < k ==> Found(data, FieldAt(j)))
    decreases FeatureCount + 1 - i
  {
    if i > FeatureCount then
      Success([])
    else
      assert FieldAt(i) == Feature(i);
      match ReadField(data, Feature(i), parse)
      case Failure(e) => Failure(e)
      case Success(v) =>
        match ReadFeatures(data, parse, i + 1)
        case Failure(e) => Failure(e)
        case Success(rest) => Success([v] + rest)
  }

  /** `normalizeJsonData(data)`: the 28 features in order, then Amount, then Time. */
  function Normalize(data: map<string, Value>, parse: string -> Num): (r: Result<Transaction, string>)
    ensures r.Success? <==> forall k :: 1 <= k <= FieldCount ==> Found(data, FieldAt(k))
    ensures r.Success? ==> forall k :: 1 <= k <= FieldCount ==> r.value.Get(k) == FieldValue(data, k, parse)
    ensures r.Failure? ==> exists k :: FirstMissing(data, k) && r.error == MissingMessage(FieldAt(k))
  {
    match ReadFeatures(data, parse, 1)
    case Failure(e) => Failure(e)
    case Success(features) =>
      assert FieldAt(FeatureCount + 1) == AmountField && FieldAt(FieldCount) == TimeField;
      match ReadField(data, AmountField, parse)
      case Failure(e) =>
        assert FirstMissing(data, FeatureCount + 1);
        Failure(e)
      case Success(amount) =>
        match ReadField(data, TimeField, parse)
        case Failure(e) =>
          assert FirstMissing(data, FieldCount);
          Failure(e)
        case Success(time) =>
          var t := Transaction(features, amount, time);
          assert forall k :: 1 <= k <= FeatureCount ==> t.Get(k) == features[k - 1];
          Success(t)
  }

  /**
   * Each field of a normalised record comes from the upper-case key when that
   * key is present, even if the lower-case key is present too, and from the
   * lower-case key only when the upper-case one is undefined.
   */
  lemma NormalizePrefersUppercase(data: map<string, Value>, k: nat, parse: string -> Num)
    requires 1 <= k <= FieldCount && Normalize(data, parse).Success?
    ensures var upper, lower := Key(FieldAt(k), Upper), Key(FieldAt(k), Lower);
      && (Present(data, upper) ==> Normalize(data, parse).value.Get(k) == Coerce(data[upper], parse))
      && (!Present(data, upper) ==>
            Present(data, lower) && Normalize(data, parse).value.Get(k) == Coerce(data[lower], parse))
  {
    assert Found(data, FieldAt(k));
  }

  /** Two inputs whose lookups agree have the same first missing field. */
  lemma FirstMissingUnique(a: map<string, Value>, b: map<string, Value>, j: nat, k: nat)
    requires forall i :: 1 <= i <= FieldCount ==> Lookup(a, FieldAt(i)) == Lookup(b, FieldAt(i))
    requires FirstMissing(a, j) && FirstMissing(b, k)
    ensures j == k
  {
    assert Lookup(a, FieldAt(j)) == Lookup(b, FieldAt(j));
    assert Lookup(a, FieldAt(k)) == Lookup(b, FieldAt(k));
  }

  /** Normalisation reads nothing but the 30 lookups: inputs that agree on them normalise alike. */
  lemma NormalizeDependsOnlyOnLookups(a: map<string, Value>, b: map<string, Value>, parse: string -> Num)
    requires forall k :: 1 <= k <= FieldCount ==> Lookup(a, FieldAt(k)) == Lookup(b, FieldAt(k))
    ensures Normalize(a, parse) == Normalize(b, parse)
  {
    var ra, rb := Normalize(a, parse), Normalize(b, parse);
    if ra.Success? {
      assert forall k :: 1 <= k <= FieldCount ==> FieldValue(a, k, parse) == FieldValue(b, k, parse);
      TransactionsEqual(ra.value, rb.value);
    } else {
      var j: nat :| FirstMissing(a, j) && ra.error == MissingMessage(FieldAt(j));
      var k: nat :| FirstMissing(b, k) && rb.error == MissingMessage(FieldAt(k));
      FirstMissingUnique(a, b, j, k);
    }
  }

  /** Two inputs hold the same thing under `key`, as far as `data[key] !== undefined` and `data[key]` can tell. */
  predicate SameUnder(a: map<string, Value>, b: map<string, Value>, key: string) {
    Present(a, key) == Present(b, key) && (Present(a, key) ==> a[key] == b[key])
  }

  /** Keys other than the 60 looked-up names have no effect on the result. */
  lemma NormalizeIgnoresOtherKeys(a: map<string, Value>, b: map<string, Value>, parse: string -> Num)
    requires forall k, c :: 1 <= k <= FieldCount ==> SameUnder(a, b, Key(FieldAt(k), c))
    ensures Normalize(a, parse) == Normalize(b, parse)
  {
    forall k | 1 <= k <= FieldCount
      ensures Lookup(a, FieldAt(k)) == Lookup(b, FieldAt(k))
    {
      assert SameUnder(a, b, Key(FieldAt(k), Upper)) && SameUnder(a, b, Key(FieldAt(k), Lower));
    }
    NormalizeDependsOnlyOnLookups(a, b, parse);
  }

  /** When the upper-case key of field `k` is present, its lower-case key is never consulted. */
  lemma UppercaseShadowsLowercase(data: map<string, Value>, k: nat, v: Value, parse: string -> Num)
    requires 1 <= k <= FieldCount && Present(data, Key(FieldAt(k), Upper))
    ensures Normalize(data[Key(FieldAt(k), Lower) := v], parse) == Normalize(data, parse)
  {
    var changed := data[Key(FieldAt(k), Lower) := v];
    forall j | 1 <= j <= FieldCount
      ensures Lookup(changed, FieldAt(j)) == Lookup(data, FieldAt(j))
    {
      if j != k {
        KeysInjective();
      }
      assert Key(FieldAt(j), Upper) != Key(FieldAt(k), Lower) by { KeysInjective(); }
    }
    NormalizeDependsOnlyOnLookups(changed, data, parse);
  }

  /**
   * Case-fallback symmetry: holding a value under `Vk` alone or under `vk`
   * alone makes no difference to the result.
   */
  lemma CaseFallbackSymmetric(data: map<string, Value>, k: nat, v: Value, parse: string -> Num)
    requires 1 <= k <= FieldCount
    ensures
      var upper, lower := Key(FieldAt(k), Upper), Key(FieldAt(k), Lower);
      Normalize(data[upper := v] - {lower}, parse) == Normalize(data[lower := v] - {upper}, parse)
  {
    var upper, lower := Key(FieldAt(k), Upper), Key(FieldAt(k), Lower);
    var a, b := data[upper := v] - {lower}, data[lower := v] - {upper};
    KeysInjective();
    forall j | 1 <= j <= FieldCount
      ensures Lookup(a, FieldAt(j)) == Lookup(b, FieldAt(j))
    {
      if j == k {
        if v == Undefined {
          assert Lookup(a, FieldAt(j)) == None == Lookup(b, FieldAt(j));
        } else {
          assert Lookup(a, FieldAt(j)) == Some(v) == Lookup(b, FieldAt(j));
        }
      } else {
        assert Lookup(a, FieldAt(j)) == Lookup(data, FieldAt(j)) == Lookup(b, FieldAt(j));
      }
    }
    NormalizeDependsOnlyOnLookups(a, b, parse);
  }

  /** A missing field makes normalisation fail, naming that field or an earlier missing one. */
  lemma MissingFieldFails(data: map<string, Value>, k: nat, parse: string -> Num)
    requires 1 <= k <= FieldCount && !Found(data, FieldAt(k))
    ensures Normalize(data, parse).Failure?
    ensures exists j :: 1 <= j <= k && Normalize(data, parse).error == MissingMessage(FieldAt(j))
  {
    var r := Normalize(data, parse);
    var j: nat :| FirstMissing(data, j) && r.error == MissingMessage(FieldAt(j));
    assert !(k < j);
  }

  /** Amount is reported missing only when all 28 features were found, and Time only when Amount was too. */
  lemma AmountAndTimeCheckedLast(data: map<string, Value>, parse: string -> Num)
    requires Normalize(data, parse).Failure?
    ensures Normalize(data, parse).error == MissingMessage(AmountField) ==>
      forall j :: 1 <= j <= FeatureCount ==> Found(data, FieldAt(j))
    ensures Normalize(data, parse).error == MissingMessage(TimeField) ==>
      forall j :: 1 <= j <= FeatureCount + 1 ==> Found(data, FieldAt(j))
  {
    var r := Normalize(data, parse);
    var k: nat :| FirstMissing(data, k) && r.error == MissingMessage(FieldAt(k));
    if r.error == MissingMessage(AmountField) {
      assert FieldAt(FeatureCount + 1) == AmountField;
      MissingMessageIdentifiesField(k, FeatureCount + 1);
    }
    if r.error == MissingMessage(TimeField) {
      assert FieldAt(FieldCount) == TimeField;
      MissingMessageIdentifiesField(k, FieldCount);
    }
  }

  /** The record as a JavaScript object whose 30 keys are all upper-case or all lower-case. */
  function Encode(t: Transaction, c: KeyCase): (m: map<string, Value>)
    ensures forall k :: 1 <= k <= FieldCount ==> Key(FieldAt(k), c) in m && m[Key(FieldAt(k), c)] == Number(t.Get(k))
    ensures forall key :: key in m ==> exists k :: 1 <= k <= FieldCount && key == Key(FieldAt(k), c)
  {
    KeysInjective();
    map k | 1 <= k <= FieldCount :: Key(FieldAt(k), c) := Number(t.Get(k))
  }

  /** An input that yields number `t.Get(k)` for every field normalises to exactly `t`. */
  lemma NormalizeCanonical(data: map<string, Value>, t: Transaction, parse: string -> Num)
    requires forall k :: 1 <= k <= FieldCount ==> Lookup(data, FieldAt(k)) == Some(Number(t.Get(k)))
    ensures Normalize(data, parse) == Success(t)
  {
    var r := Normalize(data, parse);
    forall k | 1 <= k <= FieldCount
      ensures r.value.Get(k) == t.Get(k)
    {
      assert FieldValue(data, k, parse) == t.Get(k);
    }
    TransactionsEqual(r.value, t);
  }

  /** Each field of an encoded record is found under the key of its case, with the record's number. */
  lemma EncodeLookup(t: Transaction, c: KeyCase, k: nat)
    requires 1 <= k <= FieldCount
    ensures Lookup(Encode(t, c), FieldAt(k)) == Some(Number(t.Get(k)))
  {
    var m := Encode(t, c);
    if c == Lower && Key(FieldAt(k), Upper) in m {
      var j :| 1 <= j <= FieldCount && Key(FieldAt(k), Upper) == Key(FieldAt(j), Lower);
      KeysDistinct(k, j, Upper, Lower);
    }
  }

  /**
   * Round trip: a record written out under upper-case keys, or under
   * lower-case keys, normalises back to the same record.
   */
  lemma NormalizeEncodeRoundTrip(t: Transaction, c: KeyCase, parse: string -> Num)
    ensures Normalize(Encode(t, c), parse) == Success(t)
  {
    forall k | 1 <= k <= FieldCount
      ensures Lookup(Encode(t, c), FieldAt(k)) == Some(Number(t.Get(k)))
    {
      EncodeLookup(t, c, k);
    }
    NormalizeCanonical(Encode(t, c), t, parse);
  }

  /** Normalisation is idempotent: normalising a normalised record gives the same record. */
  lemma NormalizeIdempotent(data: map<string, Value>, parse: string -> Num)
    requires Normalize(data, parse).Success?
    ensures Normalize(Encode(Normalize(data, parse).value, Upper), parse) == Normalize(data, parse)
  {
    NormalizeEncodeRoundTrip(Normalize(data, parse).value, Upper, parse);
  }
}
