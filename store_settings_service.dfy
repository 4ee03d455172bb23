/**
  * Per-store settings (src/services/storeSettingsService.js): the defaults, loading a store's
  * settings merged over the defaults, the validated partial update, the GST number validator and
  * the name of the tax for a currency.
  *
  * The `store_settings` collection is the map `docs` of a `SettingsStore`, keyed by store id. A
  * failing read or write is the input `readFails` / `writeFails`; the subscription is modelled by
  * the value its callback receives (`LoadedSettings`).
  */
module StoreSettingsService {
  import opened Wrappers
  import opened Text
  import opened Documents

  /** A string argument JavaScript treats as true: present and not empty. */
  predicate Present(s: Option<string>) {
    s.Some? && s.value != ""
  }

  const DefaultStoreSettings: Doc := map[
    "taxRate" := Num(18.0),
    "currency" := Str("INR"),
    "currencySymbol" := Str("₹"),
    "lowStockThreshold" := Num(10.0),
    "autoGenerateCodes" := Bool(true),
    "autoGenerateBarcodes" := Bool(true),
    "enableDiscounts" := Bool(true),
    "maxDiscountPercent" := Num(50.0),
    "businessName" := Str(""),
    "businessAddress" := Str(""),
    "businessPhone" := Str(""),
    "businessEmail" := Str(""),
    "gstNumber" := Str(""),
    "receiptFooter" := Str("Thank you for shopping with us!"),
    "printLogo" := Bool(false),
    "enableTaxInvoice" := Bool(true),
    "roundingMethod" := Str("round"),
    "decimalPlaces" := Num(2.0),
    "preferredScanningMethod" := Str("qrcode"),
    "enableQRCodeScanning" := Bool(true),
    "enableBarcodeScanning" := Bool(true),
    "enableManualEntry" := Bool(true)
  ]

  // ---------------------------------------------------------------------------------------------
  // Loading

  /**
    * The settings a store gets, from the outcome of reading its document: the defaults when no
    * store id is given, when the read fails or when there is no document; otherwise the stored
    * fields over the defaults.
    */
  function LoadedSettings(storeId: Option<string>, read: Result<Option<Doc>, string>): (r: Doc)
    ensures DefaultStoreSettings.Keys <= r.Keys
    ensures !Present(storeId) || read.Failure? || read.value.None? ==> r == DefaultStoreSettings
  {
    if Present(storeId) && read.Success? && read.value.Some? then Spread(DefaultStoreSettings, read.value.value)
    else DefaultStoreSettings
  }

  /** Every default field is present in loaded settings; a stored field wins over the default. */
  lemma LoadedSettingsFields(storeId: Option<string>, read: Result<Option<Doc>, string>)
    ensures DefaultStoreSettings.Keys <= LoadedSettings(storeId, read).Keys
    ensures Present(storeId) && read.Success? && read.value.Some? ==>
      forall k :: k in LoadedSettings(storeId, read) ==>
        LoadedSettings(storeId, read)[k] == if k in read.value.value then read.value.value[k] else DefaultStoreSettings[k]
    ensures !(Present(storeId) && read.Success? && read.value.Some?) ==> LoadedSettings(storeId, read) == DefaultStoreSettings
  {
  }

  // ---------------------------------------------------------------------------------------------
  // Numbers in updates

  /** A JavaScript number as `parseFloat` can produce it. */
  datatype Parsed = NaN | Finite(x: real) | Infinite(negative: bool)

  /** The longest prefix of decimal digits. */
  function DigitPrefix(s: string): (d: string)
    ensures |d| <= |s| && d == s[..|d|] && AllDigits(d)
    ensures |d| == |s| || !IsDigit(s[|d|])
    decreases |s|
  {
    if s != [] && IsDigit(s[0]) then [s[0]] + DigitPrefix(s[1..]) else ""
  }

  /** x times ten to the power e. */
  function Scale(x: real, e: int): real {
    if e == 0 then x else if e > 0 then x * Pow10(e) as real else x / Pow10(-e) as real
  }

  /** The exponent part `e[+-]digits` at the start of s, or 0 when there is none. */
  function ExponentOf(s: string): int {
    if |s| > 0 && (s[0] == 'e' || s[0] == 'E') then
      var signed := s[1..];
      var negative := |signed| > 0 && signed[0] == '-';
      var digits := DigitPrefix(if |signed| > 0 && (signed[0] == '-' || signed[0] == '+') then signed[1..] else signed);
      if digits == "" then 0 else if negative then -(DecimalValue(digits) as int) else DecimalValue(digits)
    else 0
  }

  /** The unsigned part of a number: `Infinity`, or the longest decimal literal (digits, an
      optional fraction and an optional exponent), or NaN when it has no digit. */
  function ParseMagnitude(body: string): Parsed {
    if |body| >= 8 && body[..8] == "Infinity" then Infinite(false)
    else
      var whole := DigitPrefix(body);
      var rest := body[|whole|..];
      var hasPoint := |rest| > 0 && rest[0] == '.';
      var fraction := if hasPoint then DigitPrefix(rest[1..]) else "";
      if whole == "" && fraction == "" then NaN
      else
        var after := if hasPoint then rest[1 + |fraction|..] else rest;
        var magnitude := if fraction == "" then DecimalValue(whole) as real
          else DecimalValue(whole) as real + DecimalValue(fraction) as real / Pow10(|fraction|) as real;
        Finite(Scale(magnitude, ExponentOf(after)))
  }

  function Negate(p: Parsed): Parsed {
    match p
    case NaN => NaN
    case Finite(x) => Finite(-x)
    case Infinite(negative) => Infinite(!negative)
  }

  /** `parseFloat(s)`: leading whitespace is skipped, then an optional sign and the unsigned part;
      the rest of the text is ignored. */
  function ParseFloat(s: string): Parsed {
    var t := TrimStart(s);
    if |t| > 0 && t[0] == '-' then Negate(ParseMagnitude(t[1..]))
    else if |t| > 0 && t[0] == '+' then ParseMagnitude(t[1..])
    else ParseMagnitude(t)
  }

  lemma DigitPrefixAll(s: string)
    requires AllDigits(s)
    ensures DigitPrefix(s) == s
  {
  }

  /** A numeral without point or exponent is read as its value. */
  lemma MagnitudeOfDigits(d: string)
    requires |d| >= 1 && AllDigits(d)
    ensures ParseMagnitude(d) == Finite(DecimalValue(d) as real)
  {
    if |d| >= 8 {
      assert d[..8][0] == d[0] != "Infinity"[0];
    }
    DigitPrefixAll(d);
    assert d[|d|..] == "";
    assert ExponentOf("") == 0;
  }

  /** `parseFloat` reads a decimal numeral, with or without a minus sign, as its value. */
  lemma ParseFloatNumeral(n: nat)
    ensures ParseFloat(DecimalDigits(n)) == Finite(n as real)
    ensures ParseFloat("-" + DecimalDigits(n)) == Finite(-(n as real))
  {
    var d := DecimalDigits(n);
    DecimalRoundTrip(n);
    MagnitudeOfDigits(d);
    assert !IsSpace(d[0]) && d[0] != '-' && d[0] != '+';
    assert TrimStart(d) == d;
    var m := "-" + d;
    assert TrimStart(m) == m;
    assert m[1..] == d;
  }

  /** `parseFloat(value)` for a field value: a number stays itself, text is parsed, and the other
      values (`true`, `null`, a timestamp) are NaN. */
  function ParseNumber(v: Value): (p: Parsed)
    ensures v.Num? ==> p == Finite(v.n)
    ensures v.Null? || v.Bool? || v.ServerTime? ==> p.NaN?
  {
    match v
    case Num(r) => Finite(r)
    case Str(s) => ParseFloat(s)
    case _ => NaN
  }

  predicate IsPercent(p: Parsed) {
    p.Finite? && 0.0 <= p.x <= 100.0
  }

  const StoreIdRequired := "Store ID is required"
  const TaxRateMessage := "Tax rate must be a number between 0 and 100"
  const MaxDiscountMessage := "Max discount must be a number between 0 and 100"
  const NoDocumentMessage := "No document to update"

  /** The check of one percentage field of an update: an absent field passes untouched, a present
      one passes as its parsed number when that lies in [0, 100], and fails otherwise. */
  function CheckPercent(fields: Doc, key: string, message: string): (r: Result<Doc, string>)
    ensures r.Failure? <==> key in fields && !IsPercent(ParseNumber(fields[key]))
    ensures r.Failure? ==> r.error == message
    ensures r.Success? ==> r.value.Keys == fields.Keys
    ensures r.Success? ==> forall k :: k in fields && k != key ==> r.value[k] == fields[k]
    ensures r.Success? && key in fields ==> r.value[key].Num? && 0.0 <= r.value[key].n <= 100.0
  {
    if key !in fields then Success(fields)
    else
      var p := ParseNumber(fields[key]);
      if IsPercent(p) then Success(fields[key := Num(p.x)]) else Failure(message)
  }

  /** The update after both checks, or the message of the first that fails. */
  function ValidatedUpdates(fields: Doc): (r: Result<Doc, string>)
    ensures r.Failure? ==> r.error == TaxRateMessage || r.error == MaxDiscountMessage
    ensures r.Success? ==> r.value.Keys == fields.Keys
    ensures "taxRate" in fields && !IsPercent(ParseNumber(fields["taxRate"])) ==> r == Failure(TaxRateMessage)
  {
    var tax := CheckPercent(fields, "taxRate", TaxRateMessage);
    if tax.Failure? then tax else CheckPercent(tax.value, "maxDiscountPercent", MaxDiscountMessage)
  }

  /** An accepted update holds the same fields, with the tax rate and the maximum discount (when
      given) as numbers within [0, 100]; an update is refused exactly when one of them is out of
      range or not a number, with the tax rate checked first. */
  lemma ValidatedUpdatesMeaning(fields: Doc)
    ensures var r := ValidatedUpdates(fields);
      r.Success? <==> ("taxRate" in fields ==> IsPercent(ParseNumber(fields["taxRate"]))) &&
                      ("maxDiscountPercent" in fields ==> IsPercent(ParseNumber(fields["maxDiscountPercent"])))
    ensures var r := ValidatedUpdates(fields);
      r.Failure? ==> r.error == if "taxRate" in fields && !IsPercent(ParseNumber(fields["taxRate"])) then TaxRateMessage else MaxDiscountMessage
    ensures var r := ValidatedUpdates(fields);
      r.Success? ==> (r.value.Keys == fields.Keys &&
        (forall k :: k in fields && k != "taxRate" && k != "maxDiscountPercent" ==> r.value[k] == fields[k]) &&
        (forall k :: k in fields && (k == "taxRate" || k == "maxDiscountPercent") ==> r.value[k].Num? && 0.0 <= r.value[k].n <= 100.0))
  {
    var tax := CheckPercent(fields, "taxRate", TaxRateMessage);
    if tax.Success? {
      if "maxDiscountPercent" in fields {
        assert tax.value["maxDiscountPercent"] == fields["maxDiscountPercent"];
      }
    }
  }

  /** What `updateStoreSettings` leaves in its `updates` argument: each check that passes has
      already replaced its field by the parsed number when a later step fails. */
  function UpdatesAfterChecks(storeId: Option<string>, fields: Doc): (r: Doc)
    ensures r.Keys == fields.Keys
    ensures forall k :: k in fields && k != "taxRate" && k != "maxDiscountPercent" ==> r[k] == fields[k]
  {
    if !Present(storeId) then fields
    else
      var tax := CheckPercent(fields, "taxRate", TaxRateMessage);
      if tax.Failure? then fields
      else
        var discount := CheckPercent(tax.value, "maxDiscountPercent", MaxDiscountMessage);
        if discount.Failure? then tax.value else discount.value
  }

  /** The object `updateStoreSettings` mutates and writes. */
  class SettingsUpdate {
    var fields: Doc

    constructor(fields: Doc)
      ensures this.fields == fields
    {
      this.fields := fields;
    }
  }

  /** The `store_settings` collection. */
  class SettingsStore {
    var docs: map<string, Doc>

    constructor(docs: map<string, Doc>)
      ensures this.docs == docs
    {
      this.docs := docs;
    }

    /** `getStoreSettings(storeId)`: a store without a document gets one holding the defaults, its
        id and timestamps, and the defaults are returned. */
    method GetStoreSettings(storeId: Option<string>, readFails: bool, writeFails: bool) returns (settings: Doc)
      modifies this
      ensures settings == LoadedSettings(storeId,
        if readFails then Failure("read failed")
        else if Present(storeId) && storeId.value in old(docs) then Success(Some(old(docs)[storeId.value]))
        else Success(None))
      ensures docs == if Present(storeId) && !readFails && !writeFails && storeId.value !in old(docs)
        then old(docs)[storeId.value := Spread(DefaultStoreSettings,
               map["storeId" := Str(storeId.value), "createdAt" := ServerTime, "updatedAt" := ServerTime])]
        else old(docs)
    {
      if !Present(storeId) {
        return DefaultStoreSettings;
      }
      if readFails {
        return DefaultStoreSettings;
      }
      var id := storeId.value;
      if id in docs {
        settings := Spread(DefaultStoreSettings, docs[id]);
      } else {
        if !writeFails {
          docs := docs[id := Spread(DefaultStoreSettings,
            map["storeId" := Str(id), "createdAt" := ServerTime, "updatedAt" := ServerTime])];
        }
        settings := DefaultStoreSettings;
      }
    }

    /**
      * `updateStoreSettings(storeId, updates)`: a missing store id and an out-of-range tax rate or
      * maximum discount are refused before anything is written; otherwise the checked fields and
      * a timestamp are written over the stored document, which must exist.
      */
    method UpdateStoreSettings(storeId: Option<string>, updates: SettingsUpdate, writeFails: bool)
      returns (result: Result<(), string>)
      modifies this, updates
      ensures !Present(storeId) ==> result == Failure(StoreIdRequired)
      ensures Present(storeId) && ValidatedUpdates(old(updates.fields)).Failure? ==>
        result == Failure(ValidatedUpdates(old(updates.fields)).error)
      ensures result.Success? <==>
        Present(storeId) && ValidatedUpdates(old(updates.fields)).Success? && storeId.value in old(docs) && !writeFails
      ensures result.Success? ==>
        docs == old(docs)[storeId.value := Spread(old(docs)[storeId.value],
                  Spread(ValidatedUpdates(old(updates.fields)).value, map["updatedAt" := ServerTime]))]
      ensures result.Failure? ==> docs == old(docs)
      ensures updates.fields == UpdatesAfterChecks(storeId, old(updates.fields))
    {
      if !Present(storeId) {
        return Failure(StoreIdRequired);
      }
      var id := storeId.value;
      if "taxRate" in updates.fields {
        var taxRate := ParseNumber(updates.fields["taxRate"]);
        if !IsPercent(taxRate) {
          return Failure(TaxRateMessage);
        }
        updates.fields := updates.fields["taxRate" := Num(taxRate.x)];
      }
      if "maxDiscountPercent" in updates.fields {
        var maxDiscount := ParseNumber(updates.fields["maxDiscountPercent"]);
        if !IsPercent(maxDiscount) {
          return Failure(MaxDiscountMessage);
        }
        updates.fields := updates.fields["maxDiscountPercent" := Num(maxDiscount.x)];
      }
      if id !in docs {
        return Failure(NoDocumentMessage);
      }
      if writeFails {
        return Failure("write failed");
      }
      docs := docs[id := Spread(docs[id], Spread(updates.fields, map["updatedAt" := ServerTime]))];
      result := Success(());
    }
  }

  // ---------------------------------------------------------------------------------------------
  // GST number

  predicate GSTSecondLast(c: char) { ('1' <= c <= '9') || IsUpperLetter(c) }
  predicate DigitOrUpper(c: char) { IsDigit(c) || IsUpperLetter(c) }

  /** The GSTIN pattern, position by position: two digits, five letters, four digits, a letter,
      a character in [1-9A-Z], `Z`, and a character in [0-9A-Z]. */
  predicate GSTPattern(u: string) {
    |u| == 15 &&
    (forall i :: 0 <= i < 2 ==> IsDigit(u[i])) &&
    (forall i :: 2 <= i < 7 ==> IsUpperLetter(u[i])) &&
    (forall i :: 7 <= i < 11 ==> IsDigit(u[i])) &&
    IsUpperLetter(u[11]) && GSTSecondLast(u[12]) && u[13] == 'Z' && DigitOrUpper(u[14])
  }

  /** The same pattern read as its segments: state code, PAN (letters and digits), entity letter,
      entity number, `Z`, check character. */
  predicate GSTSegments(u: string) {
    |u| == 15 && AllDigits(u[..2]) && AllUpperLetters(u[2..7]) && AllDigits(u[7..11]) &&
    AllUpperLetters(u[11..12]) && GSTSecondLast(u[12]) && u[13..14] == "Z" && DigitOrUpper(u[14])
  }

  lemma GSTPatternIffSegments(u: string)
    ensures GSTPattern(u) <==> GSTSegments(u)
  {
    if |u| == 15 {
      assert forall i :: 0 <= i < 2 ==> u[..2][i] == u[i];
      assert forall i :: 2 <= i < 7 ==> u[2..7][i - 2] == u[i];
      assert forall i :: 7 <= i < 11 ==> u[7..11][i - 7] == u[i];
      assert u[11..12][0] == u[11];
      assert u[13..14] == [u[13]];
    }
  }

  /** `validateGSTNumber(gstNumber)`: an absent or empty number is accepted, any other is checked
      in upper case against the pattern. */
  function ValidateGSTNumber(gstNumber: Option<string>): (ok: bool)
    ensures !Present(gstNumber) ==> ok
    ensures ok && Present(gstNumber) ==> |gstNumber.value| == 15
  {
    !Present(gstNumber) || GSTPattern(Upper(gstNumber.value))
  }

  /** The check ignores case, and an accepted number is empty or 15 characters with `Z` (or `z`)
      in the 14th place. */
  lemma GSTNumberFacts(s: string)
    ensures ValidateGSTNumber(Some(s)) == ValidateGSTNumber(Some(Upper(s)))
    ensures ValidateGSTNumber(Some(s)) && s != "" ==> |s| == 15 && (s[13] == 'Z' || s[13] == 'z')
  {
    UpperIdempotent(s);
    if s != "" && ValidateGSTNumber(Some(s)) {
      assert Upper(s)[13] == UpperChar(s[13]);
    }
  }

  // ---------------------------------------------------------------------------------------------
  // Tax name

  /** `getTaxDisplayName(currency)`, with `INR` when no currency is given. */
  function TaxDisplayName(currency: Option<string>): (name: string)
    ensures name == "GST" <==> currency.GetOr("INR") == "INR"
    ensures name == "Sales Tax" <==> currency.GetOr("INR") == "USD"
    ensures name == "VAT" <==> currency.GetOr("INR") == "EUR"
    ensures name == "Tax" <==> currency.GetOr("INR") !in {"INR", "USD", "EUR"}
  {
    match currency.GetOr("INR")
    case "INR" => "GST"
    case "USD" => "Sales Tax"
    case "EUR" => "VAT"
    case _ => "Tax"
  }
}
