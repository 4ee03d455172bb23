/**
  * The structured QR payload `ST<store>_<CATEGORY>_<six digits>` (src/utils/qrcodeGenerator.js):
  * the category rules, the 32-bit rolling hash of the product id, the format with its validator
  * and parser, and the retry loop that looks for a payload no other product carries.
  *
  * `Math.random()` is an input: `draw` (the integer `Math.floor(Math.random() * 1000000)`) for the
  * six-digit sequence of a product without id, and `suffixes` (one `Math.floor(Math.random() * 1000)`
  * per retry) for the retry loop. Every caller passes a document id, so the id is always present
  * (a missing one would give `undefined` in the retry's concatenation, which is not modelled).
  */
module QrCodeGenerator {
  import opened Wrappers
  import opened Text
  import opened Seqs
  import opened Inventory

  // ---------------------------------------------------------------------------------------------
  // Categories

  /** The number of category rules. */
  const RuleCount: nat := 11

  /** Rule k of `getCategoryCode`, in the order the rules are tried: three keywords and the
      category they select. */
  function CategoryRule(k: nat): (rule: (string, string, string, string))
    requires k < RuleCount
    ensures IsCategory(rule.3)
  {
    match k
    case 0 => ("rice", "wheat", "flour", "GRAIN")
    case 1 => ("oil", "ghee", "butter", "DAIRY")
    case 2 => ("sugar", "salt", "spice", "SPICE")
    case 3 => ("milk", "yogurt", "cheese", "DAIRY")
    case 4 => ("bread", "biscuit", "cake", "BAKERY")
    case 5 => ("tea", "coffee", "juice", "BEVERAGE")
    case 6 => ("apple", "banana", "orange", "FRUIT")
    case 7 => ("tomato", "onion", "potato", "VEGETABLE")
    case 8 => ("soap", "shampoo", "toothpaste", "PERSONAL")
    case 9 => ("detergent", "cleaner", "brush", "HOUSEHOLD")
    case _ => ("chicken", "beef", "pork", "MEAT")
  }

  /** The category codes `getCategoryCode` can return. */
  predicate IsCategory(c: string) {
    c in {"GRAIN", "DAIRY", "SPICE", "BAKERY", "BEVERAGE", "FRUIT", "VEGETABLE", "PERSONAL", "HOUSEHOLD", "MEAT", "GENERAL"}
  }

  /** Every category code is a non-empty run of capital letters, as the payload format demands. */
  lemma CategoryIsWord(c: string)
    requires IsCategory(c)
    ensures c != "" && AllUpperLetters(c)
  {
  }

  /** Whether one of the three keywords of rule k occurs in the lower-cased name. */
  predicate RuleMatches(name: string, k: nat)
    requires k < RuleCount
  {
    var rule := CategoryRule(k);
    Contains(name, rule.0) || Contains(name, rule.1) || Contains(name, rule.2)
  }

  /** The first rule from k on that matches (RuleCount when none does). */
  function RuleFrom(name: string, k: nat): (r: nat)
    requires k <= RuleCount
    ensures k <= r <= RuleCount
    ensures r < RuleCount ==> RuleMatches(name, r)
    ensures forall j :: k <= j < r ==> !RuleMatches(name, j)
    decreases RuleCount - k
  {
    if k == RuleCount || RuleMatches(name, k) then k else RuleFrom(name, k + 1)
  }

  /** `getCategoryCode(productName)` */
  function GetCategoryCode(productName: string): (category: string)
    ensures IsCategory(category)
  {
    var k := RuleFrom(Lower(productName), 0);
    if k < RuleCount then CategoryRule(k).3 else "GENERAL"
  }

  /** The first rule whose keyword occurs in the lower-cased name decides the category; a later
      matching rule is never consulted. */
  lemma CategoryIsFirstMatchingRule(productName: string, k: nat)
    requires k < RuleCount
    requires RuleMatches(Lower(productName), k)
    requires forall j :: 0 <= j < k ==> !RuleMatches(Lower(productName), j)
    ensures GetCategoryCode(productName) == CategoryRule(k).3
  {
    var i := RuleFrom(Lower(productName), 0);
    assert !(i < k);
    assert i == k;
  }

  /** A name that no rule matches is GENERAL. */
  lemma CategoryDefault(productName: string)
    requires forall j :: 0 <= j < RuleCount ==> !RuleMatches(Lower(productName), j)
    ensures GetCategoryCode(productName) == "GENERAL"
  {
  }

  // ---------------------------------------------------------------------------------------------
  // The product sequence

  const TwoTo31: int := 0x8000_0000
  const TwoTo32: int := 0x1_0000_0000

  /** JavaScript's ToInt32: the signed 32-bit integer congruent to x modulo 2^32. */
  function ToInt32(x: int): (r: int)
    ensures -TwoTo31 <= r < TwoTo31
    ensures (x - r) % TwoTo32 == 0
  {
    var m := x % TwoTo32;
    if m >= TwoTo31 then m - TwoTo32 else m
  }

  /** A signed 32-bit integer congruent to x modulo 2^32 is ToInt32(x). */
  lemma ToInt32Unique(x: int, r: int)
    requires -TwoTo31 <= r < TwoTo31
    requires (x - r) % TwoTo32 == 0
    ensures ToInt32(x) == r
  {
    var s := ToInt32(x);
    var q := (x - r) / TwoTo32;
    var p := (x - s) / TwoTo32;
    assert x - r == q * TwoTo32;
    assert x - s == p * TwoTo32;
    assert s - r == (q - p) * TwoTo32;
    assert q == p;
  }

  /** One step of the hash loop as written: `hash = ((hash << 5) - hash) + char`, then
      `hash = hash & hash`; `<<` and `&` act on the 32-bit value of their operands. */
  function HashStep(hash: int, c: char): int {
    ToInt32(ToInt32(hash * 32) - hash + c as int)
  }

  /** The step is the rolling hash `31 * hash + char` reduced to a signed 32-bit integer. */
  lemma HashStepIsRolling(hash: int, c: char)
    ensures HashStep(hash, c) == ToInt32(31 * hash + c as int)
  {
    var t := ToInt32(hash * 32);
    var q := (hash * 32 - t) / TwoTo32;
    assert hash * 32 - t == q * TwoTo32;
    ToInt32Shift(t - hash + c as int, q);
    assert t - hash + c as int + q * TwoTo32 == 31 * hash + c as int;
  }

  /** Adding a multiple of 2^32 does not change the 32-bit value. */
  lemma ToInt32Shift(x: int, k: int)
    ensures ToInt32(x + k * TwoTo32) == ToInt32(x)
  {
    var r := ToInt32(x);
    var d := (x - r) / TwoTo32;
    assert x - r == d * TwoTo32;
    assert x + k * TwoTo32 - r == (d + k) * TwoTo32;
    ToInt32Unique(x + k * TwoTo32, r);
  }

  /** The hash of the whole id: the step applied to each character in turn, from 0. */
  function Hash(id: string): (h: int)
    ensures -TwoTo31 <= h < TwoTo31
    decreases |id|
  {
    if id == [] then 0 else HashStep(Hash(id[..|id| - 1]), id[|id| - 1])
  }

  function Abs(x: int): nat {
    if x < 0 then -x else x
  }

  /** The six digits of a product: for an id, the last six digits of |hash| padded with zeros;
      without an id, the random draw padded to six digits. */
  function ProductSequence(productId: string, draw: nat): string {
    if productId != "" then TakeLast(ZeroPad(Abs(Hash(productId)), 6), 6) else ZeroPad(draw, 6)
  }

  /** The sequence is always exactly six decimal digits. */
  lemma ProductSequenceShape(productId: string, draw: nat)
    requires draw < 1000000
    ensures |ProductSequence(productId, draw)| == 6 && AllDigits(ProductSequence(productId, draw))
  {
    if productId != "" {
      ZeroPadShape(Abs(Hash(productId)), 6);
    } else {
      ZeroPadShape(draw, 6);
      assert Pow10(6) == 1000000;
    }
  }

  /** `generateProductSequence(productId)`: hashes the id character by character. */
  method GenerateProductSequence(productId: string, draw: nat) returns (sequence: string)
    requires draw < 1000000
    ensures sequence == ProductSequence(productId, draw)
    ensures |sequence| == 6 && AllDigits(sequence)
  {
    if productId != "" {
      var hash := 0;
      var i := 0;
      while i < |productId|
        invariant 0 <= i <= |productId|
        invariant hash == Hash(productId[..i])
      {
        assert productId[..i + 1][..i] == productId[..i];
        hash := ToInt32(ToInt32(hash * 32) - hash + productId[i] as int);
        i := i + 1;
      }
      assert productId[..i] == productId;
      sequence := TakeLast(ZeroPad(Abs(hash), 6), 6);
    } else {
      sequence := ZeroPad(draw, 6);
    }
    ProductSequenceShape(productId, draw);
  }

  // ---------------------------------------------------------------------------------------------
  // The payload format

  /** The payload `ST<storeId>_<category>_<sequence>`. */
  function QRData(storeId: string, category: string, sequence: string): string {
    "ST" + storeId + "_" + category + "_" + sequence
  }

  /** The parts the format expects: a three-digit store, a non-empty run of capital letters and six
      digits. */
  predicate WellFormedParts(storeId: string, category: string, sequence: string) {
    |storeId| == 3 && AllDigits(storeId) && category != "" && AllUpperLetters(category) &&
    |sequence| == 6 && AllDigits(sequence)
  }

  /** `validateQRCode(qrData)`: the test `/^ST\d{3}_[A-Z]+_\d{6}$/`. A letter run holds no `_` and
      no digit, so the underscores sit at position 5 and seven from the end. */
  predicate ValidQRCode(qrData: string) {
    |qrData| >= 14 && qrData[..2] == "ST" && AllDigits(qrData[2..5]) && qrData[5] == '_' &&
    AllUpperLetters(qrData[6..|qrData| - 7]) && qrData[|qrData| - 7] == '_' && AllDigits(qrData[|qrData| - 6..])
  }

  /** A payload is valid exactly when it is the format applied to well-formed parts. */
  lemma ValidQRCodeIffWellFormed(qrData: string)
    ensures ValidQRCode(qrData) <==>
      exists storeId, category, sequence :: qrData == QRData(storeId, category, sequence) && WellFormedParts(storeId, category, sequence)
  {
    if ValidQRCode(qrData) {
      var n := |qrData|;
      assert qrData == QRData(qrData[2..5], qrData[6..n - 7], qrData[n - 6..]);
      assert WellFormedParts(qrData[2..5], qrData[6..n - 7], qrData[n - 6..]);
    }
    if exists storeId, category, sequence :: qrData == QRData(storeId, category, sequence) && WellFormedParts(storeId, category, sequence) {
      var storeId, category, sequence :| qrData == QRData(storeId, category, sequence) && WellFormedParts(storeId, category, sequence);
      FormatIsValid(storeId, category, sequence);
    }
  }

  /** The format applied to well-formed parts validates, and each part sits where the validator
      looks for it. */
  lemma FormatIsValid(storeId: string, category: string, sequence: string)
    requires WellFormedParts(storeId, category, sequence)
    ensures var s := QRData(storeId, category, sequence);
      && ValidQRCode(s)
      && s[2..5] == storeId && s[6..|s| - 7] == category && s[|s| - 6..] == sequence
  {
    var s := QRData(storeId, category, sequence);
    var n := |s|;
    assert s[2..5] == storeId;
    assert s[6..n - 7] == category;
    assert s[n - 6..] == sequence;
  }

  /** The fields `parseQRCode` reports. */
  datatype QRInfo = QRInfo(storeId: string, category: string, sequence: string)

  /** A valid payload splits at `_` into exactly three parts. */
  lemma SplitValid(qrData: string)
    requires ValidQRCode(qrData)
    ensures Split(qrData, '_') == [qrData[..5], qrData[6..|qrData| - 7], qrData[|qrData| - 6..]]
  {
    var n := |qrData|;
    PartsFree(qrData);
    SplitAround(qrData, 5, n - 7, '_', qrData[..5], qrData[6..n - 7], qrData[n - 6..]);
  }

  /** The three fields of a valid payload hold no `_`, and the two separators are `_`. */
  lemma PartsFree(qrData: string)
    requires ValidQRCode(qrData)
    ensures var n := |qrData|;
      && qrData[5] == '_' && qrData[n - 7] == '_'
      && Free(qrData[..5], '_') && Free(qrData[6..n - 7], '_') && Free(qrData[n - 6..], '_')
  {
    StorePartFree(qrData);
    LettersFree(qrData[6..|qrData| - 7]);
    DigitsFree(qrData[|qrData| - 6..]);
  }

  /** A string whose characters at i and j are the separator, and free of it elsewhere, splits
      into the three pieces around them. */
  lemma SplitAround(s: string, i: nat, j: nat, sep: char, a: string, b: string, c: string)
    requires i < j < |s| && s[i] == sep && s[j] == sep
    requires a == s[..i] && b == s[i + 1..j] && c == s[j + 1..]
    requires Free(a, sep) && Free(b, sep) && Free(c, sep)
    ensures Split(s, sep) == [a, b, c]
  {
    CutAround(s, i, j);
    SplitThree(a, b, c, sep);
  }

  /** A string is the pieces around two of its positions, with the characters at those positions. */
  lemma CutAround(s: string, i: nat, j: nat)
    requires i < j < |s|
    ensures s == s[..i] + [s[i]] + s[i + 1..j] + [s[j]] + s[j + 1..]
  {
    assert s[..j] == s[..i] + [s[i]] + s[i + 1..j];
    assert s == s[..j] + [s[j]] + s[j + 1..];
  }

  /** `ST` and three digits hold no `_`. */
  lemma StorePartFree(qrData: string)
    requires ValidQRCode(qrData)
    ensures Free(qrData[..5], '_')
  {
    var p0 := qrData[..5];
    forall i | 0 <= i < 5
      ensures p0[i] != '_'
    {
      if i < 2 {
        assert p0[i] == qrData[..2][i];
      } else {
        assert p0[i] == qrData[2..5][i - 2];
      }
    }
  }

  lemma LettersFree(s: string)
    requires AllUpperLetters(s)
    ensures Free(s, '_')
  {
  }

  lemma DigitsFree(s: string)
    requires AllDigits(s)
    ensures Free(s, '_')
  {
  }

  /** Three parts free of the separator, joined by it, split back into the three parts. */
  lemma SplitThree(a: string, b: string, c: string, sep: char)
    requires Free(a, sep) && Free(b, sep) && Free(c, sep)
    ensures Split(a + [sep] + b + [sep] + c, sep) == [a, b, c]
  {
    var parts := [a, b, c];
    assert parts[1..] == [b, c];
    assert [b, c][1..] == [c];
    assert Join([c], sep) == c;
    assert Join([b, c], sep) == b + [sep] + c;
    assert Join(parts, sep) == a + [sep] + b + [sep] + c;
    SplitJoin(parts, sep);
  }

  /** `parseQRCode(qrData)`: None (`null`) for an invalid payload; otherwise the store id without
      its `ST`, the category and the sequence, the three parts between the underscores. */
  function ParseQRCode(qrData: string): (r: Option<QRInfo>)
    ensures r.None? <==> !ValidQRCode(qrData)
  {
    if !ValidQRCode(qrData) then None
    else
      var parts := Split(qrData, '_');
      SplitValid(qrData);
      Some(QRInfo(parts[0][2..], parts[1], parts[2]))
  }

  /** Parsing the format of well-formed parts gives the parts back. */
  lemma ParseFormat(storeId: string, category: string, sequence: string)
    requires WellFormedParts(storeId, category, sequence)
    ensures ParseQRCode(QRData(storeId, category, sequence)) == Some(QRInfo(storeId, category, sequence))
  {
    var s := QRData(storeId, category, sequence);
    FormatIsValid(storeId, category, sequence);
    SplitValid(s);
    assert s[..5][2..] == s[2..5];
  }

  /** Formatting what a parse reports gives the payload back, and the reported parts are
      well-formed. */
  lemma FormatParse(qrData: string)
    requires ParseQRCode(qrData).Some?
    ensures var info := ParseQRCode(qrData).value;
      && WellFormedParts(info.storeId, info.category, info.sequence)
      && QRData(info.storeId, info.category, info.sequence) == qrData
  {
    var n := |qrData|;
    SplitValid(qrData);
    assert qrData[..5][2..] == qrData[2..5];
    assert qrData == QRData(qrData[2..5], qrData[6..n - 7], qrData[n - 6..]);
  }

  /** A store id that is not three digits, like the `store_001` ids stores are created with, gives
      a payload the validator rejects. */
  lemma StoreIdMustBeThreeDigits(category: string, sequence: string)
    ensures !ValidQRCode(QRData("store_001", category, sequence))
  {
    var s := QRData("store_001", category, sequence);
    if |s| >= 14 {
      assert s[2..5][0] == 's';
    }
  }

  /** `generateProductQRData(productName, productId, storeId)` as a value. */
  function ProductQRData(productName: string, productId: string, storeId: string, draw: nat): string {
    QRData(storeId, GetCategoryCode(productName), ProductSequence(productId, draw))
  }

  /** For a three-digit store id the generated payload validates and parses back into the store
      id, the category of the name and the sequence of the id. */
  lemma ProductQRDataRoundTrip(productName: string, productId: string, storeId: string, draw: nat)
    requires |storeId| == 3 && AllDigits(storeId) && draw < 1000000
    ensures ValidQRCode(ProductQRData(productName, productId, storeId, draw))
    ensures ParseQRCode(ProductQRData(productName, productId, storeId, draw)) ==
      Some(QRInfo(storeId, GetCategoryCode(productName), ProductSequence(productId, draw)))
  {
    var category := GetCategoryCode(productName);
    var sequence := ProductSequence(productId, draw);
    CategoryIsWord(category);
    ProductSequenceShape(productId, draw);
    FormatIsValid(storeId, category, sequence);
    ParseFormat(storeId, category, sequence);
  }

  /** `generateProductQRData(productName, productId, storeId)` */
  method GenerateProductQRData(productName: string, productId: string, storeId: string, draw: nat)
    returns (qrData: string)
    requires draw < 1000000
    ensures qrData == ProductQRData(productName, productId, storeId, draw)
  {
    var storePart := "ST" + storeId;
    var categoryCode := GetCategoryCode(productName);
    var productSequence := GenerateProductSequence(productId, draw);
    qrData := storePart + "_" + categoryCode + "_" + productSequence;
  }

  // ---------------------------------------------------------------------------------------------
  // Uniqueness and the retry loop

  /** `isQRCodeUnique(qrData, inventory, currentProductId)`: true for an empty inventory, otherwise
      true when no item other than the current product carries the payload. */
  function IsQRCodeUnique(qrData: string, inventory: seq<Product>, currentProductId: string): (unique: bool)
    ensures unique <==> forall i :: 0 <= i < |inventory| ==> inventory[i].qrcode != Some(qrData) || inventory[i].id == currentProductId
  {
    |inventory| == 0 || !Any(inventory, ClashesWith(qrData, currentProductId))
  }

  /** Whether an item carries the payload and is not the current product. */
  function ClashesWith(qrData: string, currentProductId: string): Product -> bool {
    (item: Product) => item.qrcode == Some(qrData) && item.id != currentProductId
  }

  /** The payload is unique exactly when every item carrying it is the current product. */
  lemma UniqueIffOnlySelf(qrData: string, inventory: seq<Product>, currentProductId: string)
    ensures IsQRCodeUnique(qrData, inventory, currentProductId) <==>
      forall i :: 0 <= i < |inventory| && inventory[i].qrcode == Some(qrData) ==> inventory[i].id == currentProductId
  {
    if !IsQRCodeUnique(qrData, inventory, currentProductId) {
      var i :| 0 <= i < |inventory| && ClashesWith(qrData, currentProductId)(inventory[i]);
      assert inventory[i].qrcode == Some(qrData) && inventory[i].id != currentProductId;
    }
  }

  /** The number of retries `generateUniqueQRCode` allows. */
  const MaxAttempts: nat := 100

  /** The payload of a retry: the last six characters of the id followed by the three-digit
      suffix, padded with zeros to six. */
  function RetryQRData(productName: string, productId: string, storeId: string, suffix: nat): string {
    QRData(storeId, GetCategoryCode(productName), RetrySequence(productId, suffix))
  }

  /** The payloads the loop can hold, in order: the generated one, then one retry per suffix. */
  function Candidates(productName: string, productId: string, storeId: string, draw: nat, suffixes: seq<nat>): (c: seq<string>)
    ensures |c| == |suffixes| + 1
    ensures c[0] == ProductQRData(productName, productId, storeId, draw)
  {
    [ProductQRData(productName, productId, storeId, draw)] +
    seq(|suffixes|, a requires 0 <= a < |suffixes| => RetryQRData(productName, productId, storeId, suffixes[a]))
  }

  /** Candidate a + 1 is the retry with the a-th suffix. */
  lemma CandidateIsRetry(productName: string, productId: string, storeId: string, draw: nat, suffixes: seq<nat>, a: nat)
    requires a < |suffixes|
    ensures Candidates(productName, productId, storeId, draw, suffixes)[a + 1] == RetryQRData(productName, productId, storeId, suffixes[a])
  {
  }

  /** The number of attempts the loop makes from a on: it stops at the first unique candidate or
      when the budget is spent. */
  function AttemptsFrom(candidates: seq<string>, inventory: seq<Product>, productId: string, a: nat): (r: nat)
    requires a <= MaxAttempts < |candidates|
    ensures a <= r <= MaxAttempts
    ensures r < MaxAttempts ==> IsQRCodeUnique(candidates[r], inventory, productId)
    ensures forall b :: a <= b < r ==> !IsQRCodeUnique(candidates[b], inventory, productId)
    decreases MaxAttempts - a
  {
    if a == MaxAttempts || IsQRCodeUnique(candidates[a], inventory, productId) then a
    else AttemptsFrom(candidates, inventory, productId, a + 1)
  }

  /**
    * `generateUniqueQRCode(productName, productId, inventory, storeId)`: generates the payload and,
    * while another item carries it and fewer than 100 retries were made, replaces it by a retry
    * payload. The result is the first unique candidate, or the last retry when none of the first
    * 100 candidates is unique.
    */
  method GenerateUniqueQRCode(productName: string, productId: string, inventory: seq<Product>, storeId: string,
                              draw: nat, suffixes: seq<nat>)
    returns (qrData: string)
    requires draw < 1000000 && |suffixes| == MaxAttempts
    ensures var candidates := Candidates(productName, productId, storeId, draw, suffixes);
      var a := AttemptsFrom(candidates, inventory, productId, 0);
      && qrData == candidates[a]
      && (IsQRCodeUnique(qrData, inventory, productId) || a == MaxAttempts)
  {
    ghost var candidates := Candidates(productName, productId, storeId, draw, suffixes);
    qrData := GenerateProductQRData(productName, productId, storeId, draw);
    var attempts := 0;
    while !IsQRCodeUnique(qrData, inventory, productId) && attempts < MaxAttempts
      invariant 0 <= attempts <= MaxAttempts
      invariant qrData == candidates[attempts]
      invariant AttemptsFrom(candidates, inventory, productId, 0) == AttemptsFrom(candidates, inventory, productId, attempts)
    {
      var randomSuffix := ZeroPad(suffixes[attempts], 3);
      var modifiedSequence := PadStart(TakeLast(productId + randomSuffix, 6), 6, '0');
      var storePart := "ST" + storeId;
      var categoryCode := GetCategoryCode(productName);
      qrData := storePart + "_" + categoryCode + "_" + modifiedSequence;
      CandidateIsRetry(productName, productId, storeId, draw, suffixes, attempts);
      attempts := attempts + 1;
    }
  }

  /** A generated payload that is already unique is returned unchanged. */
  lemma UniqueAtFirstAttempt(productName: string, productId: string, inventory: seq<Product>, storeId: string,
                             draw: nat, suffixes: seq<nat>)
    requires |suffixes| == MaxAttempts
    requires IsQRCodeUnique(ProductQRData(productName, productId, storeId, draw), inventory, productId)
    ensures var candidates := Candidates(productName, productId, storeId, draw, suffixes);
      candidates[AttemptsFrom(candidates, inventory, productId, 0)] == ProductQRData(productName, productId, storeId, draw)
  {
  }

  /** The result is unique exactly when one of the candidates the budget allows is unique. */
  lemma UniqueWithinBudget(candidates: seq<string>, inventory: seq<Product>, productId: string)
    requires |candidates| == MaxAttempts + 1
    ensures IsQRCodeUnique(candidates[AttemptsFrom(candidates, inventory, productId, 0)], inventory, productId) <==>
      exists b :: 0 <= b < |candidates| && IsQRCodeUnique(candidates[b], inventory, productId)
  {
    var a := AttemptsFrom(candidates, inventory, productId, 0);
    if exists b :: 0 <= b < |candidates| && IsQRCodeUnique(candidates[b], inventory, productId) {
      var b :| 0 <= b < |candidates| && IsQRCodeUnique(candidates[b], inventory, productId);
      if a == MaxAttempts {
        assert b == a;
      }
    }
  }

  /** A retry keeps the id's last three characters in front of the suffix, so an id ending in a
      non-digit gives a retry payload the validator rejects. */
  lemma RetryCanBeInvalid(productName: string, productId: string, storeId: string, suffix: nat)
    requires |productId| >= 3 && !IsDigit(productId[|productId| - 1]) && suffix < 1000
    ensures !ValidQRCode(RetryQRData(productName, productId, storeId, suffix))
  {
    var sequence := RetrySequence(productId, suffix);
    RetrySequenceShape(productId, suffix);
    var s := RetryQRData(productName, productId, storeId, suffix);
    QRDataTail(storeId, GetCategoryCode(productName), sequence);
    assert !IsDigit(s[|s| - 6..][2]);
  }

  /** The sequence part of a retry. */
  function RetrySequence(productId: string, suffix: nat): string {
    PadStart(TakeLast(productId + ZeroPad(suffix, 3), 6), 6, '0')
  }

  /** The retry sequence is six characters whose third is the id's last character. */
  lemma RetrySequenceShape(productId: string, suffix: nat)
    requires |productId| >= 3 && suffix < 1000
    ensures |RetrySequence(productId, suffix)| == 6
    ensures RetrySequence(productId, suffix)[2] == productId[|productId| - 1]
  {
    ZeroPadShape(suffix, 3);
    assert Pow10(3) == 1000;
    var t := productId + ZeroPad(suffix, 3);
    assert RetrySequence(productId, suffix) == t[|t| - 6..];
  }

  /** The last six characters of a payload are its sequence when that has six characters. */
  lemma QRDataTail(storeId: string, category: string, sequence: string)
    requires |sequence| == 6
    ensures var s := QRData(storeId, category, sequence); s[|s| - 6..] == sequence
  {
  }
}
