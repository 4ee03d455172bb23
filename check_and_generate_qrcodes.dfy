/**
  * The diagnostic helpers of src/utils/checkAndGenerateQRCodes.js: the QR/barcode status counts,
  * the pass that gives every product without a QR payload a new one, and the five-way lookup of a
  * scanned code.
  *
  * The inventory snapshot is `products`; the store after the pass is returned. `refused` is the
  * set of document ids whose write the store rejects; `draws` and `suffixes` are the random inputs
  * of `generateUniqueQRCode` for each product, by position.
  */
module CheckAndGenerateQRCodes {
  import opened Wrappers
  import opened Text
  import opened Seqs
  import opened Inventory
  import opened QrCodeGenerator

  // ---------------------------------------------------------------------------------------------
  // Status counts

  predicate HasQRCode(p: Product) { Truthy(p.qrcode) }
  predicate LacksQRCode(p: Product) { !Truthy(p.qrcode) }
  predicate HasBarcode(p: Product) { Truthy(p.barcode) }
  predicate LacksBarcode(p: Product) { !Truthy(p.barcode) }

  datatype QRStatus = QRStatus(total: nat, withQRCode: nat, withoutQRCode: nat, withBarcode: nat, withoutBarcode: nat)

  /** `checkProductQRCodes()`: the number of products with and without a QR payload and with and
      without a barcode. Every product is counted on exactly one side of each split. */
  function CheckProductQRCodes(products: seq<Product>): (r: QRStatus)
    ensures r.total == |products|
    ensures r.withQRCode + r.withoutQRCode == r.total
    ensures r.withBarcode + r.withoutBarcode == r.total
  {
    FilterComplement(products, HasQRCode, LacksQRCode);
    FilterComplement(products, HasBarcode, LacksBarcode);
    QRStatus(|products|, |Filter(products, HasQRCode)|, |Filter(products, LacksQRCode)|,
      |Filter(products, HasBarcode)|, |Filter(products, LacksBarcode)|)
  }

  // ---------------------------------------------------------------------------------------------
  // Filling in missing QR payloads

  /** The store id a product's payload uses: its own when set, the pass's otherwise. */
  function StoreIdFor(p: Product, storeId: string): string {
    if Truthy(p.storeId) then p.storeId.value else storeId
  }

  /** The payload the pass generates for product j: `generateUniqueQRCode` run against the
      snapshot read before the pass. */
  function StaleQRCode(products: seq<Product>, j: nat, storeId: string, draw: nat, suffixes: seq<nat>): string
    requires j < |products| && |suffixes| == MaxAttempts
  {
    var p := products[j];
    var candidates := Candidates(p.name, p.id, StoreIdFor(p, storeId), draw, suffixes);
    candidates[AttemptsFrom(candidates, products, p.id, 0)]
  }

  /** The call `generateUniqueQRCode(product.name, product.id, products, product.storeId || storeId)`
      the pass makes for product i. */
  method GenerateForPass(products: seq<Product>, i: nat, storeId: string, draw: nat, suffixes: seq<nat>)
    returns (qrcode: string)
    requires i < |products| && draw < 1000000 && |suffixes| == MaxAttempts
    ensures qrcode == StaleQRCode(products, i, storeId, draw, suffixes)
  {
    var product := products[i];
    qrcode := GenerateUniqueQRCode(product.name, product.id, products,
      if Truthy(product.storeId) then product.storeId.value else storeId, draw, suffixes);
  }

  /** Whether the pass writes product p: it lacks a payload and its write is accepted. */
  function QRWritten(refused: set<string>): Product -> bool {
    (p: Product) => LacksQRCode(p) && p.id !in refused
  }

  /** Product j after the pass: with the generated payload when the pass writes it, unchanged
      otherwise. */
  function AfterQRPass(products: seq<Product>, j: nat, storeId: string, refused: set<string>, draw: nat, suffixes: seq<nat>): Product
    requires j < |products| && |suffixes| == MaxAttempts
  {
    if QRWritten(refused)(products[j]) then products[j].(qrcode := Some(StaleQRCode(products, j, storeId, draw, suffixes)))
    else products[j]
  }

  /** Placing product i as the pass leaves it after the products before it. */
  lemma QRPassUpdate(products: seq<Product>, store: seq<Product>, i: nat, storeId: string, refused: set<string>,
                     draws: seq<nat>, suffixes: seq<seq<nat>>, q: Product)
    requires i < |products| == |store| == |draws| == |suffixes|
    requires forall j :: 0 <= j < |products| ==> |suffixes[j]| == MaxAttempts
    requires forall j :: 0 <= j < i ==> store[j] == AfterQRPass(products, j, storeId, refused, draws[j], suffixes[j])
    requires q == AfterQRPass(products, i, storeId, refused, draws[i], suffixes[i])
    ensures forall j :: 0 <= j <= i ==> store[i := q][j] == AfterQRPass(products, j, storeId, refused, draws[j], suffixes[j])
  {
  }

  /** A product the pass does not write is as the pass leaves it. */
  lemma QRPassKeep(products: seq<Product>, store: seq<Product>, i: nat, storeId: string, refused: set<string>,
                   draws: seq<nat>, suffixes: seq<seq<nat>>)
    requires i < |products| == |store| == |draws| == |suffixes|
    requires forall j :: 0 <= j < |products| ==> |suffixes[j]| == MaxAttempts
    requires forall j :: 0 <= j < i ==> store[j] == AfterQRPass(products, j, storeId, refused, draws[j], suffixes[j])
    requires store[i] == products[i] && !QRWritten(refused)(products[i])
    ensures forall j :: 0 <= j <= i ==> store[j] == AfterQRPass(products, j, storeId, refused, draws[j], suffixes[j])
  {
  }

  /**
    * `generateMissingQRCodes(storeId)`: for each product without a QR payload, in snapshot order,
    * generates a payload and writes it into `qrcode`; a rejected write is logged and skipped and
    * the loop goes on. `updated` counts the accepted writes. Products that have a payload are
    * never written.
    */
  method GenerateMissingQRCodes(products: seq<Product>, storeId: string, refused: set<string>,
                                draws: seq<nat>, suffixes: seq<seq<nat>>)
    returns (store: seq<Product>, updated: nat)
    requires |draws| == |products| && |suffixes| == |products|
    requires forall j :: 0 <= j < |products| ==> draws[j] < 1000000 && |suffixes[j]| == MaxAttempts
    ensures |store| == |products|
    ensures forall j :: 0 <= j < |products| ==> store[j] == AfterQRPass(products, j, storeId, refused, draws[j], suffixes[j])
    ensures updated == |Filter(products, QRWritten(refused))|
  {
    store := products;
    updated := 0;
    if |Filter(products, LacksQRCode)| == 0 {
      NoneWritten(products, refused);
      return;
    }
    var i := 0;
    while i < |products|
      invariant 0 <= i <= |products|
      invariant |store| == |products|
      invariant forall j :: 0 <= j < i ==> store[j] == AfterQRPass(products, j, storeId, refused, draws[j], suffixes[j])
      invariant forall j :: i <= j < |products| ==> store[j] == products[j]
      invariant updated == |Filter(products[..i], QRWritten(refused))|
    {
      var product := products[i];
      FilterPrefixStep(products, i, QRWritten(refused));
      if !Truthy(product.qrcode) {
        var qrcode := GenerateForPass(products, i, storeId, draws[i], suffixes[i]);
        if product.id !in refused {
          QRPassUpdate(products, store, i, storeId, refused, draws, suffixes, product.(qrcode := Some(qrcode)));
          store := store[i := product.(qrcode := Some(qrcode))];
          updated := updated + 1;
        } else {
          QRPassKeep(products, store, i, storeId, refused, draws, suffixes);
        }
      } else {
        QRPassKeep(products, store, i, storeId, refused, draws, suffixes);
      }
      i := i + 1;
    }
    assert products[..i] == products;
  }

  /** Nothing is written when no product lacks a payload. */
  lemma NoneWritten(products: seq<Product>, refused: set<string>)
    requires |Filter(products, LacksQRCode)| == 0
    ensures forall j :: 0 <= j < |products| ==> !QRWritten(refused)(products[j])
    ensures |Filter(products, QRWritten(refused))| == 0
  {
    FilterMonotone(products, QRWritten(refused), LacksQRCode);
  }

  /** Uniqueness is checked against the snapshot only, which the pass never updates: in a snapshot
      without payloads, two products with the same name and store whose ids hash alike ("Aa" and
      "BB") both receive the same payload in one pass. */
  lemma StaleSnapshotAllowsDuplicates(products: seq<Product>, a: nat, b: nat, storeId: string, draw: nat, suffixes: seq<nat>)
    requires a < |products| && b < |products| && |suffixes| == MaxAttempts
    requires forall j :: 0 <= j < |products| ==> products[j].qrcode == None
    requires products[a].id == "Aa" && products[b].id == "BB"
    requires products[a].name == products[b].name && products[a].storeId == products[b].storeId
    ensures StaleQRCode(products, a, storeId, draw, suffixes) == StaleQRCode(products, b, storeId, draw, suffixes)
  {
    HashCollision();
    var name, store := products[a].name, StoreIdFor(products[a], storeId);
    var first := ProductQRData(name, "Aa", store, draw);
    assert first == ProductQRData(name, "BB", store, draw);
    NoPayloadIsUnique(first, products, "Aa");
    NoPayloadIsUnique(first, products, "BB");
  }

  /** The ids "Aa" and "BB" have the same rolling hash: 65 * 31 + 97 == 66 * 31 + 66. */
  lemma HashCollision()
    ensures Hash("Aa") == Hash("BB") == 2112
  {
    assert "Aa"[..1] == "A" && "BB"[..1] == "B";
    assert "A"[..0] == "" && "B"[..0] == "";
    assert Hash("A") == 65;
    assert Hash("B") == 66;
  }

  /** Every payload is unique in a snapshot where no product has one. */
  lemma NoPayloadIsUnique(qrData: string, products: seq<Product>, productId: string)
    requires forall j :: 0 <= j < |products| ==> products[j].qrcode == None
    ensures IsQRCodeUnique(qrData, products, productId)
  {
    UniqueIffOnlySelf(qrData, products, productId);
  }

  // ---------------------------------------------------------------------------------------------
  // Looking up a scanned code

  function ByQRCode(code: string): Product -> bool { (p: Product) => p.qrcode == Some(code) }
  function ByBarcode(code: string): Product -> bool { (p: Product) => p.barcode == Some(code) }
  function ByProductCode(code: string): Product -> bool { (p: Product) => p.code == Some(Upper(code)) }
  function ById(code: string): Product -> bool { (p: Product) => Lower(p.id) == Lower(code) }
  function ByName(code: string): Product -> bool { (p: Product) => Contains(Lower(p.name), Lower(code)) }

  /** `testScanCode(code)`: the first product found by QR payload, else by barcode, else by product
      code (the input upper-cased), else by id (ignoring case), else by name (containing the
      lower-cased input). None is `undefined`. */
  function TestScanCode(products: seq<Product>, code: string): (found: Option<Product>)
    ensures found.Some? ==> found.value in products
  {
    var byQRCode := Find(products, ByQRCode(code));
    var byBarcode := Find(products, ByBarcode(code));
    var byProductCode := Find(products, ByProductCode(code));
    var byId := Find(products, ById(code));
    var byName := Find(products, ByName(code));
    if byQRCode.Some? then byQRCode
    else if byBarcode.Some? then byBarcode
    else if byProductCode.Some? then byProductCode
    else if byId.Some? then byId
    else byName
  }

  /** Whether product p answers the code under any of the five rules. */
  predicate AnswersScan(p: Product, code: string) {
    ByQRCode(code)(p) || ByBarcode(code)(p) || ByProductCode(code)(p) || ById(code)(p) || ByName(code)(p)
  }

  /** The lookup finds nothing exactly when no product answers the code under any rule, and a
      product it finds answers the code. */
  lemma ScanFindsIffSomeAnswers(products: seq<Product>, code: string)
    ensures TestScanCode(products, code).None? <==> forall j :: 0 <= j < |products| ==> !AnswersScan(products[j], code)
    ensures TestScanCode(products, code).Some? ==> AnswersScan(TestScanCode(products, code).value, code)
  {
  }

  /** The rules are tried in order: when a product carries the code as QR payload, the first such
      product is the answer whatever the later rules would find. */
  lemma ScanPrefersQRCode(products: seq<Product>, code: string, k: nat)
    requires k < |products| && products[k].qrcode == Some(code)
    requires forall j :: 0 <= j < k ==> products[j].qrcode != Some(code)
    ensures TestScanCode(products, code) == Some(products[k])
  {
    FirstIndexIs(products, ByQRCode(code), k);
  }

  const ScanRuleCount: nat := 5

  /** The rules of `testScanCode` in the order they are tried: QR payload, barcode, product code,
      id, name. */
  function ScanRule(code: string, k: nat): Product -> bool
    requires k < ScanRuleCount
  {
    if k == 0 then ByQRCode(code)
    else if k == 1 then ByBarcode(code)
    else if k == 2 then ByProductCode(code)
    else if k == 3 then ById(code)
    else ByName(code)
  }

  /** The first hit wins: when no product answers any earlier rule, the answer is the first
      product that answers rule k, whatever the later rules would find. */
  lemma ScanFirstHitWins(products: seq<Product>, code: string, k: nat, i: nat)
    requires k < ScanRuleCount && i < |products| && ScanRule(code, k)(products[i])
    requires forall j :: 0 <= j < i ==> !ScanRule(code, k)(products[j])
    requires forall r, j :: 0 <= r < k && 0 <= j < |products| ==> !ScanRule(code, r)(products[j])
    ensures TestScanCode(products, code) == Some(products[i])
  {
    FirstIndexIs(products, ScanRule(code, k), i);
    forall r | 0 <= r < k
      ensures Find(products, ScanRule(code, r)) == None
    {
      FirstIndexIs(products, ScanRule(code, r), |products|);
    }
    if k >= 1 { assert Find(products, ByQRCode(code)) == None by { assert ScanRule(code, 0) == ByQRCode(code); } }
    if k >= 2 { assert Find(products, ByBarcode(code)) == None by { assert ScanRule(code, 1) == ByBarcode(code); } }
    if k >= 3 { assert Find(products, ByProductCode(code)) == None by { assert ScanRule(code, 2) == ByProductCode(code); } }
    if k >= 4 { assert Find(products, ById(code)) == None by { assert ScanRule(code, 3) == ById(code); } }
  }

  /** The product-code rule upper-cases only the input, so a stored code with a lower-case letter is
      never matched by it. */
  lemma LowerCaseCodeNeverMatched(p: Product, code: string, k: nat)
    requires p.code.Some? && k < |p.code.value| && IsLowerLetter(p.code.value[k])
    ensures !ByProductCode(code)(p)
  {
    if k < |code| {
      assert !IsLowerLetter(Upper(code)[k]);
    }
  }

  /** An empty input that no QR payload, barcode, product code or id matches finds the first
      product, because every name contains the empty string. */
  lemma EmptyScanFindsFirst(products: seq<Product>)
    requires |products| > 0
    requires forall j :: 0 <= j < |products| ==>
      !ByQRCode("")(products[j]) && !ByBarcode("")(products[j]) && !ByProductCode("")(products[j]) && !ById("")(products[j])
    ensures TestScanCode(products, "") == Some(products[0])
  {
    ContainsEmpty(Lower(products[0].name));
    FirstIndexIs(products, ByName(""), 0);
  }
}
