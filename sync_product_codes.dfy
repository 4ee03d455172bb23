/**
  * Short product codes (`RICE001`) and the passes that keep `code == barcode == qrcode`
  * (src/utils/syncProductCodes.js).
  *
  * The inventory collection is the snapshot `products`; a pass returns the collection as it is
  * after its writes. Which writes the store rejects is the parameter `refused`, a set of document
  * ids: a rejected write throws, which ends the pass with the earlier writes kept.
  */
module SyncProductCodes {
  import opened Wrappers
  import opened Text
  import opened Seqs
  import opened Inventory

  /** The number of entries of the category map. */
  const KeywordCount: nat := 20

  /** Entry k of the category map, keyword and prefix, in the order the map lists them (its
      iteration order). */
  function CategoryKeyword(k: nat): (string, string)
    requires k < KeywordCount
  {
    match k
    case 0 => ("rice", "RICE")
    case 1 => ("wheat", "WHEAT")
    case 2 => ("flour", "FLOUR")
    case 3 => ("oil", "OIL")
    case 4 => ("ghee", "GHEE")
    case 5 => ("butter", "BUTTER")
    case 6 => ("sugar", "SUGAR")
    case 7 => ("salt", "SALT")
    case 8 => ("milk", "MILK")
    case 9 => ("bread", "BREAD")
    case 10 => ("biscuit", "BISCUIT")
    case 11 => ("tea", "TEA")
    case 12 => ("coffee", "COFFEE")
    case 13 => ("juice", "JUICE")
    case 14 => ("egg", "EGGS")
    case 15 => ("soap", "SOAP")
    case 16 => ("shampoo", "SHAMPOO")
    case 17 => ("toothpaste", "PASTE")
    case 18 => ("detergent", "DETERGENT")
    case _ => ("cleaner", "CLEANER")
  }

  /** The highest sequence number the search tries. */
  const MaxSequence: nat := 999

  /** The position of the first keyword that occurs in the lower-cased, trimmed name
      (KeywordCount when none does). */
  function KeywordIndex(productName: string): (k: nat)
    ensures k <= KeywordCount
  {
    KeywordFrom(Trim(Lower(productName)), 0)
  }

  /** The first entry from k on whose keyword occurs in the name. */
  function KeywordFrom(name: string, k: nat): (r: nat)
    requires k <= KeywordCount
    ensures k <= r <= KeywordCount
    ensures r < KeywordCount ==> Contains(name, CategoryKeyword(r).0)
    ensures forall j :: k <= j < r ==> !Contains(name, CategoryKeyword(j).0)
    decreases KeywordCount - k
  {
    if k == KeywordCount || Contains(name, CategoryKeyword(k).0) then k else KeywordFrom(name, k + 1)
  }

  /** The prefix used when no keyword matches: the first four characters of the untrimmed name,
      upper-cased, with every character outside A-Z replaced by `X`. */
  function FallbackPrefix(productName: string): (prefix: string)
    ensures |prefix| == if |productName| < 4 then |productName| else 4
    ensures AllUpperLetters(prefix)
    ensures forall i :: 0 <= i < |prefix| ==>
      prefix[i] == (if IsUpperLetter(UpperChar(productName[i])) then UpperChar(productName[i]) else 'X')
  {
    MaskNonLetters(Upper(TakeFirst(productName, 4)))
  }

  /** `s.replace(/[^A-Z]/g, 'X')` */
  function MaskNonLetters(s: string): (r: string)
    ensures |r| == |s| && AllUpperLetters(r)
    ensures forall i :: 0 <= i < |s| ==> r[i] == if IsUpperLetter(s[i]) then s[i] else 'X'
    decreases |s|
  {
    if s == [] then [] else [if IsUpperLetter(s[0]) then s[0] else 'X'] + MaskNonLetters(s[1..])
  }

  /** The category prefix of a product name. */
  function CodePrefix(productName: string): string {
    var k := KeywordIndex(productName);
    if k < KeywordCount then CategoryKeyword(k).1 else FallbackPrefix(productName)
  }

  /** The prefix is that of the first entry of the map, in map order, whose keyword occurs in the
      lower-cased trimmed name; it is the fallback prefix when no keyword occurs. */
  lemma CodePrefixIsFirstKeyword(productName: string, k: nat)
    requires k < KeywordCount
    ensures var name := Trim(Lower(productName));
      Contains(name, CategoryKeyword(k).0) && (forall j :: 0 <= j < k ==> !Contains(name, CategoryKeyword(j).0))
      ==> CodePrefix(productName) == CategoryKeyword(k).1
  {
    var name := Trim(Lower(productName));
    if Contains(name, CategoryKeyword(k).0) && (forall j :: 0 <= j < k ==> !Contains(name, CategoryKeyword(j).0)) {
      var i := KeywordIndex(productName);
      assert i == KeywordFrom(name, 0);
      assert !(i < k);
      assert i == k;
    }
  }

  lemma CodePrefixFallback(productName: string)
    ensures (forall j :: 0 <= j < KeywordCount ==> !Contains(Trim(Lower(productName)), CategoryKeyword(j).0))
      ==> CodePrefix(productName) == FallbackPrefix(productName)
  {
  }

  /** The code with a given prefix and sequence number: the prefix and the number left-padded
      with zeros to three digits. */
  function SequenceCode(prefix: string, sequence: nat): string {
    prefix + ZeroPad(sequence, 3)
  }

  /** A code for a sequence number in 1..999 is the prefix followed by exactly three decimal
      digits that read back as that number. */
  lemma SequenceCodeShape(prefix: string, sequence: nat)
    requires 1 <= sequence <= MaxSequence
    ensures var code := SequenceCode(prefix, sequence);
      && |code| == |prefix| + 3
      && code[..|prefix|] == prefix
      && AllDigits(code[|prefix|..])
      && DecimalValue(code[|prefix|..]) == sequence
  {
    ZeroPadShape(sequence, 3);
    assert Pow10(3) == 1000;
    var code := SequenceCode(prefix, sequence);
    assert code[|prefix|..] == ZeroPad(sequence, 3);
  }

  /** The sequence number the search settles on when it starts at n: the first number from n on
      whose code is free, or 999 when every code up to 998 is taken. */
  function FreeSequenceFrom(prefix: string, existingCodes: seq<string>, n: nat): (r: nat)
    requires 1 <= n <= MaxSequence
    ensures n <= r <= MaxSequence
    ensures forall m :: n <= m < r ==> SequenceCode(prefix, m) in existingCodes
    ensures SequenceCode(prefix, r) in existingCodes ==> r == MaxSequence
    decreases MaxSequence - n
  {
    if SequenceCode(prefix, n) in existingCodes && n < MaxSequence
    then FreeSequenceFrom(prefix, existingCodes, n + 1)
    else n
  }

  /** The code `generateProductCodeFromName(productName, existingCodes)` returns. */
  function ProductCodeFor(productName: string, existingCodes: seq<string>): string {
    var prefix := CodePrefix(productName);
    SequenceCode(prefix, FreeSequenceFrom(prefix, existingCodes, 1))
  }

  /**
    * Searches sequence numbers upward from 1 for a code not in `existingCodes`, stopping at 999.
    */
  method GenerateProductCodeFromName(productName: string, existingCodes: seq<string>) returns (code: string)
    ensures code == ProductCodeFor(productName, existingCodes)
  {
    var prefix := CodePrefix(productName);
    var sequence := 1;
    code := SequenceCode(prefix, sequence);
    while code in existingCodes && sequence < MaxSequence
      invariant 1 <= sequence <= MaxSequence
      invariant code == SequenceCode(prefix, sequence)
      invariant FreeSequenceFrom(prefix, existingCodes, sequence) == FreeSequenceFrom(prefix, existingCodes, 1)
      decreases MaxSequence - sequence
    {
      sequence := sequence + 1;
      code := SequenceCode(prefix, sequence);
    }
  }

  /** A generated code is the name's prefix followed by three digits denoting a number in
      1..999; it is not among the existing codes unless the number is 999, and then every
      smaller number was taken: the search fails open instead of reporting exhaustion. */
  lemma ProductCodeForProperties(productName: string, existingCodes: seq<string>)
    ensures var prefix := CodePrefix(productName);
      var code := ProductCodeFor(productName, existingCodes);
      var digits := code[|prefix|..];
      && |code| == |prefix| + 3 && code[..|prefix|] == prefix
      && AllDigits(digits) && 1 <= DecimalValue(digits) <= MaxSequence
      && (code in existingCodes ==> DecimalValue(digits) == MaxSequence)
      && (forall m :: 1 <= m < DecimalValue(digits) ==> SequenceCode(prefix, m) in existingCodes)
  {
    var prefix := CodePrefix(productName);
    var s := FreeSequenceFrom(prefix, existingCodes, 1);
    SequenceCodeShape(prefix, s);
  }

  /** When the 999 codes of a prefix are all taken, the generator returns `PREFIX999`,
      a code that is already in use. */
  lemma ExhaustedPrefixFailsOpen(productName: string, existingCodes: seq<string>)
    requires forall m :: 1 <= m <= MaxSequence ==> SequenceCode(CodePrefix(productName), m) in existingCodes
    ensures ProductCodeFor(productName, existingCodes) == SequenceCode(CodePrefix(productName), MaxSequence)
    ensures ProductCodeFor(productName, existingCodes) in existingCodes
  {
    var prefix := CodePrefix(productName);
    var s := FreeSequenceFrom(prefix, existingCodes, 1);
    assert SequenceCode(prefix, s) in existingCodes;
  }

  // ---------------------------------------------------------------------------------------------
  // Bulk synchronisation

  /** The three identifier fields agree. */
  predicate InSync(p: Product) {
    p.barcode == p.code && p.qrcode == p.code
  }

  /** The pass writes a product exactly when it has a code that its barcode or QR field differs from. */
  predicate NeedsSync(p: Product) {
    Truthy(p.code) && !InSync(p)
  }

  /** The product after the write `{barcode: code, qrcode: code}`. */
  function Synced(p: Product): (q: Product)
    ensures InSync(q) && q.code == p.code
  {
    p.(barcode := p.code, qrcode := p.code)
  }

  /** Product p once the pass has handled it without a refusal. */
  function SyncedIfNeeded(p: Product): (q: Product)
    ensures Truthy(q.code) ==> InSync(q)
  {
    if NeedsSync(p) then Synced(p) else p
  }

  datatype SyncReport = SyncReport(total: nat, updated: nat, skipped: nat)

  /** A store write that was refused, naming the document. */
  datatype WriteError = WriteFailed(productId: string)

  /** The position of the first product whose write the store refuses (|products| when none). */
  function FirstRefusedSync(products: seq<Product>, refused: set<string>): nat {
    FirstIndex(products, SyncRefused(refused))
  }

  /** Whether the pass reaches a write for the product that the store then refuses. */
  function SyncRefused(refused: set<string>): Product -> bool {
    (p: Product) => NeedsSync(p) && p.id in refused
  }

  /**
    * `syncAllProductCodes`: copies `code` into `barcode` and `qrcode` of every product that has a
    * code and disagrees with it; counts those as updated and every other product as skipped.
    * A refused write ends the pass: the products before it are written, the rest are not.
    */
  method SyncAllProductCodes(products: seq<Product>, refused: set<string>)
    returns (store: seq<Product>, outcome: Result<SyncReport, WriteError>)
    ensures |store| == |products|
    ensures var k := FirstRefusedSync(products, refused);
      && (outcome.Success? <==> k == |products|)
      && (outcome.Failure? ==> outcome.error == WriteFailed(products[k].id))
      && forall i :: 0 <= i < |products| ==>
           store[i] == if i < k then SyncedIfNeeded(products[i]) else products[i]
    ensures outcome.Success? ==>
      && outcome.value.total == |products|
      && outcome.value.updated + outcome.value.skipped == outcome.value.total
      && outcome.value.updated == |Filter(products, NeedsSync)|
      && forall i :: 0 <= i < |store| && Truthy(store[i].code) ==> InSync(store[i])
  {
    store := products;
    var updated, skipped := 0, 0;
    var i := 0;
    while i < |products|
      invariant i <= FirstRefusedSync(products, refused)
      invariant SyncedUpTo(store, products, i)
      invariant updated == |Filter(products[..i], NeedsSync)| && updated + skipped == i
    {
      if NeedsSync(products[i]) && products[i].id in refused {
        assert SyncRefused(refused)(products[i]);
        outcome := Failure(WriteFailed(products[i].id));
        return;
      }
      store, updated, skipped := SyncOne(products, i, store, updated, skipped);
      i := i + 1;
    }
    assert products[..i] == products;
    SyncedAll(store, products);
    outcome := Success(SyncReport(|products|, updated, skipped));
  }

  /** The store after the pass has handled the first i products. */
  predicate SyncedUpTo(store: seq<Product>, products: seq<Product>, i: nat) {
    && i <= |products| == |store|
    && forall j :: 0 <= j < |products| ==> store[j] == if j < i then SyncedIfNeeded(products[j]) else products[j]
  }

  /** Once every product is handled, every product with a code is in sync. */
  lemma SyncedAll(store: seq<Product>, products: seq<Product>)
    requires SyncedUpTo(store, products, |products|)
    ensures forall i :: 0 <= i < |store| && Truthy(store[i].code) ==> InSync(store[i])
  {
    forall i | 0 <= i < |store| && Truthy(store[i].code)
      ensures InSync(store[i])
    {
      assert store[i] == SyncedIfNeeded(products[i]);
    }
  }

  /** One turn of the loop whose write, if any, goes through: a product with a code that
      disagrees is written and counted as updated, any other is counted as skipped. */
  method SyncOne(products: seq<Product>, i: nat, store: seq<Product>, updated: nat, skipped: nat)
    returns (store': seq<Product>, updated': nat, skipped': nat)
    requires i < |products| && SyncedUpTo(store, products, i)
    requires updated == |Filter(products[..i], NeedsSync)| && updated + skipped == i
    ensures SyncedUpTo(store', products, i + 1)
    ensures updated' == |Filter(products[..i + 1], NeedsSync)| && updated' + skipped' == i + 1
  {
    var product := products[i];
    FilterPrefixStep(products, i, NeedsSync);
    if !Truthy(product.code) {
      store', updated', skipped' := store, updated, skipped + 1;
    } else if product.barcode != product.code || product.qrcode != product.code {
      store', updated', skipped' := store[i := Synced(product)], updated + 1, skipped;
    } else {
      store', updated', skipped' := store, updated, skipped + 1;
    }
  }

  // ---------------------------------------------------------------------------------------------
  // Synchronising one product

  datatype SingleSyncError = CodeRequired | DocumentNotFound | WriteRefused

  datatype SingleSync = SingleSync(store: seq<Product>, result: Result<(string, string), SingleSyncError>)

  /**
    * `syncSingleProduct(productId, productCode)`: writes `barcode` and `qrcode` of the document
    * `productId` to the given code; an empty code is refused before any write, a document that
    * does not exist makes the update fail, and so does a store that refuses the write
    * (`writeFails`, a permission denial for instance). The product's own `code` is not read.
    */
  function SyncSingleProduct(store: seq<Product>, productId: string, productCode: Option<string>, writeFails: bool): (r: SingleSync)
    ensures r.result.Failure? <==>
      (!Truthy(productCode) || writeFails || forall i :: 0 <= i < |store| ==> store[i].id != productId)
    ensures !Truthy(productCode) ==> r.result == Failure(CodeRequired)
    ensures r.result.Failure? ==> r.store == store
    ensures r.result.Success? ==> r.result.value == (productId, productCode.value)
    ensures |r.store| == |store|
    ensures forall i :: 0 <= i < |store| ==>
      && r.store[i].code == store[i].code
      && (store[i].id != productId ==> r.store[i] == store[i])
      && (store[i].id == productId && Truthy(productCode) && !writeFails ==>
            r.store[i] == store[i].(barcode := productCode, qrcode := productCode))
  {
    if !Truthy(productCode) then SingleSync(store, Failure(CodeRequired))
    else if forall i :: 0 <= i < |store| ==> store[i].id != productId then SingleSync(store, Failure(DocumentNotFound))
    else if writeFails then SingleSync(store, Failure(WriteRefused))
    else
      var written := seq(|store|, i requires 0 <= i < |store| =>
        if store[i].id == productId then store[i].(barcode := productCode, qrcode := productCode) else store[i]);
      SingleSync(written, Success((productId, productCode.value)))
  }

  // ---------------------------------------------------------------------------------------------
  // Filling in missing codes

  predicate LacksCode(p: Product) {
    !Truthy(p.code)
  }

  /** `products.filter(p => p.code).map(p => p.code)` */
  function ExistingCodes(products: seq<Product>): (codes: seq<string>)
    decreases |products|
  {
    if products == [] then []
    else (if Truthy(products[0].code) then [products[0].code.value] else []) + ExistingCodes(products[1..])
  }

  /** The codes collected are exactly the truthy codes of the products. */
  lemma {:induction false} ExistingCodesMembers(products: seq<Product>, c: string)
    ensures c in ExistingCodes(products) <==>
      exists i :: 0 <= i < |products| && Truthy(products[i].code) && products[i].code.value == c
    decreases |products|
  {
    if products != [] {
      ExistingCodesMembers(products[1..], c);
      if c in ExistingCodes(products[1..]) {
        var i :| 0 <= i < |products[1..]| && Truthy(products[1..][i].code) && products[1..][i].code.value == c;
        assert products[i + 1] == products[1..][i];
      }
      if exists i :: 0 <= i < |products| && Truthy(products[i].code) && products[i].code.value == c {
        var i :| 0 <= i < |products| && Truthy(products[i].code) && products[i].code.value == c;
        if i > 0 {
          assert products[1..][i - 1] == products[i];
        }
      }
    }
  }

  /** A code generator: given a product name and the codes in use, the code to assign.
      The pass below is stated for any generator; `AutoGenerateMissingCodes` runs it with
      `ProductCodeFor`, the function `GenerateProductCodeFromName` computes. */
  type CodeGenerator = (string, seq<string>) -> string

  /** The list `existingCodes` after the pass has handled the first i products. */
  function CodesBefore(products: seq<Product>, i: nat, generate: CodeGenerator): seq<string>
    requires i <= |products|
    decreases i
  {
    if i == 0 then ExistingCodes(products)
    else
      var prev := CodesBefore(products, i - 1, generate);
      if LacksCode(products[i - 1]) then prev + [generate(products[i - 1].name, prev)] else prev
  }

  /** The code the pass gives product i, one that lacks a code. */
  function NewCodeAt(products: seq<Product>, i: nat, generate: CodeGenerator): string
    requires i < |products| && LacksCode(products[i])
  {
    generate(products[i].name, CodesBefore(products, i, generate))
  }

  /** The product after the write `{code, barcode: code, qrcode: code}`. */
  function WithCode(p: Product, code: string): (q: Product)
    ensures InSync(q) && q.code == Some(code)
  {
    p.(code := Some(code), barcode := Some(code), qrcode := Some(code))
  }

  /** Product i as the pass leaves it when its write goes through. */
  function Filled(products: seq<Product>, i: nat, generate: CodeGenerator): (q: Product)
    requires i < |products|
  {
    if LacksCode(products[i]) then WithCode(products[i], NewCodeAt(products, i, generate)) else products[i]
  }

  /** One step of the pass: the code generated for a product lacking one extends the known
      codes, and writing it yields the filled product. */
  lemma FillStep(products: seq<Product>, i: nat, known: seq<string>, generate: CodeGenerator)
    requires i < |products| && known == CodesBefore(products, i, generate) && LacksCode(products[i])
    ensures known + [generate(products[i].name, known)] == CodesBefore(products, i + 1, generate)
    ensures WithCode(products[i], generate(products[i].name, known)) == Filled(products, i, generate)
    ensures |Filter(products[..i + 1], LacksCode)| == |Filter(products[..i], LacksCode)| + 1
  {
    FilterPrefixStep(products, i, LacksCode);
  }

  /** A product that has a code is left alone and adds nothing to the known codes. */
  lemma KeepStep(products: seq<Product>, i: nat, known: seq<string>, generate: CodeGenerator)
    requires i < |products| && known == CodesBefore(products, i, generate) && !LacksCode(products[i])
    ensures known == CodesBefore(products, i + 1, generate)
    ensures products[i] == Filled(products, i, generate)
    ensures |Filter(products[..i + 1], LacksCode)| == |Filter(products[..i], LacksCode)|
  {
    FilterPrefixStep(products, i, LacksCode);
  }

  /** The store after the pass has handled the first i products: those are filled, the rest
      are as they were. */
  predicate FilledUpTo(store: seq<Product>, products: seq<Product>, i: nat, generate: CodeGenerator) {
    && i <= |products| == |store|
    && forall j :: 0 <= j < |products| ==> store[j] == if j < i then Filled(products, j, generate) else products[j]
  }

  /** Writing the filled product i extends the filled prefix by one. */
  lemma FilledAdvance(store: seq<Product>, products: seq<Product>, i: nat, q: Product, generate: CodeGenerator)
    requires i < |products| && FilledUpTo(store, products, i, generate)
    requires q == Filled(products, i, generate)
    ensures FilledUpTo(store[i := q], products, i + 1, generate)
  {
  }

  function FirstRefusedFill(products: seq<Product>, refused: set<string>): nat {
    FirstIndex(products, FillRefused(refused))
  }

  function FillRefused(refused: set<string>): Product -> bool {
    (p: Product) => LacksCode(p) && p.id in refused
  }

  /**
    * The loop of `autoGenerateMissingCodes`, for any code generator: gives every product without
    * a code a new code, checked against the codes already present and those generated earlier
    * in the pass, and writes it into all three fields; products that have a code are not
    * written. A refused write ends the pass.
    */
  method FillMissingCodes(products: seq<Product>, refused: set<string>, generate: CodeGenerator)
    returns (store: seq<Product>, outcome: Result<nat, WriteError>)
    ensures |store| == |products|
    ensures var k := FirstRefusedFill(products, refused);
      && (outcome.Success? <==> k == |products|)
      && (outcome.Failure? ==> outcome.error == WriteFailed(products[k].id))
      && forall j :: 0 <= j < |products| ==> store[j] == if j < k then Filled(products, j, generate) else products[j]
    ensures outcome.Success? ==> outcome.value == |Filter(products, LacksCode)|
  {
    var existingCodes := ExistingCodes(products);
    store := products;
    var generated := 0;
    var i := 0;
    while i < |products|
      invariant i <= FirstRefusedFill(products, refused)
      invariant FilledUpTo(store, products, i, generate)
      invariant existingCodes == CodesBefore(products, i, generate)
      invariant generated == |Filter(products[..i], LacksCode)|
    {
      if !Truthy(products[i].code) && products[i].id in refused {
        assert FillRefused(refused)(products[i]);
        outcome := Failure(WriteFailed(products[i].id));
        return;
      }
      store, existingCodes, generated := FillOne(products, i, store, existingCodes, generated, generate);
      i := i + 1;
    }
    assert products[..i] == products;
    outcome := Success(generated);
  }

  /** One turn of the loop whose write goes through: a product lacking a code gets the next
      generated code, which joins the known codes; a product with a code is passed over. */
  method FillOne(products: seq<Product>, i: nat, store: seq<Product>, existingCodes: seq<string>, generated: nat,
                 generate: CodeGenerator)
    returns (store': seq<Product>, existingCodes': seq<string>, generated': nat)
    requires i < |products| && FilledUpTo(store, products, i, generate)
    requires existingCodes == CodesBefore(products, i, generate)
    requires generated == |Filter(products[..i], LacksCode)|
    ensures FilledUpTo(store', products, i + 1, generate)
    ensures existingCodes' == CodesBefore(products, i + 1, generate)
    ensures generated' == |Filter(products[..i + 1], LacksCode)|
  {
    var product := products[i];
    if !Truthy(product.code) {
      var newCode := generate(product.name, existingCodes);
      FillStep(products, i, existingCodes, generate);
      FilledAdvance(store, products, i, WithCode(product, newCode), generate);
      store', existingCodes', generated' := store[i := WithCode(product, newCode)], existingCodes + [newCode], generated + 1;
    } else {
      KeepStep(products, i, existingCodes, generate);
      FilledAdvance(store, products, i, product, generate);
      assert store[i := product] == store;
      store', existingCodes', generated' := store, existingCodes, generated;
    }
  }

  /** `autoGenerateMissingCodes`: the pass above with the product-code generator. */
  method AutoGenerateMissingCodes(products: seq<Product>, refused: set<string>)
    returns (store: seq<Product>, outcome: Result<nat, WriteError>)
    ensures |store| == |products|
    ensures var k := FirstRefusedFill(products, refused);
      && (outcome.Success? <==> k == |products|)
      && (outcome.Failure? ==> outcome.error == WriteFailed(products[k].id))
      && forall j :: 0 <= j < |products| ==> store[j] == if j < k then Filled(products, j, ProductCodeFor) else products[j]
    ensures outcome.Success? ==> outcome.value == |Filter(products, LacksCode)|
  {
    store, outcome := FillMissingCodes(products, refused, ProductCodeFor);
  }

  /** The list of known codes only grows during the pass: the list before product i is a
      prefix of the list before any later product. */
  lemma {:induction false} CodesBeforeGrow(products: seq<Product>, i: nat, j: nat, generate: CodeGenerator)
    requires i <= j <= |products|
    ensures CodesBefore(products, i, generate) <= CodesBefore(products, j, generate)
    decreases j
  {
    if i < j {
      CodesBeforeGrow(products, i, j - 1, generate);
      var prev := CodesBefore(products, j - 1, generate);
      assert prev <= CodesBefore(products, j, generate);
    }
  }

  /** A code generated for an earlier product is known when a later product is handled. */
  lemma EarlierCodeKnown(products: seq<Product>, a: nat, j: nat, generate: CodeGenerator)
    requires a < j <= |products| && LacksCode(products[a])
    ensures NewCodeAt(products, a, generate) in CodesBefore(products, j, generate)
  {
    var prev := CodesBefore(products, a, generate);
    var c := NewCodeAt(products, a, generate);
    assert CodesBefore(products, a + 1, generate) == prev + [c];
    CodesBeforeGrow(products, a + 1, j, generate);
  }

  /** A generated code is new whenever its prefix still has a free sequence number in 1..999. */
  lemma ProductCodeForFresh(productName: string, existingCodes: seq<string>)
    requires exists m :: 1 <= m <= MaxSequence && SequenceCode(CodePrefix(productName), m) !in existingCodes
    ensures ProductCodeFor(productName, existingCodes) !in existingCodes
  {
    var prefix := CodePrefix(productName);
    var m: nat :| 1 <= m <= MaxSequence && SequenceCode(prefix, m) !in existingCodes;
    var s := FreeSequenceFrom(prefix, existingCodes, 1);
  }

  /** Codes generated in one pass differ from the codes already present and from each other,
      as long as the prefix of the later one still had a free sequence number among the codes
      known at its step; otherwise `ExhaustedPrefixFailsOpen` applies. */
  lemma AutoGeneratedCodesAreFresh(products: seq<Product>, j: nat)
    requires j < |products| && LacksCode(products[j])
    requires exists m ::
      (1 <= m <= MaxSequence && SequenceCode(CodePrefix(products[j].name), m) !in CodesBefore(products, j, ProductCodeFor))
    ensures NewCodeAt(products, j, ProductCodeFor) !in ExistingCodes(products)
    ensures forall a :: 0 <= a < j && LacksCode(products[a]) ==>
      NewCodeAt(products, a, ProductCodeFor) != NewCodeAt(products, j, ProductCodeFor)
  {
    var known := CodesBefore(products, j, ProductCodeFor);
    ProductCodeForFresh(products[j].name, known);
    CodesBeforeGrow(products, 0, j, ProductCodeFor);
    forall a | 0 <= a < j && LacksCode(products[a])
      ensures NewCodeAt(products, a, ProductCodeFor) != NewCodeAt(products, j, ProductCodeFor)
    {
      EarlierCodeKnown(products, a, j, ProductCodeFor);
    }
  }
}
