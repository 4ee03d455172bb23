/**
  * The barcode manager screen (src/components/BarcodeManager.js): the search and category filter,
  * the statistics, the selection of products, the bulk generation of missing barcodes and QR
  * payloads, and the CSV export of the products that have a barcode.
  *
  * The selection is React state the handlers replace; it is the field of a `Selection` object.
  * The generated values come from `generateUniqueBarcode`, which is not part of this model, and
  * from `generateUniqueQRCode`; both are parameters here (`barcodeFor`, `qrcodeFor`: the value
  * each would produce for a product). `window.confirm` is the input `confirmed`.
  */
module BarcodeManager {
  import opened Wrappers
  import opened Text
  import opened Seqs
  import opened Inventory

  // ---------------------------------------------------------------------------------------------
  // Filter and statistics

  /** The options of the category filter. */
  datatype CategoryFilter = All | WithBarcode | WithoutBarcode | WithQRCode | WithoutQRCode

  predicate MatchesCategory(item: Product, filter: CategoryFilter) {
    match filter
    case All => true
    case WithBarcode => Truthy(item.barcode)
    case WithoutBarcode => !Truthy(item.barcode)
    case WithQRCode => Truthy(item.qrcode)
    case WithoutQRCode => !Truthy(item.qrcode)
  }

  predicate MatchesSearch(item: Product, searchTerm: string) {
    Contains(Lower(item.name), Lower(searchTerm))
  }

  function Shown(searchTerm: string, filter: CategoryFilter): Product -> bool {
    (item: Product) => MatchesSearch(item, searchTerm) && MatchesCategory(item, filter)
  }

  /** `filteredInventory`: the items whose name contains the search term, ignoring case, and that
      pass the category filter, in inventory order. */
  function FilteredInventory(inventory: seq<Product>, searchTerm: string, filter: CategoryFilter): (r: seq<Product>)
    ensures forall item :: item in r <==> item in inventory && MatchesSearch(item, searchTerm) && MatchesCategory(item, filter)
  {
    FilterMembers(inventory, Shown(searchTerm, filter));
    Filter(inventory, Shown(searchTerm, filter))
  }

  /** The filter keeps the inventory order, and with an empty search and the `all` option it keeps
      every item. */
  lemma FilteredInventoryOrder(inventory: seq<Product>, searchTerm: string, filter: CategoryFilter)
    ensures IsSubsequence(FilteredInventory(inventory, searchTerm, filter), inventory)
    ensures searchTerm == "" && filter == All ==> FilteredInventory(inventory, searchTerm, filter) == inventory
  {
    FilterIsSubsequence(inventory, Shown(searchTerm, filter));
    if searchTerm == "" && filter == All {
      forall i | 0 <= i < |inventory|
        ensures Shown(searchTerm, filter)(inventory[i])
      {
        ContainsEmpty(Lower(inventory[i].name));
      }
      FilterAll(inventory, Shown(searchTerm, filter));
    }
  }

  datatype Stats = Stats(total: nat, withBarcode: nat, withoutBarcode: nat, withQRCode: nat, withoutQRCode: nat,
                         withBoth: nat, selected: nat)

  predicate HasBarcode(item: Product) { Truthy(item.barcode) }
  predicate LacksBarcode(item: Product) { !Truthy(item.barcode) }
  predicate HasQRCode(item: Product) { Truthy(item.qrcode) }
  predicate LacksQRCode(item: Product) { !Truthy(item.qrcode) }
  predicate HasBoth(item: Product) { Truthy(item.barcode) && Truthy(item.qrcode) }

  /** `stats`: each split counts every item on exactly one side, and the items with both codes are
      among those with a barcode and among those with a QR payload. */
  function ComputeStats(inventory: seq<Product>, selectedItems: seq<string>): (s: Stats)
    ensures s.total == |inventory| && s.selected == |selectedItems|
    ensures s.withBarcode + s.withoutBarcode == s.total
    ensures s.withQRCode + s.withoutQRCode == s.total
    ensures s.withBoth <= s.withBarcode && s.withBoth <= s.withQRCode
  {
    FilterComplement(inventory, HasBarcode, LacksBarcode);
    FilterComplement(inventory, HasQRCode, LacksQRCode);
    FilterMonotone(inventory, HasBoth, HasBarcode);
    FilterMonotone(inventory, HasBoth, HasQRCode);
    Stats(|inventory|, |Filter(inventory, HasBarcode)|, |Filter(inventory, LacksBarcode)|,
      |Filter(inventory, HasQRCode)|, |Filter(inventory, LacksQRCode)|, |Filter(inventory, HasBoth)|, |selectedItems|)
  }

  // ---------------------------------------------------------------------------------------------
  // Selection

  function IsNot(itemId: string): string -> bool {
    (id: string) => id != itemId
  }

  /** The selection after `handleSelectItem(itemId)`: a selected id is removed, another appended. */
  function Toggle(selected: seq<string>, itemId: string): seq<string> {
    if itemId in selected then Filter(selected, IsNot(itemId)) else selected + [itemId]
  }

  /** Toggling flips the membership of the id and leaves every other id as it was. */
  lemma ToggleFlips(selected: seq<string>, itemId: string)
    ensures itemId in Toggle(selected, itemId) <==> itemId !in selected
    ensures forall id :: id != itemId ==> (id in Toggle(selected, itemId) <==> id in selected)
  {
    FilterMembers(selected, IsNot(itemId));
  }

  /** Toggling an id that is not selected twice gives the selection back. */
  lemma ToggleTwice(selected: seq<string>, itemId: string)
    requires itemId !in selected
    ensures Toggle(Toggle(selected, itemId), itemId) == selected
  {
    FilterSnoc(selected, itemId, IsNot(itemId));
    FilterAll(selected, IsNot(itemId));
  }

  /** Toggling never makes an id appear twice. */
  lemma ToggleKeepsDistinct(selected: seq<string>, itemId: string)
    requires Distinct(selected)
    ensures Distinct(Toggle(selected, itemId))
  {
    if itemId in selected {
      FilterDistinct(selected, IsNot(itemId));
    }
  }

  predicate MissingACode(item: Product) { !Truthy(item.barcode) || !Truthy(item.qrcode) }

  /** The ids of a list of items, in order. */
  function Ids(items: seq<Product>): (ids: seq<string>)
    ensures |ids| == |items| && forall i :: 0 <= i < |items| ==> ids[i] == items[i].id
  {
    seq(|items|, i requires 0 <= i < |items| => items[i].id)
  }

  /** The selection after `handleSelectAll()`: the ids of the shown items that miss a barcode or a
      QR payload, in order. */
  function SelectAllIds(filteredInventory: seq<Product>): seq<string> {
    Ids(Filter(filteredInventory, MissingACode))
  }

  /** Select-all picks exactly the ids of the shown items missing a code. */
  lemma SelectAllPicksMissing(filteredInventory: seq<Product>)
    ensures forall i :: 0 <= i < |filteredInventory| && MissingACode(filteredInventory[i]) ==>
      filteredInventory[i].id in SelectAllIds(filteredInventory)
    ensures forall k :: 0 <= k < |SelectAllIds(filteredInventory)| ==>
      exists i :: 0 <= i < |filteredInventory| && MissingACode(filteredInventory[i]) && filteredInventory[i].id == SelectAllIds(filteredInventory)[k]
  {
    var kept := Filter(filteredInventory, MissingACode);
    FilterMembers(filteredInventory, MissingACode);
    forall i | 0 <= i < |filteredInventory| && MissingACode(filteredInventory[i])
      ensures filteredInventory[i].id in SelectAllIds(filteredInventory)
    {
      var k :| 0 <= k < |kept| && kept[k] == filteredInventory[i];
      assert SelectAllIds(filteredInventory)[k] == filteredInventory[i].id;
    }
    forall k | 0 <= k < |SelectAllIds(filteredInventory)|
      ensures exists i :: (0 <= i < |filteredInventory| && MissingACode(filteredInventory[i]) &&
                           filteredInventory[i].id == SelectAllIds(filteredInventory)[k])
    {
      var i :| 0 <= i < |filteredInventory| && filteredInventory[i] == kept[k];
      assert MissingACode(filteredInventory[i]) && filteredInventory[i].id == SelectAllIds(filteredInventory)[k];
    }
  }

  // ---------------------------------------------------------------------------------------------
  // Bulk generation

  /** The product after its update object is written: each missing field gets the generated
      value, a present field is not part of the update. */
  function Completed(item: Product, barcode: string, qrcode: string): (r: Product)
    ensures Truthy(item.barcode) ==> r.barcode == item.barcode
    ensures Truthy(item.qrcode) ==> r.qrcode == item.qrcode
    ensures !Truthy(item.barcode) ==> r.barcode == Some(barcode)
    ensures !Truthy(item.qrcode) ==> r.qrcode == Some(qrcode)
    ensures r.code == item.code && r.id == item.id && r.name == item.name
    ensures r.storeId == item.storeId && r.price == item.price && r.stock == item.stock
  {
    item.(barcode := if Truthy(item.barcode) then item.barcode else Some(barcode),
          qrcode := if Truthy(item.qrcode) then item.qrcode else Some(qrcode))
  }

  function HasId(itemId: string): Product -> bool {
    (p: Product) => p.id == itemId
  }

  /** Whether the update for a selected id is attempted and rejected: the id names a product that
      misses a code and the store refuses the write. */
  function WriteRefused(inventory: seq<Product>, refused: set<string>): string -> bool {
    (itemId: string) =>
      var pos := FirstIndex(inventory, HasId(itemId));
      pos < |inventory| && MissingACode(inventory[pos]) && itemId in refused
  }

  /** Whether the bulk handler writes the product at position j: it is the product found for one of
      the selected ids (the first with its id), it misses a code and the write is accepted. */
  predicate BulkWrites(inventory: seq<Product>, selected: seq<string>, refused: set<string>, j: nat)
    requires j < |inventory|
  {
    inventory[j].id in selected && FirstIndex(inventory, HasId(inventory[j].id)) == j &&
    MissingACode(inventory[j]) && inventory[j].id !in refused
  }

  datatype BulkOutcome = NothingSelected | NotConfirmed | Done | SomeFailed

  /** The product at position j after the updates for the ids in `selected`. */
  function BulkAfter(inventory: seq<Product>, selected: seq<string>, refused: set<string>,
                     barcodeFor: Product -> string, qrcodeFor: Product -> string, j: nat): Product
    requires j < |inventory|
  {
    if BulkWrites(inventory, selected, refused, j)
    then Completed(inventory[j], barcodeFor(inventory[j]), qrcodeFor(inventory[j]))
    else inventory[j]
  }

  /** The store holds the products after the updates for the ids in `selected`. */
  predicate BulkDone(store: seq<Product>, inventory: seq<Product>, selected: seq<string>, refused: set<string>,
                     barcodeFor: Product -> string, qrcodeFor: Product -> string)
  {
    |store| == |inventory| &&
    forall j :: 0 <= j < |inventory| ==> store[j] == BulkAfter(inventory, selected, refused, barcodeFor, qrcodeFor, j)
  }

  /** One step of the bulk loop adds the id selected[k] to the ids whose update is described. */
  lemma BulkStep(inventory: seq<Product>, selected: seq<string>, refused: set<string>, k: nat, j: nat)
    requires k < |selected| && j < |inventory|
    ensures BulkWrites(inventory, selected[..k + 1], refused, j) <==>
      BulkWrites(inventory, selected[..k], refused, j) ||
      (j == FirstIndex(inventory, HasId(selected[k])) && MissingACode(inventory[j]) && selected[k] !in refused)
  {
    assert selected[..k + 1] == selected[..k] + [selected[k]];
  }

  /** The step that writes the product found for selected[k]. */
  lemma BulkWriteStep(store: seq<Product>, inventory: seq<Product>, selected: seq<string>, refused: set<string>,
                      barcodeFor: Product -> string, qrcodeFor: Product -> string, k: nat, pos: nat)
    requires k < |selected| && BulkDone(store, inventory, selected[..k], refused, barcodeFor, qrcodeFor)
    requires pos == FirstIndex(inventory, HasId(selected[k])) && pos < |inventory|
    requires MissingACode(inventory[pos]) && selected[k] !in refused
    ensures BulkDone(store[pos := Completed(inventory[pos], barcodeFor(inventory[pos]), qrcodeFor(inventory[pos]))],
                     inventory, selected[..k + 1], refused, barcodeFor, qrcodeFor)
  {
    forall j | 0 <= j < |inventory| {
      BulkStep(inventory, selected, refused, k, j);
    }
  }

  /** The step that writes nothing. */
  lemma BulkSkipStep(store: seq<Product>, inventory: seq<Product>, selected: seq<string>, refused: set<string>,
                     barcodeFor: Product -> string, qrcodeFor: Product -> string, k: nat)
    requires k < |selected| && BulkDone(store, inventory, selected[..k], refused, barcodeFor, qrcodeFor)
    requires var pos := FirstIndex(inventory, HasId(selected[k]));
      !(pos < |inventory| && MissingACode(inventory[pos]) && selected[k] !in refused)
    ensures BulkDone(store, inventory, selected[..k + 1], refused, barcodeFor, qrcodeFor)
  {
    forall j | 0 <= j < |inventory| {
      BulkStep(inventory, selected, refused, k, j);
    }
  }

  /** The update for the id selected[k]: the store, described up to that id, is described up to
      the next, and `refusedHere` tells whether the write was refused. */
  method WriteOne(store: seq<Product>, inventory: seq<Product>, selected: seq<string>, refused: set<string>,
                  barcodeFor: Product -> string, qrcodeFor: Product -> string, k: nat)
    returns (next: seq<Product>, refusedHere: bool)
    requires k < |selected| && BulkDone(store, inventory, selected[..k], refused, barcodeFor, qrcodeFor)
    ensures BulkDone(next, inventory, selected[..k + 1], refused, barcodeFor, qrcodeFor)
    ensures refusedHere == WriteRefused(inventory, refused)(selected[k])
  {
    var itemId := selected[k];
    var pos := FirstIndex(inventory, HasId(itemId));
    next, refusedHere := store, false;
    if pos < |inventory| {
      var product := inventory[pos];
      if !Truthy(product.barcode) || !Truthy(product.qrcode) {
        if itemId in refused {
          refusedHere := true;
          BulkSkipStep(store, inventory, selected, refused, barcodeFor, qrcodeFor, k);
        } else {
          BulkWriteStep(store, inventory, selected, refused, barcodeFor, qrcodeFor, k, pos);
          next := store[pos := Completed(product, barcodeFor(product), qrcodeFor(product))];
        }
      } else {
        BulkSkipStep(store, inventory, selected, refused, barcodeFor, qrcodeFor, k);
      }
    } else {
      BulkSkipStep(store, inventory, selected, refused, barcodeFor, qrcodeFor, k);
    }
  }

  /**
    * The updates of the bulk handler, one per selected id in selection order: a product found for
    * the id (the first with that id) that misses a code gets one update holding only its missing
    * fields; a product with both codes, or an id not found, is skipped. Every update is attempted;
    * `failed` tells whether any was refused.
    */
  method WriteSelected(inventory: seq<Product>, selected: seq<string>, refused: set<string>,
                       barcodeFor: Product -> string, qrcodeFor: Product -> string)
    returns (store: seq<Product>, failed: bool)
    ensures failed <==> FirstIndex(selected, WriteRefused(inventory, refused)) < |selected|
    ensures |store| == |inventory|
    ensures forall j :: 0 <= j < |inventory| ==>
      store[j] == if BulkWrites(inventory, selected, refused, j)
        then Completed(inventory[j], barcodeFor(inventory[j]), qrcodeFor(inventory[j]))
        else inventory[j]
  {
    store := inventory;
    failed := false;
    var k := 0;
    while k < |selected|
      invariant 0 <= k <= |selected| && |store| == |inventory|
      invariant failed <==> FirstIndex(selected, WriteRefused(inventory, refused)) < k
      invariant BulkDone(store, inventory, selected[..k], refused, barcodeFor, qrcodeFor)
    {
      var refusedHere;
      store, refusedHere := WriteOne(store, inventory, selected, refused, barcodeFor, qrcodeFor, k);
      FirstIndexStep(selected, WriteRefused(inventory, refused), k);
      failed := failed || refusedHere;
      k := k + 1;
    }
    assert selected[..k] == selected;
  }

  class Selection {
    var selectedItems: seq<string>

    constructor()
      ensures selectedItems == []
    {
      selectedItems := [];
    }

    /** `handleSelectItem(itemId)` */
    method SelectItem(itemId: string)
      modifies this
      ensures selectedItems == Toggle(old(selectedItems), itemId)
    {
      if itemId in selectedItems {
        selectedItems := Filter(selectedItems, IsNot(itemId));
      } else {
        selectedItems := selectedItems + [itemId];
      }
    }

    /** `handleSelectAll()` */
    method SelectAll(filteredInventory: seq<Product>)
      modifies this
      ensures selectedItems == SelectAllIds(filteredInventory)
    {
      selectedItems := Ids(Filter(filteredInventory, MissingACode));
    }

    /** `handleDeselectAll()` */
    method DeselectAll()
      modifies this
      ensures selectedItems == []
    {
      selectedItems := [];
    }

    /**
      * `handleGenerateBulkBarcodes()`: with an empty selection, or when the user declines, nothing
      * is written. Otherwise every selected id is processed as `WriteSelected` describes; when all
      * updates succeed the selection is cleared, otherwise it is kept.
      */
    method GenerateBulk(inventory: seq<Product>, confirmed: bool, refused: set<string>,
                        barcodeFor: Product -> string, qrcodeFor: Product -> string)
      returns (store: seq<Product>, outcome: BulkOutcome)
      modifies this
      ensures outcome == NothingSelected <==> old(selectedItems) == []
      ensures outcome == NotConfirmed <==> old(selectedItems) != [] && !confirmed
      ensures outcome == Done || outcome == SomeFailed ==>
        (outcome == Done <==> FirstIndex(old(selectedItems), WriteRefused(inventory, refused)) == |old(selectedItems)|)
      ensures |store| == |inventory|
      ensures forall j :: 0 <= j < |inventory| ==>
        store[j] == if (outcome == Done || outcome == SomeFailed) && BulkWrites(inventory, old(selectedItems), refused, j)
          then Completed(inventory[j], barcodeFor(inventory[j]), qrcodeFor(inventory[j]))
          else inventory[j]
      ensures selectedItems == if outcome == Done then [] else old(selectedItems)
    {
      if selectedItems == [] {
        store, outcome := inventory, NothingSelected;
      } else if !confirmed {
        store, outcome := inventory, NotConfirmed;
      } else {
        var failed;
        store, failed := WriteSelected(inventory, selectedItems, refused, barcodeFor, qrcodeFor);
        if failed {
          outcome := SomeFailed;
        } else {
          outcome := Done;
          selectedItems := [];
        }
      }
    }
  }

  // ---------------------------------------------------------------------------------------------
  // CSV export

  const CsvHeader: seq<string> := ["Product Name", "Barcode", "Price", "Stock"]

  /** The fields of an item's row: name, barcode, price and stock. */
  function CsvFields(item: Product): seq<string>
    requires Truthy(item.barcode)
  {
    [item.name, item.barcode.value, item.price, IntString(item.stock)]
  }

  /** The rows of the items that have a barcode, in inventory order, each joined with `,`. */
  function CsvRows(inventory: seq<Product>): (rows: seq<string>)
    decreases |inventory|
  {
    if inventory == [] then []
    else (if Truthy(inventory[0].barcode) then [Join(CsvFields(inventory[0]), ',')] else []) + CsvRows(inventory[1..])
  }

  /** `exportBarcodeList()`: the header row and one row per item with a barcode, joined with a line
      break; no field is quoted. */
  function ExportBarcodeList(inventory: seq<Product>): string {
    Join([Join(CsvHeader, ',')] + CsvRows(inventory), '\n')
  }

  /** There is one row per item with a barcode. */
  lemma {:induction false} CsvRowCount(inventory: seq<Product>)
    ensures |CsvRows(inventory)| == |Filter(inventory, HasBarcode)|
    decreases |inventory|
  {
    if inventory != [] {
      CsvRowCount(inventory[1..]);
    }
  }

  /** Fields free of the comma and the line break. */
  predicate PlainFields(item: Product) {
    Truthy(item.barcode) &&
    Free(item.name, ',') && Free(item.barcode.value, ',') && Free(item.price, ',') &&
    Free(item.name, '\n') && Free(item.barcode.value, '\n') && Free(item.price, '\n')
  }

  lemma IntStringPlain(n: int)
    ensures Free(IntString(n), ',') && Free(IntString(n), '\n')
  {
  }

  /** A row splits back into its four fields when the name, barcode and price hold no comma. */
  lemma CsvRowRoundTrip(item: Product)
    requires PlainFields(item)
    ensures Split(Join(CsvFields(item), ','), ',') == CsvFields(item)
  {
    IntStringPlain(item.stock);
    SplitJoin(CsvFields(item), ',');
  }

  /** Unquoted fields: a comma in a product name shifts the row to five fields. */
  lemma CommaInNameShiftsFields(item: Product)
    requires Truthy(item.barcode) && item.name == "Pen, blue"
    requires Free(item.barcode.value, ',') && Free(item.price, ',')
    ensures |Split(Join(CsvFields(item), ','), ',')| == 5
  {
    IntStringPlain(item.stock);
    var fields := ["Pen", " blue", item.barcode.value, item.price, IntString(item.stock)];
    assert Join(CsvFields(item), ',') == Join(fields, ',') by {
      assert Join(CsvFields(item), ',') == item.name + [','] + Join(CsvFields(item)[1..], ',');
      assert Join(fields, ',') == "Pen" + [','] + Join(fields[1..], ',');
      assert Join(fields[1..], ',') == " blue" + [','] + Join(fields[2..], ',');
      assert CsvFields(item)[1..] == fields[2..];
    }
    SplitJoin(fields, ',');
  }

  lemma {:induction false} CsvRowsPlain(inventory: seq<Product>)
    requires forall i :: 0 <= i < |inventory| && Truthy(inventory[i].barcode) ==> PlainFields(inventory[i])
    ensures forall k :: 0 <= k < |CsvRows(inventory)| ==> Free(CsvRows(inventory)[k], '\n')
    decreases |inventory|
  {
    if inventory != [] {
      CsvRowsPlain(inventory[1..]);
      if Truthy(inventory[0].barcode) {
        IntStringPlain(inventory[0].stock);
        JoinFree(CsvFields(inventory[0]), ',', '\n');
      }
    }
  }

  lemma HeaderPlain()
    ensures forall k :: 0 <= k < |CsvHeader| ==> Free(CsvHeader[k], '\n')
  {
    forall k | 0 <= k < |CsvHeader| ensures Free(CsvHeader[k], '\n') {
      var h := CsvHeader[k];
      assert '\n' !in h;
    }
  }

  /** The export splits back into the header line and one line per item with a barcode, when no
      field holds a comma or a line break. */
  lemma ExportLines(inventory: seq<Product>)
    requires forall i :: 0 <= i < |inventory| && Truthy(inventory[i].barcode) ==> PlainFields(inventory[i])
    ensures Split(ExportBarcodeList(inventory), '\n') == [Join(CsvHeader, ',')] + CsvRows(inventory)
  {
    LinesPlain(Join(CsvHeader, ','), inventory);
    SplitJoin([Join(CsvHeader, ',')] + CsvRows(inventory), '\n');
  }

  /** The header line and the rows hold no line break. */
  lemma LinesPlain(header: string, inventory: seq<Product>)
    requires header == Join(CsvHeader, ',')
    requires forall i :: 0 <= i < |inventory| && Truthy(inventory[i].barcode) ==> PlainFields(inventory[i])
    ensures forall k :: 0 <= k < |[header] + CsvRows(inventory)| ==> Free(([header] + CsvRows(inventory))[k], '\n')
  {
    CsvRowsPlain(inventory);
    HeaderLinePlain();
    var lines := [header] + CsvRows(inventory);
    forall k | 0 <= k < |lines| ensures Free(lines[k], '\n') {
      if k > 0 {
        assert lines[k] == CsvRows(inventory)[k - 1];
      }
    }
  }

  /** The header line holds no line break. */
  lemma HeaderLinePlain()
    ensures Free(Join(CsvHeader, ','), '\n')
  {
    HeaderPlain();
    JoinFree(CsvHeader, ',', '\n');
  }
}
