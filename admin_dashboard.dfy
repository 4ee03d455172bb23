/**
  * The statistics of the store administrator's dashboard (`updateStats` in
  * src/components/AdminDashboard.js): product counts over the store's inventory, and the number
  * of cashiers among the store's users, split into active and inactive.
  */
module AdminDashboard {
  import opened Wrappers
  import opened Text
  import opened Seqs
  import opened Inventory
  import opened Users
  import FixUserRoles

  /** An item of the administrator's store. */
  function OfStore(storeId: string): Product -> bool {
    (item: Product) => item.storeId == Some(storeId)
  }

  /** `storeInventory`: the whole inventory without a store id, else the items of that store. */
  function StoreInventory(inventory: seq<Product>, userStoreId: Option<string>): (r: seq<Product>)
    ensures !Present(userStoreId) ==> r == inventory
    ensures Present(userStoreId) ==> r == Filter(inventory, OfStore(userStoreId.value))
  {
    if !Present(userStoreId) then inventory else Filter(inventory, OfStore(userStoreId.value))
  }

  /** Counted as having a QR code: a QR code or a barcode. */
  predicate HasQROrBarcode(item: Product) {
    Truthy(item.qrcode) || Truthy(item.barcode)
  }

  predicate LacksQROrBarcode(item: Product) {
    !HasQROrBarcode(item)
  }

  predicate HasProductCode(item: Product) {
    Truthy(item.code)
  }

  predicate LacksProductCode(item: Product) {
    !HasProductCode(item)
  }

  predicate LowStock(item: Product) {
    item.stock < 10
  }

  /** The four rules of `updateStats` that make a store user a cashier, in their order. */
  predicate IsCashier(u: User) {
    var role := LowerOrEmpty(u.role);
    var email := LowerOrEmpty(u.email);
    if role == "cashier" || Contains(role, "cashier") then true
    else if role == "user" && Contains(email, "cashier") then true
    else if role == "" && Contains(email, "cashier") then true
    else if (role == "user" || role == "") && !Contains(email, "admin") && !Contains(email, "manager") &&
            Contains(email, "@mystore.com") then true
    else false
  }

  /** A status counts as active when it reads `active` in any case, or when it is missing. */
  predicate IsActive(u: User) {
    (if Present(u.status) then Lower(u.status.value) else "active") == "active"
  }

  predicate IsInactive(u: User) {
    !IsActive(u)
  }

  /** The figures shown on the dashboard; the sales total is not modelled. */
  datatype DashboardStats = DashboardStats(
    totalProducts: nat,
    totalBills: nat,
    lowStockItems: nat,
    productsWithQRCodes: nat,
    productsWithoutQRCodes: nat,
    productsWithCodes: nat,
    productsWithoutCodes: nat,
    totalCashiers: nat,
    activeCashiers: nat,
    inactiveCashiers: nat)

  /** `updateStats`: the "without" counts are the items lacking a code, and every cashier is
      either active or inactive. */
  function UpdateStats(inventory: seq<Product>, billCount: nat, users: seq<User>, userStoreId: Option<string>)
    : (r: DashboardStats)
    ensures r.totalProducts == |StoreInventory(inventory, userStoreId)|
    ensures r.totalBills == billCount
    ensures r.lowStockItems == |Filter(StoreInventory(inventory, userStoreId), LowStock)|
    ensures r.productsWithQRCodes + r.productsWithoutQRCodes == r.totalProducts
    ensures r.productsWithoutQRCodes == |Filter(StoreInventory(inventory, userStoreId), LacksQROrBarcode)|
    ensures r.productsWithCodes + r.productsWithoutCodes == r.totalProducts
    ensures r.productsWithoutCodes == |Filter(StoreInventory(inventory, userStoreId), LacksProductCode)|
    ensures r.totalCashiers == |Filter(users, IsCashier)|
    ensures r.activeCashiers + r.inactiveCashiers == r.totalCashiers
    ensures r.inactiveCashiers == |Filter(Filter(users, IsCashier), IsInactive)|
  {
    var storeInventory := StoreInventory(inventory, userStoreId);
    var withQR := |Filter(storeInventory, HasQROrBarcode)|;
    var withCodes := |Filter(storeInventory, HasProductCode)|;
    var cashiers := Filter(users, IsCashier);
    var active := |Filter(cashiers, IsActive)|;
    FilterComplement(storeInventory, HasQROrBarcode, LacksQROrBarcode);
    FilterComplement(storeInventory, HasProductCode, LacksProductCode);
    FilterComplement(cashiers, IsActive, IsInactive);
    DashboardStats(
      |storeInventory|, billCount, |Filter(storeInventory, LowStock)|,
      withQR, |storeInventory| - withQR,
      withCodes, |storeInventory| - withCodes,
      |cashiers|, active, |cashiers| - active)
  }

  /** The low-stock alert lists items of the whole inventory, not only the store's. */
  function LowStockAlerts(inventory: seq<Product>): (r: seq<Product>)
    ensures forall item :: item in r <==> item in inventory && LowStock(item)
  {
    FilterMembers(inventory, LowStock);
    Filter(inventory, LowStock)
  }

  function LowStockOfStore(storeId: string): Product -> bool {
    (item: Product) => OfStore(storeId)(item) && LowStock(item)
  }

  /** The low-stock figure never exceeds the length of the alert list, and they agree when the
      administrator has no store id; another store's items can make the alert list longer. */
  lemma LowStockStatVersusAlerts(inventory: seq<Product>, userStoreId: Option<string>)
    ensures UpdateStats(inventory, 0, [], userStoreId).lowStockItems <= |LowStockAlerts(inventory)|
    ensures !Present(userStoreId) ==> UpdateStats(inventory, 0, [], userStoreId).lowStockItems == |LowStockAlerts(inventory)|
  {
    if Present(userStoreId) {
      var id := userStoreId.value;
      FilterFilter(inventory, OfStore(id), LowStock, LowStockOfStore(id));
      FilterMonotone(inventory, LowStockOfStore(id), LowStock);
    }
  }

  /** An item of another store with low stock is alerted but not counted. */
  lemma OtherStoreLowStockAlerted()
    ensures var item := Product("p1", "Rice", None, None, None, Some("store_002"), "10", 3);
      UpdateStats([item], 0, [], Some("store_001")).lowStockItems == 0 &&
      |LowStockAlerts([item])| == 1
  {
    var item := Product("p1", "Rice", None, None, None, Some("store_002"), "10", 3);
    assert Filter([item], OfStore("store_001")) == [];
    assert Filter([item], LowStock) == [item];
  }

  /** Without a role naming a cashier, only the email can make a user a cashier: an email that
      mentions neither "cashier" nor `@mystore.com` never does, and an `@mystore.com` email that
      names an admin or a manager does only when it also names a cashier. */
  lemma CashierNeedsRoleOrEmail(u: User)
    requires !Contains(LowerOrEmpty(u.role), "cashier")
    ensures !Contains(LowerOrEmpty(u.email), "cashier") && !Contains(LowerOrEmpty(u.email), "@mystore.com") ==> !IsCashier(u)
    ensures (!Contains(LowerOrEmpty(u.email), "cashier") &&
             (Contains(LowerOrEmpty(u.email), "admin") || Contains(LowerOrEmpty(u.email), "manager"))) ==> !IsCashier(u)
  {
    assert LowerOrEmpty(u.role) != "cashier" by {
      assert "cashier" <= "cashier";
    }
  }

  /** Any other role, such as `admin` or `manager`, never makes a user a cashier, whatever the
      email says. */
  lemma OtherRoleNeverCashier(u: User)
    requires !Contains(LowerOrEmpty(u.role), "cashier")
    requires LowerOrEmpty(u.role) != "user" && LowerOrEmpty(u.role) != ""
    ensures !IsCashier(u)
  {
  }

  /** A user whose role `fixUserRoles` sets to `Cashier` is counted as a cashier. */
  lemma FixedUserIsCashier(u: User)
    ensures IsCashier(FixUserRoles.WithCashierRole(u))
  {
    assert Lower(FixUserRoles.CashierRole) == "cashier";
  }
}
