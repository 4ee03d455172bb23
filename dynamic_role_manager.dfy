/**
  * Role-based access (src/utils/dynamicRoleManager.js): the static role and view tables, the user
  * lookup with its hard-coded super administrators, the permission checks built on it, and the
  * user cache with its single global expiry.
  *
  * The collection and the cache live in a `UserDirectory` object. `Date.now()` is the input
  * `now`, a failing query is `readFails`, a failing write `writeFails`; the update object of
  * `updateUserInDB` is the function `patch` it applies to the stored record.
  */
module DynamicRoleManager {
  import opened Wrappers
  import opened Text
  import opened Seqs
  import opened Users

  const SuperAdmin: string := "super_admin"
  const Admin: string := "admin"
  const Cashier: string := "cashier"

  /** `ROLE_PERMISSIONS[role] || []` */
  function RolePermissions(role: Option<string>): (perms: seq<string>)
    ensures perms == [] <==> role != Some(SuperAdmin) && role != Some(Admin) && role != Some(Cashier)
    ensures perms != [] ==> "view_dashboard" in perms
  {
    match role
    case Some("super_admin") => ["view_dashboard", "manage_users", "manage_stores", "system_settings"]
    case Some("admin") => ["view_dashboard", "manage_inventory", "view_inventory", "view_reports", "manage_barcodes",
                           "view_activity", "export_data", "manage_store_users"]
    case Some("cashier") => ["view_dashboard", "manage_billing", "view_inventory"]
    case _ => []
  }

  /** `getRoleDisplayName(role)` */
  function RoleDisplayName(role: Option<string>): (name: string)
    ensures name == "Unknown Role" <==> role !in {Some(SuperAdmin), Some(Admin), Some(Cashier)}
  {
    match role
    case Some("super_admin") => "Super Administrator"
    case Some("admin") => "Administrator"
    case Some("cashier") => "Cashier"
    case _ => "Unknown Role"
  }

  /** The permission a view requires, or None for a view outside the table. */
  function ViewPermission(view: string): (p: Option<string>)
    ensures p.Some? ==>
      p.value in RolePermissions(Some(SuperAdmin)) || p.value in RolePermissions(Some(Admin)) ||
      p.value in RolePermissions(Some(Cashier))
  {
    match view
    case "dashboard" => Some("view_dashboard")
    case "billing" => Some("manage_billing")
    case "inventory" => Some("view_inventory")
    case "stores" => Some("manage_stores")
    case "users" => Some("manage_users")
    case "store-users" => Some("manage_store_users")
    case "reports" => Some("view_reports")
    case "barcode" => Some("manage_barcodes")
    case "activity" => Some("view_activity")
    case "lowstock" => Some("view_inventory")
    case "settings" => Some("system_settings")
    case _ => None
  }

  /** The names of the super administrators accepted without a stored record. */
  function HardcodedSuperAdmin(email: string): Option<string> {
    match email
    case "nprakash315349@gmail.com" => Some("Prakash N")
    case "draupathiitsolutions@gmail.com" => Some("Draupathi IT Solutions")
    case "ututhay@gmail.com" => Some("Ututhay")
    case _ => None
  }

  /** The user information the lookup returns. */
  datatype UserInfo = UserInfo(
    id: Option<string>,
    email: Option<string>,
    role: Option<string>,
    storeId: Option<string>,
    storeName: Option<string>,
    permissions: seq<string>,
    isSuperAdmin: bool,
    displayName: string,
    isActive: bool,
    name: string,
    phone: string)

  /** The information built from a stored record found for `email`; without a stored name the
      part of the typed address before `@` is used. */
  function InfoOf(u: User, email: string): (info: UserInfo)
    ensures info.id == Some(u.id) && info.email == u.email && info.role == u.role
    ensures info.permissions == RolePermissions(u.role) && (info.isSuperAdmin <==> u.role == Some(SuperAdmin))
    ensures info.isActive <==> u.isActive != Some(false)
  {
    UserInfo(Some(u.id), u.email, u.role, u.storeId, u.storeName, RolePermissions(u.role),
      u.role == Some(SuperAdmin), RoleDisplayName(u.role), u.isActive != Some(false),
      if Present(u.name) then u.name.value else Split(email, '@')[0],
      if Present(u.phone) then u.phone.value else "")
  }

  /** The information of a hard-coded super administrator. */
  function SuperAdminInfo(key: string, name: string): UserInfo {
    UserInfo(None, Some(key), Some(SuperAdmin), None, Some("Company Admin"), RolePermissions(Some(SuperAdmin)),
      true, "Super Administrator", true, name, "")
  }

  function StoredEmailIs(key: string): User -> bool {
    (u: User) => u.email == Some(key)
  }

  /**
    * What `getUserInfoFromDB(email)` finds without the cache: nothing for an absent or empty
    * address; otherwise the first record whose stored email equals the lower-cased address, or,
    * when there is none, the hard-coded super administrator of that address, if any.
    */
  function LookupUser(users: seq<User>, email: Option<string>): (r: Option<UserInfo>)
    ensures r.None? <==>
      (!Present(email) ||
       ((forall j :: 0 <= j < |users| ==> users[j].email != Some(Lower(email.value))) &&
        HardcodedSuperAdmin(Lower(email.value)).None?))
    ensures r.Some? ==> r.value.permissions == RolePermissions(r.value.role)
  {
    if !Present(email) then None
    else
      var key := Lower(email.value);
      var i := FirstIndex(users, StoredEmailIs(key));
      if i < |users| then Some(InfoOf(users[i], email.value))
      else if HardcodedSuperAdmin(key).Some? then Some(SuperAdminInfo(key, HardcodedSuperAdmin(key).value))
      else None
  }

  /** The information with the name left out: the one field that depends on how the address was
      typed rather than on the lower-cased key. */
  function Unnamed(info: UserInfo): UserInfo {
    info.(name := "")
  }

  /** Two lookup answers agree on everything but the name. */
  predicate SameAccess(a: Option<UserInfo>, b: Option<UserInfo>) {
    a.None? == b.None? && (a.Some? ==> Unnamed(a.value) == Unnamed(b.value))
  }

  /** `isUserAuthorized`: found and active. */
  predicate Authorized(info: Option<UserInfo>) {
    info.Some? && info.value.isActive
  }

  /** `hasPermission`: found and holding the permission. */
  predicate Granted(info: Option<UserInfo>, permission: string) {
    info.Some? && permission in info.value.permissions
  }

  /** `canAccessView`: the view is in the table and its permission is granted. */
  predicate CanAccess(info: Option<UserInfo>, view: string) {
    ViewPermission(view).Some? && Granted(info, ViewPermission(view).value)
  }

  /** A found user's permissions are those of its role (none for an unknown role), it is a super
      administrator exactly when its role is `super_admin`, and a record without `isActive` is
      active. */
  lemma LookupShape(users: seq<User>, email: Option<string>)
    ensures var r := LookupUser(users, email);
      r.Some? ==> r.value.permissions == RolePermissions(r.value.role) &&
                  (r.value.isSuperAdmin <==> r.value.role == Some(SuperAdmin))
    ensures var r := LookupUser(users, email);
      Present(email) && FirstIndex(users, StoredEmailIs(Lower(email.value))) < |users| ==>
        var u := users[FirstIndex(users, StoredEmailIs(Lower(email.value)))];
        r.Some? && r.value.role == u.role && (r.value.isActive <==> u.isActive != Some(false))
  {
  }

  /** A role outside the table has no permission. */
  lemma UnknownRoleHasNoPermission(role: Option<string>)
    requires role != Some(SuperAdmin) && role != Some(Admin) && role != Some(Cashier)
    ensures RolePermissions(role) == []
  {
  }

  /** An unknown user is neither authorized nor granted anything. */
  lemma UnknownUserHasNothing(info: Option<UserInfo>, permission: string, view: string)
    requires info.None?
    ensures !Authorized(info) && !Granted(info, permission) && !CanAccess(info, view)
  {
  }

  /** Consequences of the tables for a user whose permissions are those of its role: only a super
      administrator opens `settings`, only a cashier opens `billing`, a super administrator does not
      open `inventory`, and no view outside the table opens. */
  lemma ViewAccessByRole(info: UserInfo, view: string)
    requires info.permissions == RolePermissions(info.role)
    ensures CanAccess(Some(info), "settings") <==> info.role == Some(SuperAdmin)
    ensures CanAccess(Some(info), "billing") <==> info.role == Some(Cashier)
    ensures info.role == Some(SuperAdmin) ==> !CanAccess(Some(info), "inventory")
    ensures ViewPermission(view).None? ==> !CanAccess(Some(info), view)
  {
    var r := info.role;
    if r != Some(SuperAdmin) && r != Some(Admin) && r != Some(Cashier) {
      assert RolePermissions(r) == [];
    }
  }

  /** The lookup depends on the address only through its lower-cased form, up to the name. */
  lemma LookupByKey(users: seq<User>, email: string)
    ensures SameAccess(LookupUser(users, Some(email)), LookupUser(users, Some(Lower(email))))
  {
    LowerIdempotent(email);
  }

  /** `CACHE_DURATION`: five minutes, in milliseconds. */
  const CacheDuration: int := 5 * 60 * 1000

  /** Every cached entry is what a lookup of its key in `users` gives, up to the name. */
  ghost predicate CacheCoherent(users: seq<User>, cache: map<string, UserInfo>) {
    forall k :: k in cache ==> SameAccess(Some(cache[k]), LookupUser(users, Some(k)))
  }

  /** Whether `getUserInfoFromDB(email)` answers from the cache: there is an entry for the
      lower-cased address and `now` is before the one expiry shared by all entries. */
  predicate CacheHit(cache: map<string, UserInfo>, cacheExpiry: int, email: Option<string>, now: int) {
    Present(email) && Lower(email.value) in cache && now < cacheExpiry
  }

  /** The answer of `getUserInfoFromDB(email)` at time `now`: the cached entry on a hit, whatever
      the collection holds by then; otherwise nothing after a failed query, and the lookup in the
      collection as it stands. */
  function Served(users: seq<User>, cache: map<string, UserInfo>, cacheExpiry: int,
                  email: Option<string>, now: int, readFails: bool): Option<UserInfo> {
    if CacheHit(cache, cacheExpiry, email, now) then Some(cache[Lower(email.value)])
    else if readFails then None
    else LookupUser(users, email)
  }

  /** Whether the call stores a new entry: a miss whose query succeeds and finds the user. */
  predicate Inserts(users: seq<User>, cache: map<string, UserInfo>, cacheExpiry: int,
                    email: Option<string>, now: int, readFails: bool) {
    !CacheHit(cache, cacheExpiry, email, now) && !readFails && LookupUser(users, email).Some?
  }

  /** The cache after `getUserInfoFromDB(email)`: a found user is stored under the lower-cased
      address; a hit, a failed query and a user not found leave it as it was. */
  function CacheAfter(users: seq<User>, cache: map<string, UserInfo>, cacheExpiry: int,
                      email: Option<string>, now: int, readFails: bool): map<string, UserInfo> {
    if Inserts(users, cache, cacheExpiry, email, now, readFails)
    then cache[Lower(email.value) := LookupUser(users, email).value]
    else cache
  }

  /** The expiry after `getUserInfoFromDB(email)`: every insertion moves the expiry of the whole
      cache to `now + CACHE_DURATION`. */
  function ExpiryAfter(users: seq<User>, cache: map<string, UserInfo>, cacheExpiry: int,
                       email: Option<string>, now: int, readFails: bool): int {
    if Inserts(users, cache, cacheExpiry, email, now, readFails) then now + CacheDuration else cacheExpiry
  }

  /** While every entry agrees with the collection, the cache never changes an access decision:
      the answer is what a fresh lookup gives, up to the name (or nothing after a failed query),
      and the cache still agrees afterwards. */
  lemma ServedWhenCoherent(users: seq<User>, cache: map<string, UserInfo>, cacheExpiry: int,
                           email: Option<string>, now: int, readFails: bool)
    requires CacheCoherent(users, cache)
    ensures var r := Served(users, cache, cacheExpiry, email, now, readFails);
      (!readFails ==> SameAccess(r, LookupUser(users, email))) &&
      (readFails ==> r.None? || SameAccess(r, LookupUser(users, email)))
    ensures CacheCoherent(users, CacheAfter(users, cache, cacheExpiry, email, now, readFails))
  {
    if Present(email) {
      LookupByKey(users, email.value);
    }
  }

  /** A write that bypasses the cache makes it stale: a user looked up while stored and active
      at `t0`, and then deleted from the collection, is still served, and still authorized, until
      `t0 + CACHE_DURATION`, although a fresh lookup no longer finds the address. */
  lemma OutsideDeleteStillAuthorized(u: User, email: string, t0: int, now: int, after: seq<User>)
    requires email != "" && u.email == Some(Lower(email)) && u.isActive != Some(false)
    requires HardcodedSuperAdmin(Lower(email)).None?
    requires forall i :: 0 <= i < |after| ==> after[i].email != Some(Lower(email))
    requires t0 <= now < t0 + CacheDuration
    ensures var cache := CacheAfter([u], map[], 0, Some(email), t0, false);
      var expiry := ExpiryAfter([u], map[], 0, Some(email), t0, false);
      CacheCoherent([u], cache) && Authorized(Served(after, cache, expiry, Some(email), now, false)) &&
      LookupUser(after, Some(email)) == None
  {
    var key := Lower(email);
    assert StoredEmailIs(key)([u][0]);
    assert LookupUser([u], Some(email)) == Some(InfoOf(u, email));
    LowerIdempotent(email);
    assert StoredEmailIs(Lower(key))([u][0]);
    assert LookupUser([u], Some(key)) == Some(InfoOf(u, key));
  }

  /** Each insertion pushes the shared expiry forward, so an older entry for another address
      stays served until `CACHE_DURATION` after the newest insertion, whatever the collection
      holds by then. */
  lemma StaleWindowExtends(users: seq<User>, cache: map<string, UserInfo>, cacheExpiry: int,
                           cached: string, email: Option<string>, now: int, later: int,
                           laterUsers: seq<User>, laterFails: bool)
    requires cached != "" && Lower(cached) in cache && Present(email) && Lower(email.value) != Lower(cached)
    requires Inserts(users, cache, cacheExpiry, email, now, false)
    requires now <= later < now + CacheDuration
    ensures Served(laterUsers, CacheAfter(users, cache, cacheExpiry, email, now, false),
                   ExpiryAfter(users, cache, cacheExpiry, email, now, false), Some(cached), later, laterFails)
            == Some(cache[Lower(cached)])
  {
    var c := CacheAfter(users, cache, cacheExpiry, email, now, false);
    assert c == cache[Lower(email.value) := LookupUser(users, email).value];
    assert ExpiryAfter(users, cache, cacheExpiry, email, now, false) == now + CacheDuration;
    assert c[Lower(cached)] == cache[Lower(cached)];
    assert CacheHit(c, now + CacheDuration, Some(cached), later);
  }

  /** The users and the module-level cache. Nothing ties the cache to the collection: writes
      through this module clear it, but other writers leave it as it is (`WriteElsewhere`). */
  class UserDirectory {
    var users: seq<User>
    var cache: map<string, UserInfo>
    var cacheExpiry: int

    /** Every cached entry is what a fresh lookup of its key gives, up to the name. */
    ghost predicate Coherent()
      reads this
    {
      CacheCoherent(users, cache)
    }

    constructor(users: seq<User>)
      ensures this.users == users && cache == map[] && cacheExpiry == 0
      ensures Coherent()
    {
      this.users := users;
      cache := map[];
      cacheExpiry := 0;
    }

    /** `clearUserCache()` */
    method ClearUserCache()
      modifies this
      ensures users == old(users) && cache == map[] && cacheExpiry == 0
      ensures Coherent()
    {
      cache := map[];
      cacheExpiry := 0;
    }

    /** A write to the collection that does not go through this module, such as the
        `deleteUser` and `updateUser` calls of the user screens and utilities, or a write from
        another session: the records change and the cache and its expiry stay as they are. */
    method WriteElsewhere(newUsers: seq<User>)
      modifies this
      ensures users == newUsers && cache == old(cache) && cacheExpiry == old(cacheExpiry)
    {
      users := newUsers;
    }

    /**
      * `getUserInfoFromDB(email)`: a cached entry is served while `now < cacheExpiry`, even when
      * the collection has changed since; otherwise the collection is queried, and a found user
      * is cached under the lower-cased address with the expiry of the whole cache moved to
      * `now + CacheDuration`. Not-found is never cached. While the cache agrees with the
      * collection, the answer is a fresh lookup's.
      */
    method GetUserInfo(email: Option<string>, now: int, readFails: bool) returns (info: Option<UserInfo>)
      modifies this
      ensures users == old(users)
      ensures info == Served(users, old(cache), old(cacheExpiry), email, now, readFails)
      ensures cache == CacheAfter(users, old(cache), old(cacheExpiry), email, now, readFails)
      ensures cacheExpiry == ExpiryAfter(users, old(cache), old(cacheExpiry), email, now, readFails)
      ensures old(Coherent()) ==> Coherent() && (!readFails ==> SameAccess(info, LookupUser(users, email)))
    {
      ghost var wasCoherent := Coherent();
      if wasCoherent {
        ServedWhenCoherent(users, cache, cacheExpiry, email, now, readFails);
      }
      if !Present(email) {
        return None;
      }
      var key := Lower(email.value);
      if key in cache && now < cacheExpiry {
        info := Some(cache[key]);
        return;
      }
      if readFails {
        return None;
      }
      info := LookupUser(users, email);
      if info.Some? {
        cache := cache[key := info.value];
        cacheExpiry := now + CacheDuration;
      }
    }

    /** `hasPermission(email, permission)`: the permission is in the served answer's list. While
        the cache agrees with the collection, that is the fresh lookup's answer, and a failed
        read only turns it to false. */
    method HasPermission(email: Option<string>, permission: string, now: int, readFails: bool) returns (granted: bool)
      modifies this
      ensures users == old(users)
      ensures granted == Granted(Served(users, old(cache), old(cacheExpiry), email, now, readFails), permission)
      ensures cache == CacheAfter(users, old(cache), old(cacheExpiry), email, now, readFails)
      ensures cacheExpiry == ExpiryAfter(users, old(cache), old(cacheExpiry), email, now, readFails)
      ensures old(Coherent()) ==>
        Coherent() && (granted ==> Granted(LookupUser(users, email), permission)) && (!readFails ==> granted == Granted(LookupUser(users, email), permission))
    {
      ghost var wasCoherent := Coherent();
      if wasCoherent {
        ServedWhenCoherent(users, cache, cacheExpiry, email, now, readFails);
      }
      var info := GetUserInfo(email, now, readFails);
      granted := info.Some? && permission in info.value.permissions;
    }

    /** `isUserAuthorized(email)`: the served answer is found and active. */
    method IsUserAuthorized(email: Option<string>, now: int, readFails: bool) returns (authorized: bool)
      modifies this
      ensures users == old(users)
      ensures authorized == Authorized(Served(users, old(cache), old(cacheExpiry), email, now, readFails))
      ensures cache == CacheAfter(users, old(cache), old(cacheExpiry), email, now, readFails)
      ensures cacheExpiry == ExpiryAfter(users, old(cache), old(cacheExpiry), email, now, readFails)
      ensures old(Coherent()) ==>
        Coherent() && (authorized ==> Authorized(LookupUser(users, email))) && (!readFails ==> authorized == Authorized(LookupUser(users, email)))
    {
      ghost var wasCoherent := Coherent();
      if wasCoherent {
        ServedWhenCoherent(users, cache, cacheExpiry, email, now, readFails);
      }
      var info := GetUserInfo(email, now, readFails);
      authorized := info.Some? && info.value.isActive;
    }

    /** `canAccessView(email, view)`: a view outside the table is refused without a lookup;
        otherwise the served answer must hold the view's permission. */
    method CanAccessView(email: Option<string>, view: string, now: int, readFails: bool) returns (allowed: bool)
      modifies this
      ensures users == old(users)
      ensures ViewPermission(view).None? ==> !allowed && cache == old(cache) && cacheExpiry == old(cacheExpiry)
      ensures ViewPermission(view).Some? ==>
        allowed == CanAccess(Served(users, old(cache), old(cacheExpiry), email, now, readFails), view) &&
        cache == CacheAfter(users, old(cache), old(cacheExpiry), email, now, readFails) &&
        cacheExpiry == ExpiryAfter(users, old(cache), old(cacheExpiry), email, now, readFails)
      ensures old(Coherent()) ==>
        Coherent() && (allowed ==> CanAccess(LookupUser(users, email), view)) && (!readFails ==> allowed == CanAccess(LookupUser(users, email), view))
    {
      var required := ViewPermission(view);
      if required.None? {
        return false;
      }
      allowed := HasPermission(email, required.value, now, readFails);
    }

    /** `addUserToDB(userData)`: the record is stored with its address lower-cased and active, and
        the cache is cleared. A record without an address fails before anything is written. */
    method AddUser(userData: User, newId: string, writeFails: bool) returns (result: Result<string, string>)
      modifies this
      ensures result.Success? || old(Coherent()) ==> Coherent()
      ensures result.Success? <==> userData.email.Some? && !writeFails
      ensures result.Success? ==>
        result.value == newId && cache == map[] && cacheExpiry == 0 &&
        users == old(users) + [userData.(id := newId, email := Some(Lower(userData.email.value)), isActive := Some(true))]
      ensures result.Failure? ==> users == old(users) && cache == old(cache) && cacheExpiry == old(cacheExpiry)
    {
      if userData.email.None? {
        return Failure("email is undefined");
      }
      if writeFails {
        return Failure("write failed");
      }
      users := users + [userData.(id := newId, email := Some(Lower(userData.email.value)), isActive := Some(true))];
      ClearUserCache();
      result := Success(newId);
    }

    /** `updateUserInDB(userId, updates)`: the record with that id is patched and the cache is
        cleared; updating a missing record fails and leaves the cache as it was. */
    method UpdateUser(userId: string, patch: User -> User, writeFails: bool) returns (result: Result<(), string>)
      modifies this
      ensures result.Success? || old(Coherent()) ==> Coherent()
      ensures var i := FirstIndex(old(users), (u: User) => u.id == userId);
        result.Success? <==> i < |old(users)| && !writeFails
      ensures var i := FirstIndex(old(users), (u: User) => u.id == userId);
        result.Success? ==> users == old(users)[i := patch(old(users)[i])] && cache == map[] && cacheExpiry == 0
      ensures result.Failure? ==> users == old(users) && cache == old(cache) && cacheExpiry == old(cacheExpiry)
    {
      var i := FirstIndex(users, (u: User) => u.id == userId);
      if i == |users| {
        return Failure("No document to update");
      }
      if writeFails {
        return Failure("write failed");
      }
      users := users[i := patch(users[i])];
      ClearUserCache();
      result := Success(());
    }

    /** `deleteUserFromDB(userId)`: the record is removed (deleting a missing one succeeds) and the
        cache is cleared. */
    method DeleteUser(userId: string, writeFails: bool) returns (result: Result<(), string>)
      modifies this
      ensures result.Success? || old(Coherent()) ==> Coherent()
      ensures result.Success? <==> !writeFails
      ensures result.Success? ==> users == Filter(old(users), (u: User) => u.id != userId) && cache == map[] && cacheExpiry == 0
      ensures result.Failure? ==> users == old(users) && cache == old(cache) && cacheExpiry == old(cacheExpiry)
    {
      if writeFails {
        return Failure("write failed");
      }
      users := Filter(users, (u: User) => u.id != userId);
      ClearUserCache();
      result := Success(());
    }
  }
}
