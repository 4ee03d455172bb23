/**
  * The role-repair utilities of src/utils/fixUserRoles.js. `fixUserRoles` turns the plain "user"
  * (or missing) role of a store's users into `Cashier` unless their email names an admin or a
  * manager; `checkUserRoles` counts a store's users by role; `setUserRole` sets one user's role,
  * found by email.
  *
  * The users collection is a sequence of records, and a write to the document of `user.id` is a
  * write at that user's position (document ids are unique). A failing write is a parameter: the
  * set of user ids whose update is refused, or the error a single update throws.
  */
module FixUserRoles {
  import opened Wrappers
  import opened Text
  import opened Seqs
  import opened Users

  const DefaultStoreId: string := "store_001"
  const CashierRole: string := "Cashier"

  /** A user the utilities treat as belonging to the store: the store id matches, or the email
      is on the `@mystore.com` domain. */
  function InStore(storeId: string): User -> bool {
    (u: User) => u.storeId == Some(storeId) || (Present(u.email) && Contains(u.email.value, "@mystore.com"))
  }

  /** A role of "user" or none, and an email naming a cashier or naming neither an admin nor a
      manager. */
  predicate NeedsFix(u: User) {
    var role := LowerOrEmpty(u.role);
    var email := LowerOrEmpty(u.email);
    (role == "user" || role == "") &&
    (Contains(email, "cashier") || (!Contains(email, "admin") && !Contains(email, "manager")))
  }

  /** A store user whose role needs fixing. */
  function ToFix(storeId: string): User -> bool {
    (u: User) => InStore(storeId)(u) && NeedsFix(u)
  }

  /** `usersToFix`: the store users, then those among them whose role needs fixing. */
  function UsersToFix(users: seq<User>, storeId: string): (r: seq<User>)
    ensures r == Filter(users, ToFix(storeId))
  {
    FilterFilter(users, InStore(storeId), NeedsFix, ToFix(storeId));
    Filter(Filter(users, InStore(storeId)), NeedsFix)
  }

  /** The record after its role is fixed. */
  function WithCashierRole(u: User): User {
    u.(role := Some(CashierRole))
  }

  /** A user whose role is fixed: it needs fixing and its update is not refused. */
  function FixedBy(storeId: string, refused: set<string>): User -> bool {
    (u: User) => ToFix(storeId)(u) && u.id !in refused
  }

  /** A user's record after `fixUserRoles`: the `Cashier` role when it was fixed, otherwise as
      it was. */
  function Repaired(storeId: string, refused: set<string>, u: User): User {
    if FixedBy(storeId, refused)(u) then WithCashierRole(u) else u
  }

  /** The reply of `fixUserRoles`: the number of users fixed, and the number there were to fix
      (absent when there were none). */
  datatype FixReport = FixReport(fixed: nat, total: Option<nat>)

  /** `fixUserRoles(storeId)`: every user needing a fix whose update succeeds gets the `Cashier`
      role, every other record is left as it was, and the reply counts the successes. */
  method FixRoles(users: seq<User>, storeId: Option<string>, refused: set<string>)
    returns (store: seq<User>, report: FixReport)
    ensures |store| == |users|
    ensures forall j :: 0 <= j < |users| ==> store[j] == Repaired(storeId.GetOr(DefaultStoreId), refused, users[j])
    ensures UsersToFix(users, storeId.GetOr(DefaultStoreId)) == [] ==> report == FixReport(0, None)
    ensures UsersToFix(users, storeId.GetOr(DefaultStoreId)) != [] ==>
      report == FixReport(|Filter(users, FixedBy(storeId.GetOr(DefaultStoreId), refused))|,
                          Some(|UsersToFix(users, storeId.GetOr(DefaultStoreId))|))
  {
    var id := storeId.GetOr(DefaultStoreId);
    var toFix := UsersToFix(users, id);
    store := users;
    if |toFix| == 0 {
      report := FixReport(0, None);
      FilterNone(users, ToFix(id));
      return;
    }
    var successes;
    store, successes := RepairEach(users, id, refused);
    report := FixReport(successes, Some(|toFix|));
  }

  /** The loop of `fixUserRoles` over the users to fix, taken in the order of the collection. */
  method RepairEach(users: seq<User>, id: string, refused: set<string>) returns (store: seq<User>, successes: nat)
    ensures |store| == |users|
    ensures forall j :: 0 <= j < |users| ==> store[j] == Repaired(id, refused, users[j])
    ensures successes == |Filter(users, FixedBy(id, refused))|
  {
    store, successes := users, 0;
    var i := 0;
    while i < |users|
      invariant 0 <= i <= |users| && |store| == |users|
      invariant forall j :: 0 <= j < i ==> store[j] == Repaired(id, refused, users[j])
      invariant forall j :: i <= j < |users| ==> store[j] == users[j]
      invariant successes == |Filter(users[..i], FixedBy(id, refused))|
    {
      FilterPrefixStep(users, i, FixedBy(id, refused));
      if ToFix(id)(users[i]) && users[i].id !in refused {
        store := store[i := WithCashierRole(users[i])];
        successes := successes + 1;
      }
      i := i + 1;
    }
    assert users[..i] == users;
  }

  /** No more users are fixed than there were to fix. */
  lemma FixedAtMostTotal(users: seq<User>, storeId: string, refused: set<string>)
    ensures |Filter(users, FixedBy(storeId, refused))| <= |UsersToFix(users, storeId)|
  {
    FilterMonotone(users, FixedBy(storeId, refused), ToFix(storeId));
  }

  lemma CashierRoleNeedsNoFix(u: User)
    ensures !NeedsFix(WithCashierRole(u))
  {
    assert Lower(CashierRole) == "cashier";
  }

  /** Fixing is idempotent: when no update was refused, no user of the result needs fixing. */
  lemma {:induction false} NothingLeftToFix(users: seq<User>, store: seq<User>, storeId: string)
    requires |store| == |users|
    requires forall j :: 0 <= j < |users| ==> store[j] == Repaired(storeId, {}, users[j])
    ensures UsersToFix(store, storeId) == []
  {
    forall j | 0 <= j < |store|
      ensures !ToFix(storeId)(store[j])
    {
      if FixedBy(storeId, {})(users[j]) {
        CashierRoleNeedsNoFix(users[j]);
      }
    }
    FilterNone(store, ToFix(storeId));
  }

  /** The key a user is counted under by `checkUserRoles`: the role, or "undefined" when it is
      missing or empty. */
  function RoleKey(u: User): string {
    if Present(u.role) then u.role.value else "undefined"
  }

  function HasRoleKey(key: string): User -> bool {
    (u: User) => RoleKey(u) == key
  }

  /** `roleStats`, built user by user: each user adds one to the count under its key. */
  function Tally(s: seq<User>): (counts: map<string, nat>)
    ensures forall k :: k in counts ==> counts[k] >= 1
    ensures forall i :: 0 <= i < |s| ==> RoleKey(s[i]) in counts
    decreases |s|
  {
    if s == [] then map[]
    else
      var m := Tally(s[..|s| - 1]);
      var key := RoleKey(s[|s| - 1]);
      m[key := (if key in m then m[key] else 0) + 1]
  }

  lemma TallyStep(s: seq<User>, i: nat)
    requires i < |s|
    ensures Tally(s[..i + 1]) == Tally(s[..i])[RoleKey(s[i]) :=
      (if RoleKey(s[i]) in Tally(s[..i]) then Tally(s[..i])[RoleKey(s[i])] else 0) + 1]
  {
    assert s[..i + 1][..i] == s[..i];
  }

  /** The keys of the tally are exactly the keys of the users, and each counts its users. */
  lemma {:induction false} TallyCounts(s: seq<User>)
    ensures forall key :: key in Tally(s) <==> exists u :: u in s && RoleKey(u) == key
    ensures forall key :: key in Tally(s) ==> Tally(s)[key] == |Filter(s, HasRoleKey(key))|
    decreases |s|
  {
    if s != [] {
      var init, last := s[..|s| - 1], s[|s| - 1];
      assert s == init + [last];
      TallyCounts(init);
      forall key
        ensures key in Tally(s) ==> Tally(s)[key] == |Filter(s, HasRoleKey(key))|
      {
        FilterSnoc(init, last, HasRoleKey(key));
        if key !in Tally(init) {
          FilterNone(init, HasRoleKey(key));
        }
      }
    }
  }

  /** The sum of a map's counts. */
  ghost function MapSum(m: map<string, nat>): nat
    decreases |m|
  {
    if m == map[] then 0
    else
      var k :| k in m;
      m[k] + MapSum(m - {k})
  }

  /** The sum does not depend on which key is taken first. */
  lemma {:induction false} MapSumRemove(m: map<string, nat>, k: string)
    requires k in m
    ensures MapSum(m) == m[k] + MapSum(m - {k})
    decreases |m|
  {
    var y :| y in m && MapSum(m) == m[y] + MapSum(m - {y});
    if y != k {
      MapSumRemove(m - {y}, k);
      MapSumRemove(m - {k}, y);
      assert m - {y} - {k} == m - {k} - {y};
    }
  }

  /** Adding one to a key's count adds one to the sum. */
  lemma MapSumBump(m: map<string, nat>, k: string)
    ensures MapSum(m[k := (if k in m then m[k] else 0) + 1]) == MapSum(m) + 1
  {
    var m' := m[k := (if k in m then m[k] else 0) + 1];
    MapSumRemove(m', k);
    if k in m {
      MapSumRemove(m, k);
      assert m' - {k} == m - {k};
    } else {
      assert m' - {k} == m;
    }
  }

  /** Every user is counted once: the counts add up to the number of users. */
  lemma {:induction false} TallySum(s: seq<User>)
    ensures MapSum(Tally(s)) == |s|
    decreases |s|
  {
    if s != [] {
      TallySum(s[..|s| - 1]);
      MapSumBump(Tally(s[..|s| - 1]), RoleKey(s[|s| - 1]));
    }
  }

  /** `checkUserRoles(storeId)`: the number of store users and their count by role. */
  method CheckUserRoles(users: seq<User>, storeId: Option<string>)
    returns (totalUsers: nat, roleStats: map<string, nat>)
    ensures totalUsers == |Filter(users, InStore(storeId.GetOr(DefaultStoreId)))|
    ensures roleStats == Tally(Filter(users, InStore(storeId.GetOr(DefaultStoreId))))
  {
    var storeUsers := Filter(users, InStore(storeId.GetOr(DefaultStoreId)));
    roleStats := TallyRoles(storeUsers);
    totalUsers := |storeUsers|;
  }

  /** The `forEach` of `checkUserRoles` counting the users by role. */
  method TallyRoles(storeUsers: seq<User>) returns (roleStats: map<string, nat>)
    ensures roleStats == Tally(storeUsers)
  {
    roleStats := map[];
    var i := 0;
    while i < |storeUsers|
      invariant 0 <= i <= |storeUsers|
      invariant roleStats == Tally(storeUsers[..i])
    {
      var role := RoleKey(storeUsers[i]);
      var count := if role in roleStats then roleStats[role] else 0;
      TallyStep(storeUsers, i);
      roleStats := roleStats[role := count + 1];
      i := i + 1;
    }
    assert storeUsers[..i] == storeUsers;
  }

  /** The reply of `setUserRole` on success. */
  datatype RoleChange = RoleChange(userId: string, oldRole: Option<string>, newRole: string)

  function NotFoundMessage(userEmail: string): string {
    "User with email " + userEmail + " not found"
  }

  /** `setUserRole(userEmail, newRole)`: the first user whose email matches, ignoring case, gets
      the new role (`Cashier` by default); a missing user or a failing update is an error, and
      the users are then unchanged. */
  method SetUserRole(users: seq<User>, userEmail: string, newRole: Option<string>, writeError: Option<string>)
    returns (store: seq<User>, result: Result<RoleChange, string>)
    ensures result.Success? <==> Any(users, EmailMatches(userEmail)) && writeError.None?
    ensures !Any(users, EmailMatches(userEmail)) ==> result == Failure(NotFoundMessage(userEmail))
    ensures result.Failure? ==> store == users
    ensures result.Success? ==>
      var i := FirstIndex(users, EmailMatches(userEmail));
      i < |users| && store == users[i := users[i].(role := Some(newRole.GetOr(CashierRole)))] &&
      result.value == RoleChange(users[i].id, users[i].role, newRole.GetOr(CashierRole))
  {
    var i := FirstIndex(users, EmailMatches(userEmail));
    store := users;
    if i == |users| {
      result := Failure(NotFoundMessage(userEmail));
      return;
    }
    if writeError.Some? {
      result := Failure(writeError.value);
      return;
    }
    var role := newRole.GetOr(CashierRole);
    store := users[i := users[i].(role := Some(role))];
    result := Success(RoleChange(users[i].id, users[i].role, role));
  }

  /** After a successful `setUserRole`, looking the email up again finds the same user, now with
      the new role, and every other user is as it was. */
  lemma SetRoleThenLookup(users: seq<User>, userEmail: string, role: string)
    requires Any(users, EmailMatches(userEmail))
    ensures var i := FirstIndex(users, EmailMatches(userEmail));
      var store := users[i := users[i].(role := Some(role))];
      FirstIndex(store, EmailMatches(userEmail)) == i && store[i].role == Some(role) &&
      forall j :: 0 <= j < |users| && j != i ==> store[j] == users[j]
  {
    var i := FirstIndex(users, EmailMatches(userEmail));
    var store := users[i := users[i].(role := Some(role))];
    FirstIndexIs(store, EmailMatches(userEmail), i);
  }
}
