/**
  * The clean-up utilities of src/utils/cleanupOrphanedUsers.js. `cleanupOrphanedUsers` deletes,
  * after a confirmation, the users assigned to a store that no longer exists; `removeUserByEmail`
  * deletes one user found by email.
  *
  * The users collection is a sequence of records and deleting the document of `user.id` removes
  * that user's record (document ids are unique). The ids of the existing stores, the answer to
  * the confirmation dialog and the failure of a delete are parameters.
  */
module CleanupOrphanedUsers {
  import opened Wrappers
  import opened Text
  import opened Seqs
  import opened Users

  const SuperAdminRole: string := "super_admin"

  /** A user assigned to a store that is not among the existing ones; super admins and users
      without a store are never orphans. */
  function IsOrphan(activeStoreIds: seq<string>): (orphan: User -> bool)
    ensures forall u: User :: orphan(u) ==> u.role != Some(SuperAdminRole) && Present(u.storeId) && u.storeId.value !in activeStoreIds
    ensures forall u: User :: u.role != Some(SuperAdminRole) && Present(u.storeId) && u.storeId.value !in activeStoreIds ==> orphan(u)
  {
    (u: User) => !(u.role == Some(SuperAdminRole) || !Present(u.storeId)) && u.storeId.value !in activeStoreIds
  }

  /** An orphan whose delete succeeds. */
  function Deleted(activeStoreIds: seq<string>, refused: set<string>): User -> bool {
    (u: User) => IsOrphan(activeStoreIds)(u) && u.id !in refused
  }

  /** A user still in the collection after the clean-up. */
  function Survives(activeStoreIds: seq<string>, refused: set<string>): User -> bool {
    (u: User) => !Deleted(activeStoreIds, refused)(u)
  }

  /** The reply of `cleanupOrphanedUsers`: whether it went ahead, how many users were deleted,
      and how many orphans there were (absent when it stopped early). */
  datatype CleanupReport = CleanupReport(success: bool, cleaned: nat, total: Option<nat>)

  /** `cleanupOrphanedUsers()`: nothing happens without orphans or without confirmation;
      otherwise every orphan is deleted in turn, a failing delete does not stop the others, and
      the reply counts the successful deletes. */
  method CleanupOrphans(users: seq<User>, activeStoreIds: seq<string>, confirmed: bool, refused: set<string>)
    returns (store: seq<User>, report: CleanupReport)
    ensures Filter(users, IsOrphan(activeStoreIds)) == [] ==> store == users && report == CleanupReport(true, 0, None)
    ensures Filter(users, IsOrphan(activeStoreIds)) != [] && !confirmed ==>
      store == users && report == CleanupReport(false, 0, None)
    ensures Filter(users, IsOrphan(activeStoreIds)) != [] && confirmed ==>
      store == Filter(users, Survives(activeStoreIds, refused)) &&
      report == CleanupReport(true, |Filter(users, Deleted(activeStoreIds, refused))|,
                              Some(|Filter(users, IsOrphan(activeStoreIds))|))
  {
    var orphanedUsers := Filter(users, IsOrphan(activeStoreIds));
    store := users;
    if |orphanedUsers| == 0 {
      report := CleanupReport(true, 0, None);
      return;
    }
    if !confirmed {
      report := CleanupReport(false, 0, None);
      return;
    }
    var successCount;
    store, successCount := DeleteEach(users, activeStoreIds, refused);
    report := CleanupReport(true, successCount, Some(|orphanedUsers|));
  }

  /** The delete loop: every user is kept except the orphans whose delete succeeds. */
  method DeleteEach(users: seq<User>, activeStoreIds: seq<string>, refused: set<string>)
    returns (store: seq<User>, successCount: nat)
    ensures store == Filter(users, Survives(activeStoreIds, refused))
    ensures successCount == |Filter(users, Deleted(activeStoreIds, refused))|
  {
    store, successCount := [], 0;
    var i := 0;
    while i < |users|
      invariant 0 <= i <= |users|
      invariant store == Filter(users[..i], Survives(activeStoreIds, refused))
      invariant successCount == |Filter(users[..i], Deleted(activeStoreIds, refused))|
    {
      assert users[..i + 1] == users[..i] + [users[i]];
      FilterSnoc(users[..i], users[i], Survives(activeStoreIds, refused));
      FilterSnoc(users[..i], users[i], Deleted(activeStoreIds, refused));
      if IsOrphan(activeStoreIds)(users[i]) && users[i].id !in refused {
        successCount := successCount + 1;
      } else {
        store := store + [users[i]];
      }
      i := i + 1;
    }
    assert users[..i] == users;
  }

  /** Every user is either deleted or kept, the deletes never exceed the orphans, and the users
      kept are the original ones in their original order. */
  lemma CleanupAccounts(users: seq<User>, activeStoreIds: seq<string>, refused: set<string>)
    ensures |Filter(users, Deleted(activeStoreIds, refused))| + |Filter(users, Survives(activeStoreIds, refused))| == |users|
    ensures |Filter(users, Deleted(activeStoreIds, refused))| <= |Filter(users, IsOrphan(activeStoreIds))|
    ensures IsSubsequence(Filter(users, Survives(activeStoreIds, refused)), users)
  {
    FilterComplement(users, Deleted(activeStoreIds, refused), Survives(activeStoreIds, refused));
    FilterMonotone(users, Deleted(activeStoreIds, refused), IsOrphan(activeStoreIds));
    FilterIsSubsequence(users, Survives(activeStoreIds, refused));
  }

  /** Users who are not orphans are never deleted, and when no delete fails no orphan is left:
      running the clean-up again finds nothing to do. */
  lemma CleanupKeepsOthers(users: seq<User>, activeStoreIds: seq<string>, refused: set<string>)
    ensures forall u :: u in users && !IsOrphan(activeStoreIds)(u) ==> u in Filter(users, Survives(activeStoreIds, refused))
    ensures refused == {} ==> Filter(Filter(users, Survives(activeStoreIds, refused)), IsOrphan(activeStoreIds)) == []
  {
    var kept := Filter(users, Survives(activeStoreIds, refused));
    FilterMembers(users, Survives(activeStoreIds, refused));
    forall u | u in users && !IsOrphan(activeStoreIds)(u)
      ensures u in kept
    {
      var i :| 0 <= i < |users| && users[i] == u;
      assert !Deleted(activeStoreIds, refused)(users[i]);
      assert Survives(activeStoreIds, refused)(users[i]);
    }
    if refused == {} {
      forall k | 0 <= k < |kept|
        ensures !IsOrphan(activeStoreIds)(kept[k])
      {
        assert Survives(activeStoreIds, refused)(kept[k]);
        assert !Deleted(activeStoreIds, refused)(kept[k]) && kept[k].id !in refused;
      }
      FilterNone(kept, IsOrphan(activeStoreIds));
    }
  }

  /** The outcome of `removeUserByEmail`. */
  datatype Removal = NotFound(message: string) | Cancelled | Removed(userId: string) | Failed(error: string)

  function RemoveNotFoundMessage(email: string): string {
    "User with email " + email + " not found"
  }

  /** `removeUserByEmail(email)`: the first user whose email matches, ignoring case, is deleted
      once confirmed; a missing user, a refusal or a failing delete leaves the users as they were. */
  method RemoveUserByEmail(users: seq<User>, email: string, confirmed: bool, writeError: Option<string>)
    returns (store: seq<User>, outcome: Removal)
    ensures outcome.NotFound? <==> !Any(users, EmailMatches(email))
    ensures outcome.NotFound? ==> outcome.message == RemoveNotFoundMessage(email)
    ensures Any(users, EmailMatches(email)) && !confirmed ==> outcome == Cancelled
    ensures Any(users, EmailMatches(email)) && confirmed && writeError.Some? ==> outcome == Failed(writeError.value)
    ensures !outcome.Removed? ==> store == users
    ensures outcome.Removed? <==> Any(users, EmailMatches(email)) && confirmed && writeError.None?
    ensures outcome.Removed? ==>
      var i := FirstIndex(users, EmailMatches(email));
      i < |users| && outcome.userId == users[i].id && store == users[..i] + users[i + 1..]
  {
    var i := FirstIndex(users, EmailMatches(email));
    store := users;
    if i == |users| {
      outcome := NotFound(RemoveNotFoundMessage(email));
    } else if !confirmed {
      outcome := Cancelled;
    } else if writeError.Some? {
      outcome := Failed(writeError.value);
    } else {
      store := users[..i] + users[i + 1..];
      outcome := Removed(users[i].id);
    }
  }

  /** Removing the first matching user shortens the collection by one and keeps every other user
      in order; an earlier user with the same email cannot exist. */
  lemma RemovedByEmail(users: seq<User>, email: string)
    requires Any(users, EmailMatches(email))
    ensures var i := FirstIndex(users, EmailMatches(email));
      var store := users[..i] + users[i + 1..];
      |store| == |users| - 1 && IsSubsequence(store, users) &&
      forall j :: 0 <= j < i ==> !EmailMatches(email)(store[j])
  {
    var i := FirstIndex(users, EmailMatches(email));
    SubsequenceDrop(users, i);
  }

  lemma {:induction false} SubsequenceDrop<T>(s: seq<T>, i: nat)
    requires i < |s|
    ensures IsSubsequence(s[..i] + s[i + 1..], s)
    decreases i
  {
    if i == 0 {
      assert s[..i] + s[i + 1..] == s[1..];
      SubsequenceSelf(s[1..]);
    } else {
      SubsequenceDrop(s[1..], i - 1);
      assert (s[..i] + s[i + 1..])[1..] == s[1..][..i - 1] + s[1..][i..];
    }
  }

  lemma {:induction false} SubsequenceSelf<T>(s: seq<T>)
    ensures IsSubsequence(s, s)
    decreases |s|
  {
    if s != [] {
      SubsequenceSelf(s[1..]);
    }
  }
}
