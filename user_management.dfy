/**
  * The super administrator's user management screen (src/components/UserManagement.js): the
  * checks and normalisation of a submitted user, the delete guard, picking a store, and the
  * active-flag toggle.
  *
  * The form state is a `UserManagementForm` object; a submission returns the write it asks the
  * store for, and whether a write fails or a deletion is confirmed is a parameter.
  */
module UserManagement {
  import opened Wrappers
  import opened Text
  import opened Seqs
  import opened Users
  import Roles = DynamicRoleManager

  /** The fields of the form. */
  datatype ManagedForm = ManagedForm(
    name: string, email: string, phone: string, role: string,
    storeId: string, storeName: string, isActive: bool)

  /** The form after `resetForm`. */
  const BlankForm: ManagedForm := ManagedForm("", "", "", Roles.Cashier, "", "", true)

  const CompanyAdminStoreName: string := "Company Admin"

  datatype ManagedError = MissingFields | InvalidEmail | StoreRequired

  /** The record written for a submission; a super admin has no store id. */
  datatype ManagedRecord = ManagedRecord(
    name: string, email: string, phone: string, role: string,
    storeId: Option<string>, storeName: string, isActive: bool)

  datatype Write = AddUser(record: ManagedRecord) | UpdateUser(userId: string, record: ManagedRecord)

  /** A store of the drop-down list. */
  datatype StoreEntry = StoreEntry(id: string, name: string)

  /** The checks of `handleSubmit`, in their order: name and email given, the email pattern,
      and a store for every role but super admin. */
  function CheckManagedForm(form: ManagedForm): (r: Option<ManagedError>)
    ensures r == None <==>
      form.name != "" && form.email != "" && ValidEmail(form.email) &&
      (form.role != Roles.SuperAdmin ==> form.storeId != "")
    ensures r == Some(InvalidEmail) ==> form.name != "" && form.email != ""
    ensures r == Some(StoreRequired) ==> form.name != "" && ValidEmail(form.email) && form.role != Roles.SuperAdmin
  {
    if form.name == "" || form.email == "" then Some(MissingFields)
    else if !ValidEmail(form.email) then Some(InvalidEmail)
    else if form.role != Roles.SuperAdmin && form.storeId == "" then Some(StoreRequired)
    else None
  }

  /** The record `handleSubmit` writes: the email in lower case, and for a super admin no store
      id and the store name `Company Admin` whatever the form holds. */
  function SubmittedRecord(form: ManagedForm): (r: ManagedRecord)
    ensures r.email == Lower(form.email)
    ensures r.name == form.name && r.phone == form.phone && r.role == form.role && r.isActive == form.isActive
    ensures form.role == Roles.SuperAdmin ==> r.storeId == None && r.storeName == CompanyAdminStoreName
    ensures form.role != Roles.SuperAdmin ==> r.storeId == Some(form.storeId) && r.storeName == form.storeName
  {
    var userData := ManagedRecord(form.name, Lower(form.email), form.phone, form.role, Some(form.storeId), form.storeName, form.isActive);
    if form.role == Roles.SuperAdmin then userData.(storeId := None, storeName := CompanyAdminStoreName) else userData
  }

  /** An accepted record has a lower-case email that still passes the pattern, and a store
      unless it is a super admin's. */
  lemma AcceptedRecord(form: ManagedForm)
    requires CheckManagedForm(form) == None
    ensures var r := SubmittedRecord(form);
      ValidEmail(r.email) && Lower(r.email) == r.email &&
      (r.role != Roles.SuperAdmin ==> r.storeId.Some? && r.storeId.value != "")
  {
    LowerKeepsEmailValid(form.email);
    LowerIdempotent(form.email);
  }

  /** `handleEditUser`: the user's fields, `cashier` for a missing role, and active unless the
      flag is `false`. */
  function FormOf(u: User): ManagedForm {
    ManagedForm(
      if Present(u.name) then u.name.value else "",
      if Present(u.email) then u.email.value else "",
      if Present(u.phone) then u.phone.value else "",
      if Present(u.role) then u.role.value else Roles.Cashier,
      if Present(u.storeId) then u.storeId.value else "",
      if Present(u.storeName) then u.storeName.value else "",
      u.isActive != Some(false))
  }

  /** `toggleUserStatus(user.id, user.isActive !== false)`: the flag written back. A missing
      flag counts as active, so the toggle deactivates such a user. */
  function ToggledActive(u: User): (r: bool)
    ensures r <==> u.isActive == Some(false)
  {
    var currentStatus := u.isActive != Some(false);
    !currentStatus
  }

  /** The outcome of `handleDeleteUser`. */
  datatype DeleteOutcome = UserNotFound | SuperAdminProtected | NotConfirmed | UserDeleted | DeleteFailed

  function HasId(userId: string): User -> bool {
    (u: User) => u.id == userId
  }

  /** `handleDeleteUser(userId)`: an unknown id and a super admin are refused before asking,
      nothing is deleted without confirmation, and a confirmed delete removes the user unless the
      write fails. */
  method HandleDeleteUser(users: seq<User>, userId: string, confirmed: bool, writeFails: bool)
    returns (store: seq<User>, outcome: DeleteOutcome)
    ensures !Any(users, HasId(userId)) <==> outcome == UserNotFound
    ensures outcome == SuperAdminProtected <==>
      Any(users, HasId(userId)) && users[FirstIndex(users, HasId(userId))].role == Some(Roles.SuperAdmin)
    ensures outcome == UserDeleted ==> confirmed && !writeFails
    ensures outcome == UserDeleted ==>
      var i := FirstIndex(users, HasId(userId));
      i < |users| && users[i].role != Some(Roles.SuperAdmin) && store == users[..i] + users[i + 1..]
    ensures outcome != UserDeleted ==> store == users
    ensures Any(users, HasId(userId)) && users[FirstIndex(users, HasId(userId))].role != Some(Roles.SuperAdmin) ==>
      outcome == (if !confirmed then NotConfirmed else if writeFails then DeleteFailed else UserDeleted)
  {
    var i := FirstIndex(users, HasId(userId));
    store := users;
    if i == |users| {
      outcome := UserNotFound;
    } else if users[i].role == Some(Roles.SuperAdmin) {
      outcome := SuperAdminProtected;
    } else if !confirmed {
      outcome := NotConfirmed;
    } else if writeFails {
      outcome := DeleteFailed;
    } else {
      store := users[..i] + users[i + 1..];
      outcome := UserDeleted;
    }
  }

  /** A super admin is never deleted: removing the user at a position that does not hold a
      super admin keeps every super admin. */
  lemma SuperAdminsSurviveDelete(users: seq<User>, i: nat)
    requires i < |users| && users[i].role != Some(Roles.SuperAdmin)
    ensures forall u :: u in users && u.role == Some(Roles.SuperAdmin) ==> u in users[..i] + users[i + 1..]
  {
    forall u | u in users && u.role == Some(Roles.SuperAdmin)
      ensures u in users[..i] + users[i + 1..]
    {
      var j :| 0 <= j < |users| && users[j] == u;
      if j < i {
        assert users[..i][j] == u;
      } else {
        assert users[i + 1..][j - i - 1] == u;
      }
    }
  }

  /** The store whose id was chosen: its name, or the empty string when it is not in the list. */
  function StoreNameOf(stores: seq<StoreEntry>, storeId: string): (r: string)
    ensures (exists j :: 0 <= j < |stores| && stores[j].id == storeId) ==>
      r == stores[FirstIndex(stores, (s: StoreEntry) => s.id == storeId)].name
    ensures (forall j :: 0 <= j < |stores| ==> stores[j].id != storeId) ==> r == ""
  {
    match Find(stores, (s: StoreEntry) => s.id == storeId)
    case Some(s) => s.name
    case None => ""
  }

  /** The state of the form dialog. */
  class UserManagementForm {
    var formData: ManagedForm
    var editingUser: Option<string>
    var showAddModal: bool

    constructor()
      ensures formData == BlankForm && editingUser == None && !showAddModal
    {
      formData, editingUser, showAddModal := BlankForm, None, false;
    }

    /** `handleEditUser(user)`: the user's fields, for an update of that user. */
    method HandleEditUser(u: User)
      modifies this
      ensures formData == FormOf(u) && editingUser == Some(u.id) && showAddModal
    {
      formData := FormOf(u);
      editingUser := Some(u.id);
      showAddModal := true;
    }

    /** `handleStoreChange(storeId)`: the chosen id, and the name of that store or ''. */
    method HandleStoreChange(stores: seq<StoreEntry>, storeId: string)
      modifies this
      ensures formData == old(formData).(storeId := storeId, storeName := StoreNameOf(stores, storeId))
      ensures editingUser == old(editingUser) && showAddModal == old(showAddModal)
    {
      var selectedStore := Find(stores, (s: StoreEntry) => s.id == storeId);
      var name := if selectedStore.Some? then selectedStore.value.name else "";
      formData := formData.(storeId := storeId, storeName := name);
    }

    /** `handleSubmit`: a form failing a check is refused and kept; otherwise the normalised
        record is written, as an update of the edited user or as a new user, and a successful
        write closes the dialog and resets the form. */
    method HandleSubmit(writeFails: bool) returns (error: Option<ManagedError>, write: Option<Write>)
      modifies this
      ensures error == CheckManagedForm(old(formData))
      ensures error.Some? ==> write == None
      ensures error.None? && Present(old(editingUser)) ==>
        write == Some(UpdateUser(old(editingUser).value, SubmittedRecord(old(formData))))
      ensures error.None? && !Present(old(editingUser)) ==> write == Some(AddUser(SubmittedRecord(old(formData))))
      ensures error.None? && !writeFails ==> formData == BlankForm && editingUser == None && !showAddModal
      ensures error.Some? || writeFails ==>
        formData == old(formData) && editingUser == old(editingUser) && showAddModal == old(showAddModal)
    {
      error := CheckManagedForm(formData);
      if error.Some? {
        write := None;
        return;
      }
      var userData := ManagedRecord(formData.name, Lower(formData.email), formData.phone, formData.role,
                                    Some(formData.storeId), formData.storeName, formData.isActive);
      if formData.role == Roles.SuperAdmin {
        userData := userData.(storeId := None);
        userData := userData.(storeName := CompanyAdminStoreName);
      }
      if Present(editingUser) {
        write := Some(UpdateUser(editingUser.value, userData));
      } else {
        write := Some(AddUser(userData));
      }
      if !writeFails {
        showAddModal := false;
        formData := BlankForm;
        editingUser := None;
      }
    }
  }
}
