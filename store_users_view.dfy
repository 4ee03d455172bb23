/**
  * The store administrator's user form (src/components/StoreUsersView.js): the checks a
  * submission must pass, in their order, the record written for a new or edited user, and the
  * status toggle.
  *
  * The form state is a `StoreUsersForm` object; a submission returns the write it asks the
  * store for, and whether that write fails is a parameter.
  */
module StoreUsersView {
  import opened Wrappers
  import opened Text
  import opened Seqs
  import opened Users

  /** The fields of the form, as the inputs hold them. */
  datatype FormData = FormData(name: string, email: string, phone: string, role: string, status: string, password: string)

  /** The form after `resetForm`. */
  const EmptyForm: FormData := FormData("", "", "", "Cashier", "Active", "")

  /** The reasons a submission is turned down, one per check. */
  datatype FormError = MissingFields | InvalidEmail | InvalidPhone | ShortPassword | DuplicateEmail

  /** The record sent to the store; an edit with an empty password sends no password. */
  datatype SavedUser = SavedUser(
    name: string, email: string, phone: string, role: string, status: string,
    password: Option<string>, storeId: Option<string>, storeName: Option<string>)

  datatype Write = AddUser(record: SavedUser) | UpdateUser(userId: string, record: SavedUser)

  /** `!editingUser`: no user is being edited, so the form adds one. */
  predicate Adding(editingUser: Option<string>) {
    !Present(editingUser)
  }

  /** Name, email and phone are filled in, and so is the password of a new user. */
  predicate FieldsFilled(form: FormData, editingUser: Option<string>) {
    !(form.name == "" || form.email == "" || form.phone == "" || (Adding(editingUser) && form.password == ""))
  }

  /** A character `[\d\s-()]` accepts. */
  predicate PhoneChar(c: char) {
    IsDigit(c) || IsSpace(c) || c == '-' || c == '(' || c == ')'
  }

  /** The phone pattern `^\+?[\d\s-()]+$`: an optional `+`, then one or more digits, spaces,
      hyphens or parentheses. */
  predicate ValidPhone(phone: string) {
    |PhoneBody(phone)| > 0 && forall i :: 0 <= i < |PhoneBody(phone)| ==> PhoneChar(PhoneBody(phone)[i])
  }

  /** The phone number without its leading `+`. */
  function PhoneBody(phone: string): string {
    if |phone| > 0 && phone[0] == '+' then phone[1..] else phone
  }

  /** A new user's password has at least six characters. */
  predicate PasswordLongEnough(form: FormData, editingUser: Option<string>) {
    !(Adding(editingUser) && |form.password| < 6)
  }

  /** Another user with the same email, ignoring case; the user being edited does not count. */
  function SameEmailElsewhere(form: FormData, editingUser: Option<string>): User -> bool {
    (u: User) => Present(u.email) && Lower(u.email.value) == Lower(form.email) && Some(u.id) != editingUser
  }

  /** The validation chain of `handleSubmit`: the first check that fails, or None. `users` is the
      list the view holds, already filtered to the current store, so an email used by a user of
      another store is not caught as a duplicate. */
  function CheckForm(form: FormData, editingUser: Option<string>, users: seq<User>): (r: Option<FormError>)
    ensures r == None <==>
      FieldsFilled(form, editingUser) && ValidEmail(form.email) && ValidPhone(form.phone) &&
      PasswordLongEnough(form, editingUser) && !Any(users, SameEmailElsewhere(form, editingUser))
    ensures r == Some(InvalidEmail) ==> FieldsFilled(form, editingUser)
    ensures r == Some(InvalidPhone) ==> FieldsFilled(form, editingUser) && ValidEmail(form.email)
    ensures r == Some(ShortPassword) ==> FieldsFilled(form, editingUser) && ValidEmail(form.email) && ValidPhone(form.phone)
    ensures r == Some(DuplicateEmail) ==>
      FieldsFilled(form, editingUser) && ValidEmail(form.email) && ValidPhone(form.phone) &&
      PasswordLongEnough(form, editingUser)
  {
    if !FieldsFilled(form, editingUser) then Some(MissingFields)
    else if !ValidEmail(form.email) then Some(InvalidEmail)
    else if !ValidPhone(form.phone) then Some(InvalidPhone)
    else if !PasswordLongEnough(form, editingUser) then Some(ShortPassword)
    else if Find(users, SameEmailElsewhere(form, editingUser)).Some? then Some(DuplicateEmail)
    else None
  }

  /** The write a valid submission asks for: the form's fields with the administrator's store,
      as an update of the edited user (without the password when it was left empty) or as a
      new user. */
  function SubmittedWrite(form: FormData, editingUser: Option<string>, storeId: Option<string>, storeName: Option<string>)
    : (w: Write)
    ensures w.UpdateUser? <==> !Adding(editingUser)
    ensures w.UpdateUser? ==> Some(w.userId) == editingUser
    ensures w.record.storeId == storeId && w.record.storeName == storeName
    ensures w.record.name == form.name && w.record.email == form.email && w.record.phone == form.phone
    ensures w.record.role == form.role && w.record.status == form.status
    ensures w.record.password.None? <==> !Adding(editingUser) && form.password == ""
    ensures w.record.password.Some? ==> w.record.password.value == form.password
  {
    var record := SavedUser(form.name, form.email, form.phone, form.role, form.status, Some(form.password), storeId, storeName);
    if Adding(editingUser) then AddUser(record)
    else UpdateUser(editingUser.value, if form.password == "" then record.(password := None) else record)
  }

  /** What a submission that passes the checks guarantees about the record written: a valid
      email no other user of this store's list has, a valid phone, and for a new user a password of six or more
      characters. */
  lemma AcceptedSubmission(form: FormData, editingUser: Option<string>, users: seq<User>,
                           storeId: Option<string>, storeName: Option<string>)
    requires CheckForm(form, editingUser, users) == None
    ensures var w := SubmittedWrite(form, editingUser, storeId, storeName);
      ValidEmail(w.record.email) && ValidPhone(w.record.phone) &&
      (w.AddUser? ==> w.record.password.Some? && |w.record.password.value| >= 6) &&
      forall u :: u in users && Present(u.email) && Lower(u.email.value) == Lower(w.record.email) ==>
        Some(u.id) == editingUser
  {
    forall u | u in users && Present(u.email) && Lower(u.email.value) == Lower(form.email)
      ensures Some(u.id) == editingUser
    {
      var i :| 0 <= i < |users| && users[i] == u;
      assert !SameEmailElsewhere(form, editingUser)(users[i]);
    }
  }

  /** A few phone numbers against the pattern: a leading `+` is optional, cannot stand alone or
      twice, and letters are refused. */
  lemma PhoneExamples()
    ensures ValidPhone("+1 (2)-3")
    ensures ValidPhone("98")
    ensures !ValidPhone("+")
    ensures !ValidPhone("")
    ensures !ValidPhone("++9")
    ensures !ValidPhone("9x")
  {
    var b := PhoneBody("+1 (2)-3");
    assert b == "1 (2)-3";
    forall i | 0 <= i < |b|
      ensures PhoneChar(b[i])
    {
      assert b[i] == '1' || b[i] == ' ' || b[i] == '(' || b[i] == '2' || b[i] == ')' || b[i] == '-' || b[i] == '3';
    }
    var d := PhoneBody("98");
    assert d == "98" && d[0] == '9' && d[1] == '8';
    assert PhoneBody("++9") == "+9" && !PhoneChar(PhoneBody("++9")[0]);
    assert PhoneBody("9x") == "9x" && !PhoneChar(PhoneBody("9x")[1]);
  }

  /** `handleEditUser`: the form shows the user's fields, with `Cashier` and `Active` for a
      missing role or status, and an empty password. */
  function FormOf(u: User): FormData {
    FormData(
      if Present(u.name) then u.name.value else "",
      if Present(u.email) then u.email.value else "",
      if Present(u.phone) then u.phone.value else "",
      if Present(u.role) then u.role.value else "Cashier",
      if Present(u.status) then u.status.value else "Active",
      "")
  }

  /** `handleToggleUserStatus(user.id, user.status || 'Active')`: the status written back. */
  function ToggledStatus(status: Option<string>): (r: string)
    ensures r == "Active" || r == "Inactive"
    ensures r == "Inactive" <==> !Present(status) || status.value == "Active"
  {
    var current := if Present(status) then status.value else "Active";
    if current == "Active" then "Inactive" else "Active"
  }

  /** Toggling twice gives back `Active` or `Inactive`; any other status becomes `Inactive`. */
  lemma ToggleTwice(status: string)
    requires status != ""
    ensures ToggledStatus(Some(ToggledStatus(Some(status)))) == (if status == "Active" then "Active" else "Inactive")
  {
  }

  /** The state of the form dialog. */
  class StoreUsersForm {
    var formData: FormData
    var editingUser: Option<string>
    var showAddModal: bool

    constructor()
      ensures formData == EmptyForm && editingUser == None && !showAddModal
    {
      formData, editingUser, showAddModal := EmptyForm, None, false;
    }

    /** `handleAddUser`: an empty form for a new user. */
    method HandleAddUser()
      modifies this
      ensures formData == EmptyForm && editingUser == None && showAddModal
    {
      formData := EmptyForm;
      editingUser := None;
      showAddModal := true;
    }

    /** `handleEditUser(user)`: the user's fields, for an update of that user. */
    method HandleEditUser(u: User)
      modifies this
      ensures formData == FormOf(u) && editingUser == Some(u.id) && showAddModal
    {
      formData := FormOf(u);
      editingUser := Some(u.id);
      showAddModal := true;
    }

    /** `handleSubmit`: a form failing a check is refused and left as it is; otherwise the record
        is built and written, and when the write succeeds the dialog closes and the form is
        reset, while a failing write leaves everything as it was. */
    method HandleSubmit(users: seq<User>, storeId: Option<string>, storeName: Option<string>, writeFails: bool)
      returns (error: Option<FormError>, write: Option<Write>)
      modifies this
      ensures error == CheckForm(old(formData), old(editingUser), users)
      ensures error.Some? ==> write == None
      ensures error.None? ==> write == Some(SubmittedWrite(old(formData), old(editingUser), storeId, storeName))
      ensures error.None? && !writeFails ==> formData == EmptyForm && editingUser == None && !showAddModal
      ensures error.Some? || writeFails ==>
        formData == old(formData) && editingUser == old(editingUser) && showAddModal == old(showAddModal)
    {
      error := CheckForm(formData, editingUser, users);
      if error.Some? {
        write := None;
        return;
      }
      var userData := SavedUser(formData.name, formData.email, formData.phone, formData.role, formData.status,
                                Some(formData.password), storeId, storeName);
      if Present(editingUser) {
        if formData.password == "" {
          userData := userData.(password := None);
        }
        write := Some(UpdateUser(editingUser.value, userData));
      } else {
        write := Some(AddUser(userData));
      }
      if !writeFails {
        showAddModal := false;
        formData := EmptyForm;
        editingUser := None;
      }
    }
  }
}
