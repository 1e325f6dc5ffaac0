/** The member form (`member/MemberForm.jsx`): five text fields, filled from the member being
    edited (never its password) or blank, checked before they are handed to the page. */
module MemberForm {
  import opened Common
  import opened Dto
  import MemberService
  import MemberStore

  datatype Fields = Fields(email: string, password: string, name: string, phone: string, address: string)

  /** `initialForm` */
  const InitialForm: Fields := Fields("", "", "", "", "")

  /** The form an edit starts from: the member's fields, and an empty password. */
  function EditFields(m: MemberResponse): (f: Fields)
    ensures f.password == ""
    ensures f.email == m.email && f.name == m.name && f.phone == m.phone && f.address == m.address
  {
    Fields(m.email, "", m.name, m.phone, m.address)
  }

  /** Which input `change(e)` names. */
  datatype Field = Email | Password | Name | Phone | Address

  function Set(f: Fields, field: Field, value: string): Fields {
    match field
    case Email => f.(email := value)
    case Password => f.(password := value)
    case Name => f.(name := value)
    case Phone => f.(phone := value)
    case Address => f.(address := value)
  }

  /** `validateForm`: email first, then (only when creating) the password, then the name. */
  function Validate(f: Fields, editingId: Option<int>): (r: Option<Notice>)
    ensures r == Some(EmailRequired) <==> IsBlank(f.email)
    ensures r == Some(PasswordRequired) <==> !IsBlank(f.email) && !Truthy(editingId) && IsBlank(f.password)
    ensures r == Some(MemberNameRequired) <==>
      !IsBlank(f.email) && (Truthy(editingId) || !IsBlank(f.password)) && IsBlank(f.name)
    ensures r.None? <==>
      !IsBlank(f.email) && (Truthy(editingId) || !IsBlank(f.password)) && !IsBlank(f.name)
  {
    if IsBlank(f.email) then Some(EmailRequired)
    else if !Truthy(editingId) && IsBlank(f.password) then Some(PasswordRequired)
    else if IsBlank(f.name) then Some(MemberNameRequired)
    else None
  }

  /** The JSON body the store sends: the form as it is, the password as a string. */
  function RequestOf(f: Fields): (req: MemberRequest)
    ensures req.password == Some(f.password)
    ensures req.email == f.email && req.name == f.name && req.phone == f.phone && req.address == f.address
  {
    MemberRequest(f.email, Some(f.password), f.name, f.phone, f.address)
  }

  /** An edit form validates exactly when the member's email and name are not blank; the
      password is not asked for. */
  lemma EditFormValidates(m: MemberResponse, editingId: Option<int>)
    requires Truthy(editingId)
    ensures Validate(EditFields(m), editingId).None? <==> !IsBlank(m.email) && !IsBlank(m.name)
    ensures Validate(EditFields(m), editingId) != Some(PasswordRequired)
  {
  }

  /** Saving an edit form nobody touched leaves the member table as it was: the empty
      password keeps the stored one, and the email is the member's own. */
  lemma UntouchedEditKeepsMember(db: MemberService.Members, id: int)
    requires id in db.rows
    ensures MemberService.Update(db, id, RequestOf(EditFields(MemberService.ToResponse(id, db.rows[id])))) == Ok(db)
  {
    var req := RequestOf(EditFields(MemberService.ToResponse(id, db.rows[id])));
    var m := db.rows[id];
    assert MemberService.NewPassword(m.password, req.password) == m.password;
    assert MemberService.Member(req.email, m.password, req.name, req.phone, req.address) == m;
    assert db.rows[id := m] == db.rows;
  }

  /** A member created from a validated form has a password that is not blank. */
  lemma CreatedPasswordNotBlank(f: Fields)
    requires Validate(f, None).None?
    ensures RequestOf(f).password.Some? && !IsBlank(RequestOf(f).password.value)
  {
  }

  class Editor {
    const store: MemberStore.Store
    const editingId: Option<int>
    var form: Fields

    /** The `useState` initialiser. */
    constructor(store: MemberStore.Store, editingId: Option<int>, editData: Option<MemberResponse>)
      ensures this.store == store && this.editingId == editingId
      ensures form == (if editData.Some? then EditFields(editData.value) else InitialForm)
    {
      this.store := store;
      this.editingId := editingId;
      form := if editData.Some? then EditFields(editData.value) else InitialForm;
    }

    /** `change(e)`: only the named field changes. */
    method Change(field: Field, value: string)
      modifies this
      ensures field == Email ==> form == old(form).(email := value)
      ensures field == Password ==> form == old(form).(password := value)
      ensures field == Name ==> form == old(form).(name := value)
      ensures field == Phone ==> form == old(form).(phone := value)
      ensures field == Address ==> form == old(form).(address := value)
    {
      form := Set(form, field, value);
    }

    /** `handleSubmit`: a failed check shows its error and hands nothing on. */
    method HandleSubmit() returns (r: Option<MemberRequest>)
      modifies store
      ensures Validate(form, editingId).Some? ==>
        r.None? && store.message == Shown(Error, Validate(form, editingId).value)
      ensures Validate(form, editingId).None? ==> r == Some(RequestOf(form)) && store.message == old(store.message)
      ensures store.members == old(store.members) && store.loading == old(store.loading)
    {
      var failure := Validate(form, editingId);
      if failure.Some? {
        store.ShowMessage(Error, failure.value);
        return None;
      }
      r := Some(RequestOf(form));
    }

    /** `handleCancel`: the form is blanked before the page ends the session. */
    method HandleCancel()
      modifies this
      ensures form == InitialForm
    {
      form := InitialForm;
    }
  }
}
