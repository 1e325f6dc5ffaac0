/** The member admin page's edit session (`member/AdminMembers.jsx`): which member the form
    edits, and when that is cleared. The form is remounted whenever its key changes. */
module MembersPage {
  import opened Common
  import opened Dto
  import MemberStore

  class Page {
    const store: MemberStore.Store
    var editingId: Option<int>
    var editData: Option<MemberResponse>

    constructor(store: MemberStore.Store)
      ensures this.store == store && editingId == None && editData == None
    {
      this.store := store;
      editingId := None;
      editData := None;
    }

    /** `handleSave`: the session ends only when the save resolves; a rejection keeps it. */
    method HandleSave(reply: Reply<MemberResponse>)
      modifies this, store
      ensures Accepted(reply) ==>
        && editingId == None && editData == None && KeyOf(editingId) == New
        && store.members == Saved(old(store.members), MemberStore.MemberKey, reply.body, old(editingId))
      ensures !Accepted(reply) ==>
        editingId == old(editingId) && editData == old(editData) && store.members == old(store.members)
      ensures !store.loading
    {
      var saved := store.SaveMember(editingId, reply);
      if saved.Some? {
        editingId := None;
        editData := None;
      }
    }

    /** `handleEdit`: the form now edits `member` (the scroll to the top is not modelled). */
    method HandleEdit(member: MemberResponse)
      modifies this
      ensures editingId == Some(member.memberId) && editData == Some(member)
    {
      editingId := Some(member.memberId);
      editData := Some(member);
    }

    /** `handleCancel` */
    method HandleCancel()
      modifies this
      ensures editingId == None && editData == None
    {
      editingId := None;
      editData := None;
    }

    /** `handleDelete`: the edit session is left as it is, even when it edits the deleted id. */
    method HandleDelete(id: int, confirmed: bool, reply: Reply<()>)
      modifies store
      ensures editingId == old(editingId) && editData == old(editData)
      ensures confirmed && Accepted(reply) ==>
        store.members == RemoveByKey(old(store.members), MemberStore.MemberKey, id)
      ensures !(confirmed && Accepted(reply)) ==> store.members == old(store.members)
    {
      var _ := store.DeleteMember(id, confirmed, reply);
    }
  }
}
