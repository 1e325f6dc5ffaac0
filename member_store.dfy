/** The admin client's member store (`useMembers`): the member list, the loading flag and
    the status banner, updated by each request's callbacks. The server's answer to a request is
    a parameter, and so is the user's answer to the confirmation dialog. */
module MemberStore {
  import opened Common
  import opened Dto

  function MemberKey(m: MemberResponse): int {
    m.memberId
  }

  class Store {
    var members: seq<MemberResponse>
    var loading: bool
    var message: Message

    constructor()
      ensures members == [] && !loading && message == Blank
    {
      members := [];
      loading := false;
      message := Blank;
    }

    /** `showMessage`: the banner holds the latest message (its timed expiry is not modelled). */
    method ShowMessage(level: Level, notice: Notice)
      modifies this
      ensures message == Shown(level, notice)
      ensures members == old(members) && loading == old(loading)
    {
      message := Shown(level, notice);
    }

    /** `fetchMembers`: the body of any response replaces the list (the status is not
        checked); without a usable response the list stays and an error is shown. */
    method FetchMembers(reply: Reply<seq<MemberResponse>>)
      modifies this
      ensures reply.Answered? ==> members == reply.body && message == old(message)
      ensures reply.NoReply? ==> members == old(members) && message == Shown(Error, ListFailed)
      ensures !loading
    {
      loading := true;
      if reply.Answered? {
        members := reply.body;
        loading := false;
      } else {
        ShowMessage(Error, ListFailed);
        loading := false;
      }
    }

    /** `saveMember`: `Some(saved)` is the promise resolving with the saved member, `None`
        its rejection (rethrown after the error is shown). */
    method SaveMember(editingId: Option<int>, reply: Reply<MemberResponse>) returns (r: Option<MemberResponse>)
      modifies this
      ensures Accepted(reply) ==>
        && r == Some(reply.body)
        && members == Saved(old(members), MemberKey, reply.body, editingId)
        && message == Shown(Success, if Truthy(editingId) then Updated else Created)
      ensures !Accepted(reply) ==> r == None && members == old(members) && message == Shown(Error, SaveFailed)
      ensures !loading
    {
      loading := true;
      if !reply.Answered? || !reply.ok {
        ShowMessage(Error, SaveFailed);
        r := None;
      } else {
        var saved := reply.body;
        if Truthy(editingId) {
          members := ReplaceByKey(members, MemberKey, saved);
        } else {
          members := [saved] + members;
        }
        ShowMessage(Success, if Truthy(editingId) then Updated else Created);
        r := Some(saved);
      }
      loading := false;
    }

    /** `deleteMember`: declined confirmation resolves `false` and touches nothing. */
    method DeleteMember(id: int, confirmed: bool, reply: Reply<()>) returns (deleted: bool)
      modifies this
      ensures !confirmed ==> !deleted && members == old(members) && loading == old(loading) && message == old(message)
      ensures confirmed ==> deleted == Accepted(reply) && !loading
      ensures confirmed && deleted ==>
        members == RemoveByKey(old(members), MemberKey, id) && message == Shown(Success, Deleted)
      ensures confirmed && !deleted ==> members == old(members) && message == Shown(Error, DeleteFailed)
    {
      if !confirmed {
        return false;
      }
      loading := true;
      if reply.Answered? && reply.ok {
        members := RemoveByKey(members, MemberKey, id);
        ShowMessage(Success, Deleted);
        deleted := true;
      } else {
        ShowMessage(Error, DeleteFailed);
        deleted := false;
      }
      loading := false;
    }
  }
}
