/** The member service over the member table. `Create`, `Update` and `Delete` state what one
    transactional call leaves behind (`Err` leaves the table as it was); the class `Service`
    performs the calls the way the Java code does, setter by setter. */
module MemberService {
  import opened Common
  import opened Dto

  /** A member row; the password is kept as submitted (null when none was sent). */
  datatype Member = Member(email: string, password: Option<string>, name: string, phone: string, address: string)

  datatype Members = Members(rows: map<int, Member>, nextId: int)

  /** `memberRepository.existsByEmail(email)` */
  predicate ExistsByEmail(rows: map<int, Member>, email: string) {
    exists id :: id in rows && rows[id].email == email
  }

  /** No two members share an email: what the service's checks maintain. */
  ghost predicate EmailsUnique(rows: map<int, Member>) {
    forall a, b :: a in rows && b in rows && a != b ==> rows[a].email != rows[b].email
  }

  /** Every id handed out so far is below the counter. */
  ghost predicate Valid(db: Members) {
    && EmailsUnique(db.rows)
    && forall id :: id in db.rows ==> id < db.nextId
  }

  /** `toResponse(member)`: everything but the password. */
  function ToResponse(id: int, m: Member): (r: MemberResponse)
    ensures r.memberId == id && r.email == m.email && r.name == m.name
    ensures r.phone == m.phone && r.address == m.address
  {
    MemberResponse(id, m.email, m.name, m.phone, m.address)
  }

  /** The response never depends on the password. */
  lemma ResponseHidesPassword(id: int, m: Member, password: Option<string>)
    ensures ToResponse(id, m.(password := password)) == ToResponse(id, m)
  {
  }

  // ---------------------------------------------------------------------------------------
  // What a call does

  /** `createMember`: the request's fields, stored under the next id. */
  function Create(db: Members, req: MemberRequest): (r: Result<(Members, int)>)
    ensures ExistsByEmail(db.rows, req.email) <==> r == Err(DuplicateEmail)
    ensures r.Ok? ==> r.value.1 == db.nextId && r.value.0.nextId == db.nextId + 1
    ensures r.Ok? ==> r.value.0.rows == db.rows[db.nextId := Member(req.email, req.password, req.name, req.phone, req.address)]
  {
    if ExistsByEmail(db.rows, req.email) then Err(DuplicateEmail)
    else
      var m := Member(req.email, req.password, req.name, req.phone, req.address);
      Ok((Members(db.rows[db.nextId := m], db.nextId + 1), db.nextId))
  }

  /** The password after an update: a non-empty submitted one replaces it. */
  function NewPassword(cur: Option<string>, submitted: Option<string>): (p: Option<string>)
    ensures submitted.Some? && submitted.value != "" ==> p == submitted
    ensures submitted.None? || submitted.value == "" ==> p == cur
  {
    if submitted.Some? && submitted.value != "" then submitted else cur
  }

  /** `updateMember` */
  function Update(db: Members, id: int, req: MemberRequest): (r: Result<Members>)
    ensures id !in db.rows ==> r == Err(NotFound)
    // the email is rejected only when it changes to one some member already has
    ensures id in db.rows ==>
      (r == Err(DuplicateEmail) <==> db.rows[id].email != req.email && ExistsByEmail(db.rows, req.email))
    ensures r.Ok? ==> r.value.nextId == db.nextId && r.value.rows.Keys == db.rows.Keys
    // every other member is left alone
    ensures r.Ok? ==> forall other :: other in db.rows && other != id ==> r.value.rows[other] == db.rows[other]
    // name, phone, address and email are overwritten; the password only by a non-empty one
    ensures r.Ok? ==>
      var m := r.value.rows[id];
      && m.email == req.email && m.name == req.name && m.phone == req.phone && m.address == req.address
      && m.password == NewPassword(db.rows[id].password, req.password)
  {
    if id !in db.rows then Err(NotFound)
    else
      var m := db.rows[id];
      if m.email != req.email && ExistsByEmail(db.rows, req.email) then Err(DuplicateEmail)
      else
        var updated := Member(req.email, NewPassword(m.password, req.password), req.name, req.phone, req.address);
        Ok(db.(rows := db.rows[id := updated]))
  }

  /** `deleteMember` */
  function Delete(db: Members, id: int): (r: Result<Members>)
    ensures id !in db.rows <==> r == Err(NotFound)
    ensures r.Ok? ==> r.value.rows == db.rows - {id} && r.value.nextId == db.nextId
  {
    if id !in db.rows then Err(NotFound)
    else Ok(db.(rows := db.rows - {id}))
  }

  /** `getMember` */
  function Get(db: Members, id: int): (r: Result<MemberResponse>)
    ensures id !in db.rows <==> r == Err(NotFound)
    ensures r.Ok? ==> r.value == ToResponse(id, db.rows[id])
  {
    if id !in db.rows then Err(NotFound) else Ok(ToResponse(id, db.rows[id]))
  }

  // ---------------------------------------------------------------------------------------
  // The email checks keep emails unique

  lemma {:induction false} CreateKeepsValid(db: Members, req: MemberRequest)
    requires Valid(db) && Create(db, req).Ok?
    ensures Valid(Create(db, req).value.0)
  {
    var t := Create(db, req).value.0;
    forall a, b | a in t.rows && b in t.rows && a != b ensures t.rows[a].email != t.rows[b].email {
      if a == db.nextId {
        assert b in db.rows;
      } else if b == db.nextId {
        assert a in db.rows;
      }
    }
  }

  lemma {:induction false} UpdateKeepsValid(db: Members, id: int, req: MemberRequest)
    requires Valid(db) && Update(db, id, req).Ok?
    ensures Valid(Update(db, id, req).value)
  {
    var t := Update(db, id, req).value;
    forall a, b | a in t.rows && b in t.rows && a != b ensures t.rows[a].email != t.rows[b].email {
      if a == id && db.rows[id].email != req.email {
        assert !ExistsByEmail(db.rows, req.email);
        assert db.rows[b].email != req.email;
      } else if b == id && db.rows[id].email != req.email {
        assert !ExistsByEmail(db.rows, req.email);
        assert db.rows[a].email != req.email;
      }
    }
  }

  /** With unique emails, keeping one's own email never clashes and taking another member's
      always does. */
  lemma UpdateEmailClash(db: Members, id: int, other: int, req: MemberRequest)
    requires Valid(db) && id in db.rows && other in db.rows && other != id
    ensures req.email == db.rows[id].email ==> Update(db, id, req).Ok?
    ensures req.email == db.rows[other].email ==> Update(db, id, req) == Err(DuplicateEmail)
  {
    assert db.rows[id].email != db.rows[other].email;
  }

  // ---------------------------------------------------------------------------------------
  // The service, call by call

  /** The service over its table. `@Transactional`: a call that throws leaves it as it was. */
  class Service {
    var db: Members

    constructor(members: Members)
      ensures db == members
    {
      db := members;
    }

    method CreateMember(req: MemberRequest) returns (r: Result<MemberResponse>)
      modifies this
      ensures Create(old(db), req).Err? ==> db == old(db) && r == Err(Create(old(db), req).error)
      ensures Create(old(db), req).Ok? ==>
        db == Create(old(db), req).value.0 && r == Ok(ToResponse(old(db).nextId, db.rows[old(db).nextId]))
      ensures Valid(old(db)) ==> Valid(db)
    {
      if ExistsByEmail(db.rows, req.email) {
        return Err(DuplicateEmail);
      }
      var member := Member(req.email, req.password, req.name, req.phone, req.address);
      var id := db.nextId;
      ghost var before := db;
      db := Members(db.rows[id := member], id + 1);
      if Valid(before) {
        CreateKeepsValid(before, req);
      }
      r := Ok(ToResponse(id, member));
    }

    method UpdateMember(id: int, req: MemberRequest) returns (r: Result<MemberResponse>)
      modifies this
      ensures Update(old(db), id, req).Err? ==> db == old(db) && r == Err(Update(old(db), id, req).error)
      ensures Update(old(db), id, req).Ok? ==>
        db == Update(old(db), id, req).value && r == Ok(ToResponse(id, db.rows[id]))
      ensures Valid(old(db)) ==> Valid(db)
    {
      if id !in db.rows {
        return Err(NotFound);
      }
      var member := db.rows[id];
      if member.email != req.email && ExistsByEmail(db.rows, req.email) {
        return Err(DuplicateEmail);
      }
      member := member.(email := req.email);
      if req.password.Some? && req.password.value != "" {
        member := member.(password := req.password);
      }
      member := member.(name := req.name);
      member := member.(phone := req.phone);
      member := member.(address := req.address);
      ghost var before := db;
      db := db.(rows := db.rows[id := member]);
      if Valid(before) {
        UpdateKeepsValid(before, id, req);
      }
      r := Ok(ToResponse(id, member));
    }

    method DeleteMember(id: int) returns (r: Result<()>)
      modifies this
      ensures Delete(old(db), id).Err? ==> db == old(db) && r == Err(NotFound)
      ensures Delete(old(db), id).Ok? ==> db == Delete(old(db), id).value && r == Ok(())
      ensures Valid(old(db)) ==> Valid(db)
    {
      if id !in db.rows {
        return Err(NotFound);
      }
      db := db.(rows := db.rows - {id});
      r := Ok(());
    }

    method GetMember(id: int) returns (r: Result<MemberResponse>)
      ensures r == Get(db, id)
    {
      if id !in db.rows {
        return Err(NotFound);
      }
      r := Ok(ToResponse(id, db.rows[id]));
    }
  }
}
