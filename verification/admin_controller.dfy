/** controllers/adminController.js: the last-admin guard, activating,
    deactivating, re-roling and deleting a user, and the admin panel's own
    creation of a subadmin. Every route here sits behind requireAuth and
    requireRole('admin'); the handlers are step functions over the users
    collection, and the methods at the end perform them on a UserCollection. */
module AdminController {
  import opened Common
  import opened Crypto
  import opened UserModel
  import opened UserStore
  import opened AuthController

  // ----- ensureNotLastAdmin -----

  /** The guard's verdict: go ahead, or answer with this status and message. */
  datatype Check = Proceed | Refuse(status: nat, message: string)

  const NotFound: string := "User not found"
  const LastAdmin: string := "Cannot modify/delete the last active admin"

  /** 404 for an unknown id; 400 when the target has role admin and at most
      one active admin exists, whether or not the target itself is active;
      otherwise go ahead. */
  function EnsureNotLastAdmin(users: Users, id: UserId): (c: Check)
    ensures id !in users ==> c == Refuse(404, NotFound)
    ensures c == Refuse(400, LastAdmin) <==> id in users && users[id].role == AdminRole && CountActiveAdmins(users) <= 1
    ensures c.Proceed? <==> id in users && (users[id].role != AdminRole || CountActiveAdmins(users) >= 2)
    ensures c.Refuse? ==> c == Refuse(404, NotFound) || c == Refuse(400, LastAdmin)
  {
    if id !in users then Refuse(404, NotFound)
    else if users[id].role == AdminRole && CountActiveAdmins(users) <= 1 then Refuse(400, LastAdmin)
    else Proceed
  }

  /** When the guard lets an action on `id` through, the active admins other
      than `id` are as many as the active admins were, less at most one; and
      if the target is an admin, at least one active admin other than it
      exists. */
  lemma GuardLeavesAnotherAdmin(users: Users, id: UserId)
    requires EnsureNotLastAdmin(users, id).Proceed?
    ensures users[id].role == AdminRole ==> |ActiveAdmins(users) - {id}| >= 1
    ensures HasActiveAdmin(users) ==> |ActiveAdmins(users) - {id}| >= 1
  {
    var s := ActiveAdmins(users);
    if users[id].role == AdminRole {
      assert |s| >= 2;
      assert |s - {id}| >= |s| - 1;
    } else {
      assert id !in s;
      assert s - {id} == s;
      CountPositive(users);
    }
  }

  /** A non-empty set of active admins means some active admin exists. */
  lemma SomeActiveAdmin(users: Users, others: set<UserId>)
    requires others <= ActiveAdmins(users) && |others| >= 1
    ensures HasActiveAdmin(users)
    ensures exists a :: a in others && a in users && IsActiveAdmin(users[a])
  {
    var a :| a in others;
  }

  // ----- activate, deactivate, changeRole, delete -----

  /** The JSON replies of the four handlers, or the guard's (or the role
      check's) refusal. */
  datatype AdminReply =
    | Refused(status: nat, message: string)
    | ActiveSet(id: UserId, isActive: bool)   // { id, isActive }
    | RoleSet(id: UserId, role: Role)         // { id, role }
    | Deleted(id: UserId)                     // { deleted: true, id }

  datatype AdminOutcome = AdminOutcome(users: Users, reply: AdminReply)

  /** findByIdAndUpdate(id, { isActive }) behind the guard. */
  function SetActiveStep(users: Users, id: UserId, active: bool): AdminOutcome {
    match EnsureNotLastAdmin(users, id)
    case Refuse(status, message) => AdminOutcome(users, Refused(status, message))
    case Proceed => AdminOutcome(users[id := users[id].(isActive := active)], ActiveSet(id, active))
  }

  /** PATCH /users/:id/activate */
  function ActivateStep(users: Users, id: UserId): AdminOutcome {
    SetActiveStep(users, id, true)
  }

  /** PATCH /users/:id/deactivate */
  function DeactivateStep(users: Users, id: UserId): AdminOutcome {
    SetActiveStep(users, id, false)
  }

  const InvalidRole: string := "Invalid role. Only user/subadmin allowed here."

  /** The roles changeRole accepts: "user" and "subadmin", never "admin". */
  function AssignableRole(role: Option<string>): (r: Option<Role>)
    ensures r.Some? <==> role == Some("user") || role == Some("subadmin")
    ensures r.Some? ==> r.value != AdminRole && Some(RoleName(r.value)) == role
  {
    if role == Some("user") then Some(UserRole)
    else if role == Some("subadmin") then Some(SubadminRole)
    else None
  }

  /** PATCH /users/:id/role: the role check comes before the guard. */
  function ChangeRoleStep(users: Users, id: UserId, role: Option<string>): AdminOutcome {
    match AssignableRole(role)
    case None => AdminOutcome(users, Refused(400, InvalidRole))
    case Some(r) =>
      match EnsureNotLastAdmin(users, id)
      case Refuse(status, message) => AdminOutcome(users, Refused(status, message))
      case Proceed => AdminOutcome(users[id := users[id].(role := r)], RoleSet(id, r))
  }

  /** DELETE /users/:id */
  function DeleteStep(users: Users, id: UserId): AdminOutcome {
    match EnsureNotLastAdmin(users, id)
    case Refuse(status, message) => AdminOutcome(users, Refused(status, message))
    case Proceed => AdminOutcome(users - {id}, Deleted(id))
  }

  /** Activate and deactivate succeed exactly when the guard lets them
      through; a refusal carries the guard's answer and changes nothing; a
      success changes isActive on the target and nothing else, anywhere. */
  lemma SetActiveEffect(users: Users, id: UserId, active: bool)
    ensures var o := SetActiveStep(users, id, active);
      && (o.reply.ActiveSet? <==> EnsureNotLastAdmin(users, id).Proceed?)
      && (!o.reply.ActiveSet? ==> o.users == users && o.reply == Refused(EnsureNotLastAdmin(users, id).status, EnsureNotLastAdmin(users, id).message))
      && (o.reply.ActiveSet? ==>
            && o.reply == ActiveSet(id, active)
            && o.users.Keys == users.Keys
            && (forall j :: j in users && j != id ==> o.users[j] == users[j])
            && o.users[id].isActive == active
            && o.users[id] == users[id].(isActive := o.users[id].isActive))
  {
  }

  /** A successful deactivate leaves every active admin but the target
      active; so when the target was an admin, another active admin
      remains, and when any active admin existed, one still does. */
  lemma DeactivateKeepsAnAdmin(users: Users, id: UserId)
    ensures var o := DeactivateStep(users, id);
      && (o.reply.ActiveSet? ==> ActiveAdmins(o.users) == ActiveAdmins(users) - {id})
      && (o.reply.ActiveSet? && users[id].role == AdminRole ==>
            exists a :: a != id && a in o.users && IsActiveAdmin(o.users[a]))
      && (HasActiveAdmin(users) ==> HasActiveAdmin(o.users))
  {
    var o := DeactivateStep(users, id);
    if o.reply.ActiveSet? {
      DemoteActiveAdmins(users, id, users[id].(isActive := false));
      GuardLeavesAnotherAdmin(users, id);
      if users[id].role == AdminRole || HasActiveAdmin(users) {
        SomeActiveAdmin(o.users, ActiveAdmins(users) - {id});
      }
    }
  }

  /** A successful activate loses no active admin. */
  lemma ActivateKeepsAdmins(users: Users, id: UserId)
    ensures var o := ActivateStep(users, id);
      && (o.reply.ActiveSet? ==> ActiveAdmins(users) <= ActiveAdmins(o.users))
      && (HasActiveAdmin(users) ==> HasActiveAdmin(o.users))
  {
    var o := ActivateStep(users, id);
    if o.reply.ActiveSet? {
      ActivateKeepsActiveAdmins(users, id, users[id].(isActive := true));
      if HasActiveAdmin(users) {
        var a :| a in users && IsActiveAdmin(users[a]);
        assert a in ActiveAdmins(o.users);
      }
    }
  }

  /** changeRole answers 400 for any role but "user" or "subadmin" before
      looking at the target; otherwise it succeeds exactly when the guard
      lets it through, and then changes the target's role and nothing else. */
  lemma ChangeRoleEffect(users: Users, id: UserId, role: Option<string>)
    ensures var o := ChangeRoleStep(users, id, role);
      && (role != Some("user") && role != Some("subadmin") ==> o == AdminOutcome(users, Refused(400, InvalidRole)))
      && (o.reply.RoleSet? <==> (role == Some("user") || role == Some("subadmin")) && EnsureNotLastAdmin(users, id).Proceed?)
      && (!o.reply.RoleSet? ==> o.users == users)
      && (o.reply.RoleSet? ==>
            && Some(RoleName(o.reply.role)) == role && o.reply.id == id
            && o.users.Keys == users.Keys
            && (forall j :: j in users && j != id ==> o.users[j] == users[j])
            && o.users[id] == users[id].(role := o.reply.role))
  {
  }

  /** changeRole never makes an admin: every admin afterwards was an admin
      before, and a successful change removes the target from the active
      admins while another one remains when the target was an admin. */
  lemma ChangeRoleMakesNoAdmin(users: Users, id: UserId, role: Option<string>)
    ensures var o := ChangeRoleStep(users, id, role);
      && (forall j :: j in o.users && o.users[j].role == AdminRole ==> j in users && users[j].role == AdminRole)
      && ActiveAdmins(o.users) <= ActiveAdmins(users)
      && (o.reply.RoleSet? ==> ActiveAdmins(o.users) == ActiveAdmins(users) - {id})
      && (o.reply.RoleSet? && users[id].role == AdminRole ==>
            exists a :: a != id && a in o.users && IsActiveAdmin(o.users[a]))
      && (HasActiveAdmin(users) ==> HasActiveAdmin(o.users))
  {
    var o := ChangeRoleStep(users, id, role);
    if o.reply.RoleSet? {
      DemoteActiveAdmins(users, id, users[id].(role := o.reply.role));
      GuardLeavesAnotherAdmin(users, id);
      if users[id].role == AdminRole || HasActiveAdmin(users) {
        SomeActiveAdmin(o.users, ActiveAdmins(users) - {id});
      }
    }
  }

  /** Delete succeeds exactly when the guard lets it through, and then
      removes the target, and only the target, reporting its id; the
      active admins lose at most the target, and one remains when the
      target was an admin or any existed. */
  lemma DeleteEffect(users: Users, id: UserId)
    ensures var o := DeleteStep(users, id);
      && (o.reply.Deleted? <==> EnsureNotLastAdmin(users, id).Proceed?)
      && (!o.reply.Deleted? ==> o.users == users)
      && (o.reply.Deleted? ==>
            && o.reply.id == id && id in users
            && o.users.Keys == users.Keys - {id}
            && (forall j :: j in o.users ==> o.users[j] == users[j])
            && ActiveAdmins(o.users) == ActiveAdmins(users) - {id})
      && (o.reply.Deleted? && users[id].role == AdminRole ==>
            exists a :: a != id && a in o.users && IsActiveAdmin(o.users[a]))
      && (HasActiveAdmin(users) ==> HasActiveAdmin(o.users))
  {
    var o := DeleteStep(users, id);
    if o.reply.Deleted? {
      RemoveActiveAdmins(users, id);
      GuardLeavesAnotherAdmin(users, id);
      if users[id].role == AdminRole || HasActiveAdmin(users) {
        SomeActiveAdmin(o.users, ActiveAdmins(users) - {id});
      }
    }
  }

  /** The last active admin can be neither deactivated, re-roled nor
      deleted: each is refused with 400 and the store is left alone. */
  lemma LastAdminProtected(users: Users, id: UserId, role: Option<string>)
    requires ActiveAdmins(users) == {id}
    ensures DeactivateStep(users, id) == AdminOutcome(users, Refused(400, LastAdmin))
    ensures DeleteStep(users, id) == AdminOutcome(users, Refused(400, LastAdmin))
    ensures ChangeRoleStep(users, id, role).users == users
    ensures ChangeRoleStep(users, id, role).reply.Refused?
    ensures ChangeRoleStep(users, id, role).reply.status == 400
  {
    assert id in ActiveAdmins(users);
  }

  // ----- the guard also blocks activation -----

  /** An active admin and a deactivated one. */
  function TwoAdmins(): Users {
    var admin := User("A", "a@k.in", "a", "h", AdminRole, true, true, None, None, [], []);
    map[0 := admin, 1 := admin.(email := "b@k.in", handle := "b", isActive := false)]
  }

  /** As written, activating a deactivated admin while a single admin is
      active is refused with "Cannot modify/delete the last active admin",
      although activation would add an active admin rather than remove one. */
  lemma ActivationBlockedByGuard()
    ensures CountActiveAdmins(TwoAdmins()) == 1
    ensures !TwoAdmins()[1].isActive && TwoAdmins()[1].role == AdminRole
    ensures ActivateStep(TwoAdmins(), 1) == AdminOutcome(TwoAdmins(), Refused(400, LastAdmin))
  {
    var users := TwoAdmins();
    assert ActiveAdmins(users) == {0} by {
      assert 0 in ActiveAdmins(users);
      forall j | j in ActiveAdmins(users) ensures j == 0 {
      }
    }
  }

  /** Activation as the guard's message says it should behave: only a
      missing user is refused, since activating never removes an admin. */
  function ActivateStepCorrected(users: Users, id: UserId): (o: AdminOutcome)
    ensures o.reply == ActiveSet(id, true) <==> id in users
    ensures id in users && users[id].role == AdminRole ==> id in ActiveAdmins(o.users)
  {
    if id !in users then AdminOutcome(users, Refused(404, NotFound))
    else AdminOutcome(users[id := users[id].(isActive := true)], ActiveSet(id, true))
  }

  /** Corrected activation succeeds for every existing user, leaves it
      active with nothing else changed, and never loses an active admin; and
      it answers as the original whenever the guard would have let the
      request through. */
  lemma ActivateCorrectedEffect(users: Users, id: UserId)
    ensures var o := ActivateStepCorrected(users, id);
      && (o.reply == ActiveSet(id, true) <==> id in users)
      && (id !in users ==> o == AdminOutcome(users, Refused(404, NotFound)))
      && (id in users ==>
            && o.users.Keys == users.Keys
            && (forall j :: j in users && j != id ==> o.users[j] == users[j])
            && o.users[id] == users[id].(isActive := true)
            && ActiveAdmins(users) <= ActiveAdmins(o.users)
            && (users[id].role == AdminRole ==> id in ActiveAdmins(o.users)))
      && (EnsureNotLastAdmin(users, id).Proceed? ==> o == ActivateStep(users, id))
  {
    if id in users {
      ActivateKeepsActiveAdmins(users, id, users[id].(isActive := true));
    }
  }

  // ----- createSubadmin (admin panel) -----

  datatype PanelSubadminReply =
    | PanelMissingFields      // 400 All fields are required
    | PanelInUse              // 409 Email or handle already in use
    | PanelCreated(id: UserId, name: string, email: string, handle: string, role: Role, isActive: bool)  // 201
    | PanelFailed             // 500 Failed to create subadmin

  /** The User.create call here: the submitted email and handle as given,
      role subadmin, and no isVerified, which reads as false. */
  function PanelSubadminDoc(f: SignupForm): NewUser
    requires Complete(f)
  {
    NewUser(f.name.value, f.email.value, f.handle.value, f.password.value, SubadminRole, false)
  }

  /** The duplicate lookup compares the submitted email and handle as given. */
  function PanelQuery(f: SignupForm): Query
    requires Complete(f)
  {
    ByEmailOrHandle(f.email.value, f.handle.value)
  }

  function PanelCreateSubadminStep(users: Users, f: SignupForm, newId: UserId, salt: Salt, p: Primitives)
    : Outcome<PanelSubadminReply>
  {
    if !Complete(f) then Outcome(users, PanelMissingFields, None)
    else if FindOne(users, PanelQuery(f)).Some? then Outcome(users, PanelInUse, None)
    else
      match Create(users, PanelSubadminDoc(f), p, salt)
      case Rejected(_) => Outcome(users, PanelFailed, None)
      case Stored(u) => Outcome(users[newId := u], PanelCreated(newId, u.name, u.email, u.handle, u.role, u.isActive), None)
  }

  /** 400 exactly when a field is missing, 409 exactly when an account has
      the submitted email or handle as given, a rejected create (failed
      validation, or a key that only collides once lower-cased and trimmed)
      is 500; all three leave the store alone. A 201 adds exactly one active,
      unverified subadmin under the fresh id, with keys no account had. */
  lemma PanelCreateSubadminOutcome(users: Users, f: SignupForm, newId: UserId, salt: Salt, p: Primitives)
    ensures var o := PanelCreateSubadminStep(users, f, newId, salt, p);
      && (o.reply == PanelMissingFields <==> !Complete(f))
      && (o.reply == PanelInUse <==> Complete(f) && exists id :: id in users && Satisfies(users[id], PanelQuery(f)))
      && (!o.reply.PanelCreated? ==> o.users == users)
      && (o.reply.PanelCreated? ==>
            var u := Created(PanelSubadminDoc(f), p, salt);
            && o.users == users[newId := u]
            && u.role == SubadminRole && u.isActive && !u.isVerified && TokenConsistent(u)
            && !KeyTaken(users, u.email, u.handle)
            && o.reply == PanelCreated(newId, u.name, u.email, u.handle, SubadminRole, true))
  {
    if Complete(f) {
      var q := PanelQuery(f);
      if exists id :: id in users && Satisfies(users[id], q) {
        assert FindOne(users, q).Some?;
      }
      var o := PanelCreateSubadminStep(users, f, newId, salt, p);
      if o.reply.PanelCreated? {
        var doc := PanelSubadminDoc(f);
        var u := Created(doc, p, salt);
        assert Create(users, doc, p, salt) == Stored(u);
        assert o == Outcome(users[newId := u], PanelCreated(newId, u.name, u.email, u.handle, u.role, u.isActive), None);
        assert u.email == NormalizeKey(doc.email) && u.handle == NormalizeKey(doc.handle);
      }
    }
  }

  /** As written, a subadmin created from the admin panel cannot log in:
      with the right password, login answers 403 "Email not verified",
      and no verification mail was ever sent for it. */
  lemma PanelSubadminCannotLogIn(users: Users, f: SignupForm, newId: UserId, salt: Salt, p: Primitives,
                                 jwtExpires: Option<string>)
    requires newId !in users && Complete(f) && BcryptCorrect(p)
    requires ToLower(f.email.value) == f.email.value && IsTrimmed(f.email.value)
    requires forall id :: id in users ==> users[id].handle != f.email.value
    requires PanelCreateSubadminStep(users, f, newId, salt, p).reply.PanelCreated?
    ensures var after := PanelCreateSubadminStep(users, f, newId, salt, p).users;
      LoginStep(after, LoginForm(f.email, f.password), jwtExpires, p) == LoginUnverified
  {
    PanelCreateSubadminOutcome(users, f, newId, salt, p);
    var u := Created(PanelSubadminDoc(f), p, salt);
    var after := users[newId := u];
    var key := f.email.value;
    TrimOfTrimmed(key);
    forall j | j in after && j != newId ensures !Satisfies(after[j], LoginQuery(key)) {
      assert after[j] == users[j];
      assert users[j].email != u.email;
    }
    LoginForAccount(after, newId, LoginForm(f.email, f.password), f.password.value, salt, jwtExpires, p);
  }

  /** The panel's createSubadmin as the auth routes' one does it: keys
      lower-cased for the lookup and the record, and the subadmin verified. */
  function PanelCreateSubadminStepCorrected(users: Users, f: SignupForm, newId: UserId, salt: Salt, p: Primitives)
    : (o: Outcome<PanelSubadminReply>)
    ensures o.reply.PanelCreated? ==> o.reply.role == SubadminRole && newId in o.users && o.users[newId].isVerified
  {
    if !Complete(f) then Outcome(users, PanelMissingFields, None)
    else if FindOne(users, SignupQuery(f)).Some? then Outcome(users, PanelInUse, None)
    else
      var created := Create(users, SubadminDoc(f), p, salt);
      if created.Rejected? then Outcome(users, PanelFailed, None)
      else
        var u := Created(SubadminDoc(f), p, salt);
        assert u.isVerified && u.role == SubadminRole;
        Outcome(users[newId := u], PanelCreated(newId, u.name, u.email, u.handle, u.role, u.isActive), None)
  }

  /** The corrected panel stores exactly what the auth routes' createSubadmin
      stores, and the new subadmin logs in straight away with its password. */
  lemma PanelCorrectedSubadminCanLogIn(users: Users, f: SignupForm, newId: UserId, env: Env, p: Primitives)
    requires newId !in users && Complete(f) && BcryptCorrect(p)
    requires IsTrimmed(ToLower(f.email.value))
    requires forall id :: id in users ==> users[id].handle != ToLower(f.email.value)
    requires PanelCreateSubadminStepCorrected(users, f, newId, env.salt, p).reply.PanelCreated?
    ensures var after := PanelCreateSubadminStepCorrected(users, f, newId, env.salt, p).users;
      && after == CreateSubadminStep(users, f, newId, env, p).users
      && LoginStep(after, LoginForm(f.email, f.password), env.jwtExpires, p).LoginOk?
  {
    assert CreateSubadminStep(users, f, newId, env, p).reply.SubadminCreated?;
    CreatedSubadminCanLogIn(users, f, newId, env, p);
  }

  // ----- the handlers, performed on the users collection -----

  /** The guard, read off the collection. */
  method CheckNotLastAdmin(users: UserCollection, id: UserId) returns (c: Check)
    ensures c == EnsureNotLastAdmin(users.docs, id)
  {
    if id !in users.docs {
      return Refuse(404, NotFound);
    }
    var target := users.docs[id];
    if target.role == AdminRole {
      var adminCount := CountActiveAdmins(users.docs);
      if adminCount <= 1 {
        return Refuse(400, LastAdmin);
      }
    }
    return Proceed;
  }

  /** PATCH /users/:id/activate and /users/:id/deactivate. */
  method SetActive(users: UserCollection, id: UserId, active: bool) returns (reply: AdminReply)
    requires users.Valid()
    modifies users
    ensures users.Valid() && users.nextId == old(users.nextId)
    ensures AdminOutcome(users.docs, reply) == SetActiveStep(old(users.docs), id, active)
  {
    var chk := CheckNotLastAdmin(users, id);
    if chk.Refuse? {
      return Refused(chk.status, chk.message);
    }
    users.Save(id, users.docs[id].(isActive := active));
    return ActiveSet(id, active);
  }

  /** PATCH /users/:id/role */
  method ChangeRole(users: UserCollection, id: UserId, role: Option<string>) returns (reply: AdminReply)
    requires users.Valid()
    modifies users
    ensures users.Valid() && users.nextId == old(users.nextId)
    ensures AdminOutcome(users.docs, reply) == ChangeRoleStep(old(users.docs), id, role)
  {
    if role != Some("user") && role != Some("subadmin") {
      return Refused(400, InvalidRole);
    }
    var chk := CheckNotLastAdmin(users, id);
    if chk.Refuse? {
      return Refused(chk.status, chk.message);
    }
    var r := AssignableRole(role).value;
    users.Save(id, users.docs[id].(role := r));
    return RoleSet(id, r);
  }

  /** DELETE /users/:id */
  method DeleteUser(users: UserCollection, id: UserId) returns (reply: AdminReply)
    requires users.Valid()
    modifies users
    ensures users.Valid() && users.nextId == old(users.nextId)
    ensures AdminOutcome(users.docs, reply) == DeleteStep(old(users.docs), id)
  {
    var chk := CheckNotLastAdmin(users, id);
    if chk.Refuse? {
      return Refused(chk.status, chk.message);
    }
    users.Remove(id);
    return Deleted(id);
  }

  /** PATCH /users/:id/activate with the corrected guard. */
  method ActivateCorrected(users: UserCollection, id: UserId) returns (reply: AdminReply)
    requires users.Valid()
    modifies users
    ensures users.Valid() && users.nextId == old(users.nextId)
    ensures AdminOutcome(users.docs, reply) == ActivateStepCorrected(old(users.docs), id)
  {
    if id !in users.docs {
      return Refused(404, NotFound);
    }
    users.Save(id, users.docs[id].(isActive := true));
    return ActiveSet(id, true);
  }

  /** POST /api/admin/create-subadmin */
  method PanelCreateSubadmin(users: UserCollection, f: SignupForm, salt: Salt, p: Primitives)
    returns (reply: PanelSubadminReply)
    requires users.Valid()
    modifies users
    ensures users.Valid()
    ensures Outcome(users.docs, reply, None) == PanelCreateSubadminStep(old(users.docs), f, old(users.nextId), salt, p)
    ensures users.nextId == if reply.PanelCreated? then old(users.nextId) + 1 else old(users.nextId)
  {
    if !Complete(f) {
      return PanelMissingFields;
    }
    var existing := FindOne(users.docs, ByEmailOrHandle(f.email.value, f.handle.value));
    if existing.Some? {
      return PanelInUse;
    }
    var created := Create(users.docs, PanelSubadminDoc(f), p, salt);
    if created.Rejected? {
      return PanelFailed;
    }
    var sub := created.user;
    var id := users.Insert(sub);
    return PanelCreated(id, sub.name, sub.email, sub.handle, sub.role, sub.isActive);
  }

  /** POST /api/admin/create-subadmin, corrected: lower-cased keys and a verified subadmin. */
  method PanelCreateSubadminCorrected(users: UserCollection, f: SignupForm, salt: Salt, p: Primitives)
    returns (reply: PanelSubadminReply)
    requires users.Valid()
    modifies users
    ensures users.Valid()
    ensures Outcome(users.docs, reply, None) == PanelCreateSubadminStepCorrected(old(users.docs), f, old(users.nextId), salt, p)
    ensures users.nextId == if reply.PanelCreated? then old(users.nextId) + 1 else old(users.nextId)
  {
    if !Complete(f) {
      return PanelMissingFields;
    }
    var existing := FindOne(users.docs, SignupQuery(f));
    if existing.Some? {
      return PanelInUse;
    }
    var created := Create(users.docs, SubadminDoc(f), p, salt);
    if created.Rejected? {
      return PanelFailed;
    }
    var sub := created.user;
    var id := users.Insert(sub);
    return PanelCreated(id, sub.name, sub.email, sub.handle, sub.role, sub.isActive);
  }
}
