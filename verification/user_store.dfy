/** The users collection as the controllers see it through Mongoose:
    findOne, findById, countDocuments and create, over a map from id to record. */
module UserStore {
  import opened Common
  import opened Crypto
  import opened UserModel

  type Users = map<UserId, User>

  /** The filters the controllers pass to User.findOne, compared as given. */
  datatype Query =
    | ByEmailOrHandle(email: string, handle: string)  // { $or: [{ email }, { handle }] }
    | ByEmail(email: string)                          // { email }
    | ByLiveToken(hash: string, now: int)             // { verificationTokenHash, verificationTokenExpires: { $gt: now } }

  predicate Satisfies(u: User, q: Query) {
    match q
    case ByEmailOrHandle(e, h) => u.email == e || u.handle == h
    case ByEmail(e) => u.email == e
    case ByLiveToken(h, now) => HoldsLiveToken(u, h, now)
  }

  function Matching(users: Users, q: Query): set<UserId> {
    set id | id in users && Satisfies(users[id], q)
  }

  /** Descending from any member reaches a least one. */
  lemma {:induction false} LeastFrom(s: set<nat>, x: nat)
    requires x in s
    ensures exists m :: m in s && forall j :: j in s ==> m <= j
    decreases x
  {
    if exists j :: j in s && j < x {
      var j :| j in s && j < x;
      LeastFrom(s, j);
    }
  }

  lemma LeastExists(s: set<nat>)
    requires s != {}
    ensures exists m :: m in s && forall j :: j in s ==> m <= j
  {
    var x :| x in s;
    LeastFrom(s, x);
  }

  /** findOne: a document satisfying the query, or none when there is none.
      Which of several matches is returned is up to the database; the model
      takes the one with the least id. */
  function FindOne(users: Users, q: Query): (r: Option<UserId>)
    ensures r.None? <==> forall id :: id in users ==> !Satisfies(users[id], q)
    ensures r.Some? ==> r.value in users && Satisfies(users[r.value], q)
    ensures r.Some? ==> forall id :: id in users && Satisfies(users[id], q) ==> r.value <= id
  {
    var s := Matching(users, q);
    if s == {} then
      assert forall id :: id in users ==> !Satisfies(users[id], q) by {
        forall id | id in users ensures !Satisfies(users[id], q) {
          assert id !in s;
        }
      }
      None
    else
      LeastExists(s);
      var m :| m in s && forall j :: j in s ==> m <= j;
      assert m in users && Satisfies(users[m], q);
      assert forall id :: id in users && Satisfies(users[id], q) ==> id in s;
      Some(m)
  }

  /** When exactly one document satisfies the query, findOne returns it. */
  lemma FindOneUnique(users: Users, q: Query, id: UserId)
    requires id in users && Satisfies(users[id], q)
    requires forall j :: j in users && j != id ==> !Satisfies(users[j], q)
    ensures FindOne(users, q) == Some(id)
  {
  }

  predicate IsActiveAdmin(u: User) {
    u.role == AdminRole && u.isActive
  }

  function ActiveAdmins(users: Users): set<UserId> {
    set id | id in users && IsActiveAdmin(users[id])
  }

  /** countDocuments({ role: 'admin', isActive: true }) */
  function CountActiveAdmins(users: Users): nat {
    |ActiveAdmins(users)|
  }

  predicate HasActiveAdmin(users: Users) {
    exists id :: id in users && IsActiveAdmin(users[id])
  }

  lemma CountPositive(users: Users)
    ensures CountActiveAdmins(users) >= 1 <==> HasActiveAdmin(users)
  {
    if HasActiveAdmin(users) {
      var id :| id in users && IsActiveAdmin(users[id]);
      assert id in ActiveAdmins(users);
    }
  }

  /** Two or more active admins: whichever one is singled out, another remains. */
  lemma AnotherActiveAdmin(users: Users, id: UserId)
    requires CountActiveAdmins(users) >= 2
    ensures exists a :: a in users && a != id && IsActiveAdmin(users[a])
  {
    var s := ActiveAdmins(users);
    var rest := s - {id};
    assert |rest| >= 1;
    var a :| a in rest;
  }

  /** Rewriting a record without touching its role or isActive leaves the
      set of active admins as it was. */
  lemma UpdateKeepsActiveAdmins(users: Users, id: UserId, u: User)
    requires id in users && u.role == users[id].role && u.isActive == users[id].isActive
    ensures ActiveAdmins(users[id := u]) == ActiveAdmins(users)
  {
    assert forall j :: j in ActiveAdmins(users[id := u]) <==> j in ActiveAdmins(users);
  }

  /** Inserting anything but an active admin leaves the set of active admins as it was. */
  lemma InsertKeepsActiveAdmins(users: Users, id: UserId, u: User)
    requires id !in users && !IsActiveAdmin(u)
    ensures ActiveAdmins(users[id := u]) == ActiveAdmins(users)
  {
    assert forall j :: j in ActiveAdmins(users[id := u]) <==> j in ActiveAdmins(users);
  }

  /** Turning one record into anything but an active admin removes exactly
      that id from the active admins. */
  lemma DemoteActiveAdmins(users: Users, id: UserId, u: User)
    requires id in users && !IsActiveAdmin(u)
    ensures ActiveAdmins(users[id := u]) == ActiveAdmins(users) - {id}
  {
    assert forall j :: j in ActiveAdmins(users[id := u]) <==> j in ActiveAdmins(users) - {id};
  }

  /** Removing a record removes exactly that id from the active admins. */
  lemma RemoveActiveAdmins(users: Users, id: UserId)
    ensures ActiveAdmins(users - {id}) == ActiveAdmins(users) - {id}
  {
    assert forall j :: j in ActiveAdmins(users - {id}) <==> j in ActiveAdmins(users) - {id};
  }

  /** Activating a record without touching its role loses no active admin. */
  lemma ActivateKeepsActiveAdmins(users: Users, id: UserId, u: User)
    requires id in users && u.role == users[id].role && u.isActive
    ensures ActiveAdmins(users) <= ActiveAdmins(users[id := u])
  {
  }

  // ----- create: validation, unique indexes, pre-save hashing -----

  datatype CreateError = ValidationFailed | DuplicateKey

  datatype CreateOutcome = Stored(user: User) | Rejected(error: CreateError)

  /** The unique indexes on email and handle. */
  predicate KeyTaken(users: Users, email: string, handle: string) {
    exists id :: id in users && (users[id].email == email || users[id].handle == handle)
  }

  /** The document create stores when it accepts: setters and defaults
      applied, then the pre-save hook, which hashes the new password. */
  function Created(f: NewUser, p: Primitives, salt: Salt): (u: User)
    ensures u == Instantiate(f).(password := u.password)
    ensures BcryptCorrect(p) ==> forall c :: ComparePassword(u, c, p) <==> c == f.password
  {
    PreSave(Instantiate(f), true, p, salt)
  }

  /** User.create: setters and defaults, then validation, then the unique
      indexes, then the pre-save hook. */
  function Create(users: Users, f: NewUser, p: Primitives, salt: Salt): (r: CreateOutcome)
    ensures r == Rejected(ValidationFailed) <==> !PassesValidation(f)
    ensures r == Rejected(DuplicateKey) <==> PassesValidation(f) && KeyTaken(users, NormalizeKey(f.email), NormalizeKey(f.handle))
    ensures r.Stored? <==> PassesValidation(f) && !KeyTaken(users, NormalizeKey(f.email), NormalizeKey(f.handle))
    ensures r.Stored? ==> r == Stored(Created(f, p, salt))
  {
    var doc := Instantiate(f);
    if !PassesValidation(f) then Rejected(ValidationFailed)
    else if KeyTaken(users, doc.email, doc.handle) then Rejected(DuplicateKey)
    else Stored(PreSave(doc, true, p, salt))
  }

  /** Two writes of the same record: the second one wins. */
  lemma WriteTwice(users: Users, id: UserId, a: User, b: User)
    ensures users[id := a][id := b] == users[id := b]
  {
  }

  // ----- store invariant -----

  /** No two users share an email, and no two share a handle. */
  predicate UniqueKeys(users: Users) {
    forall a, b :: a in users && b in users && a != b ==>
      users[a].email != users[b].email && users[a].handle != users[b].handle
  }

  predicate WellFormed(users: Users) {
    && UniqueKeys(users)
    && forall id :: id in users ==> TokenConsistent(users[id])
  }

  /** Replacing one record by one with the same email and handle and consistent
      token fields keeps the store well formed. */
  lemma UpdateKeepsWellFormed(users: Users, id: UserId, u: User)
    requires WellFormed(users) && id in users
    requires u.email == users[id].email && u.handle == users[id].handle
    requires TokenConsistent(u)
    ensures WellFormed(users[id := u])
  {
  }

  /** Inserting a record whose email and handle are both free, and whose
      token fields are consistent, keeps the store well formed. */
  lemma InsertKeepsWellFormed(users: Users, id: UserId, u: User)
    requires WellFormed(users) && id !in users
    requires !KeyTaken(users, u.email, u.handle) && TokenConsistent(u)
    ensures WellFormed(users[id := u])
  {
    var m := users[id := u];
    forall a, b | a in m && b in m && a != b
      ensures m[a].email != m[b].email && m[a].handle != m[b].handle
    {
      if a == id {
        assert m[b] == users[b];
      } else if b == id {
        assert m[a] == users[a];
      } else {
        assert m[a] == users[a] && m[b] == users[b];
      }
    }
  }

  /** Removing a record keeps the store well formed. */
  lemma RemoveKeepsWellFormed(users: Users, id: UserId)
    requires WellFormed(users)
    ensures WellFormed(users - {id})
  {
  }

  /** The users collection: its documents and the id the next insert gets. */
  class UserCollection {
    var docs: Users
    var nextId: nat

    ghost predicate Valid()
      reads this
    {
      WellFormed(docs) && forall id :: id in docs ==> id < nextId
    }

    constructor ()
      ensures Valid() && docs == map[]
    {
      docs := map[];
      nextId := 0;
    }

    /** insertOne: the document is stored under a fresh id. */
    method Insert(u: User) returns (id: UserId)
      requires Valid()
      requires !KeyTaken(docs, u.email, u.handle) && TokenConsistent(u)
      modifies this
      ensures Valid()
      ensures id == old(nextId) && id !in old(docs)
      ensures docs == old(docs)[id := u] && nextId == old(nextId) + 1
    {
      InsertKeepsWellFormed(docs, nextId, u);
      id := nextId;
      docs := docs[id := u];
      nextId := nextId + 1;
    }

    /** findByIdAndDelete. */
    method Remove(id: UserId)
      requires Valid()
      modifies this
      ensures Valid()
      ensures docs == old(docs) - {id} && nextId == old(nextId)
    {
      RemoveKeepsWellFormed(docs, id);
      docs := docs - {id};
    }

    /** save() of a fetched document whose email and handle were not touched. */
    method Save(id: UserId, u: User)
      requires Valid() && id in docs
      requires u.email == docs[id].email && u.handle == docs[id].handle && TokenConsistent(u)
      modifies this
      ensures Valid()
      ensures docs == old(docs)[id := u] && nextId == old(nextId)
    {
      UpdateKeepsWellFormed(docs, id, u);
      docs := docs[id := u];
    }
  }
}
