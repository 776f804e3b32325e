/**
 * Properties relating several handlers, or one handler and an invariant of
 * the database.
 */
module Properties {
  import opened Wrappers
  import opened RequestData
  import opened Identifier
  import opened Store
  import opened Search
  import opened Server

  // ---------------------------------------------------------------- login

  /** When a Mentor document matches the identifier, the Mentee collection is never consulted. */
  lemma LoginMentorFirst(db: Db, svc: Services, identifier: string, password: string, f: IdField, mentees: Collection)
    requires Classify(identifier) == Some(f)
    requires Contains(db.mentors, LoginKey(f, identifier))
    ensures Login(db, svc, identifier, password) == Login(db.(mentees := mentees), svc, identifier, password).(db := db)
  {
  }

  /**
   * A successful login answers with the first document (in natural order) of
   * the collection it was found in, and the token's role names that collection:
   * Mentor exactly when some Mentor document matches.
   */
  lemma LoginRoleFromCollection(db: Db, svc: Services, identifier: string, password: string, f: IdField)
    requires Classify(identifier) == Some(f)
    requires Login(db, svc, identifier, password).response.status == 200
    ensures var body := Login(db, svc, identifier, password).response.body;
      var role := if Contains(db.mentors, LoginKey(f, identifier)) then Mentor else Mentee;
      exists i | 0 <= i < |CollectionOf(db, role)| ::
        && body.user == CollectionOf(db, role)[i]
        && KeyMatches(LoginKey(f, identifier), body.user)
        && (forall j | 0 <= j < i :: !KeyMatches(LoginKey(f, identifier), CollectionOf(db, role)[j]))
        && body.auth == svc.sign(body.user.id, role)
  {
    var h := Resolve(db, LoginKey(f, identifier)).value;
    assert h.role == (if Contains(db.mentors, LoginKey(f, identifier)) then Mentor else Mentee);
    assert Login(db, svc, identifier, password).response.body.user == CollectionOf(db, h.role)[h.index];
  }

  /**
   * An unknown identifier and a known identifier with a wrong password get
   * the very same answer, so the response does not reveal which identifiers exist.
   */
  lemma UnknownAndWrongPasswordAlike(
    db: Db, svc: Services,
    unknown: string, anyPassword: string, f: IdField,
    known: string, wrongPassword: string, g: IdField)
    requires Classify(unknown) == Some(f)
    requires !Contains(db.mentors, LoginKey(f, unknown)) && !Contains(db.mentees, LoginKey(f, unknown))
    requires Classify(known) == Some(g)
    requires Resolve(db, LoginKey(g, known)).Some?
    requires !Compare(svc, wrongPassword, RecordAt(db, Resolve(db, LoginKey(g, known)).value).password)
    ensures Login(db, svc, unknown, anyPassword) == Login(db, svc, known, wrongPassword)
    ensures Login(db, svc, unknown, anyPassword).response == InvalidCredentials
  {
  }

  // --------------------------------------------------------- registration

  /** No two documents of `all` share an email or a mobile. */
  predicate DistinctIdentifiers(all: seq<Record>) {
    forall i, j | 0 <= i < j < |all| :: all[i].email != all[j].email && all[i].mobile != all[j].mobile
  }

  /** The email and the mobile of every document are unique across both collections. */
  predicate IdentifiersUnique(db: Db) {
    DistinctIdentifiers(db.mentors + db.mentees)
  }

  lemma ContainsMember(c: Collection, k: Key, r: Record)
    requires r in c && KeyMatches(k, r)
    ensures Contains(c, k)
  {
  }

  /**
   * Registration keeps emails and mobiles unique across both collections:
   * its duplicate check looks in both collections before the one insert.
   */
  lemma RegisterKeepsIdentifiersUnique(db: Db, svc: Services, form: RegisterForm, env: RegisterEnv)
    requires IdentifiersUnique(db)
    ensures IdentifiersUnique(Register(db, svc, form, env).db)
  {
    var s := Register(db, svc, form, env);
    if s.response.status == 201 {
      var rec := s.response.body.user;
      var role := RoleNamed(form.userType.value).value;
      var all := db.mentors + db.mentees;
      var all' := s.db.mentors + s.db.mentees;
      forall r | r in all
        ensures r.email != rec.email && r.mobile != rec.mobile
      {
        if r in db.mentors {
          if r.email == rec.email { ContainsMember(db.mentors, ByEmail(rec.email), r); }
          if r.mobile == rec.mobile { ContainsMember(db.mentors, ByMobile(rec.mobile), r); }
        } else {
          assert r in db.mentees;
          if r.email == rec.email { ContainsMember(db.mentees, ByEmail(rec.email), r); }
          if r.mobile == rec.mobile { ContainsMember(db.mentees, ByMobile(rec.mobile), r); }
        }
      }
      // Both outcomes are `all` with `rec` inserted at one position.
      var p := if role == Mentor then |db.mentors| else |all|;
      if role == Mentor {
        assert all' == db.mentors + [rec] + db.mentees;
      } else {
        assert all' == all + [rec];
      }
      assert all' == all[..p] + [rec] + all[p..];
      forall i, j | 0 <= i < j < |all'|
        ensures all'[i].email != all'[j].email && all'[i].mobile != all'[j].mobile
      {
        PairOfInsert(all, p, rec, i, j);
      }
    }
  }

  /** A helper for RegisterKeepsIdentifiersUnique: two positions of the extended sequence are two positions of `all`, or one of them holds `rec`. */
  lemma PairOfInsert(all: seq<Record>, p: nat, rec: Record, i: int, j: int)
    requires p <= |all|
    requires forall r | r in all :: r.email != rec.email && r.mobile != rec.mobile
    requires DistinctIdentifiers(all)
    requires 0 <= i < j <= |all|
    ensures var all' := all[..p] + [rec] + all[p..];
      all'[i].email != all'[j].email && all'[i].mobile != all'[j].mobile
  {
  }

  /** A delete keeps emails and mobiles unique: it only removes a document. */
  lemma DeleteKeepsIdentifiersUnique(db: Db, id: Id)
    requires IdentifiersUnique(db)
    ensures IdentifiersUnique(DeleteUser(db, id).db)
  {
    var s := DeleteUser(db, id);
    if s.response.status == 200 {
      var r := ActedOn(db, id);
      var i := FindFirst(CollectionOf(db, r), ById(id)).value;
      var all := db.mentors + db.mentees;
      if r == Mentor {
        assert s.db.mentors == RemoveAt(db.mentors, i) && s.db.mentees == db.mentees;
        RemoveInFront(db.mentors, db.mentees, i);
        RemoveKeepsDistinct(all, i);
      } else {
        assert s.db.mentees == RemoveAt(db.mentees, i) && s.db.mentors == db.mentors;
        RemoveBehind(db.mentors, db.mentees, i);
        RemoveKeepsDistinct(all, |db.mentors| + i);
      }
    }
  }

  lemma RemoveInFront(a: seq<Record>, b: seq<Record>, i: nat)
    requires i < |a|
    ensures RemoveAt(a, i) + b == RemoveAt(a + b, i)
  {
    assert (a + b)[..i] == a[..i];
    assert (a + b)[i + 1..] == a[i + 1..] + b;
  }

  lemma RemoveBehind(a: seq<Record>, b: seq<Record>, i: nat)
    requires i < |b|
    ensures a + RemoveAt(b, i) == RemoveAt(a + b, |a| + i)
  {
    assert (a + b)[..|a| + i] == a + b[..i];
    assert (a + b)[|a| + i + 1..] == b[i + 1..];
  }

  lemma RemoveKeepsDistinct(all: seq<Record>, p: nat)
    requires p < |all| && DistinctIdentifiers(all)
    ensures DistinctIdentifiers(RemoveAt(all, p))
  {
    var r := RemoveAt(all, p);
    forall i, j | 0 <= i < j < |r|
      ensures r[i].email != r[j].email && r[i].mobile != r[j].mobile
    {
      var i' := if i < p then i else i + 1;
      var j' := if j < p then j else j + 1;
      assert r[i] == all[i'] && r[j] == all[j'] && i' < j';
    }
  }

  /**
   * Register, then log in with the registered email (when it has the email
   * shape) or mobile (when it is ten digits) and the same password: the
   * login answers 200 with the stored document and a token for the same id and role.
   */
  lemma RegisterThenLogin(db: Db, svc: Services, form: RegisterForm, env: RegisterEnv, identifier: string)
    requires Register(db, svc, form, env).response.status == 201
    requires (identifier == form.email.value && IsEmail(identifier))
          || (identifier == form.mobile.value && IsMobile(identifier))
    ensures var s := Register(db, svc, form, env);
      var l := Login(s.db, svc, identifier, form.password.value);
      && l.response.status == 200
      && l.response.body.user == s.response.body.user
      && l.response.body.auth == svc.sign(s.response.body.user.id, RoleNamed(form.userType.value).value)
  {
    var s := Register(db, svc, form, env);
    var rec := s.response.body.user;
    var role := RoleNamed(form.userType.value).value;
    EmailAndMobileDisjoint(identifier);
    var f := Classify(identifier).value;
    var k := LoginKey(f, identifier);
    assert KeyMatches(k, rec);
    assert !Contains(db.mentors, k) && !Contains(db.mentees, k);
    var c := CollectionOf(db, role);
    assert CollectionOf(s.db, role) == c + [rec];
    assert KeyMatches(k, CollectionOf(s.db, role)[|c|]);
    var h := Resolve(s.db, k).value;
    assert h.role == role;
    assert h.index == |c|;
  }

  /** The stored password is the hash, never the plaintext, for a hash without fixed points. */
  lemma RegisterNeverStoresPlaintext(db: Db, svc: Services, form: RegisterForm, env: RegisterEnv)
    requires forall p :: svc.hash(p) != p
    requires Register(db, svc, form, env).response.status == 201
    ensures Register(db, svc, form, env).response.body.user.password != form.password.value
  {
  }

  // ------------------------------------------------------ delete and update

  /** After a successful delete the collection it acted on no longer holds the id. */
  lemma DeleteRemovesId(db: Db, id: Id)
    requires Inv(db)
    requires DeleteUser(db, id).response.status == 200
    ensures var s := DeleteUser(db, id);
      if Contains(db.mentors, ById(id)) then !Contains(s.db.mentors, ById(id)) && s.db.mentees == db.mentees
      else !Contains(s.db.mentees, ById(id)) && s.db.mentors == db.mentors
  {
    var s := DeleteUser(db, id);
    var r := ActedOn(db, id);
    var i := FindFirst(CollectionOf(db, r), ById(id)).value;
    assert CollectionOf(s.db, r) == RemoveAt(CollectionOf(db, r), i);
    RemoveAtKeepsUniqueIds(CollectionOf(db, r), i);
  }

  /** With ids not shared between the collections, deleting the same id twice answers 404 the second time. */
  lemma DeleteTwiceNotFound(db: Db, id: Id)
    requires Inv(db)
    requires !(Contains(db.mentors, ById(id)) && Contains(db.mentees, ById(id)))
    ensures DeleteUser(DeleteUser(db, id).db, id).response == UserNotFound
  {
    var s := DeleteUser(db, id);
    if s.response.status == 200 {
      DeleteRemovesId(db, id);
      assert !Contains(s.db.mentors, ById(id)) && !Contains(s.db.mentees, ById(id));
    }
  }

  /**
   * The update handler stores a patched password as given, without hashing
   * it, so bcrypt's compare with that same password then fails.
   */
  lemma UpdateStoresPasswordVerbatim(db: Db, svc: Services, id: Id, patch: Patch)
    requires patch.password.Some?
    requires svc.hash(patch.password.value) != patch.password.value
    requires UpdateUser(db, id, patch).response.status == 200
    ensures var u := UpdateUser(db, id, patch).response.body.record;
      u.password == patch.password.value && !Compare(svc, patch.password.value, u.password)
  {
  }

  /** Two collections with the same ids at the same positions have the same first position for every id. */
  lemma FindFirstSameIds(c: Collection, c': Collection, id: Id)
    requires |c| == |c'|
    requires forall k | 0 <= k < |c| :: c[k].id == c'[k].id
    ensures FindFirst(c, ById(id)) == FindFirst(c', ById(id))
  {
  }

  /** Sending the same update request twice has the effect of sending it once. */
  lemma UpdateTwiceSameAsOnce(db: Db, id: Id, patch: Patch)
    ensures var s := UpdateUser(db, id, patch);
      UpdateUser(s.db, id, patch) == s
  {
    var s := UpdateUser(db, id, patch);
    if s.response.status == 200 {
      var r := ActedOn(db, id);
      var c := CollectionOf(db, r);
      var i := FindFirst(c, ById(id)).value;
      var u := ApplyPatch(c[i], patch);
      assert CollectionOf(s.db, r) == c[i := u];
      assert CollectionOf(s.db, r.Other()) == CollectionOf(db, r.Other());
      FindFirstSameIds(db.mentors, s.db.mentors, id);
      FindFirstSameIds(db.mentees, s.db.mentees, id);
      assert ActedOn(s.db, id) == r;
      PatchIdempotent(c[i], patch);
      var s2 := UpdateUser(s.db, id, patch);
      assert s2.response == s.response;
      assert c[i := u][i := u] == c[i := u];
      assert CollectionOf(s2.db, r) == CollectionOf(s.db, r);
      assert CollectionOf(s2.db, r.Other()) == CollectionOf(s.db, r.Other());
      assert s2.db.mentors == s.db.mentors && s2.db.mentees == s.db.mentees;
    }
  }

  /** The update handler does not re-check uniqueness: a patch can give a document another document's email. */
  lemma UpdateCanDuplicateEmail()
    ensures exists db: Db, id: Id, patch: Patch ::
      IdentifiersUnique(db) && !IdentifiersUnique(UpdateUser(db, id, patch).db)
  {
    var a := Record("1", "A", "a@x.com", "1111111111", "h", "go", "mentor", None, None, "u");
    var b := Record("2", "B", "b@x.com", "2222222222", "h", "go", "mentee", None, None, "u");
    var db := Db([a], [b]);
    var patch := Patch(None, Some("a@x.com"), None, None, None, None, None, None, None);
    var s := UpdateUser(db, "2", patch);
    assert s.db.mentees[0].email == "a@x.com";
    assert (s.db.mentors + s.db.mentees)[0].email == (s.db.mentors + s.db.mentees)[1].email;
  }

  // -------------------------------------------------------------- search

  /** A search without any truthy parameter answers the whole collection, as the list-all route does. */
  lemma SearchWithoutParamsListsAll(db: Db, role: Role, q: Query)
    requires !Truthy(q.id) && !Truthy(q.skill) && !Truthy(q.name) && !Truthy(q.email)
    ensures FindUsers(db, role, q) == AllUsers(db, role)
  {
  }

  // ------------------------------------------------------------ the server

  /** Every handler keeps the per-collection `_id` index. */
  lemma HandleKeepsInv(db: Db, svc: Services, req: Request)
    requires Inv(db)
    ensures Inv(Handle(db, svc, req).db)
  {
    match req
    case RegisterRequest(form, env) =>
      var s := Register(db, svc, form, env);
      if s.response.status == 201 {
        var role := RoleNamed(form.userType.value).value;
        AppendKeepsUniqueIds(CollectionOf(db, role), s.response.body.user);
      }
    case DeleteRequest(id) =>
      if DeleteUser(db, id).response.status == 200 {
        var h := Resolve(db, ById(id)).value;
        RemoveAtKeepsUniqueIds(CollectionOf(db, h.role), h.index);
      }
    case UpdateRequest(id, patch) =>
      if UpdateUser(db, id, patch).response.status == 200 {
        var h := Resolve(db, ById(id)).value;
        UpdateAtKeepsUniqueIds(CollectionOf(db, h.role), h.index, patch);
      }
    case _ =>
  }

  /**
   * Every request except an update keeps emails and mobiles unique across
   * both collections; `UpdateCanDuplicateEmail` shows the update does not.
   */
  lemma HandleKeepsIdentifiersUnique(db: Db, svc: Services, req: Request)
    requires IdentifiersUnique(db)
    requires !req.UpdateRequest?
    ensures IdentifiersUnique(Handle(db, svc, req).db)
  {
    match req
    case RegisterRequest(form, env) => RegisterKeepsIdentifiersUnique(db, svc, form, env);
    case DeleteRequest(id) => DeleteKeepsIdentifiersUnique(db, id);
    case _ =>
  }

  lemma AppendKeepsUniqueIds(c: Collection, rec: Record)
    requires UniqueIds(c) && !Contains(c, ById(rec.id))
    ensures UniqueIds(c + [rec])
  {
  }
}
