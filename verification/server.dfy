/**
 * The request handlers of the MentorMatch server as pure functions from the
 * database state and a request to a response and the next database state.
 * The external services (password hashing, token signing, the photo host)
 * are parameters.
 */
module Server {
  import opened Wrappers
  import opened RequestData
  import opened Identifier
  import opened Store
  import opened Search

  /** Which of the two collections a document lives in; also the `type` claim of a token. */
  datatype Role = Mentor | Mentee {
    function Other(): Role {
      if this == Mentor then Mentee else Mentor
    }
  }

  /** The two disjoint collections. */
  datatype Db = Db(mentors: Collection, mentees: Collection)

  function CollectionOf(db: Db, role: Role): Collection {
    if role == Mentor then db.mentors else db.mentees
  }

  /** `db` with the collection of `role` replaced by `c`; the other collection is kept. */
  function WithCollection(db: Db, role: Role, c: Collection): (d: Db)
    ensures CollectionOf(d, role) == c
    ensures CollectionOf(d, role.Other()) == CollectionOf(db, role.Other())
  {
    if role == Mentor then db.(mentors := c) else db.(mentees := c)
  }

  /** The per-collection `_id` index holds in both collections. */
  predicate Inv(db: Db) {
    UniqueIds(db.mentors) && UniqueIds(db.mentees)
  }

  type Token = string
  type Url = string

  /**
   * The library calls the handlers make: bcrypt's `hash(password, 9)` and
   * `jwt.sign({ id, type }, key, { expiresIn: '26h' })`, as functions.
   */
  datatype Services = Services(hash: string -> string, sign: (Id, Role) -> Token)

  /** bcrypt's `compare(plain, hashed)`. */
  predicate Compare(svc: Services, plain: string, hashed: string) {
    hashed == svc.hash(plain)
  }

  /** The JSON bodies the handlers send. */
  datatype Body =
    | MessageBody(message: string)
    | ErrorBody(error: string)
    | MissingFieldsBody(error: string, submitted: RegisterForm)
    | AuthBody(user: Record, auth: Token)
    | RecordBody(record: Record)
    | ListBody(records: seq<Record>)

  datatype Response = Response(status: int, body: Body)

  /** A handler's answer together with the database state it leaves. */
  datatype Step = Step(response: Response, db: Db)

  /** Where a two-collection lookup landed: the collection and the position in it. */
  datatype Hit = Hit(role: Role, index: nat)

  predicate ValidHit(db: Db, h: Hit) {
    h.index < |CollectionOf(db, h.role)|
  }

  function RecordAt(db: Db, h: Hit): Record
    requires ValidHit(db, h)
  {
    CollectionOf(db, h.role)[h.index]
  }

  /**
   * The Mentor-first fallback used by login, delete and update: the first
   * Mentor document matching `k`, and only when there is none, the first
   * Mentee document matching it.
   */
  function Resolve(db: Db, k: Key): (h: Option<Hit>)
    ensures h.None? <==> !Contains(db.mentors, k) && !Contains(db.mentees, k)
    ensures h.Some? ==> ValidHit(db, h.value) && KeyMatches(k, RecordAt(db, h.value))
    ensures h.Some? ==> (h.value.role == Mentor <==> Contains(db.mentors, k))
    ensures h.Some? ==> forall j | 0 <= j < h.value.index :: !KeyMatches(k, CollectionOf(db, h.value.role)[j])
  {
    match FindFirst(db.mentors, k)
    case Some(i) => Some(Hit(Mentor, i))
    case None =>
      match FindFirst(db.mentees, k)
      case Some(i) => Some(Hit(Mentee, i))
      case None => None
  }

  /** The filter `{ [fieldName]: identifier }` of the login lookup. */
  function LoginKey(f: IdField, identifier: string): Key {
    match f
    case EmailField => ByEmail(identifier)
    case MobileField => ByMobile(identifier)
  }

  const InvalidIdentifier := Response(400, ErrorBody("Invalid identifier format"))
  const InvalidCredentials := Response(401, ErrorBody("Invalid credentials"))

  /** `POST /login`. */
  function Login(db: Db, svc: Services, identifier: string, password: string): (s: Step)
    ensures s.db == db
    ensures Classify(identifier).Some? && Resolve(db, LoginKey(Classify(identifier).value, identifier)).Some? ==>
      var user := RecordAt(db, Resolve(db, LoginKey(Classify(identifier).value, identifier)).value);
      var role := Resolve(db, LoginKey(Classify(identifier).value, identifier)).value.role;
      s.response == (if Compare(svc, password, user.password)
                     then Response(200, AuthBody(user, svc.sign(user.id, role)))
                     else InvalidCredentials)
    ensures Classify(identifier).Some? && Resolve(db, LoginKey(Classify(identifier).value, identifier)).None? ==>
      s.response == InvalidCredentials
    ensures s.response.status in {200, 400, 401}
    ensures s.response.status == 400 <==> !IsEmail(identifier) && !IsMobile(identifier)
    ensures s.response.status == 400 ==> s.response == InvalidIdentifier
    ensures s.response.status == 401 ==> s.response == InvalidCredentials
    ensures s.response.status == 200 ==>
      && s.response.body.AuthBody?
      && Compare(svc, password, s.response.body.user.password)
      && (exists r | r in [Mentor, Mentee] ::
            s.response.body.user in CollectionOf(db, r) && s.response.body.auth == svc.sign(s.response.body.user.id, r))
  {
    match Classify(identifier)
    case None => Step(InvalidIdentifier, db)
    case Some(f) =>
      match Resolve(db, LoginKey(f, identifier))
      case None => Step(InvalidCredentials, db)
      case Some(h) =>
        var user := RecordAt(db, h);
        if !Compare(svc, password, user.password) then Step(InvalidCredentials, db)
        else Step(Response(200, AuthBody(user, svc.sign(user.id, h.role))), db)
  }

  /** The mimetypes accepted for the profile photo. */
  const ValidImageTypes: set<string> := {"image/jpeg", "image/png", "image/gif"}

  /** None of type, name, email, mobile, password and skills is falsy. */
  predicate RequiredPresent(form: RegisterForm) {
    && Truthy(form.userType) && Truthy(form.name) && Truthy(form.email)
    && Truthy(form.mobile) && Truthy(form.password) && Truthy(form.skills)
  }

  /** Some document of either collection already has this email, or this mobile. */
  predicate Taken(db: Db, email: string, mobile: string) {
    || Contains(db.mentors, ByEmail(email)) || Contains(db.mentees, ByEmail(email))
    || Contains(db.mentors, ByMobile(mobile)) || Contains(db.mentees, ByMobile(mobile))
  }

  /** The collection named by the `type` field. */
  function RoleNamed(t: string): (r: Option<Role>)
    ensures r == Some(Mentor) <==> t == "mentor"
    ensures r == Some(Mentee) <==> t == "mentee"
  {
    if t == "mentor" then Some(Mentor)
    else if t == "mentee" then Some(Mentee)
    else None
  }

  /**
   * Every check of the registration handler passes, in no particular order:
   * an image photo, all required fields, no identifier already taken, a known type.
   */
  predicate Acceptable(db: Db, form: RegisterForm) {
    && form.photo.Some? && form.photo.value.mimetype in ValidImageTypes
    && RequiredPresent(form)
    && !Taken(db, form.email.value, form.mobile.value)
    && RoleNamed(form.userType.value).Some?
  }

  /**
   * What the environment answers during one registration: the photo host's
   * `secure_url` (or a failed upload) and the `_id` the driver assigns.
   */
  datatype RegisterEnv = RegisterEnv(upload: Option<Url>, freshId: Id)

  /** The document built from an accepted form. */
  function NewRecord(form: RegisterForm, svc: Services, url: Url, id: Id): Record
    requires RequiredPresent(form)
  {
    var t := form.userType.value;
    Record(
      id := id,
      name := form.name.value,
      email := form.email.value,
      mobile := form.mobile.value,
      password := svc.hash(form.password.value),
      skills := form.skills.value,
      userType := t,
      experience := if t == "mentor" then form.experience else None,
      availability := if t == "mentor" then form.availability else None,
      photo := url)
  }

  /** The document stored by a successful registration reflects the form: hashed password, mentor-only fields. */
  predicate StoredFrom(rec: Record, form: RegisterForm, svc: Services, env: RegisterEnv)
    requires RequiredPresent(form)
  {
    && rec.id == env.freshId
    && rec.name == form.name.value && rec.email == form.email.value
    && rec.mobile == form.mobile.value && rec.skills == form.skills.value
    && rec.userType == form.userType.value
    && rec.password == svc.hash(form.password.value)
    && env.upload.Some? && rec.photo == env.upload.value
    && (rec.userType == "mentor" ==> rec.experience == form.experience && rec.availability == form.availability)
    && (rec.userType != "mentor" ==> rec.experience.None? && rec.availability.None?)
  }

  /** `after` is `before` with `rec` appended to the collection of `role` and nothing else changed. */
  predicate Appended(before: Db, after: Db, role: Role, rec: Record) {
    && CollectionOf(after, role) == CollectionOf(before, role) + [rec]
    && CollectionOf(after, role.Other()) == CollectionOf(before, role.Other())
  }

  const NoPhoto := Response(400, MessageBody("No photo uploaded"))
  const NotAnImage := Response(400, MessageBody("Uploaded file is not a valid image"))
  const AlreadyRegistered := Response(400, ErrorBody("Email or Mobile is already registered"))
  const InvalidUserType := Response(400, ErrorBody("Invalid user type"))
  const InternalError := Response(500, ErrorBody("Internal server error"))

  function MissingFields(form: RegisterForm): Response {
    Response(400, MissingFieldsBody("All fields are required, including photo", form))
  }

  /**
   * `POST /register`. A failed upload, and a save refused by the `_id`
   * index after the upload (leaving the photo orphaned), answer 500.
   */
  function Register(db: Db, svc: Services, form: RegisterForm, env: RegisterEnv): (s: Step)
    ensures s.response.status in {201, 400, 500}
    ensures s.response.status != 201 ==> s.db == db
    ensures form.photo.None? ==> s.response == NoPhoto
    ensures form.photo.Some? && form.photo.value.mimetype !in ValidImageTypes ==> s.response == NotAnImage
    ensures form.photo.Some? && form.photo.value.mimetype in ValidImageTypes && !RequiredPresent(form) ==>
      s.response == MissingFields(form)
    ensures (form.photo.Some? && form.photo.value.mimetype in ValidImageTypes && RequiredPresent(form)
             && Taken(db, form.email.value, form.mobile.value)) ==> s.response == AlreadyRegistered
    ensures (form.photo.Some? && form.photo.value.mimetype in ValidImageTypes && RequiredPresent(form)
             && !Taken(db, form.email.value, form.mobile.value) && RoleNamed(form.userType.value).None?)
            ==> s.response == InvalidUserType
    ensures s.response.status == 500 ==> s.response == InternalError
    ensures s.response.status == 400 <==> !Acceptable(db, form)
    ensures s.response.status == 201 <==>
      Acceptable(db, form) && env.upload.Some?
      && !Contains(CollectionOf(db, RoleNamed(form.userType.value).value), ById(env.freshId))
    ensures s.response.status == 201 ==>
      && Acceptable(db, form)
      && s.response.body.AuthBody?
      && var role := RoleNamed(form.userType.value).value;
      && var rec := s.response.body.user;
      && StoredFrom(rec, form, svc, env)
      && Appended(db, s.db, role, rec)
      && s.response.body.auth == svc.sign(rec.id, role)
  {
    if form.photo.None? then Step(NoPhoto, db)
    else if form.photo.value.mimetype !in ValidImageTypes then Step(NotAnImage, db)
    else if !RequiredPresent(form) then Step(MissingFields(form), db)
    else if Taken(db, form.email.value, form.mobile.value) then Step(AlreadyRegistered, db)
    else match RoleNamed(form.userType.value)
      case None => Step(InvalidUserType, db)
      case Some(role) =>
        match env.upload
        case None => Step(InternalError, db)
        case Some(url) =>
          var target := CollectionOf(db, role);
          if Contains(target, ById(env.freshId)) then Step(InternalError, db)
          else
            var rec := NewRecord(form, svc, url, env.freshId);
            Step(Response(201, AuthBody(rec, svc.sign(rec.id, role))), WithCollection(db, role, target + [rec]))
  }

  const UserNotFound := Response(404, ErrorBody("User not found"))

  /** The collection the by-id handlers act on: Mentor whenever it holds the id, Mentee otherwise. */
  function ActedOn(db: Db, id: Id): Role {
    if Contains(db.mentors, ById(id)) then Mentor else Mentee
  }

  /** `DELETE /user/:id`: `findByIdAndDelete` on Mentor, and on Mentee only when Mentor has no such id. */
  function DeleteUser(db: Db, id: Id): (s: Step)
    ensures s.response.status in {200, 404}
    ensures s.response.status == 404 <==> !Contains(db.mentors, ById(id)) && !Contains(db.mentees, ById(id))
    ensures s.response.status == 404 ==> s.db == db && s.response == UserNotFound
    ensures s.response.status == 200 ==>
      && s.response.body == MessageBody("User deleted successfully")
      && var r := ActedOn(db, id);
      && FindFirst(CollectionOf(db, r), ById(id)).Some?
      && var i := FindFirst(CollectionOf(db, r), ById(id)).value;
      && CollectionOf(db, r)[i].id == id
      && CollectionOf(s.db, r) == RemoveAt(CollectionOf(db, r), i)
      && CollectionOf(s.db, r.Other()) == CollectionOf(db, r.Other())
  {
    match Resolve(db, ById(id))
    case None => Step(UserNotFound, db)
    case Some(h) =>
      var c := CollectionOf(db, h.role);
      Step(Response(200, MessageBody("User deleted successfully")), WithCollection(db, h.role, RemoveAt(c, h.index)))
  }

  /**
   * `PUT /user/:id` with `{ new: true }`: `findByIdAndUpdate` on Mentor, and
   * on Mentee only when Mentor has no such id; the answer is the updated document.
   */
  function UpdateUser(db: Db, id: Id, patch: Patch): (s: Step)
    ensures s.response.status in {200, 404}
    ensures s.response.status == 404 <==> !Contains(db.mentors, ById(id)) && !Contains(db.mentees, ById(id))
    ensures s.response.status == 404 ==> s.db == db && s.response == UserNotFound
    ensures s.response.status == 200 ==>
      && s.response.body.RecordBody?
      && s.response.body.record.id == id
      && var r := ActedOn(db, id);
      && FindFirst(CollectionOf(db, r), ById(id)).Some?
      && var i := FindFirst(CollectionOf(db, r), ById(id)).value;
      && CollectionOf(db, r)[i].id == id
      && s.response.body.record == ApplyPatch(CollectionOf(db, r)[i], patch)
      && CollectionOf(s.db, r) == CollectionOf(db, r)[i := s.response.body.record]
      && CollectionOf(s.db, r.Other()) == CollectionOf(db, r.Other())
  {
    match Resolve(db, ById(id))
    case None => Step(UserNotFound, db)
    case Some(h) =>
      var c := CollectionOf(db, h.role);
      var updated := ApplyPatch(c[h.index], patch);
      Step(Response(200, RecordBody(updated)), WithCollection(db, h.role, c[h.index := updated]))
  }

  /** `GET /mentor` (role Mentor) and `GET /mentee` (role Mentee). */
  function FindUsers(db: Db, role: Role, q: Query): (s: Step)
    ensures s.db == db
    ensures s.response.status == 200 && s.response.body.ListBody?
    ensures |s.response.body.records| <= |CollectionOf(db, role)|
    ensures forall x | x in s.response.body.records :: x in CollectionOf(db, role) && Matches(x, q)
    ensures forall x | x in CollectionOf(db, role) && Matches(x, q) :: x in s.response.body.records
    ensures forall x ::
      multiset(s.response.body.records)[x] == (if Matches(x, q) then multiset(CollectionOf(db, role))[x] else 0)
    ensures Subsequence(s.response.body.records, CollectionOf(db, role))
  {
    var f := BuildFilter(q);
    forall x: Record
      ensures Satisfies(x, f) <==> Matches(x, q)
    {
      FilterMeansMatches(x, q);
    }
    Step(Response(200, ListBody(Select(CollectionOf(db, role), f))), db)
  }

  /** `GET /allmentors` (role Mentor) and `GET /allmentees` (role Mentee). */
  function AllUsers(db: Db, role: Role): (s: Step)
    ensures s.db == db && s.response.status == 200
    ensures s.response.body == ListBody(CollectionOf(db, role))
  {
    Step(Response(200, ListBody(CollectionOf(db, role))), db)
  }

  /** The requests the server answers. */
  datatype Request =
    | RegisterRequest(form: RegisterForm, env: RegisterEnv)
    | LoginRequest(identifier: string, password: string)
    | AllRequest(role: Role)
    | SearchRequest(role: Role, query: Query)
    | DeleteRequest(id: Id)
    | UpdateRequest(id: Id, patch: Patch)

  /** One step of the server: the handler the route selects. */
  function Handle(db: Db, svc: Services, req: Request): Step {
    match req
    case RegisterRequest(form, env) => Register(db, svc, form, env)
    case LoginRequest(identifier, password) => Login(db, svc, identifier, password)
    case AllRequest(role) => AllUsers(db, role)
    case SearchRequest(role, q) => FindUsers(db, role, q)
    case DeleteRequest(id) => DeleteUser(db, id)
    case UpdateRequest(id, patch) => UpdateUser(db, id, patch)
  }
}
