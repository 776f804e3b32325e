# MentorMatch server handlers in Dafny

This project models the request handlers of the MentorMatch server
(`server/index.js`): registration, login, delete and update by id, and the
Mentor/Mentee search and list routes. The database is two separate document
collections, Mentor and Mentee. Each handler is a pure function from the
database state and one request to a response (status and JSON body) and the
next database state. A dispatcher `Server.Handle` turns the handlers into a
sequential state machine.

The model has these parts:

- `Identifier`: the login identifier classifier. An identifier is an email
  when it matches `^[^\s@]+@[^\s@]+\.[^\s@]+$`. Otherwise it is a mobile
  number when it is exactly ten ASCII digits. Anything else is rejected.
  `\s` is the ECMAScript WhiteSpace and LineTerminator set.
- `Store`: a collection is a sequence of documents in natural order. It
  supports `findOne` (first match), removal and patching at one position.
  Its invariant is the per-collection `_id` index.
- `Search`: the filter object that `/mentor` and `/mentee` build from their
  query parameters. It is checked against a per-parameter reference predicate.
- `Server`: the two-collection database, the Mentor-first resolver and the
  handlers.
- `Properties`: lemmas that relate handlers to one another and to invariants.

Outside services are parameters:
- bcrypt's `hash`, with `compare(p, h)` read as `h == hash(p)`;
- `jwt.sign`, as a function of the id and the role;
- the photo host's answer, given per registration as an optional URL;
- the `_id` the driver assigns, given per registration.

A save that hits an id already in the target collection is the model's
failing save. It answers 500 after the photo was uploaded, so the photo is
orphaned.

The model follows the handlers as written, including these points:
- Login with an unknown identifier answers 401 "Invalid credentials", not a
  separate not-found error.
- Registration checks the photo and its mimetype before the required fields.
- Registration uploads the photo only after the type check.
- A password set through `PUT /user/:id` is stored verbatim, not hashed
  (`Properties.UpdateStoresPasswordVerbatim`).

## Model

| member | source | states |
|---|---|---|
| `Identifier.Classify` | server/index.js:115-119 | an identifier selects the email field exactly when it has the email shape, the mobile field exactly when it is ten digits, and is rejected exactly when it is neither |
| `Identifier.EmailAndMobileDisjoint` | server/index.js:115-116 | no string matches both the email and the mobile pattern, so the email-first order never hides a mobile number |
| `Identifier.MatchEmail` | server/index.js:115-118 | a single left-to-right scan accepts exactly the strings of the email pattern |
| `Store.FindFirst` | server/index.js:121 | `findOne` finds nothing exactly when no document matches; otherwise it returns a matching document with no match before it |
| `Store.RemoveAt` | server/index.js:184 | deleting one document shortens the collection by one and keeps the order and multiset of all the other documents |
| `Store.RemoveAtKeepsUniqueIds` | server/index.js:184 | after the delete, the `_id` index still holds and the deleted id is gone from the collection |
| `Store.EmptyPatchKeepsRecord` | server/index.js:199 | an update with an empty body leaves the document as it was |
| `Store.PatchIdempotent` | server/index.js:199 | patching one document twice with the same body equals patching it once |
| `Store.ApplyPatch` | server/index.js:199 | each field the update body carries replaces the stored field; every other field and the id are kept |
| `Store.UpdateAtKeepsUniqueIds` | server/index.js:199 | an update keeps the `_id` index |
| `Search.BuildFilter` | server/index.js:159-164 | the filter holds a predicate for a parameter exactly when that parameter is truthy, and each predicate carries that parameter's value |
| `Search.FilterMeansMatches` | server/index.js:159-164 | a document satisfies the built filter iff it matches every given parameter: exact id and email, case-insensitive substring skill and name |
| `Search.Select` | server/index.js:32-35 | `find(filter)` returns every document satisfying the filter, as many times as the collection holds it, in natural order, and nothing else; the whole collection when every document satisfies it |
| `Server.Resolve` | server/index.js:121 | the lookup lands in Mentor exactly when some Mentor document matches, in Mentee only otherwise, and at the first match there; it finds nothing exactly when neither collection matches |
| `Server.RoleNamed` | server/index.js:76-79 | only `mentor` and `mentee` name a collection |
| `Server.Login` | server/index.js:112-131 | login never changes the database; 400 exactly for a malformed identifier; for a well-formed identifier, 200 with the Mentor-first match and a token for its id and collection exactly when the password matches that document's hash, and otherwise the one "Invalid credentials" 401, also when nothing matches |
| `Server.Register` | server/index.js:43-109 | the five rejections come in the handler's order (no photo, not an image, missing field, duplicate identifier in either collection, invalid type), each with its own body, and every 400 leaves both collections unchanged; 400 happens exactly when some check fails; every 500 is the "Internal server error" answer; 201 happens exactly when all checks pass, the upload succeeds and the id is free; a 201 appends one document built from the form (hashed password, experience and availability only for mentors) to the chosen collection, leaves the other collection unchanged and signs the id with that role |
| `Server.DeleteUser` | server/index.js:181-193 | 404 with nothing changed exactly when neither collection holds the id; a 200 removes the first document with that id from Mentor whenever Mentor holds it, from Mentee otherwise, and leaves the other collection unchanged |
| `Server.UpdateUser` | server/index.js:196-208 | 404 with nothing changed exactly when neither collection holds the id; a 200 acts on Mentor whenever Mentor holds the id, on Mentee otherwise: it answers the first document with that id overridden by the patch, replaces only that document and leaves the other collection unchanged |
| `Server.FindUsers` | server/index.js:157-178 | the search leaves the database unchanged and answers every document of the chosen collection that matches the query, as often as it is stored, in natural order, and nothing else |
| `Server.AllUsers` | server/index.js:135-154 | the list-all routes change nothing and answer every document of the chosen collection in natural order |
| `Properties.LoginMentorFirst` | server/index.js:121 | when a Mentor document matches the identifier, the login answer does not depend on the Mentee collection at all |
| `Properties.LoginRoleFromCollection` | server/index.js:121-127 | a successful login answers the first matching document of the collection it was found in, and the token's role is Mentor exactly when some Mentor document matched |
| `Properties.UnknownAndWrongPasswordAlike` | server/index.js:121-124 | an unknown identifier and a wrong password give the very same 401 answer |
| `Properties.RegisterKeepsIdentifiersUnique` | server/index.js:68-99 | if emails and mobiles are unique across both collections, they still are after any registration |
| `Properties.DeleteKeepsIdentifiersUnique` | server/index.js:184 | a delete keeps emails and mobiles unique across both collections |
| `Properties.RegisterThenLogin` | server/index.js:85-127 | after a successful registration, logging in with the registered email or mobile and the same password answers 200 with the stored document and a token for the same id and role |
| `Properties.RegisterNeverStoresPlaintext` | server/index.js:84-92 | when the hash has no fixed points, the stored password differs from the submitted one |
| `Properties.DeleteRemovesId` | server/index.js:184-188 | after a successful delete, the collection it acted on no longer holds the id, and the other collection is unchanged |
| `Properties.DeleteTwiceNotFound` | server/index.js:184-187 | when the two collections do not share the id, a second delete of that id answers 404 |
| `Properties.UpdateTwiceSameAsOnce` | server/index.js:196-208 | sending the same update request twice gives the same answer and the same database as sending it once |
| `Properties.UpdateStoresPasswordVerbatim` | server/index.js:199-203 | a patched password is stored as given, so bcrypt's compare with that password then fails |
| `Properties.UpdateCanDuplicateEmail` | server/index.js:199 | the update does no duplicate check: some patch turns a database with unique emails into one without |
| `Properties.SearchWithoutParamsListsAll` | server/index.js:157-166 | a search without truthy parameters answers the same as the list-all route |
| `Properties.HandleKeepsInv` | server/index.js:43-208 | every request keeps the `_id` index of both collections |
| `Properties.HandleKeepsIdentifiersUnique` | server/index.js:43-208 | every request except an update keeps emails and mobiles unique across both collections |

## Left out

- Cloudinary, bcrypt and JWT are outside libraries. They become parameters: the upload outcome, a `hash` function with `compare(p, h)` read as `h == hash(p)`, and a `sign` function. Salting, the 9 rounds, the signing key (default `makematch`) and the 26-hour expiry are not modelled.
- HTTP plumbing is not modelled: Express routing, CORS, `express-fileupload` temp files, dotenv, the database connection and `listen`.
- Most 500 answers from driver exceptions are not modelled. These include a malformed id (a cast error), `compare` throwing on a missing password, and `find` failures in search. The failed upload and the save refused by the `_id` index are modelled. The `details` text of the registration 500 body is dropped.
- The race between the duplicate check and the insert is a concurrency matter. Registration is modelled as one atomic step.
- The Mongoose schemas are not part of this model. So casting, strict-mode dropping of unknown fields, and schema validation on save are not modelled. `skills` is the submitted string. A patch applies all of its fields to documents of either collection.
- Request values are strings or absent. JSON numbers, `null`, arrays and objects in bodies and query strings are not modelled.
- Search terms match literally as substrings, with ASCII case folding only. Regular-expression metacharacters and non-ASCII case folding are not modelled.
- `\s` is the ECMAScript WhiteSpace and LineTerminator set, with the Unicode space separators of current Unicode versions.
- `jwt.sign` is modelled as a function of the id and the role alone. The issue time (`iat`) and the expiry (`exp`) it adds are not modelled, so two equal tokens in the model mean equal claims only, not equal strings.
- Strings are sequences of Unicode scalar values. A request string holding a lone UTF-16 surrogate, which the email pattern accepts because it has no `u` flag, cannot be represented.
- Natural order is taken to be insertion order, with a deleted document leaving its place and an updated one keeping it.
- Token verification does not appear on any route, so there is nothing to model.
- The client files are user-interface code and are not modelled: client/src/components/Navbar.jsx (rendering, polling, a notification list filter), client/src/pages/ProfileSetUp.jsx (a static form) and client/tailwind.config.js (styling data).
- The 400 body for missing fields echoes the whole form in the model; the handler echoes only type, name, email, mobile, password, skills and photo.
