/**
 * The two document collections (Mentor and Mentee) and the single-collection
 * operations the handlers call on them: `findOne`, `findByIdAndDelete` and
 * `findByIdAndUpdate` with `{ new: true }`. A collection is a sequence in
 * natural (insertion) order, so "the first matching document" is well defined.
 */
module Store {
  import opened Wrappers
  import opened RequestData

  /** A document id (`_id`), opaque to the handlers. */
  type Id = string

  /** A stored Mentor or Mentee document. `experience` and `availability` are only ever set on mentors by registration. */
  datatype Record = Record(
    id: Id,
    name: string,
    email: string,
    mobile: string,
    password: string,
    skills: string,
    userType: string,
    experience: Option<string>,
    availability: Option<string>,
    photo: string)

  type Collection = seq<Record>

  /** The `_id` index: no two documents of one collection share an id. */
  predicate UniqueIds(c: Collection) {
    forall i, j | 0 <= i < j < |c| :: c[i].id != c[j].id
  }

  /** An exact-match filter on one field, as in `findOne({ email })` or `findById(id)`. */
  datatype Key = ByEmail(email: string) | ByMobile(mobile: string) | ById(id: Id)

  predicate KeyMatches(k: Key, r: Record) {
    match k
    case ByEmail(e) => r.email == e
    case ByMobile(m) => r.mobile == m
    case ById(i) => r.id == i
  }

  predicate Contains(c: Collection, k: Key) {
    exists i | 0 <= i < |c| :: KeyMatches(k, c[i])
  }

  /** `findOne`: the index of the first document in natural order that the filter matches. */
  function FindFirst(c: Collection, k: Key): (r: Option<nat>)
    ensures r.None? <==> !Contains(c, k)
    ensures r.Some? ==> r.value < |c| && KeyMatches(k, c[r.value])
    ensures r.Some? ==> forall j | 0 <= j < r.value :: !KeyMatches(k, c[j])
  {
    if |c| == 0 then None
    else if KeyMatches(k, c[0]) then Some(0)
    else match FindFirst(c[1..], k)
      case None => None
      case Some(j) => Some(j + 1)
  }

  /** The collection without the document at position `i`. */
  function RemoveAt(c: Collection, i: nat): (r: Collection)
    requires i < |c|
    ensures |r| == |c| - 1
    ensures forall j | 0 <= j < i :: r[j] == c[j]
    ensures forall j | i <= j < |r| :: r[j] == c[j + 1]
    ensures multiset(r) + multiset{c[i]} == multiset(c)
  {
    assert c == c[..i] + [c[i]] + c[i + 1..];
    c[..i] + c[i + 1..]
  }

  /** Removing a document keeps the `_id` index and drops its id from the collection. */
  lemma RemoveAtKeepsUniqueIds(c: Collection, i: nat)
    requires i < |c| && UniqueIds(c)
    ensures UniqueIds(RemoveAt(c, i))
    ensures !Contains(RemoveAt(c, i), ById(c[i].id))
  {
  }

  /**
   * The document after `findByIdAndUpdate(id, patch)`: every field the patch
   * carries replaces the stored one, every other field (and the id) is kept.
   */
  function ApplyPatch(r: Record, p: Patch): (u: Record)
    ensures u.id == r.id
    ensures u.name == (if p.name.Some? then p.name.value else r.name)
    ensures u.email == (if p.email.Some? then p.email.value else r.email)
    ensures u.mobile == (if p.mobile.Some? then p.mobile.value else r.mobile)
    ensures u.password == (if p.password.Some? then p.password.value else r.password)
    ensures u.skills == (if p.skills.Some? then p.skills.value else r.skills)
    ensures u.userType == (if p.userType.Some? then p.userType.value else r.userType)
    ensures u.experience == (if p.experience.Some? then p.experience else r.experience)
    ensures u.availability == (if p.availability.Some? then p.availability else r.availability)
    ensures u.photo == (if p.photo.Some? then p.photo.value else r.photo)
  {
    r.(
      name := Override(r.name, p.name),
      email := Override(r.email, p.email),
      mobile := Override(r.mobile, p.mobile),
      password := Override(r.password, p.password),
      skills := Override(r.skills, p.skills),
      userType := Override(r.userType, p.userType),
      experience := if p.experience.Some? then p.experience else r.experience,
      availability := if p.availability.Some? then p.availability else r.availability,
      photo := Override(r.photo, p.photo))
  }

  function Override(current: string, p: Param): string {
    match p
    case Some(v) => v
    case None => current
  }

  /** The patch of an empty body changes nothing. */
  lemma EmptyPatchKeepsRecord(r: Record)
    ensures ApplyPatch(r, Patch(None, None, None, None, None, None, None, None, None)) == r
  {
  }

  /** Sending the same patch twice has the effect of sending it once. */
  lemma PatchIdempotent(r: Record, p: Patch)
    ensures ApplyPatch(ApplyPatch(r, p), p) == ApplyPatch(r, p)
  {
  }

  /** An update leaves the ids of the collection, hence the `_id` index, as they were. */
  lemma UpdateAtKeepsUniqueIds(c: Collection, i: nat, p: Patch)
    requires i < |c| && UniqueIds(c)
    ensures UniqueIds(c[i := ApplyPatch(c[i], p)])
  {
  }
}
