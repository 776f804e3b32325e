/**
 * The `GET /mentor` and `GET /mentee` search: the handler turns the optional
 * query parameters into a filter object (one field predicate per truthy
 * parameter) and the collection returns every document satisfying all of them.
 */
module Search {
  import opened Wrappers
  import opened RequestData
  import opened Store

  /** ASCII case folding, standing in for the `i` flag of `$options`. */
  function Fold(c: char): char {
    if 'A' <= c <= 'Z' then (c as int + 32) as char else c
  }

  /** `term` occurs in `text` at position `i`, ignoring ASCII case. */
  predicate OccursAt(text: string, term: string, i: int) {
    0 <= i && i + |term| <= |text| &&
    forall k | 0 <= k < |term| :: Fold(text[i + k]) == Fold(term[k])
  }

  /** `{ $regex: term, $options: 'i' }` on a string field, with `term` read literally. */
  predicate ContainsIgnoringCase(text: string, term: string) {
    exists i | 0 <= i <= |text| :: OccursAt(text, term, i)
  }

  /** One field predicate of the filter object. */
  datatype Constraint =
    | IdIs(id: Id)
    | SkillsLike(skill: string)
    | NameLike(name: string)
    | EmailIs(email: string)

  predicate Holds(c: Constraint, r: Record) {
    match c
    case IdIs(v) => r.id == v
    case SkillsLike(v) => ContainsIgnoringCase(r.skills, v)
    case NameLike(v) => ContainsIgnoringCase(r.name, v)
    case EmailIs(v) => r.email == v
  }

  /** A document satisfies a filter object when it satisfies every field predicate in it. */
  predicate Satisfies(r: Record, f: seq<Constraint>) {
    forall c | c in f :: Holds(c, r)
  }

  /** A constraint the query asked for: its parameter is truthy and it carries that parameter's value. */
  predicate Requested(q: Query, c: Constraint) {
    match c
    case IdIs(v) => Truthy(q.id) && v == q.id.value
    case SkillsLike(v) => Truthy(q.skill) && v == q.skill.value
    case NameLike(v) => Truthy(q.name) && v == q.name.value
    case EmailIs(v) => Truthy(q.email) && v == q.email.value
  }

  function When(cond: bool, c: Constraint): seq<Constraint> {
    if cond then [c] else []
  }

  /**
   * The object spread `{ ...(id && { _id: id }), ...(skill && …), … }`:
   * a falsy parameter contributes nothing.
   */
  function BuildFilter(q: Query): (f: seq<Constraint>)
    ensures forall c | c in f :: Requested(q, c)
    ensures Truthy(q.id) ==> IdIs(q.id.value) in f
    ensures Truthy(q.skill) ==> SkillsLike(q.skill.value) in f
    ensures Truthy(q.name) ==> NameLike(q.name.value) in f
    ensures Truthy(q.email) ==> EmailIs(q.email.value) in f
  {
    When(Truthy(q.id), IdIs(if q.id.Some? then q.id.value else ""))
    + When(Truthy(q.skill), SkillsLike(if q.skill.Some? then q.skill.value else ""))
    + When(Truthy(q.name), NameLike(if q.name.Some? then q.name.value else ""))
    + When(Truthy(q.email), EmailIs(if q.email.Some? then q.email.value else ""))
  }

  /**
   * What the search promises, stated per parameter: exact `id` and `email`,
   * case-insensitive substring `skill` and `name`, each only when given.
   */
  predicate Matches(r: Record, q: Query) {
    && (Truthy(q.id) ==> r.id == q.id.value)
    && (Truthy(q.skill) ==> ContainsIgnoringCase(r.skills, q.skill.value))
    && (Truthy(q.name) ==> ContainsIgnoringCase(r.name, q.name.value))
    && (Truthy(q.email) ==> r.email == q.email.value)
  }

  /** The filter object the handler builds selects exactly the documents the query describes. */
  lemma FilterMeansMatches(r: Record, q: Query)
    ensures Satisfies(r, BuildFilter(q)) <==> Matches(r, q)
  {
  }

  /** `r` is `c` with some documents left out and the rest kept in their order. */
  predicate Subsequence(r: Collection, c: Collection) {
    || r == []
    || (|c| > 0 && ((r[0] == c[0] && Subsequence(r[1..], c[1..])) || Subsequence(r, c[1..])))
  }

  /**
   * `Model.find(filter)`: every document satisfying the filter, as often as
   * the collection holds it and in natural order, and nothing else.
   */
  function Select(c: Collection, f: seq<Constraint>): (r: Collection)
    ensures |r| <= |c|
    ensures forall x | x in r :: x in c && Satisfies(x, f)
    ensures forall x | x in c && Satisfies(x, f) :: x in r
    ensures forall x :: multiset(r)[x] == (if Satisfies(x, f) then multiset(c)[x] else 0)
    ensures Subsequence(r, c)
    ensures (forall x | x in c :: Satisfies(x, f)) ==> r == c
  {
    if |c| == 0 then []
    else
      assert c == [c[0]] + c[1..];
      var rest := Select(c[1..], f);
      if Satisfies(c[0], f) then
        assert ([c[0]] + rest)[1..] == rest;
        [c[0]] + rest
      else
        assert rest != [] ==> rest[0] in rest;
        rest
  }
}
