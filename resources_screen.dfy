/**
 * The decision rules of the resources screen
 * (src/screens/ResourcesScreen.tsx): the search over the resource list, the
 * school filter of the fetch and the meta line under each resource.
 */
module ResourcesScreen {
  import opened Wrappers
  import opened Text
  import opened Session
  import Seqs

  /** A resource as the list handler returns it. */
  datatype Resource = Resource(id: string, title: string, subject: Option<string>, year: Option<string>,
                               url: Option<string>, department: Option<string>)

  /** The fields the search looks at, the empty ones dropped: the department is not among them. */
  function SearchFields(r: Resource): seq<string> {
    Compact([Some(r.title), r.subject, r.year])
  }

  predicate MatchesNeedle(r: Resource, needle: string) {
    exists f :: f in SearchFields(r) && Includes(ToLower(f), needle)
  }

  /**
   * `filteredResources`: every resource for an empty query; otherwise the
   * resources with a searched field containing the lowercased query, in
   * their order.
   */
  function FilterResources(items: seq<Resource>, q: string): (r: seq<Resource>)
    ensures q == "" ==> r == items
    ensures q != "" ==> forall x :: x in r <==> x in items && MatchesNeedle(x, ToLower(q))
    ensures q != "" ==> forall x ::
      multiset(r)[x] == if MatchesNeedle(x, ToLower(q)) then multiset(items)[x] else 0
    ensures Seqs.IsSubseq(r, items)
  {
    if q == "" then
      assert Seqs.IsSubseq(items, items) by { Seqs.FilterAll(items, _ => true); }
      items
    else
      var needle := ToLower(q);
      Seqs.Filter(items, x => MatchesNeedle(x, needle))
  }

  /**
   * For a non-empty needle, a resource matches exactly when its title,
   * subject or year contains it, case aside; the department plays no part.
   */
  lemma MatchesIff(r: Resource, needle: string)
    requires needle != ""
    ensures MatchesNeedle(r, needle) <==>
      || Includes(ToLower(r.title), needle)
      || (r.subject.Some? && Includes(ToLower(r.subject.value), needle))
      || (r.year.Some? && Includes(ToLower(r.year.value), needle))
  {
    var fields := [Some(r.title), r.subject, r.year];
    assert forall x :: Some(x) in fields <==> x == r.title || r.subject == Some(x) || r.year == Some(x);
    assert ToLower("") == "";
    if Includes(ToLower(r.title), needle) {
      assert r.title in SearchFields(r);
    }
    if r.subject.Some? && Includes(ToLower(r.subject.value), needle) {
      assert r.subject.value in SearchFields(r);
    }
    if r.year.Some? && Includes(ToLower(r.year.value), needle) {
      assert r.year.value in SearchFields(r);
    }
  }

  /**
   * The school the fetch asks for: present only when the profile has one
   * (the query string is then `?school=` and that school, percent-encoded).
   */
  function SchoolQuery(s: Session): (r: Option<string>)
    ensures r.Some? <==> s.profile.Some? && Truthy(s.profile.value.school)
    ensures r.Some? ==> r.value != "" && s.profile.value.school == r
  {
    if Truthy(School(s)) then School(s) else None
  }

  /**
   * The subject, year and department that are present, in that order,
   * joined by the bullet separator.
   */
  function MetaLine(r: Resource): (line: string)
    ensures line == "" <==> !Truthy(r.subject) && !Truthy(r.year) && !Truthy(r.department)
    ensures Truthy(r.subject) && Truthy(r.year) && Truthy(r.department) ==>
      line == r.subject.value + Bullet + r.year.value + Bullet + r.department.value
    ensures Truthy(r.subject) && Truthy(r.year) && !Truthy(r.department) ==>
      line == r.subject.value + Bullet + r.year.value
    ensures Truthy(r.subject) && !Truthy(r.year) && Truthy(r.department) ==>
      line == r.subject.value + Bullet + r.department.value
    ensures !Truthy(r.subject) && Truthy(r.year) && Truthy(r.department) ==>
      line == r.year.value + Bullet + r.department.value
    ensures Truthy(r.subject) && !Truthy(r.year) && !Truthy(r.department) ==> line == r.subject.value
    ensures !Truthy(r.subject) && Truthy(r.year) && !Truthy(r.department) ==> line == r.year.value
    ensures !Truthy(r.subject) && !Truthy(r.year) && Truthy(r.department) ==> line == r.department.value
  {
    var parts := [r.subject, r.year, r.department];
    MetaLineShape(parts);
    JoinThree(r.subject, r.year, r.department, Bullet);
    assert forall i :: 0 <= i < 3 ==> parts[i] in {r.subject, r.year, r.department};
    Text.MetaLine(parts)
  }
}
