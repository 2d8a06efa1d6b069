/**
 * The decision rules of the notices screen (src/screens/NoticesScreen.tsx):
 * the search over the notice list, the guard and reset of the create form,
 * and the meta line under each notice.
 */
module NoticesScreen {
  import opened Wrappers
  import opened Text
  import Seqs

  /** A notice as the list handler returns it; `kind` is its `type` field. */
  datatype Notice = Notice(id: string, title: string, department: Option<string>, year: Option<string>,
                           kind: Option<string>, content: Option<string>, createdAt: Option<string>)

  // ---------------------------------------------------------------------
  // Search

  /** The fields the search looks at, the empty ones dropped: the year is not among them. */
  function SearchFields(n: Notice): seq<string> {
    Compact([Some(n.title), n.content, n.department, n.kind])
  }

  /** `.some((field) => (field || '').toLowerCase().includes(needle))` */
  predicate MatchesNeedle(n: Notice, needle: string) {
    exists f :: f in SearchFields(n) && Includes(ToLower(f), needle)
  }

  /**
   * `filteredItems`: every notice for an empty search; otherwise the
   * notices with a searched field containing the lowercased search, in
   * their order.
   */
  function FilterNotices(items: seq<Notice>, search: string): (r: seq<Notice>)
    ensures search == "" ==> r == items
    ensures search != "" ==> forall n :: n in r <==> n in items && MatchesNeedle(n, ToLower(search))
    ensures search != "" ==> forall n ::
      multiset(r)[n] == if MatchesNeedle(n, ToLower(search)) then multiset(items)[n] else 0
    ensures Seqs.IsSubseq(r, items)
  {
    if search == "" then
      assert Seqs.IsSubseq(items, items) by { Seqs.FilterAll(items, _ => true); }
      items
    else
      var needle := ToLower(search);
      Seqs.Filter(items, n => MatchesNeedle(n, needle))
  }

  /** An empty field never contains a non-empty needle. */
  lemma EmptyHasNoNeedle(needle: string)
    requires needle != ""
    ensures !Includes(ToLower(""), needle)
  {
    assert ToLower("") == "";
  }

  /**
   * For a non-empty needle, a notice matches exactly when its title,
   * content, department or type contains it, case aside; the year plays
   * no part.
   */
  lemma MatchesIff(n: Notice, needle: string)
    requires needle != ""
    ensures MatchesNeedle(n, needle) <==>
      || Includes(ToLower(n.title), needle)
      || (n.content.Some? && Includes(ToLower(n.content.value), needle))
      || (n.department.Some? && Includes(ToLower(n.department.value), needle))
      || (n.kind.Some? && Includes(ToLower(n.kind.value), needle))
  {
    var fields := [Some(n.title), n.content, n.department, n.kind];
    assert forall x :: Some(x) in fields <==>
      x == n.title || n.content == Some(x) || n.department == Some(x) || n.kind == Some(x);
    EmptyHasNoNeedle(needle);
    if Includes(ToLower(n.title), needle) {
      assert n.title in SearchFields(n);
    }
    if n.content.Some? && Includes(ToLower(n.content.value), needle) {
      assert n.content.value in SearchFields(n);
    }
    if n.department.Some? && Includes(ToLower(n.department.value), needle) {
      assert n.department.value in SearchFields(n);
    }
    if n.kind.Some? && Includes(ToLower(n.kind.value), needle) {
      assert n.kind.value in SearchFields(n);
    }
  }

  /** The search ignores case: searching for the lowercased text finds the same notices. */
  lemma SearchIgnoresCase(items: seq<Notice>, search: string)
    ensures FilterNotices(items, ToLower(search)) == FilterNotices(items, search)
  {
    ToLowerIdempotent(search);
    if search != "" {
      assert |ToLower(search)| == |search|;
      assert ToLower(search) != "";
    }
  }

  // ---------------------------------------------------------------------
  // Creating a notice

  /** The body `createNotice` posts. */
  datatype NoticeBody = NoticeBody(title: string, content: string, department: string, kind: string, year: string,
                                   createdByEmail: Option<string>)

  /**
   * `createNotice`: nothing is sent without a title. The department sent
   * is the chosen audience (`'All'` stays `'All'`).
   */
  function NoticeRequest(title: string, content: string, audience: string, year: string, kind: string,
                         email: Option<string>): (r: Option<NoticeBody>)
    ensures r.None? <==> title == ""
    ensures r.Some? ==>
      && r.value.title == title && r.value.content == content && r.value.department == audience
      && r.value.kind == kind && r.value.year == year && r.value.createdByEmail == email
  {
    if title == "" then None
    else Some(NoticeBody(title, content, if audience == "All" then "All" else audience, kind, year, email))
  }

  /** The create form of the screen. */
  class NoticeForm {
    var modalVisible: bool
    var title: string
    var content: string
    var audience: string
    var year: string
    var kind: string

    /** The form as the screen first shows it and as a successful create leaves it. */
    ghost predicate IsReset()
      reads this
    {
      && !modalVisible && title == "" && content == ""
      && audience == "All" && year == "All Years" && kind == "General"
    }

    constructor ()
      ensures IsReset()
    {
      modalVisible := false;
      title := "";
      content := "";
      audience := "All";
      year := "All Years";
      kind := "General";
    }

    /**
     * `createNotice`, given whether the server accepted the post: the body
     * sent is the request for the form as it was; an accepted post closes
     * and resets the form, anything else leaves it as it was.
     */
    method CreateNotice(email: Option<string>, responseOk: bool) returns (sent: Option<NoticeBody>)
      modifies this
      ensures sent == NoticeRequest(old(title), old(content), old(audience), old(year), old(kind), email)
      ensures sent.Some? && responseOk ==> IsReset()
      ensures sent.None? || !responseOk ==> unchanged(this)
    {
      sent := NoticeRequest(title, content, audience, year, kind, email);
      if sent.Some? && responseOk {
        modalVisible := false;
        title := "";
        content := "";
        audience := "All";
        year := "All Years";
        kind := "General";
      }
    }
  }

  // ---------------------------------------------------------------------
  // The meta line

  /**
   * The separator as the source file spells it: the UTF-8 bytes of the
   * bullet read back as Windows-1252, i.e. the three characters U+00E2,
   * U+20AC and U+00A2.
   */
  const GarbledBullet := " \U{E2}\U{20AC}\U{A2} "

  /** The meta line as written: department, type and year joined by the garbled separator. */
  function MetaLineAsWritten(n: Notice): string {
    Join(Compact([n.department, n.kind, n.year]), GarbledBullet)
  }

  /**
   * Two parts are joined, yet the as-written line shows no bullet: for
   * fields without a bullet of their own the separator is what contributes
   * one, and the garbled separator has none.
   */
  lemma AsWrittenHasNoBullet(n: Notice)
    requires Truthy(n.department) && Truthy(n.kind)
    requires '\U{2022}' !in n.department.value && '\U{2022}' !in n.kind.value
    requires n.year.Some? ==> '\U{2022}' !in n.year.value
    ensures |Compact([n.department, n.kind, n.year])| >= 2
    ensures n.department.value + GarbledBullet + n.kind.value <= MetaLineAsWritten(n)
    ensures '\U{2022}' !in MetaLineAsWritten(n)
  {
    JoinThree(n.department, n.kind, n.year, GarbledBullet);
    var parts := [n.department, n.kind, n.year];
    assert parts[1..] == [n.kind, n.year];
    assert parts[1..][1..] == [n.year];
    assert [n.year][1..] == [];
    JoinCharIn(Compact(parts), GarbledBullet, '\U{2022}');
  }

  /**
   * The meta line as intended: the department, type and year that are
   * present, in that order, joined by the bullet separator.
   */
  function MetaLine(n: Notice): (line: string)
    ensures Truthy(n.department) && Truthy(n.kind) && Truthy(n.year) ==>
      line == n.department.value + Bullet + n.kind.value + Bullet + n.year.value
    ensures Truthy(n.department) && Truthy(n.kind) && !Truthy(n.year) ==>
      line == n.department.value + Bullet + n.kind.value
    ensures Truthy(n.department) && !Truthy(n.kind) && Truthy(n.year) ==>
      line == n.department.value + Bullet + n.year.value
    ensures !Truthy(n.department) && Truthy(n.kind) && Truthy(n.year) ==>
      line == n.kind.value + Bullet + n.year.value
    ensures Truthy(n.department) && !Truthy(n.kind) && !Truthy(n.year) ==> line == n.department.value
    ensures !Truthy(n.department) && Truthy(n.kind) && !Truthy(n.year) ==> line == n.kind.value
    ensures !Truthy(n.department) && !Truthy(n.kind) && Truthy(n.year) ==> line == n.year.value
    ensures !Truthy(n.department) && !Truthy(n.kind) && !Truthy(n.year) ==> line == ""
  {
    JoinThree(n.department, n.kind, n.year, Bullet);
    Text.MetaLine([n.department, n.kind, n.year])
  }

  /**
   * With a department and a type the intended line starts with the
   * department, the bullet separator and the type, so it shows a bullet.
   */
  lemma MetaLineShowsBullet(n: Notice)
    requires Truthy(n.department) && Truthy(n.kind)
    ensures n.department.value + Bullet + n.kind.value <= MetaLine(n)
    ensures '\U{2022}' in MetaLine(n)
  {
    var prefix := n.department.value + Bullet + n.kind.value;
    assert prefix[|n.department.value| + 1] == '\U{2022}';
  }
}
