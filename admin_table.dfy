/** The project list of components/AdminProjectTable.tsx: the title filter, the
    `q` search parameter kept in step with the search box, and the guard in
    front of a delete. */
module AdminTable {
  import opened Wrappers
  import opened JsStrings
  import opened SearchParams

  datatype TableTag = TableTag(id: string, name: string, slug: string)

  datatype AdminProject = AdminProject(
    id: string,
    title: string,
    slug: string,
    shortDesc: string,
    createdAt: string,
    projectUrl: Option<string>,
    tags: seq<TableTag>)

  /** `project.title.toLowerCase().includes(lower)`. */
  predicate TitleMatches(p: AdminProject, lower: string) {
    Includes(LowerAscii(p.title), lower)
  }

  /** `a` is `b` with some elements left out, the rest in their order. */
  predicate IsSubsequence<T(==)>(a: seq<T>, b: seq<T>)
    decreases |b|
  {
    if a == [] then true
    else if b == [] then false
    else (a[0] == b[0] && IsSubsequence(a[1..], b[1..])) || IsSubsequence(a, b[1..])
  }

  /** `projects.filter(...)` with the lowercased query. */
  function KeepMatching(projects: seq<AdminProject>, lower: string): (r: seq<AdminProject>)
    ensures forall p :: p in r <==> p in projects && TitleMatches(p, lower)
    ensures IsSubsequence(r, projects)
    ensures forall p :: multiset(r)[p] == if TitleMatches(p, lower) then multiset(projects)[p] else 0
  {
    if projects == [] then []
    else
      var rest := KeepMatching(projects[1..], lower);
      assert projects == [projects[0]] + projects[1..];
      if TitleMatches(projects[0], lower) then
        assert multiset([projects[0]] + rest) == multiset([projects[0]]) + multiset(rest);
        [projects[0]] + rest
      else
        SkipHead(rest, projects);
        rest
  }

  /** A subsequence of the tail is a subsequence of the whole. */
  lemma SkipHead<T>(a: seq<T>, b: seq<T>)
    requires b != [] && IsSubsequence(a, b[1..])
    ensures IsSubsequence(a, b)
  {
  }

  /** `filteredProjects`: everything for an empty query, otherwise the projects
      whose lowercased title contains the lowercased query, in their order. */
  function FilterProjects(projects: seq<AdminProject>, query: string): (r: seq<AdminProject>)
    ensures query == "" ==> r == projects
    ensures query != "" ==> forall p :: p in r <==> p in projects && TitleMatches(p, LowerAscii(query))
    ensures IsSubsequence(r, projects)
  {
    if query == "" then
      SubsequenceOfItself(projects);
      projects
    else KeepMatching(projects, LowerAscii(query))
  }

  lemma {:induction false} SubsequenceOfItself<T>(s: seq<T>)
    ensures IsSubsequence(s, s)
  {
    if s != [] {
      SubsequenceOfItself(s[1..]);
    }
  }

  /** A list that already matches is kept whole. */
  lemma {:induction false} KeepMatchingAll(projects: seq<AdminProject>, lower: string)
    requires forall p :: p in projects ==> TitleMatches(p, lower)
    ensures KeepMatching(projects, lower) == projects
  {
    if projects != [] {
      assert projects[0] in projects;
      assert forall p :: p in projects[1..] ==> p in projects;
      KeepMatchingAll(projects[1..], lower);
      assert [projects[0]] + projects[1..] == projects;
    }
  }

  /** Filtering a filtered list with the same query changes nothing. */
  lemma FilterIdempotent(projects: seq<AdminProject>, query: string)
    ensures FilterProjects(FilterProjects(projects, query), query) == FilterProjects(projects, query)
  {
    if query != "" {
      KeepMatchingAll(FilterProjects(projects, query), LowerAscii(query));
    }
  }

  /** Position `i` holds the first project with the id. */
  predicate FirstWithId(projects: seq<AdminProject>, i: int, id: string) {
    && 0 <= i < |projects| && projects[i].id == id
    && forall j :: 0 <= j < i ==> projects[j].id != id
  }

  /** `projects.find((project) => project.id === id)`: the first project with the id. */
  function FindById(projects: seq<AdminProject>, id: string): (r: Option<AdminProject>)
    ensures r.None? <==> forall i :: 0 <= i < |projects| ==> projects[i].id != id
    ensures r.Some? ==> exists i :: FirstWithId(projects, i, id) && projects[i] == r.value
  {
    if projects == [] then None
    else if projects[0].id == id then
      assert FirstWithId(projects, 0, id);
      Some(projects[0])
    else
      var r := FindById(projects[1..], id);
      assert r.Some? ==> exists i :: FirstWithId(projects, i, id) && projects[i] == r.value by {
        if r.Some? {
          var k :| FirstWithId(projects[1..], k, id) && projects[1..][k] == r.value;
          assert projects[k + 1] == r.value;
          forall j | 0 <= j < k + 1 ensures projects[j].id != id {
            if j > 0 {
              assert projects[j] == projects[1..][j - 1];
            }
          }
          assert FirstWithId(projects, k + 1, id);
        }
      }
      r
  }

  function ConfirmMessage(title: string): string {
    "Delete \"" + title + "\"? This action cannot be undone."
  }

  datatype DeleteStep = Ignored | Cancelled | SendDelete(id: string)

  /** What `handleDelete(id)` does before any network traffic: nothing for an
      unknown id, nothing when the user declines, otherwise a `DELETE` request
      for the id. `confirm` stands for `window.confirm`. */
  function HandleDelete(projects: seq<AdminProject>, id: string, confirm: string -> bool): (r: DeleteStep)
    ensures r == Ignored <==> forall i :: 0 <= i < |projects| ==> projects[i].id != id
    ensures r == Cancelled <==> FindById(projects, id).Some? && !confirm(ConfirmMessage(FindById(projects, id).value.title))
    ensures r.SendDelete? ==> r.id == id && confirm(ConfirmMessage(FindById(projects, id).value.title))
  {
    match FindById(projects, id)
    case None => Ignored
    case Some(target) => if confirm(ConfirmMessage(target.title)) then SendDelete(id) else Cancelled
  }

  /** The search-box text the page starts with after a reload: the `q`
      parameter trimmed (app/admin/projects/page.tsx:14), or "" when there is
      none (the `?? ""` of app/admin/projects/page.tsx:56). */
  function ReloadedQuery(params: seq<Param>): string {
    match Get(params, "q")
    case None => ""
    case Some(q) => Trim(q)
  }

  class AdminProjectTable {
    var projects: seq<AdminProject>
    var query: string
    /** `window.location.search`, as its parameter list. */
    var search: seq<Param>

    constructor (projects: seq<AdminProject>, initialQuery: string, search: seq<Param>)
      ensures this.projects == projects && query == initialQuery && this.search == search
    {
      this.projects := projects;
      query := initialQuery;
      this.search := search;
    }

    /** The rows on screen: `filteredProjects` for the current query. */
    function Visible(): seq<AdminProject>
      reads this
    {
      FilterProjects(projects, query)
    }

    /** `handleQueryChange(value)`: the query state and the `q` parameter follow
        the search box; an empty box removes `q`; no other parameter changes. */
    method HandleQueryChange(value: string)
      modifies this
      ensures query == value && projects == old(projects)
      ensures value != "" ==> search == Set(old(search), "q", value)
      ensures value == "" ==> search == Delete(old(search), "q")
      ensures Get(search, "q") == (if value != "" then Some(value) else None)
      ensures forall other :: other != "q" ==> Get(search, other) == Get(old(search), other)
      ensures ReloadedQuery(search) == Trim(value)
      ensures Visible() == FilterProjects(old(projects), value)
    {
      query := value;
      var params := search;
      if value != "" {
        params := Set(params, "q", value);
      } else {
        params := Delete(params, "q");
      }
      search := params;
    }
  }
}
