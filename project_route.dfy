/** The create handler of app/api/admin/projects/route.ts (`POST`): malformed
    JSON, schema validation with a per-field error map, the slug uniqueness
    check, and the write. The database is an in-memory store object keyed by
    slug; the generated id, the creation time and a database failure are inputs. */
module ProjectRoute {
  import opened Wrappers
  import opened JsStrings
  import opened ProjectSchema

  // The `fieldErrors` dictionary of the handler.

  /** One step of the loop: an issue with a string path records its message
      unless the field already holds a truthy (non-empty) message. */
  function RecordIssue(errors: map<string, string>, issue: Issue): map<string, string> {
    if issue.path.Some? && !(issue.path.value in errors && errors[issue.path.value] != "")
    then errors[issue.path.value := issue.message]
    else errors
  }

  /** The dictionary after the loop has seen every issue, in order. */
  function FieldErrors(issues: seq<Issue>): map<string, string> {
    if issues == [] then map[]
    else RecordIssue(FieldErrors(issues[..|issues| - 1]), issues[|issues| - 1])
  }

  /** The loop that fills `fieldErrors` in place. */
  method CollectFieldErrors(issues: seq<Issue>) returns (fieldErrors: map<string, string>)
    ensures fieldErrors == FieldErrors(issues)
  {
    fieldErrors := map[];
    var i := 0;
    while i < |issues|
      invariant 0 <= i <= |issues|
      invariant fieldErrors == FieldErrors(issues[..i])
    {
      var issue := issues[i];
      if issue.path.Some? && !(issue.path.value in fieldErrors && fieldErrors[issue.path.value] != "") {
        fieldErrors := fieldErrors[issue.path.value := issue.message];
      }
      assert issues[..i + 1][..i] == issues[..i];
      i := i + 1;
    }
    assert issues[..|issues|] == issues;
  }

  /** Issue `i` is the first one naming its field. */
  predicate FirstForField(issues: seq<Issue>, i: nat)
    requires i < |issues|
  {
    forall j :: 0 <= j < i ==> issues[j].path != issues[i].path
  }

  /** With non-empty messages, the map has an entry, never empty, for every field
      some issue names and for no other key. */
  lemma {:induction false} FieldErrorsKeys(issues: seq<Issue>)
    requires MessagesNonEmpty(issues)
    ensures FieldErrors(issues).Keys == PathsOf(issues)
    ensures forall k :: k in FieldErrors(issues) ==> FieldErrors(issues)[k] != ""
  {
    if issues != [] {
      var n := |issues|;
      var init := issues[..n - 1];
      var last := issues[n - 1];
      assert forall i :: 0 <= i < |init| ==> init[i] == issues[i];
      FieldErrorsKeys(init);
      assert issues == init + [last];
      PathsOfAppend(init, [last]);
      assert PathsOf([last]) == if last.path.Some? then {last.path.value} else {};
    }
  }

  /** With non-empty messages, the map holds one entry per field named by some
      issue, and that entry is the message of the first issue naming the field. */
  lemma {:induction false} FirstIssueWins(issues: seq<Issue>)
    requires MessagesNonEmpty(issues)
    ensures FieldErrors(issues).Keys == PathsOf(issues)
    ensures forall k :: k in FieldErrors(issues) ==> FieldErrors(issues)[k] != ""
    ensures forall i :: 0 <= i < |issues| && issues[i].path.Some? && FirstForField(issues, i)
              ==> FieldErrors(issues)[issues[i].path.value] == issues[i].message
  {
    FieldErrorsKeys(issues);
    if issues != [] {
      var n := |issues|;
      var init := issues[..n - 1];
      assert forall i :: 0 <= i < |init| ==> init[i] == issues[i];
      FirstIssueWins(init);
      forall i | 0 <= i < n && issues[i].path.Some? && FirstForField(issues, i)
        ensures FieldErrors(issues)[issues[i].path.value] == issues[i].message
      {
        LastIssueStep(issues, i);
      }
    }
  }

  /** One step of the induction: the entry a first issue put in the map of the
      earlier issues survives the last issue, and a last issue that is first for
      its field puts its own message in. */
  lemma LastIssueStep(issues: seq<Issue>, i: nat)
    requires issues != [] && MessagesNonEmpty(issues)
    requires i < |issues| && issues[i].path.Some? && FirstForField(issues, i)
    requires var init := issues[..|issues| - 1];
      && FieldErrors(init).Keys == PathsOf(init)
      && (forall k :: k in FieldErrors(init) ==> FieldErrors(init)[k] != "")
      && (forall j :: 0 <= j < |init| && init[j].path.Some? && FirstForField(init, j)
            ==> FieldErrors(init)[init[j].path.value] == init[j].message)
    ensures issues[i].path.value in FieldErrors(issues)
    ensures FieldErrors(issues)[issues[i].path.value] == issues[i].message
  {
    var n := |issues|;
    var init := issues[..n - 1];
    var last := issues[n - 1];
    var before := FieldErrors(init);
    var k := issues[i].path.value;
    assert FieldErrors(issues) == RecordIssue(before, last);
    if i < n - 1 {
      assert init[i] == issues[i];
      assert FirstForField(init, i) by {
        forall j | 0 <= j < i ensures init[j].path != init[i].path {
          assert init[j] == issues[j];
        }
      }
      assert k in before;
    } else {
      forall j | 0 <= j < |init| ensures init[j].path != Some(k) {
        assert init[j] == issues[j];
      }
      assert k !in PathsOf(init);
    }
  }

  /** The `fields` map of a 400: for an object payload exactly the fields that
      fail, for any other payload empty. Each entry is the first issue's message. */
  lemma ValidationErrorFields(payload: Json)
    requires Parse(payload).Err?
    ensures payload.JObject? ==> FieldErrors(Parse(payload).error).Keys == FailingFields(payload.members)
    ensures !payload.JObject? ==> FieldErrors(Parse(payload).error) == map[]
  {
    FirstIssueWins(Issues(payload));
    IssuePaths(payload);
  }

  // The store and its records.

  datatype Tag = Tag(id: string, name: string, slug: string)

  /** A stored project; `null` columns are `None`, the tag relation is a set of tag ids. */
  datatype Project = Project(
    id: string,
    title: string,
    slug: string,
    shortDesc: string,
    coverUrl: Option<string>,
    projectUrl: Option<string>,
    body: Option<string>,
    createdAt: int,
    tagIds: set<string>)

  /** The request body: not JSON at all, or a parsed JSON value. */
  datatype RequestBody = MalformedJson | JsonBody(payload: Json)

  datatype ResponseBody =
    | ErrorBody(error: string, fields: Option<map<string, string>>)
    | ProjectBody(project: Project, tags: set<Tag>)

  datatype Response = Response(status: int, body: ResponseBody)

  const InvalidJson := Response(400, ErrorBody("Invalid JSON payload.", None))
  const SlugConflict := Response(409, ErrorBody("Slug is already in use.", Some(map["slug" := "Choose a unique slug."])))
  const StoreFailure := Response(500, ErrorBody("Unable to create project.", None))

  function InvalidData(fields: map<string, string>): Response {
    Response(400, ErrorBody("Invalid project data.", Some(fields)))
  }

  /** An empty string becomes `null`. */
  function NullIfEmpty(s: string): Option<string> {
    if s != "" then Some(s) else None
  }

  /** The row the handler creates: the URLs as parsed (already trimmed) or `null`
      when empty, the body untrimmed or `null` when its trim is empty. */
  function NewRecord(id: string, createdAt: int, d: ProjectInput): Project {
    Project(id, d.title, d.slug, d.shortDesc, NullIfEmpty(d.coverUrl), NullIfEmpty(d.projectUrl),
            if Trim(d.body) != "" then Some(d.body) else None,
            createdAt, set t | t in d.tagIds)
  }

  /** A stored URL is a trimmed, non-empty http(s) URL. */
  predicate StoredUrl(url: Option<string>) {
    url.Some? ==> url.value != "" && Trimmed(url.value) && HasHttpScheme(url.value)
  }

  /** What the create path guarantees of every row it writes. */
  predicate WellFormed(p: Project) {
    && 3 <= Utf16Length(p.title) <= 150
    && 3 <= Utf16Length(p.slug) <= 150 && MatchesSlugPattern(p.slug)
    && 10 <= Utf16Length(p.shortDesc) <= 500
    && StoredUrl(p.coverUrl) && StoredUrl(p.projectUrl)
    && (p.body.Some? ==> Trim(p.body.value) != "" && Utf16Length(p.body.value) <= 5000)
  }

  /** Every row built from validated input satisfies the stored-row invariants. */
  lemma RecordWellFormed(m: map<string, Json>, d: ProjectInput, id: string, createdAt: int)
    requires ParsedFrom(m, d)
    ensures WellFormed(NewRecord(id, createdAt, d))
  {
    assert RequiredFrom(m, d);
    StoredUrlWellFormed(Lookup(m, "coverUrl"), d.coverUrl);
    StoredUrlWellFormed(Lookup(m, "projectUrl"), d.projectUrl);
    assert BodyFrom(Lookup(m, "body"), d.body);
  }

  lemma StoredUrlWellFormed(v: Option<Json>, url: string)
    requires UrlFrom(v, url)
    ensures StoredUrl(NullIfEmpty(url))
  {
  }

  /** A payload that validates is stored with its scalar fields as sent, empty
      optional fields as `null`, and its tag set equal to the sent ids. */
  lemma RecordFromPayload(m: map<string, Json>, d: ProjectInput, id: string, createdAt: int)
    requires ParsedFrom(m, d)
    ensures var p := NewRecord(id, createdAt, d);
      && Lookup(m, "title") == Some(JString(p.title))
      && Lookup(m, "slug") == Some(JString(p.slug))
      && Lookup(m, "shortDesc") == Some(JString(p.shortDesc))
      && p.coverUrl == NullIfEmpty(Trim(StringOr(Lookup(m, "coverUrl"), "")))
      && p.projectUrl == NullIfEmpty(Trim(StringOr(Lookup(m, "projectUrl"), "")))
      && (p.body.None? <==> Trim(StringOr(Lookup(m, "body"), "")) == "")
      && (p.body.Some? ==> Lookup(m, "body") == Some(JString(p.body.value)))
      && (Lookup(m, "tagIds").None? ==> p.tagIds == {})
      && (Lookup(m, "tagIds").Some? ==> p.tagIds == SentIds(Lookup(m, "tagIds").value.items))
  {
    assert RequiredFrom(m, d);
    StoredUrlFromPayload(Lookup(m, "coverUrl"), d.coverUrl);
    StoredUrlFromPayload(Lookup(m, "projectUrl"), d.projectUrl);
    StoredBodyFromPayload(Lookup(m, "body"), d.body);
    StoredTagsFromPayload(Lookup(m, "tagIds"), d.tagIds);
  }

  /** The ids of a sent `tagIds` array, as a set. */
  function SentIds(items: seq<Json>): set<string> {
    set i | 0 <= i < |items| && items[i].JString? :: items[i].str
  }

  /** The tags connected are exactly the ids sent (`connect: tagIds.map(...)`). */
  lemma StoredTagsFromPayload(v: Option<Json>, tagIds: seq<string>)
    requires TagIdsFrom(v, tagIds)
    ensures v.None? ==> (set t | t in tagIds) == {}
    ensures v.Some? ==> (set t | t in tagIds) == SentIds(v.value.items)
  {
    if v.Some? {
      var items := JsonStrings(tagIds);
      assert v.value.items == items;
      forall t | t in tagIds ensures t in SentIds(items) {
        var i :| 0 <= i < |tagIds| && tagIds[i] == t;
        assert items[i] == JString(t);
      }
      forall t | t in SentIds(items) ensures t in tagIds {
        var i :| 0 <= i < |items| && items[i].JString? && items[i].str == t;
        assert tagIds[i] == t;
      }
    }
  }

  /** A parsed URL field is stored as the trimmed value sent, or `null`. */
  lemma StoredUrlFromPayload(v: Option<Json>, url: string)
    requires UrlFrom(v, url)
    ensures NullIfEmpty(url) == NullIfEmpty(Trim(StringOr(v, "")))
  {
  }

  /** A parsed body is stored verbatim, or `null` when it trims to nothing. */
  lemma StoredBodyFromPayload(v: Option<Json>, body: string)
    requires BodyFrom(v, body)
    ensures var stored := if Trim(body) != "" then Some(body) else None;
      && (stored.None? <==> Trim(StringOr(v, "")) == "")
      && (stored.Some? ==> v == Some(JString(body)))
  {
    if v.Some? {
      assert StringOr(v, "") == body;
    } else {
      assert Trimmed(body);
    }
  }

  /** The tags a set of ids resolves to. */
  function ResolveTags(tags: map<string, Tag>, ids: set<string>): set<Tag> {
    set id | id in ids && id in tags :: tags[id]
  }

  /** Some stored project has this slug (`findUnique({ where: { slug } })`). */
  ghost predicate SlugInUse(projects: map<string, Project>, slug: string) {
    exists key :: key in projects && projects[key].slug == slug
  }

  class ProjectStore {
    /** The project table, keyed by slug. */
    var projects: map<string, Project>
    /** The seeded tag table, keyed by id. */
    var tags: map<string, Tag>

    ghost predicate Valid()
      reads this
    {
      && (forall s :: s in projects ==> projects[s].slug == s)
      && (forall s :: s in projects ==> WellFormed(projects[s]))
      && (forall s :: s in projects ==> projects[s].tagIds <= tags.Keys)
      && (forall s, t :: s in projects && t in projects && s != t ==> projects[s].id != projects[t].id)
      && (forall id :: id in tags ==> tags[id].id == id)
    }

    constructor (seededTags: map<string, Tag>)
      requires forall id :: id in seededTags ==> seededTags[id].id == id
      ensures Valid()
      ensures projects == map[] && tags == seededTags
    {
      projects := map[];
      tags := seededTags;
    }

    /** `POST /api/admin/projects`. `newId` and `now` are what the database
        generates; `databaseFails` stands for any exception thrown by `create`.
        A tag id that names no tag also makes `create` fail. */
    method Create(request: RequestBody, newId: string, now: int, databaseFails: bool) returns (response: Response)
      requires Valid()
      requires forall s :: s in projects ==> projects[s].id != newId
      modifies this
      ensures Valid() && tags == old(tags)
      ensures response.status != 201 ==> projects == old(projects)
      ensures request.MalformedJson? ==> response == InvalidJson
      ensures request.JsonBody? && Parse(request.payload).Err? ==>
        response == InvalidData(FieldErrors(Parse(request.payload).error))
      ensures request.JsonBody? && Parse(request.payload).Ok? ==>
        var d := Parse(request.payload).value;
        var record := NewRecord(newId, now, d);
        && (SlugInUse(old(projects), d.slug) ==> response == SlugConflict)
        && (!SlugInUse(old(projects), d.slug) && (databaseFails || !(record.tagIds <= tags.Keys)) ==>
              response == StoreFailure)
        && (!SlugInUse(old(projects), d.slug) && !databaseFails && record.tagIds <= tags.Keys ==>
              && response == Response(201, ProjectBody(record, ResolveTags(tags, record.tagIds)))
              && projects == old(projects)[d.slug := record])
    {
      if request.MalformedJson? {
        return InvalidJson;
      }
      var parsed := Parse(request.payload);
      if parsed.Err? {
        var fieldErrors := CollectFieldErrors(parsed.error);
        return InvalidData(fieldErrors);
      }
      RecordWellFormed(request.payload.members, parsed.value, newId, now);
      response := Store(parsed.value, newId, now, databaseFails);
    }

    /** The part of the handler after validation: the slug check and the write. */
    method Store(data: ProjectInput, newId: string, now: int, databaseFails: bool) returns (response: Response)
      requires Valid()
      requires forall s :: s in projects ==> projects[s].id != newId
      requires WellFormed(NewRecord(newId, now, data))
      modifies this
      ensures Valid() && tags == old(tags)
      ensures response.status != 201 ==> projects == old(projects)
      ensures var record := NewRecord(newId, now, data);
        && (SlugInUse(old(projects), data.slug) ==> response == SlugConflict)
        && (!SlugInUse(old(projects), data.slug) && (databaseFails || !(record.tagIds <= tags.Keys)) ==>
              response == StoreFailure)
        && (!SlugInUse(old(projects), data.slug) && !databaseFails && record.tagIds <= tags.Keys ==>
              && response == Response(201, ProjectBody(record, ResolveTags(tags, record.tagIds)))
              && projects == old(projects)[data.slug := record])
    {
      if data.slug in projects {
        assert projects[data.slug].slug == data.slug;
        return SlugConflict;
      }
      var record := NewRecord(newId, now, data);
      if databaseFails || !(record.tagIds <= tags.Keys) {
        return StoreFailure;
      }
      projects := projects[data.slug := record];
      response := Response(201, ProjectBody(record, ResolveTags(tags, record.tagIds)));
    }
  }

  /** A second write of the same validated input is refused as a slug conflict
      and leaves the store, in particular the first project, as it was. */
  method StoreTwiceConflicts(store: ProjectStore, data: ProjectInput, id1: string, id2: string, now: int)
    returns (first: Response, second: Response)
    requires store.Valid()
    requires forall s :: s in store.projects ==> store.projects[s].id != id1 && store.projects[s].id != id2
    requires id1 != id2
    requires WellFormed(NewRecord(id1, now, data)) && WellFormed(NewRecord(id2, now, data))
    modifies store
    ensures first.status == 201 ==> second == SlugConflict
    ensures first.status == 201 ==> store.projects == old(store.projects)[data.slug := NewRecord(id1, now, data)]
  {
    first := store.Store(data, id1, now, false);
    if first.status == 201 {
      assert store.projects[data.slug].slug == data.slug;
    }
    second := store.Store(data, id2, now, false);
  }
}
