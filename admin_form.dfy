/** The project editor of components/AdminProjectForm.tsx: its field state, the
    title-to-slug derivation until the slug is edited by hand, tag toggling,
    and the request built on submit. The component's `useState` hooks are the
    fields of a class; the updater bodies are functions on the state value. */
module AdminForm {
  import opened Wrappers
  import opened JsStrings
  import opened Utils
  import ProjectSchema

  datatype Mode = CreateMode | EditMode

  datatype TagRef = TagRef(id: string, name: string, slug: string)

  /** The `project` prop of edit mode, with `null` columns as `None`. */
  datatype ProjectView = ProjectView(
    id: string,
    title: string,
    slug: string,
    shortDesc: string,
    coverUrl: Option<string>,
    body: Option<string>,
    tags: seq<TagRef>)

  /** `ProjectPayload`: the form's state, and also what is sent. */
  datatype ProjectPayload = ProjectPayload(
    title: string,
    slug: string,
    shortDesc: string,
    coverUrl: string,
    body: string,
    tagIds: seq<string>)

  /** The text fields `handleChange` is attached to. */
  datatype Field = Title | Slug | ShortDesc | CoverUrl | Body

  const EmptyPayload := ProjectPayload("", "", "", "", "", [])

  /** `project.tags.map((tag) => tag.id)`. */
  function TagIds(tags: seq<TagRef>): (r: seq<string>)
    ensures |r| == |tags|
    ensures forall i :: 0 <= i < |tags| ==> r[i] == tags[i].id
  {
    if tags == [] then [] else [tags[0].id] + TagIds(tags[1..])
  }

  /** The initial `formState`: empty without a project, otherwise the project's
      fields with `null` as "" and its tag ids in order. */
  function InitialState(project: Option<ProjectView>): (r: ProjectPayload)
    ensures project.None? ==> r == EmptyPayload
    ensures project.Some? ==>
      var p := project.value;
      && r.title == p.title && r.slug == p.slug && r.shortDesc == p.shortDesc
      && (p.coverUrl.Some? ==> r.coverUrl == p.coverUrl.value)
      && (p.coverUrl.None? ==> r.coverUrl == "")
      && (p.body.Some? ==> r.body == p.body.value)
      && (p.body.None? ==> r.body == "")
      && r.tagIds == TagIds(p.tags)
      && (forall id :: id in r.tagIds <==> exists t :: t in p.tags && t.id == id)
  {
    match project
    case None => EmptyPayload
    case Some(p) =>
      var ids := TagIds(p.tags);
      assert forall id :: id in ids ==> exists t :: t in p.tags && t.id == id by {
        forall id | id in ids ensures exists t :: t in p.tags && t.id == id {
          var i :| 0 <= i < |ids| && ids[i] == id;
          assert p.tags[i] in p.tags;
        }
      }
      assert forall t :: t in p.tags ==> t.id in ids by {
        forall t | t in p.tags ensures t.id in ids {
          var i :| 0 <= i < |p.tags| && p.tags[i] == t;
          assert ids[i] == t.id;
        }
      }
      ProjectPayload(p.title, p.slug, p.shortDesc,
        if p.coverUrl.Some? then p.coverUrl.value else "",
        if p.body.Some? then p.body.value else "",
        ids)
  }

  function FieldValue(s: ProjectPayload, f: Field): string {
    match f
    case Title => s.title
    case Slug => s.slug
    case ShortDesc => s.shortDesc
    case CoverUrl => s.coverUrl
    case Body => s.body
  }

  /** The `setFormState` updater of `handleChange(field)`: the field takes the
      typed value and, for a title edit while the slug is still automatic, the
      slug follows the title. */
  function ApplyChange(s: ProjectPayload, f: Field, value: string, slugEdited: bool): (r: ProjectPayload)
    ensures FieldValue(r, f) == value
    ensures f == Title && !slugEdited ==> r.slug == Slugify(value)
    ensures f != Title ==> r.title == s.title
    ensures f != Slug && !(f == Title && !slugEdited) ==> r.slug == s.slug
    ensures f != ShortDesc ==> r.shortDesc == s.shortDesc
    ensures f != CoverUrl ==> r.coverUrl == s.coverUrl
    ensures f != Body ==> r.body == s.body
    ensures r.tagIds == s.tagIds
  {
    match f
    case Title => s.(title := value, slug := if slugEdited then s.slug else Slugify(value))
    case Slug => s.(slug := value)
    case ShortDesc => s.(shortDesc := value)
    case CoverUrl => s.(coverUrl := value)
    case Body => s.(body := value)
  }

  predicate AutoSlugKept(s: ProjectPayload, slugEdited: bool, titleEdited: bool) {
    !slugEdited && titleEdited ==> s.slug == Slugify(s.title)
  }

  /** A change keeps the slug automatic: while the slug has not been edited by
      hand, once the title has been typed the slug is the title's slug. */
  lemma ChangeKeepsAutoSlug(s: ProjectPayload, f: Field, value: string, slugEdited: bool, titleEdited: bool)
    requires AutoSlugKept(s, slugEdited, titleEdited)
    ensures AutoSlugKept(ApplyChange(s, f, value, slugEdited), slugEdited || f == Slug, titleEdited || f == Title)
  {
  }

  /** `ids.filter((id) => id !== tagId)`. */
  function Without(ids: seq<string>, tagId: string): (r: seq<string>)
    ensures tagId !in r
    ensures forall x :: x in r <==> x in ids && x != tagId
    ensures forall x :: x != tagId ==> multiset(r)[x] == multiset(ids)[x]
    ensures |r| <= |ids|
  {
    if ids == [] then []
    else
      var rest := Without(ids[1..], tagId);
      assert ids == [ids[0]] + ids[1..];
      if ids[0] == tagId then rest
      else
        assert multiset([ids[0]] + rest) == multiset([ids[0]]) + multiset(rest);
        [ids[0]] + rest
  }

  /** The filter works element by element: it keeps the other ids in their
      order, so filtering a concatenation is concatenating the filtered parts,
      and a single id is kept exactly when it is not the one removed. */
  lemma {:induction false} WithoutConcat(a: seq<string>, b: seq<string>, tagId: string)
    ensures Without(a + b, tagId) == Without(a, tagId) + Without(b, tagId)
    ensures |a| == 1 ==> Without(a, tagId) == if a[0] == tagId then [] else a
  {
    if a == [] {
      assert a + b == b;
    } else {
      assert (a + b)[0] == a[0];
      assert (a + b)[1..] == a[1..] + b;
      WithoutConcat(a[1..], b, tagId);
      if a[0] != tagId {
        assert [a[0]] + (Without(a[1..], tagId) + Without(b, tagId))
            == ([a[0]] + Without(a[1..], tagId)) + Without(b, tagId);
      }
    }
  }

  /** The `tagIds` after `toggleTag(tagId)`: every occurrence removed when
      present, otherwise appended at the end. */
  function Toggle(ids: seq<string>, tagId: string): (r: seq<string>)
    ensures tagId in r <==> tagId !in ids
    ensures forall x :: x != tagId ==> (x in r <==> x in ids)
    ensures tagId !in ids ==> |r| == |ids| + 1 && r[..|ids|] == ids
    ensures tagId in ids ==> r == Without(ids, tagId)
  {
    if tagId in ids then Without(ids, tagId) else ids + [tagId]
  }

  predicate NoDuplicates(ids: seq<string>) {
    forall i, j :: 0 <= i < j < |ids| ==> ids[i] != ids[j]
  }

  lemma {:induction false} WithoutKeepsDistinct(ids: seq<string>, tagId: string)
    requires NoDuplicates(ids)
    ensures NoDuplicates(Without(ids, tagId))
  {
    if ids != [] {
      assert NoDuplicates(ids[1..]) by {
        forall i, j | 0 <= i < j < |ids[1..]| ensures ids[1..][i] != ids[1..][j] {
          assert ids[1..][i] == ids[i + 1] && ids[1..][j] == ids[j + 1];
        }
      }
      WithoutKeepsDistinct(ids[1..], tagId);
      if ids[0] != tagId {
        var rest := Without(ids[1..], tagId);
        assert ids[0] !in ids[1..] by {
          forall k | 0 <= k < |ids[1..]| ensures ids[1..][k] != ids[0] {
            assert ids[1..][k] == ids[k + 1];
          }
        }
        assert ids[0] !in rest;
        var r := [ids[0]] + rest;
        forall i, j | 0 <= i < j < |r| ensures r[i] != r[j] {
          if i == 0 {
            assert r[j] == rest[j - 1];
          } else {
            assert r[i] == rest[i - 1] && r[j] == rest[j - 1];
          }
        }
      }
    }
  }

  /** Toggling keeps a duplicate-free tag list duplicate-free. */
  lemma ToggleKeepsDistinct(ids: seq<string>, tagId: string)
    requires NoDuplicates(ids)
    ensures NoDuplicates(Toggle(ids, tagId))
  {
    if tagId in ids {
      WithoutKeepsDistinct(ids, tagId);
    } else {
      var r := ids + [tagId];
      forall i, j | 0 <= i < j < |r| ensures r[i] != r[j] {
        if j == |ids| {
          assert r[i] == ids[i];
        } else {
          assert r[i] == ids[i] && r[j] == ids[j];
        }
      }
    }
  }

  /** Removing an id that is absent changes nothing. */
  lemma {:induction false} WithoutAbsent(ids: seq<string>, tagId: string)
    requires tagId !in ids
    ensures Without(ids, tagId) == ids
  {
    if ids != [] {
      assert tagId !in ids[1..];
      WithoutAbsent(ids[1..], tagId);
      assert [ids[0]] + ids[1..] == ids;
    }
  }

  /** Removing ignores an id appended at the end. */
  lemma {:induction false} WithoutAppended(ids: seq<string>, tagId: string)
    ensures Without(ids + [tagId], tagId) == Without(ids, tagId)
  {
    if ids == [] {
      assert [] + [tagId] == [tagId];
      assert [tagId][1..] == [];
    } else {
      assert (ids + [tagId])[1..] == ids[1..] + [tagId];
      WithoutAppended(ids[1..], tagId);
    }
  }

  /** Toggling twice restores membership; an id that was absent leaves the list
      exactly as it was, one that was present ends up once, at the end. */
  lemma ToggleTwice(ids: seq<string>, tagId: string)
    ensures forall x :: x in Toggle(Toggle(ids, tagId), tagId) <==> x in ids
    ensures tagId !in ids ==> Toggle(Toggle(ids, tagId), tagId) == ids
    ensures tagId in ids ==> Toggle(Toggle(ids, tagId), tagId) == Without(ids, tagId) + [tagId]
  {
    if tagId !in ids {
      WithoutAppended(ids, tagId);
      WithoutAbsent(ids, tagId);
    }
  }

  /** The payload of `handleSubmit`: the short description, cover URL and body
      trimmed; title, slug and tag ids as they are. */
  function SubmitPayload(s: ProjectPayload): (r: ProjectPayload)
    ensures r.title == s.title && r.slug == s.slug && r.tagIds == s.tagIds
    ensures r.shortDesc == Trim(s.shortDesc) && r.coverUrl == Trim(s.coverUrl) && r.body == Trim(s.body)
    ensures Trimmed(r.shortDesc) && Trimmed(r.coverUrl) && Trimmed(r.body)
    ensures Trimmed(s.shortDesc) && Trimmed(s.coverUrl) && Trimmed(s.body) ==> r == s
  {
    s.(shortDesc := Trim(s.shortDesc), coverUrl := Trim(s.coverUrl), body := Trim(s.body))
  }

  /** Normalising an already normalised payload changes nothing. */
  lemma SubmitPayloadIdempotent(s: ProjectPayload)
    ensures SubmitPayload(SubmitPayload(s)) == SubmitPayload(s)
  {
    var r := SubmitPayload(s);
    assert Trimmed(r.shortDesc) && Trimmed(r.coverUrl) && Trimmed(r.body);
  }

  /** `JSON.stringify(payload)` as the server reads it back: six members, no `projectUrl`. */
  function PayloadJson(p: ProjectPayload): ProjectSchema.Json {
    ProjectSchema.JObject(map[
      "title" := ProjectSchema.JString(p.title),
      "slug" := ProjectSchema.JString(p.slug),
      "shortDesc" := ProjectSchema.JString(p.shortDesc),
      "coverUrl" := ProjectSchema.JString(p.coverUrl),
      "body" := ProjectSchema.JString(p.body),
      "tagIds" := ProjectSchema.JArray(ProjectSchema.JsonStrings(p.tagIds))])
  }

  /** What the server does to the submitted URL fields is already done: the
      cover URL it trims is the one sent, and it sees no project URL, so it
      stores that one as `null`. */
  lemma SubmittedUrlsNormalised(s: ProjectPayload)
    ensures var m := PayloadJson(SubmitPayload(s)).members;
      && ProjectSchema.Lookup(m, "coverUrl") == Some(ProjectSchema.JString(SubmitPayload(s).coverUrl))
      && Trim(SubmitPayload(s).coverUrl) == SubmitPayload(s).coverUrl
      && ProjectSchema.Lookup(m, "projectUrl").None?
  {
    var p := SubmitPayload(s);
    assert Trimmed(p.coverUrl);
    var m := PayloadJson(p).members;
    assert m.Keys == {"title", "slug", "shortDesc", "coverUrl", "body", "tagIds"};
    assert "projectUrl" !in m.Keys;
    assert m["coverUrl"] == ProjectSchema.JString(p.coverUrl);
  }

  datatype HttpMethod = Post | Put

  /** `/api/admin/projects` or `/api/admin/projects/{id}`. */
  datatype Endpoint = Collection | Item(id: string)

  // `method` is a Dafny keyword, so the HTTP method is `verb` here.
  datatype Request = Request(verb: HttpMethod, endpoint: Endpoint, payload: ProjectPayload)

  /** The request of `handleSubmit`, or `None` when edit mode has no project
      and `project!.id` throws before anything is sent. */
  function SubmitRequest(mode: Mode, project: Option<ProjectView>, s: ProjectPayload): (r: Option<Request>)
    ensures r.Some? <==> mode == CreateMode || project.Some?
    ensures r.Some? ==> r.value.payload == SubmitPayload(s)
    ensures r.Some? ==> (r.value.verb == Post <==> r.value.endpoint == Collection)
    ensures r.Some? ==> (r.value.verb == Post <==> mode == CreateMode)
    ensures r.Some? && mode == EditMode ==> r.value.endpoint == Item(project.value.id)
  {
    if mode == CreateMode then Some(Request(Post, Collection, SubmitPayload(s)))
    else if project.Some? then Some(Request(Put, Item(project.value.id), SubmitPayload(s)))
    else None
  }

  /** A slug derived from a title, when non-empty, has the form the server's slug
      pattern accepts. */
  lemma AutoSlugMatchesPattern(title: string)
    requires Slugify(title) != ""
    ensures ProjectSchema.MatchesSlugPattern(Slugify(title))
  {
    SlugifyShape(title);
  }

  /** How a save ended: success, a non-2xx reply (with its `fields`, if any), or
      no reply at all. */
  datatype SaveOutcome = Saved | Rejected(fields: Option<map<string, string>>) | Unreachable

  class AdminProjectForm {
    var mode: Mode
    var project: Option<ProjectView>
    var formState: ProjectPayload
    var slugEdited: bool
    var errors: map<string, string>
    var isSubmitting: bool
    /** The title has been typed into since the form was opened. */
    ghost var titleEdited: bool

    /** Until the slug is edited by hand, a typed title decides the slug. */
    ghost predicate Valid()
      reads this
    {
      AutoSlugKept(formState, slugEdited, titleEdited)
    }

    constructor (mode: Mode, project: Option<ProjectView>)
      ensures Valid()
      ensures this.mode == mode && this.project == project
      ensures formState == InitialState(project)
      ensures !slugEdited && !titleEdited && errors == map[] && !isSubmitting
    {
      this.mode := mode;
      this.project := project;
      formState := InitialState(project);
      slugEdited := false;
      errors := map[];
      isSubmitting := false;
      titleEdited := false;
    }

    /** `handleChange(field)` with the typed value; editing the slug latches `slugEdited`. */
    method HandleChange(f: Field, value: string)
      requires Valid()
      modifies this
      ensures Valid()
      ensures formState == ApplyChange(old(formState), f, value, old(slugEdited))
      ensures slugEdited == (old(slugEdited) || f == Slug)
      ensures mode == old(mode) && project == old(project)
      ensures errors == old(errors) && isSubmitting == old(isSubmitting)
    {
      ChangeKeepsAutoSlug(formState, f, value, slugEdited, titleEdited);
      formState := ApplyChange(formState, f, value, slugEdited);
      slugEdited := slugEdited || f == Slug;
      titleEdited := titleEdited || f == Title;
    }

    /** `toggleTag(tagId)`. */
    method ToggleTag(tagId: string)
      requires Valid()
      modifies this
      ensures Valid()
      ensures formState == old(formState).(tagIds := Toggle(old(formState.tagIds), tagId))
      ensures slugEdited == old(slugEdited) && errors == old(errors) && isSubmitting == old(isSubmitting)
      ensures mode == old(mode) && project == old(project)
    {
      formState := formState.(tagIds := Toggle(formState.tagIds, tagId));
    }

    /** The synchronous start of `handleSubmit`: errors cleared, the form busy,
        and the request to send. When the request cannot be built the error is
        caught at once and the form is no longer busy. */
    method BeginSubmit() returns (request: Option<Request>)
      requires Valid()
      modifies this
      ensures Valid()
      ensures request == SubmitRequest(mode, project, formState)
      ensures errors == map[]
      ensures isSubmitting == request.Some?
      ensures formState == old(formState) && slugEdited == old(slugEdited)
      ensures mode == old(mode) && project == old(project)
    {
      isSubmitting := true;
      errors := map[];
      request := SubmitRequest(mode, project, formState);
      if request.None? {
        isSubmitting := false;
      }
    }

    /** The end of `handleSubmit`: a rejection with `fields` shows them, and the
        form is no longer busy whatever happened. */
    method CompleteSubmit(outcome: SaveOutcome)
      requires Valid()
      modifies this
      ensures Valid()
      ensures !isSubmitting
      ensures outcome.Rejected? && outcome.fields.Some? ==> errors == outcome.fields.value
      ensures !(outcome.Rejected? && outcome.fields.Some?) ==> errors == old(errors)
      ensures formState == old(formState) && slugEdited == old(slugEdited)
      ensures mode == old(mode) && project == old(project)
    {
      if outcome.Rejected? && outcome.fields.Some? {
        errors := outcome.fields.value;
      }
      isSubmitting := false;
    }
  }
}
