/** `projectSchema` of app/api/admin/projects/route.ts: the zod object schema that
    the create handler applies to the parsed JSON body. Validation yields either
    the normalised input or the list of issues, in zod's order: the fields in
    declaration order and, within a string field, the type check, then `min`,
    `max` and `regex` (zod reports every failing check, not only the first). */
module ProjectSchema {
  import opened Wrappers
  import opened JsStrings
  import opened Utils

  /** A value produced by `JSON.parse`. */
  datatype Json =
    | JNull
    | JBool(boolean: bool)
    | JNumber(number: real)
    | JString(str: string)
    | JArray(items: seq<Json>)
    | JObject(members: map<string, Json>)

  /** The type name zod reports as "received". */
  function TypeName(v: Json): string {
    match v
    case JNull => "null"
    case JBool(_) => "boolean"
    case JNumber(_) => "number"
    case JString(_) => "string"
    case JArray(_) => "array"
    case JObject(_) => "object"
  }

  /** A zod issue: the first element of its path (`None` for the empty path) and its message. */
  datatype Issue = Issue(path: Option<string>, message: string)

  const RequiredMessage := "Required"
  const TitleMinMessage := "Title must be at least 3 characters."
  const TitleMaxMessage := "String must contain at most 150 character(s)"
  const SlugMinMessage := "Slug must be at least 3 characters."
  const SlugMaxMessage := "String must contain at most 150 character(s)"
  const SlugPatternMessage := "Slug may only contain lowercase letters, numbers, and dashes."
  const ShortDescMinMessage := "Short description must be at least 10 characters."
  const ShortDescMaxMessage := "String must contain at most 500 character(s)"
  const CoverUrlMessage := "Cover URL must start with http:// or https://"
  const ProjectUrlMessage := "Project URL must start with http:// or https://"
  const BodyMaxMessage := "Body must be under 5000 characters."

  function InvalidTypeMessage(expected: string, received: Json): string {
    "Expected " + expected + ", received " + TypeName(received)
  }

  /** The regular expression `^[a-z0-9-]+$`. */
  predicate MatchesSlugPattern(s: string) {
    s != [] && forall i :: 0 <= i < |s| ==> IsSlugChar(s[i])
  }

  /** The regular expression `/^https?:\/\//i` (ASCII case-insensitive). */
  predicate HasHttpScheme(s: string) {
    var lower := LowerAscii(s);
    StartsWith(lower, "http://") || StartsWith(lower, "https://")
  }

  function Lookup(members: map<string, Json>, key: string): Option<Json> {
    if key in members then Some(members[key]) else None
  }

  // What each field accepts, stated on its own.

  predicate TitleAccepted(v: Option<Json>) {
    v.Some? && v.value.JString? && 3 <= Utf16Length(v.value.str) <= 150
  }

  predicate SlugAccepted(v: Option<Json>) {
    v.Some? && v.value.JString? && 3 <= Utf16Length(v.value.str) <= 150
    && MatchesSlugPattern(v.value.str)
  }

  predicate ShortDescAccepted(v: Option<Json>) {
    v.Some? && v.value.JString? && 10 <= Utf16Length(v.value.str) <= 500
  }

  /** Absent, or a string whose trim is empty or starts with an http(s) scheme. */
  predicate UrlAccepted(v: Option<Json>) {
    v.None? || (v.value.JString? && (Trim(v.value.str) == "" || HasHttpScheme(Trim(v.value.str))))
  }

  predicate BodyAccepted(v: Option<Json>) {
    v.None? || (v.value.JString? && Utf16Length(v.value.str) <= 5000)
  }

  predicate TagIdsAccepted(v: Option<Json>) {
    v.None? || (v.value.JArray? && forall i :: 0 <= i < |v.value.items| ==> v.value.items[i].JString?)
  }

  const SchemaFields: set<string> := {"title", "slug", "shortDesc", "coverUrl", "projectUrl", "body", "tagIds"}

  predicate AllFieldsAccepted(m: map<string, Json>) {
    && TitleAccepted(Lookup(m, "title"))
    && SlugAccepted(Lookup(m, "slug"))
    && ShortDescAccepted(Lookup(m, "shortDesc"))
    && UrlAccepted(Lookup(m, "coverUrl"))
    && UrlAccepted(Lookup(m, "projectUrl"))
    && BodyAccepted(Lookup(m, "body"))
    && TagIdsAccepted(Lookup(m, "tagIds"))
  }

  // The issues zod reports, field by field.

  /** Every issue names `field` and has a non-empty message. */
  predicate AllAbout(issues: seq<Issue>, field: string) {
    forall i :: 0 <= i < |issues| ==> issues[i].path == Some(field) && issues[i].message != ""
  }

  function LengthIssues(field: string, s: string, min: nat, max: nat, minMessage: string, maxMessage: string): (r: seq<Issue>)
    requires minMessage != "" && maxMessage != ""
    ensures AllAbout(r, field)
    ensures r == [] <==> min <= Utf16Length(s) <= max
  {
    (if Utf16Length(s) < min then [Issue(Some(field), minMessage)] else [])
    + (if Utf16Length(s) > max then [Issue(Some(field), maxMessage)] else [])
  }

  function TypeIssue(field: string, expected: string, received: Json): Issue {
    Issue(Some(field), InvalidTypeMessage(expected, received))
  }

  function TitleIssues(v: Option<Json>): (r: seq<Issue>)
    ensures AllAbout(r, "title")
    ensures r == [] <==> TitleAccepted(v)
  {
    match v
    case None => [Issue(Some("title"), RequiredMessage)]
    case Some(JString(s)) => LengthIssues("title", s, 3, 150, TitleMinMessage, TitleMaxMessage)
    case Some(j) => [TypeIssue("title", "string", j)]
  }

  function SlugIssues(v: Option<Json>): (r: seq<Issue>)
    ensures AllAbout(r, "slug")
    ensures r == [] <==> SlugAccepted(v)
  {
    match v
    case None => [Issue(Some("slug"), RequiredMessage)]
    case Some(JString(s)) =>
      LengthIssues("slug", s, 3, 150, SlugMinMessage, SlugMaxMessage)
      + (if MatchesSlugPattern(s) then [] else [Issue(Some("slug"), SlugPatternMessage)])
    case Some(j) => [TypeIssue("slug", "string", j)]
  }

  function ShortDescIssues(v: Option<Json>): (r: seq<Issue>)
    ensures AllAbout(r, "shortDesc")
    ensures r == [] <==> ShortDescAccepted(v)
  {
    match v
    case None => [Issue(Some("shortDesc"), RequiredMessage)]
    case Some(JString(s)) => LengthIssues("shortDesc", s, 10, 500, ShortDescMinMessage, ShortDescMaxMessage)
    case Some(j) => [TypeIssue("shortDesc", "string", j)]
  }

  /** `z.string().trim().optional().transform(v => v ?? "").refine(...)`. */
  function UrlIssues(field: string, v: Option<Json>, message: string): (r: seq<Issue>)
    requires message != ""
    ensures AllAbout(r, field)
    ensures r == [] <==> UrlAccepted(v)
  {
    match v
    case None => []
    case Some(JString(s)) =>
      var t := Trim(s);
      if t == "" || HasHttpScheme(t) then [] else [Issue(Some(field), message)]
    case Some(j) => [TypeIssue(field, "string", j)]
  }

  function BodyIssues(v: Option<Json>): (r: seq<Issue>)
    ensures AllAbout(r, "body")
    ensures r == [] <==> BodyAccepted(v)
  {
    match v
    case None => []
    case Some(JString(s)) => if Utf16Length(s) > 5000 then [Issue(Some("body"), BodyMaxMessage)] else []
    case Some(j) => [TypeIssue("body", "string", j)]
  }

  /** One issue per element that is not a string (each at path `tagIds.<index>`). */
  function ElementIssues(items: seq<Json>): (r: seq<Issue>)
    ensures AllAbout(r, "tagIds")
    ensures r == [] <==> forall i :: 0 <= i < |items| ==> items[i].JString?
  {
    if items == [] then []
    else
      (if items[0].JString? then [] else [TypeIssue("tagIds", "string", items[0])])
      + ElementIssues(items[1..])
  }

  function TagIdsIssues(v: Option<Json>): (r: seq<Issue>)
    ensures AllAbout(r, "tagIds")
    ensures r == [] <==> TagIdsAccepted(v)
  {
    match v
    case None => []
    case Some(JArray(items)) => ElementIssues(items)
    case Some(j) => [TypeIssue("tagIds", "array", j)]
  }

  /** All issues for a payload; a payload that is not an object gets a single
      issue with an empty path. */
  function Issues(payload: Json): seq<Issue> {
    match payload
    case JObject(m) =>
      TitleIssues(Lookup(m, "title"))
      + SlugIssues(Lookup(m, "slug"))
      + ShortDescIssues(Lookup(m, "shortDesc"))
      + UrlIssues("coverUrl", Lookup(m, "coverUrl"), CoverUrlMessage)
      + UrlIssues("projectUrl", Lookup(m, "projectUrl"), ProjectUrlMessage)
      + BodyIssues(Lookup(m, "body"))
      + TagIdsIssues(Lookup(m, "tagIds"))
    case _ => [Issue(None, InvalidTypeMessage("object", payload))]
  }

  /** `parsed.data`: the output of a successful parse. */
  datatype ProjectInput = ProjectInput(
    title: string,
    slug: string,
    shortDesc: string,
    coverUrl: string,
    projectUrl: string,
    body: string,
    tagIds: seq<string>)

  function StringOr(v: Option<Json>, default: string): string {
    match v
    case Some(JString(s)) => s
    case _ => default
  }

  function Strings(items: seq<Json>): (r: seq<string>)
    ensures |r| == |items|
    ensures forall i :: 0 <= i < |items| && items[i].JString? ==> r[i] == items[i].str
  {
    if items == [] then [] else [StringOr(Some(items[0]), "")] + Strings(items[1..])
  }

  function Output(m: map<string, Json>): ProjectInput {
    ProjectInput(
      StringOr(Lookup(m, "title"), ""),
      StringOr(Lookup(m, "slug"), ""),
      StringOr(Lookup(m, "shortDesc"), ""),
      Trim(StringOr(Lookup(m, "coverUrl"), "")),
      Trim(StringOr(Lookup(m, "projectUrl"), "")),
      StringOr(Lookup(m, "body"), ""),
      match Lookup(m, "tagIds") case Some(JArray(items)) => Strings(items) case _ => [])
  }

  predicate MessagesNonEmpty(issues: seq<Issue>) {
    forall i :: 0 <= i < |issues| ==> issues[i].message != ""
  }

  /** The issue list is empty exactly when every field passes, and no message is empty. */
  lemma IssuesEmptyIff(payload: Json)
    ensures Issues(payload) == [] <==> payload.JObject? && AllFieldsAccepted(payload.members)
    ensures MessagesNonEmpty(Issues(payload))
  {
    if payload.JObject? {
      var m := payload.members;
      var a := TitleIssues(Lookup(m, "title"));
      var b := SlugIssues(Lookup(m, "slug"));
      var c := ShortDescIssues(Lookup(m, "shortDesc"));
      var d := UrlIssues("coverUrl", Lookup(m, "coverUrl"), CoverUrlMessage);
      var e := UrlIssues("projectUrl", Lookup(m, "projectUrl"), ProjectUrlMessage);
      var f := BodyIssues(Lookup(m, "body"));
      var g := TagIdsIssues(Lookup(m, "tagIds"));
      assert Issues(payload) == a + b + c + d + e + f + g;
      forall i | 0 <= i < |Issues(payload)|
        ensures Issues(payload)[i].message != ""
      {
        var all := Issues(payload);
        if i < |a| {
          assert all[i] == a[i];
        } else if i < |a + b| {
          assert all[i] == b[i - |a|];
        } else if i < |a + b + c| {
          assert all[i] == c[i - |a + b|];
        } else if i < |a + b + c + d| {
          assert all[i] == d[i - |a + b + c|];
        } else if i < |a + b + c + d + e| {
          assert all[i] == e[i - |a + b + c + d|];
        } else if i < |a + b + c + d + e + f| {
          assert all[i] == f[i - |a + b + c + d + e|];
        } else {
          assert all[i] == g[i - |a + b + c + d + e + f|];
        }
      }
    }
  }

  /** The JSON array of the given strings. */
  function JsonStrings(ids: seq<string>): (r: seq<Json>)
    ensures |r| == |ids|
    ensures forall i :: 0 <= i < |ids| ==> r[i] == JString(ids[i])
  {
    if ids == [] then [] else [JString(ids[0])] + JsonStrings(ids[1..])
  }

  lemma {:induction false} StringsRoundTrip(items: seq<Json>)
    requires forall i :: 0 <= i < |items| ==> items[i].JString?
    ensures JsonStrings(Strings(items)) == items
  {
    if items != [] {
      StringsRoundTrip(items[1..]);
    }
  }

  lemma UrlOutput(v: Option<Json>)
    requires UrlAccepted(v)
    ensures UrlFrom(v, Trim(StringOr(v, "")))
  {
    if v.None? {
      assert Trimmed("");
      assert Trim(StringOr(v, "")) == "";
    } else {
      assert StringOr(v, "") == v.value.str;
    }
  }

  lemma CoverUrlOutput(m: map<string, Json>)
    requires AllFieldsAccepted(m)
    ensures UrlFrom(Lookup(m, "coverUrl"), Output(m).coverUrl)
  {
    UrlOutput(Lookup(m, "coverUrl"));
  }

  lemma ProjectUrlOutput(m: map<string, Json>)
    requires AllFieldsAccepted(m)
    ensures UrlFrom(Lookup(m, "projectUrl"), Output(m).projectUrl)
  {
    UrlOutput(Lookup(m, "projectUrl"));
  }

  lemma RequiredFields(m: map<string, Json>, d: ProjectInput)
    requires TitleAccepted(Lookup(m, "title")) && SlugAccepted(Lookup(m, "slug"))
    requires ShortDescAccepted(Lookup(m, "shortDesc"))
    requires d.title == StringOr(Lookup(m, "title"), "")
    requires d.slug == StringOr(Lookup(m, "slug"), "")
    requires d.shortDesc == StringOr(Lookup(m, "shortDesc"), "")
    ensures RequiredFrom(m, d)
  {
  }

  lemma RequiredOutput(m: map<string, Json>)
    requires AllFieldsAccepted(m)
    ensures RequiredFrom(m, Output(m))
  {
    RequiredFields(m, Output(m));
  }

  lemma BodyField(v: Option<Json>)
    requires BodyAccepted(v)
    ensures BodyFrom(v, StringOr(v, ""))
  {
  }

  lemma BodyOutput(m: map<string, Json>)
    requires AllFieldsAccepted(m)
    ensures BodyFrom(Lookup(m, "body"), Output(m).body)
  {
    BodyField(Lookup(m, "body"));
  }

  lemma TagIdsField(v: Option<Json>)
    requires TagIdsAccepted(v)
    ensures TagIdsFrom(v, match v case Some(JArray(items)) => Strings(items) case _ => [])
  {
    if v.Some? {
      StringsRoundTrip(v.value.items);
    }
  }

  lemma TagIdsOutput(m: map<string, Json>)
    requires AllFieldsAccepted(m)
    ensures TagIdsFrom(Lookup(m, "tagIds"), Output(m).tagIds)
  {
    TagIdsField(Lookup(m, "tagIds"));
  }

  /** A payload that passes every field check yields the output described by `ParsedFrom`. */
  lemma OutputParsedFrom(m: map<string, Json>)
    requires AllFieldsAccepted(m)
    ensures ParsedFrom(m, Output(m))
  {
    RequiredOutput(m);
    CoverUrlOutput(m);
    ProjectUrlOutput(m);
    BodyOutput(m);
    TagIdsOutput(m);
  }

  /** `projectSchema.safeParse(payload)`. */
  function Parse(payload: Json): (r: Result<ProjectInput, seq<Issue>>)
    ensures r.Ok? <==> payload.JObject? && AllFieldsAccepted(payload.members)
    ensures r.Err? ==> r.error != [] && MessagesNonEmpty(r.error)
    ensures r.Err? && !payload.JObject? ==> forall i :: 0 <= i < |r.error| ==> r.error[i].path.None?
    ensures r.Ok? ==> ParsedFrom(payload.members, r.value)
  {
    IssuesEmptyIff(payload);
    var issues := Issues(payload);
    if issues == [] then
      OutputParsedFrom(payload.members);
      Ok(Output(payload.members))
    else
      Err(issues)
  }

  /** The output fields against the payload: the required strings verbatim
      (no trimming) and within their bounds, the URLs trimmed with absent as "",
      the body verbatim with absent as "", the tag ids in order with absent as []. */
  predicate ParsedFrom(m: map<string, Json>, d: ProjectInput) {
    && RequiredFrom(m, d)
    && UrlFrom(Lookup(m, "coverUrl"), d.coverUrl)
    && UrlFrom(Lookup(m, "projectUrl"), d.projectUrl)
    && BodyFrom(Lookup(m, "body"), d.body)
    && TagIdsFrom(Lookup(m, "tagIds"), d.tagIds)
  }

  predicate RequiredFrom(m: map<string, Json>, d: ProjectInput) {
    && Lookup(m, "title") == Some(JString(d.title))
    && Lookup(m, "slug") == Some(JString(d.slug))
    && Lookup(m, "shortDesc") == Some(JString(d.shortDesc))
    && 3 <= Utf16Length(d.title) <= 150
    && 3 <= Utf16Length(d.slug) <= 150 && MatchesSlugPattern(d.slug)
    && 10 <= Utf16Length(d.shortDesc) <= 500
  }

  predicate UrlFrom(v: Option<Json>, url: string) {
    && (v.None? ==> url == "")
    && (v.Some? ==> v.value.JString? && url == Trim(v.value.str))
    && (url == "" || HasHttpScheme(url))
    && Trimmed(url)
  }

  predicate BodyFrom(v: Option<Json>, body: string) {
    && (v.None? ==> body == "")
    && (v.Some? ==> v == Some(JString(body)))
    && Utf16Length(body) <= 5000
  }

  predicate TagIdsFrom(v: Option<Json>, tagIds: seq<string>) {
    && (v.None? ==> tagIds == [])
    && (v.Some? ==> v == Some(JArray(JsonStrings(tagIds))))
  }

  // Which fields the issues name.

  /** The first path element of every issue that has one. */
  function PathsOf(issues: seq<Issue>): set<string> {
    set i | 0 <= i < |issues| && issues[i].path.Some? :: issues[i].path.value
  }

  lemma PathsOfAppend(a: seq<Issue>, b: seq<Issue>)
    ensures PathsOf(a + b) == PathsOf(a) + PathsOf(b)
  {
    var ab := a + b;
    forall k | k in PathsOf(a + b) ensures k in PathsOf(a) + PathsOf(b) {
      var i :| 0 <= i < |ab| && ab[i].path == Some(k);
      if i >= |a| {
        assert b[i - |a|] == ab[i];
      }
    }
    forall k | k in PathsOf(a) ensures k in PathsOf(a + b) {
      var i :| 0 <= i < |a| && a[i].path == Some(k);
      assert ab[i] == a[i];
    }
    forall k | k in PathsOf(b) ensures k in PathsOf(a + b) {
      var i :| 0 <= i < |b| && b[i].path == Some(k);
      assert ab[|a| + i] == b[i];
    }
  }

  lemma PathsOfField(issues: seq<Issue>, field: string)
    requires AllAbout(issues, field)
    ensures PathsOf(issues) == if issues == [] then {} else {field}
  {
    if issues != [] {
      assert issues[0].path == Some(field);
    }
  }

  /** The schema fields an object payload fails. */
  function FailingFields(m: map<string, Json>): (r: set<string>)
    ensures r <= SchemaFields
    ensures r == {} <==> AllFieldsAccepted(m)
  {
    (if TitleAccepted(Lookup(m, "title")) then {} else {"title"})
    + (if SlugAccepted(Lookup(m, "slug")) then {} else {"slug"})
    + (if ShortDescAccepted(Lookup(m, "shortDesc")) then {} else {"shortDesc"})
    + (if UrlAccepted(Lookup(m, "coverUrl")) then {} else {"coverUrl"})
    + (if UrlAccepted(Lookup(m, "projectUrl")) then {} else {"projectUrl"})
    + (if BodyAccepted(Lookup(m, "body")) then {} else {"body"})
    + (if TagIdsAccepted(Lookup(m, "tagIds")) then {} else {"tagIds"})
  }

  /** The issues of an object payload name exactly the fields it fails, and a
      payload that is not an object gets no field name at all. */
  lemma IssuePaths(payload: Json)
    ensures payload.JObject? ==> PathsOf(Issues(payload)) == FailingFields(payload.members)
    ensures !payload.JObject? ==> PathsOf(Issues(payload)) == {}
  {
    if payload.JObject? {
      var m := payload.members;
      var a := TitleIssues(Lookup(m, "title"));
      var b := SlugIssues(Lookup(m, "slug"));
      var c := ShortDescIssues(Lookup(m, "shortDesc"));
      var d := UrlIssues("coverUrl", Lookup(m, "coverUrl"), CoverUrlMessage);
      var e := UrlIssues("projectUrl", Lookup(m, "projectUrl"), ProjectUrlMessage);
      var f := BodyIssues(Lookup(m, "body"));
      var g := TagIdsIssues(Lookup(m, "tagIds"));
      PathsOfField(a, "title");
      PathsOfField(b, "slug");
      PathsOfField(c, "shortDesc");
      PathsOfField(d, "coverUrl");
      PathsOfField(e, "projectUrl");
      PathsOfField(f, "body");
      PathsOfField(g, "tagIds");
      PathsOfAppend(a, b);
      PathsOfAppend(a + b, c);
      PathsOfAppend(a + b + c, d);
      PathsOfAppend(a + b + c + d, e);
      PathsOfAppend(a + b + c + d + e, f);
      PathsOfAppend(a + b + c + d + e + f, g);
    } else {
      assert Issues(payload)[0].path.None?;
    }
  }
}
