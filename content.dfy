/** Published content (src/app/api/content/route.ts over the schema of src/models/Content.ts): the
    upload validation, the admin-only insert and the public feed. */
module Content {
  import opened Common
  import opened Records
  import opened Sorting
  import opened Strings

  /** `ContentType`: VIDEO, CHART or POST. */
  datatype ContentType = Video | Chart | Post

  /** The enum value as stored and as the request spells it; the request check reads it back as the
      same type. */
  function TypeText(t: ContentType): (r: string)
    ensures ParseType(r) == Some(t)
  {
    match t
    case Video => "VIDEO"
    case Chart => "CHART"
    case Post => "POST"
  }

  /** `z.enum([VIDEO, CHART, POST])`: the type a request names, if it names one. */
  function ParseType(s: string): (r: Option<ContentType>)
    ensures r == Some(Video) <==> s == "VIDEO"
    ensures r == Some(Chart) <==> s == "CHART"
    ensures r == Some(Post) <==> s == "POST"
  {
    if s == "VIDEO" then Some(Video)
    else if s == "CHART" then Some(Chart)
    else if s == "POST" then Some(Post)
    else None
  }

  /** The fields of an upload request body; a field that is missing or not a string is `None`. */
  datatype Upload = Upload(title: Option<string>, kind: Option<string>, url: Option<string>, description: Option<string>)

  /** The body as `contentSchema.parse` returns it. */
  datatype Accepted = Accepted(title: string, kind: ContentType, url: string, description: Option<string>)

  /** The url refinement: an absolute link or a site-local path. */
  predicate UrlAccepted(url: string) {
    StartsWith(url, "http") || StartsWith(url, "/")
  }

  /** `contentSchema.parse`: a title of at least 3 characters (before any trimming), one of the three
      types, and an accepted url; the description is optional. Any failure is a 400. */
  function Validate(b: Upload): (r: Result<Accepted>)
    ensures r.Ok? <==> && b.title.Some? && |b.title.value| >= 3
                       && b.kind.Some? && ParseType(b.kind.value).Some?
                       && b.url.Some? && UrlAccepted(b.url.value)
    ensures r.Err? ==> r.error == ValidationError
    ensures r.Ok? ==> && r.value.title == b.title.value && TypeText(r.value.kind) == b.kind.value
                      && r.value.url == b.url.value && r.value.description == b.description
  {
    if b.title.None? || |b.title.value| < 3 then Err(ValidationError)
    else if b.kind.None? || ParseType(b.kind.value).None? then Err(ValidationError)
    else if b.url.None? || !UrlAccepted(b.url.value) then Err(ValidationError)
    else Ok(Accepted(b.title.value, ParseType(b.kind.value).value, b.url.value, b.description))
  }

  /** A stored content document. */
  datatype ContentItem = ContentItem(
    id: Id,
    kind: ContentType,
    title: string,
    description: Option<string>,
    url: string,
    uploadedBy: Id,
    isPublic: bool,
    createdAt: int)

  /** `Content.create`: the schema trims the title and requires it, so a title of white space only
      (which the request check lets through) fails with a server error; `isPublic` defaults to
      true. */
  function Stored(a: Accepted, id: Id, uploader: Id, now: int): (r: Result<ContentItem>)
    ensures r.Ok? <==> Trim(a.title) != ""
    ensures r.Err? ==> r.error == ServiceFailure
    ensures r.Ok? ==> && r.value.title == Trim(a.title) && r.value.isPublic && r.value.uploadedBy == uploader
                      && r.value.kind == a.kind && r.value.url == a.url && r.value.description == a.description
                      && r.value.id == id && r.value.createdAt == now
  {
    var title := Trim(a.title);
    if title == "" then Err(ServiceFailure)
    else Ok(ContentItem(id, a.kind, title, a.description, a.url, uploader, true, now))
  }

  /** A title of three spaces passes the request check but is refused by the schema. */
  lemma BlankTitleFailsOnInsert(id: Id, uploader: Id, now: int)
    ensures var b := Upload(Some("   "), Some("POST"), Some("/chart.png"), None);
            && Validate(b).Ok?
            && Stored(Validate(b).value, id, uploader, now) == Err(ServiceFailure)
  {
    var b := Upload(Some("   "), Some("POST"), Some("/chart.png"), None);
    assert StartsWith("/chart.png", "/");
    assert IsSpace(' ');
  }

  /** Most items the feed returns. */
  const FeedLimit: nat := 20

  /** GET: the public items, newest first, at most 20. */
  function Feed(items: seq<ContentItem>): seq<ContentItem> {
    Page(SortDesc(Filter(items, (c: ContentItem) => c.isPublic), (c: ContentItem) => c.createdAt), 0, FeedLimit)
  }

  /** The feed holds only public items, newest first, at most 20 of them; a public item is left out
      only when the feed is full of items at least as new as it. */
  lemma FeedListing(items: seq<ContentItem>)
    ensures var r := Feed(items);
            && |r| <= FeedLimit
            && (forall k :: 0 <= k < |r| ==> r[k].isPublic && r[k] in items)
            && SortedDesc(r, (c: ContentItem) => c.createdAt)
            && (forall k :: 0 <= k < |items| && items[k].isPublic && items[k] !in r ==>
                  |r| == FeedLimit && forall j :: 0 <= j < |r| ==> r[j].createdAt >= items[k].createdAt)
  {
    var pub := Filter(items, (c: ContentItem) => c.isPublic);
    var sorted := SortDesc(pub, (c: ContentItem) => c.createdAt);
    var r := Feed(items);
    SortDescCorrect(pub, (c: ContentItem) => c.createdAt);
    forall k | 0 <= k < |r|
      ensures r[k].isPublic && r[k] in items
    {
      assert r[k] == sorted[k];
      assert sorted[k] in multiset(pub);
    }
    forall k | 0 <= k < |items| && items[k].isPublic && items[k] !in r
      ensures |r| == FeedLimit && forall j :: 0 <= j < |r| ==> r[j].createdAt >= items[k].createdAt
    {
      assert items[k] in multiset(sorted);
      var i :| 0 <= i < |sorted| && sorted[i] == items[k];
      assert i >= |r|;
      forall j | 0 <= j < |r|
        ensures r[j].createdAt >= items[k].createdAt
      {
        assert r[j] == sorted[j];
      }
    }
  }

  /** The content collection, in insertion order, and the counter that supplies fresh ids. */
  class ContentLibrary {
    var items: seq<ContentItem>
    var nextId: Id

    constructor()
      ensures items == [] && nextId == 0
    {
      items := [];
      nextId := 0;
    }

    /** POST: only an admin may upload (403 otherwise, before the body is read); an invalid body is a
        400; a title that trims to nothing fails on insert; otherwise exactly one public item,
        uploaded by the caller, is appended and its id returned. */
    method Post(session: Option<Session>, body: Upload, now: int) returns (r: Result<Id>)
      modifies this
      ensures !IsAdmin(session) ==> r == Err(Unauthorized)
      ensures IsAdmin(session) && Validate(body).Err? ==> r == Err(ValidationError)
      ensures IsAdmin(session) && Validate(body).Ok? && Trim(Validate(body).value.title) == "" ==> r == Err(ServiceFailure)
      ensures r.Err? ==> items == old(items) && nextId == old(nextId)
      ensures r.Ok? ==> && IsAdmin(session) && Validate(body).Ok?
                        && r.value == old(nextId) && nextId == old(nextId) + 1
                        && items == old(items) + [Stored(Validate(body).value, old(nextId), session.value.userId, now).value]
                        && items[|items| - 1].uploadedBy == session.value.userId && items[|items| - 1].isPublic
    {
      if !IsAdmin(session) {
        return Err(Unauthorized);
      }
      var accepted := Validate(body);
      if accepted.Err? {
        return Err(ValidationError);
      }
      var item := Stored(accepted.value, nextId, session.value.userId, now);
      if item.Err? {
        return Err(ServiceFailure);
      }
      items := items + [item.value];
      r := Ok(nextId);
      nextId := nextId + 1;
    }
  }
}
