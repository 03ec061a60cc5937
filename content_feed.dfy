/** How the dashboard feed previews a content item (src/components/dashboard/ContentFeed.tsx): a
    YouTube video becomes an embedded player whose address carries the video id taken from the
    link, any other video plays from its url, and charts and posts show the url as an image. */
module ContentFeed {
  import opened Common
  import opened Strings
  import opened Content

  const EmbedPrefix: string := "https://www.youtube.com/embed/"

  /** A video link is treated as YouTube when it mentions "youtube" or "youtu.be". */
  predicate IsYouTube(url: string) {
    Contains(url, "youtube") || Contains(url, "youtu.be")
  }

  /** The video id: for a link mentioning "youtu.be", `url.split("youtu.be/")[1]?.split("?")[0]`;
      otherwise `url.split("v=")[1]?.split("&")[0]`. Missing when the separator does not occur. */
  function VideoId(url: string): (r: Option<string>)
    ensures Contains(url, "youtu.be") ==> (r.Some? <==> Contains(url, "youtu.be/"))
    ensures !Contains(url, "youtu.be") ==> (r.Some? <==> Contains(url, "v="))
  {
    if Contains(url, "youtu.be") then
      match SecondPart(url, "youtu.be/")
      case None => None
      case Some(rest) => Some(BeforeFirst(rest, "?"))
    else
      match SecondPart(url, "v=")
      case None => None
      case Some(rest) => Some(BeforeFirst(rest, "&"))
  }

  /** The iframe address: the embed prefix followed by the id, or by nothing when there is none. */
  function EmbedSrc(url: string): (r: string)
    ensures StartsWith(r, EmbedPrefix)
    ensures VideoId(url).None? ==> r == EmbedPrefix
  {
    EmbedPrefix + VideoId(url).GetOr("")
  }

  /** The marker the id follows, and the character that ends it, for the kind of link `url` is. */
  function Marker(url: string): string {
    if Contains(url, "youtu.be") then "youtu.be/" else "v="
  }

  function Stop(url: string): char {
    if Contains(url, "youtu.be") then '?' else '&'
  }

  /** An id that starts at `k - |id|` ends at `k`: the end of `s`, a `stop` character or the next
      `sep`. */
  predicate IdEndsAt(s: string, sep: string, stop: char, k: nat) {
    k == |s| || (k < |s| && s[k] == stop) || OccursAt(s, sep, k)
  }

  /** An id is the text right after the first marker, running up to the first stop character, the
      next marker or the end of the link, whichever comes first. */
  lemma VideoIdFollowsMarker(url: string)
    requires VideoId(url).Some?
    ensures var id, m := VideoId(url).value, Marker(url);
            exists i: nat :: FirstAt(url, m, i) && OccursAt(url, id, i + |m|) && IdEndsAt(url, m, Stop(url), i + |m| + |id|)
    ensures Stop(url) !in VideoId(url).value
    ensures !Contains(VideoId(url).value, Marker(url))
  {
    VideoIdShape(url);
    IdAfterMarker(url, Marker(url), Stop(url), VideoId(url).value);
  }

  /** The id is the part after the link's marker, cut at the link's stop character. */
  lemma VideoIdShape(url: string)
    requires VideoId(url).Some?
    ensures SecondPart(url, Marker(url)).Some?
    ensures VideoId(url).value == BeforeFirst(SecondPart(url, Marker(url)).value, [Stop(url)])
  {
    if Contains(url, "youtu.be") {
      assert "?" == ['?'];
    } else {
      assert "&" == ['&'];
    }
  }

  /** The same, for one marker and stop character. */
  lemma IdAfterMarker(url: string, m: string, c: char, id: string)
    requires m != "" && SecondPart(url, m).Some? && id == BeforeFirst(SecondPart(url, m).value, [c])
    ensures exists i: nat :: FirstAt(url, m, i) && OccursAt(url, id, i + |m|) && IdEndsAt(url, m, c, i + |m| + |id|)
    ensures c !in id && !Contains(id, m)
  {
    var i := SecondPartStart(url, m);
    PartAfterSeparator(url, m, c, i, SecondPart(url, m).value, id);
  }

  /** Where the part after the first `sep` starts. */
  lemma SecondPartStart(s: string, sep: string) returns (i: nat)
    requires sep != "" && SecondPart(s, sep).Some?
    ensures SecondPartAt(s, sep, i, SecondPart(s, sep).value)
  {
    i := IndexOf(s, sep).value;
  }

  /** `s.split(sep)[1]?.split(stop)[0]` is the text right after the first `sep`, holding neither
      `stop` nor `sep`, and ending at the end of `s`, at a `stop` or at the next `sep`. */
  lemma PartAfterSeparator(s: string, sep: string, stop: char, i: nat, rest: string, id: string)
    requires sep != "" && SecondPartAt(s, sep, i, rest) && id == BeforeFirst(rest, [stop])
    ensures FirstAt(s, sep, i) && OccursAt(s, id, i + |sep|) && IdEndsAt(s, sep, stop, i + |sep| + |id|)
    ensures stop !in id && !Contains(id, sep)
  {
    var after := s[i + |sep|..];
    BeforeFirstAvoids(after, sep, rest);
    CharContains(id, stop);
    BeforeFirstAvoids(rest, [stop], id);
    PrefixKeepsAvoid(rest, id, sep);
    assert s[i + |sep|..i + |sep| + |id|] == after[..|id|];
    PartEnds(s, sep, stop, i, rest, id);
  }

  /** The part cut at the first `stop` ends at a `stop`, at the next `sep` or at the end of `s`. */
  lemma PartEnds(s: string, sep: string, stop: char, i: nat, rest: string, id: string)
    requires sep != "" && SecondPartAt(s, sep, i, rest) && id == BeforeFirst(rest, [stop])
    ensures IdEndsAt(s, sep, stop, i + |sep| + |id|)
  {
    var after := s[i + |sep|..];
    var k := i + |sep| + |id|;
    if Contains(rest, [stop]) {
      assert rest[|id|..|id| + 1] == [stop];
      assert s[k] == after[|id|] == rest[|id|];
    } else if Contains(after, sep) {
      assert id == rest;
      assert s[k..k + |sep|] == after[|rest|..|rest| + |sep|];
    } else {
      assert id == rest == after;
    }
  }

  /** A one-character text occurs exactly when the character does. */
  lemma CharContains(s: string, c: char)
    ensures Contains(s, [c]) <==> c in s
  {
    forall j | 0 <= j < |s| ensures OccursAt(s, [c], j) <==> s[j] == c {
      assert s[j..j + 1] == [s[j]];
    }
    if c in s {
      var j :| 0 <= j < |s| && s[j] == c;
      assert OccursAt(s, [c], j);
    }
  }

  /** The part before the first `sep` holds no `sep` of its own. */
  lemma BeforeFirstAvoids(s: string, sep: string, r: string)
    requires sep != "" && r == BeforeFirst(s, sep)
    ensures !Contains(r, sep)
  {
    assert r == s[..|r|];
    forall j | 0 <= j <= |r| ensures !OccursAt(r, sep, j) {
      if j + |sep| <= |r| {
        assert !OccursAt(s, sep, j);
        assert r[j..j + |sep|] == s[j..j + |sep|];
      }
    }
  }

  /** A prefix of a text without `sep` has no `sep` either. */
  lemma PrefixKeepsAvoid(s: string, p: string, sep: string)
    requires !Contains(s, sep) && |p| <= |s| && p == s[..|p|]
    ensures !Contains(p, sep)
  {
    assert IndexOf(s, sep).None?;
    forall j | 0 <= j <= |p| ensures !OccursAt(p, sep, j) {
      if j + |sep| <= |p| {
        assert !OccursAt(s, sep, j);
        assert p[j..j + |sep|] == s[j..j + |sep|];
      }
    }
  }

  /** A share link: the host, then the marker, then the id. */
  function ShareLink(id: string): string {
    "https://" + "youtu.be/" + id
  }

  /** When the marker's first character is not in `p` and the marker does not occur in `id`, the
      first marker of `p + m + id` is the one between them. */
  lemma FirstMarkerAt(p: string, m: string, id: string)
    requires m != "" && m[0] !in p
    ensures IndexOf(p + m + id, m) == Some(|p|)
    ensures (p + m + id)[|p| + |m|..] == id
  {
    var url := p + m + id;
    assert OccursAt(url, m, |p|) by { assert url[|p|..|p| + |m|] == m; }
    forall j | 0 <= j < |p| ensures !OccursAt(url, m, j) {
      assert url[j] == p[j] != m[0];
    }
  }

  /** A share link whose id holds no "?" and no further "youtu.be/" embeds exactly that id. */
  lemma ShareLinkEmbedsId(id: string)
    requires '?' !in id && !Contains(id, "youtu.be/")
    ensures VideoId(ShareLink(id)) == Some(id)
    ensures EmbedSrc(ShareLink(id)) == EmbedPrefix + id
  {
    var p, m := "https://", "youtu.be/";
    var url := ShareLink(id);
    FirstMarkerAt(p, m, id);
    assert OccursAt(url, "youtu.be", |p|) by {
      assert url[|p|..|p| + |m|] == m;
      assert m[..8] == "youtu.be";
    }
    assert SecondPart(url, m) == Some(BeforeFirst(id, m));
    CharContains(id, '?');
  }

  /** What the feed card shows for an item. */
  datatype Preview = EmbeddedPlayer(src: string) | VideoPlayer(src: string) | Picture(src: string)

  /** The preview of one item: an embedded player for a YouTube video, a plain video player for any
      other video, and an image for charts and posts. */
  function PreviewOf(kind: ContentType, url: string): (r: Preview)
    ensures r.Picture? <==> kind != Video
    ensures r.EmbeddedPlayer? <==> kind == Video && IsYouTube(url)
    ensures r.EmbeddedPlayer? ==> StartsWith(r.src, EmbedPrefix)
    ensures !r.EmbeddedPlayer? ==> r.src == url
  {
    if kind == Video then
      if IsYouTube(url) then EmbeddedPlayer(EmbedSrc(url)) else VideoPlayer(url)
    else Picture(url)
  }
}
