/**
 * The TikTok scout (tiktok_scout.py): the first two of four fixed queries,
 * one results page per query, at most five video containers per page, the
 * author, description and link read from each with ordered selector lists,
 * the "author or description" acceptance rule, a WhatsApp text per accepted
 * video sent as soon as it is read, and a fixed pause after each query.
 * What each search URL loads is an input.
 */
module TikTokScout {
  import opened Wrappers
  import opened Text
  import opened Dom
  import XScout

  // ---------------------------------------------------------------- configuration

  /** The attributes `__init__` reads from the environment. */
  datatype Config = Config(
    phone: Option<string>,
    apiKey: Option<string>,
    autoComment: bool,
    portfolioUrl: string,
    keywords: seq<string>)

  function ConfigFromEnv(env: XScout.Env): (c: Config)
    ensures c.autoComment <==> Lower(XScout.GetEnvOr(env, "AUTO_REPLY", "true")) == "true"
    ensures c.keywords == Split(XScout.GetEnvOr(env, "KEYWORDS", ""), ',')
  {
    Config(XScout.GetEnv(env, "CALLMEBOT_PHONE"), XScout.GetEnv(env, "CALLMEBOT_APIKEY"),
           XScout.Switch(env, "AUTO_REPLY", "true"), XScout.GetEnvOr(env, "PORTFOLIO_URL", ""),
           Split(XScout.GetEnvOr(env, "KEYWORDS", ""), ','))
  }

  /** Comment replies are on unless `AUTO_REPLY` is set to something other than `true`. */
  lemma AutoCommentDefaultsOn(env: XScout.Env)
    requires "AUTO_REPLY" !in env
    ensures ConfigFromEnv(env).autoComment
  {
    assert Lower("true") == "true";
  }

  /** Both CallMeBot settings are present, so notifications are sent. */
  predicate WhatsAppOn(c: Config) {
    XScout.Present(c.phone) && XScout.Present(c.apiKey)
  }

  /** The fixed search queries. */
  const FixedQueries: seq<string> :=
    ["need a website", "looking for web developer", "hire web developer", "need web designer"]

  /** `search_queries[:2]`: the queries actually searched. */
  function SearchedQueries(): (qs: seq<string>)
    ensures qs == ["need a website", "looking for web developer"]
  {
    Take(FixedQueries, 2)
  }

  // ---------------------------------------------------------------- videos

  /** A video record; its likes and views are always `N/A`, so they are not stored. */
  datatype Video = Video(author: string, description: string, url: string)

  const VideoSelectors: seq<string> :=
    ["[data-e2e=\"search-video-item\"]", "div[class*=\"video-feed-item\"]", "div[data-e2e=\"search-card-item\"]"]

  const AuthorSelectors: seq<string> :=
    ["[data-e2e=\"search-card-user-unique-id\"]", "a[class*=\"author\"]", "[class*=\"username\"]"]

  const DescSelectors: seq<string> :=
    ["[data-e2e=\"search-card-desc\"]", "div[class*=\"video-desc\"]", "[class*=\"description\"]"]

  const LinkSelector := "a"

  const TikTokHome := "https://www.tiktok.com"

  /**
   * The video URL read from the first link of a container: empty without a
   * link, without an `href`, or when the lookup raises; otherwise the href,
   * prefixed with the site's origin unless it starts with `http`.
   */
  function VideoUrl(l: LinkLookup): (u: string)
    ensures u == "" <==> !(l.Link? && XScout.Present(l.href))
    ensures l.Link? && XScout.Present(l.href) ==>
              StartsWith(u, "http") && |l.href.value| <= |u| && u[|u| - |l.href.value|..] == l.href.value
    ensures l.Link? && XScout.Present(l.href) && StartsWith(l.href.value, "http") ==> u == l.href.value
  {
    match l
    case Link(href) =>
      if !XScout.Present(href) then ""
      else if StartsWith(href.value, "http") then href.value
      else
        assert (TikTokHome + href.value)[..4] == TikTokHome[..4] == "http";
        TikTokHome + href.value
    case _ => ""
  }

  /** A video URL is its own video URL. */
  lemma VideoUrlIdempotent(l: LinkLookup)
    requires VideoUrl(l) != ""
    ensures VideoUrl(Link(Some(VideoUrl(l)))) == VideoUrl(l)
  {
  }

  /** A relative href is appended to the origin whole, its query string included. */
  lemma VideoUrlRelative(a: string, b: string)
    requires a != "" && a[0] == '/'
    ensures VideoUrl(Link(Some(a + "?" + b))) == TikTokHome + a + "?" + b
  {
    assert (a + "?" + b)[0] == '/';
  }

  /** The author read from a handle: `@` stripped from both ends, then whitespace. */
  function Handle(t: string): string {
    Strip(StripChar(t, '@'))
  }

  /**
   * The video read from one container: the handle of the first author
   * selector with an element (`Unknown` if none), the stripped text of the
   * first description selector with an element (empty if none), and the
   * video URL; a lookup that raises moves on to the next selector.
   */
  function VideoOf(c: Container): Video {
    var author := FirstText(c, AuthorSelectors, AnyText);
    var desc := FirstText(c, DescSelectors, AnyText);
    Video(if author.Some? then Handle(author.value) else "Unknown",
          if desc.Some? then Strip(desc.value) else "",
          VideoUrl(c.link(LinkSelector)))
  }

  /** A video is kept when it has an author or a description. */
  predicate Accepted(v: Video) {
    v.author != "Unknown" || v.description != ""
  }

  /** `extract_video_info`: the video, or nothing when it has neither author nor description. */
  function VideoInfo(c: Container): (r: Option<Video>)
    ensures r.Some? <==> Accepted(VideoOf(c))
    ensures r.Some? ==> r.value == VideoOf(c)
  {
    if Accepted(VideoOf(c)) then Some(VideoOf(c)) else None
  }

  /** The first author selector with an element gives the author, even when its text is blank. */
  lemma AuthorFromFirstElement(c: Container, k: nat)
    requires k < |AuthorSelectors| && c.find(AuthorSelectors[k]).Element?
    requires forall j :: 0 <= j < k ==> !c.find(AuthorSelectors[j]).Element?
    ensures VideoOf(c).author == Handle(c.find(AuthorSelectors[k]).text)
  {
    FirstTextAt(c, AuthorSelectors, AnyText, k);
  }

  /** The first description selector with an element gives the description, stripped. */
  lemma DescFromFirstElement(c: Container, k: nat)
    requires k < |DescSelectors| && c.find(DescSelectors[k]).Element?
    requires forall j :: 0 <= j < k ==> !c.find(DescSelectors[j]).Element?
    ensures VideoOf(c).description == Strip(c.find(DescSelectors[k]).text)
  {
    FirstTextAt(c, DescSelectors, AnyText, k);
  }

  /** A container with neither an author nor a description element gives no video. */
  lemma NoFieldsNoVideo(c: Container)
    requires forall j :: 0 <= j < |AuthorSelectors| ==> !c.find(AuthorSelectors[j]).Element?
    requires forall j :: 0 <= j < |DescSelectors| ==> !c.find(DescSelectors[j]).Element?
    ensures VideoOf(c).author == "Unknown" && VideoOf(c).description == ""
    ensures VideoInfo(c) == None
  {
    FirstTextNone(c, AuthorSelectors, AnyText);
    FirstTextNone(c, DescSelectors, AnyText);
  }

  /** An author element holding only `@` gives an empty author, and the video is kept without a description. */
  lemma BareHandleKept(c: Container)
    requires c.find(AuthorSelectors[0]) == Element("@")
    ensures VideoOf(c).author == ""
    ensures VideoInfo(c).Some?
  {
    FirstTextAt(c, AuthorSelectors, AnyText, 0);
    assert StripChar("@", '@') == "";
  }

  /** Reads one container, overwriting the record's defaults field by field. */
  method ExtractVideoInfo(c: Container) returns (r: Option<Video>)
    ensures r == VideoInfo(c)
  {
    var v := Video("Unknown", "", "");
    var author := FindText(c, AuthorSelectors, AnyText);
    if author.Some? {
      v := v.(author := Handle(author.value));
    }
    var desc := FindText(c, DescSelectors, AnyText);
    if desc.Some? {
      v := v.(description := Strip(desc.value));
    }
    v := v.(url := VideoUrl(c.link(LinkSelector)));
    if v.author != "Unknown" || v.description != "" {
      return Some(v);
    }
    return None;
  }

  /** The accepted videos, in order. */
  function AcceptedVideos(vs: seq<Video>): (r: seq<Video>)
    ensures |r| <= |vs|
    ensures forall i :: 0 <= i < |r| ==> Accepted(r[i])
    decreases |vs|
  {
    if vs == [] then []
    else (if Accepted(vs[0]) then [vs[0]] else []) + AcceptedVideos(vs[1..])
  }

  /** Every accepted video of the list is kept. */
  lemma {:induction false} AcceptedVideosComplete(vs: seq<Video>, i: nat)
    requires i < |vs| && Accepted(vs[i])
    ensures vs[i] in AcceptedVideos(vs)
    decreases i
  {
    if i > 0 {
      AcceptedVideosComplete(vs[1..], i - 1);
      assert vs[1..][i - 1] == vs[i];
    }
  }

  /** Only videos of the list are kept. */
  lemma {:induction false} AcceptedVideosSound(vs: seq<Video>, v: Video)
    requires v in AcceptedVideos(vs)
    ensures v in vs
    decreases |vs|
  {
    if vs[0] != v {
      AcceptedVideosSound(vs[1..], v);
    }
  }

  /** A video is kept exactly when it is one of the videos read and is accepted. */
  lemma AcceptedVideosExact(vs: seq<Video>, v: Video)
    ensures v in AcceptedVideos(vs) <==> Accepted(v) && v in vs
  {
    if v in AcceptedVideos(vs) {
      AcceptedVideosSound(vs, v);
    }
    if Accepted(v) && v in vs {
      var i :| 0 <= i < |vs| && vs[i] == v;
      AcceptedVideosComplete(vs, i);
    }
  }

  /** The videos a results page gives: the accepted ones of its examined containers. */
  function PageVideos(pg: Page): seq<Video> {
    AcceptedVideos(ReadAll(VideoOf, Examined(pg, VideoSelectors)))
  }

  /** A page gives at most five videos, each accepted. */
  lemma PageVideosBound(pg: Page)
    ensures |PageVideos(pg)| <= MaxContainers
    ensures forall i :: 0 <= i < |PageVideos(pg)| ==> Accepted(PageVideos(pg)[i])
  {
    ReadAllAt(VideoOf, Examined(pg, VideoSelectors));
  }

  // ---------------------------------------------------------------- notifications

  const NotAvailable := "N/A"

  /** What precedes the description: the header and the author's handle. */
  function NoticeHead(platform: string, author: string): string {
    "[!] New " + platform + " Lead Found!\n\n" + "Author: @" + author + "\n" + "Description: "
  }

  /** What follows the description: the ellipsis, `N/A` likes and views, and the URL's label. */
  const NoticeTail := "...\n" + "Likes: " + NotAvailable + "\n" + "Views: " + NotAvailable + "\n\n" + "View: "

  /**
   * `send_whatsapp_notification(video, platform)`: the header, the author's
   * handle, the first 150 characters of the description, `N/A` likes and
   * views, and the URL.
   */
  function VideoNotice(platform: string, v: Video): string {
    NoticeHead(platform, v.author) + Take(v.description, 150) + NoticeTail + v.url
  }

  /**
   * A notice names the platform and the author's handle, then holds the
   * description when it is shorter than 150 characters and its first 150
   * otherwise, then `...` in both cases, and ends with the URL.
   */
  lemma VideoNoticeExcerpt(platform: string, v: Video)
    ensures var m := VideoNotice(platform, v);
            var h := NoticeHead(platform, v.author);
            var n := if |v.description| < 150 then |v.description| else 150;
            |m| == |h| + n + |NoticeTail| + |v.url|
            && m[..|h|] == h && m[|h|..|h| + n] == v.description[..n] && m[|h| + n..|h| + n + 3] == "..."
            && m[|m| - |v.url|..] == v.url
  {
    var h := NoticeHead(platform, v.author);
    var t := Take(v.description, 150);
    var m := h + t + NoticeTail + v.url;
    assert NoticeTail[..3] == "...";
    assert m[|h| + |t|..|h| + |t| + 3] == NoticeTail[..3];
  }

  /** The TikTok notices of some videos, in order. */
  function Notices(vs: seq<Video>): seq<string>
    decreases |vs|
  {
    if vs == [] then [] else [VideoNotice("TikTok", vs[0])] + Notices(vs[1..])
  }

  /** One notice per video, in video order. */
  lemma {:induction false} NoticesAt(vs: seq<Video>)
    ensures |Notices(vs)| == |vs|
    ensures forall i :: 0 <= i < |vs| ==> Notices(vs)[i] == VideoNotice("TikTok", vs[i])
    decreases |vs|
  {
    if vs != [] {
      NoticesAt(vs[1..]);
    }
  }

  /** The notices of two runs of videos one after the other. */
  lemma {:induction false} NoticesAppend(a: seq<Video>, b: seq<Video>)
    ensures Notices(a + b) == Notices(a) + Notices(b)
    decreases |a|
  {
    if a == [] {
      assert a + b == b;
    } else {
      assert (a + b)[1..] == a[1..] + b;
      NoticesAppend(a[1..], b);
    }
  }

  /** The notices sent so far stay those of the videos found so far when videos and their notices are added. */
  lemma NoticesStep(on: bool, found: seq<Video>, vs: seq<Video>, sent: seq<string>)
    requires sent == if on then Notices(found) else []
    ensures sent + (if on then Notices(vs) else []) == if on then Notices(found + vs) else []
  {
    NoticesAppend(found, vs);
  }

  // ---------------------------------------------------------------- the search

  const SearchBase := "https://www.tiktok.com/search?q="

  /** The results URL of a query, its spaces written `%20`. */
  function SearchUrl(q: string): string {
    SearchBase + Replace(q, " ", "%20")
  }

  /** The URL holds no space, and unescaping its query part gives back a query without `%`. */
  lemma SearchUrlRoundTrip(q: string)
    requires '%' !in q
    ensures StartsWith(SearchUrl(q), SearchBase)
    ensures ' ' !in SearchUrl(q)[|SearchBase|..]
    ensures Replace(SearchUrl(q)[|SearchBase|..], "%20", " ") == q
  {
    var e := Replace(q, " ", "%20");
    assert SearchUrl(q)[|SearchBase|..] == e;
    ReplaceCharRemoves(q, ' ', "%20");
    EscapeSpacesRoundTrip(q);
  }

  /** The videos found for one query; a failed navigation finds none. */
  function QueryVideos(visit: string -> Visit, q: string): seq<Video> {
    match visit(SearchUrl(q))
    case NavFailed => []
    case Loaded(pg) => PageVideos(pg)
  }

  /** The videos found for some queries, query by query. */
  function FoundFrom(visit: string -> Visit, qs: seq<string>): seq<Video>
    decreases |qs|
  {
    if qs == [] then [] else QueryVideos(visit, qs[0]) + FoundFrom(visit, qs[1..])
  }

  /** Every video is accepted. */
  predicate AllAccepted(vs: seq<Video>) {
    forall i :: 0 <= i < |vs| ==> Accepted(vs[i])
  }

  lemma AllAcceptedAppend(a: seq<Video>, b: seq<Video>)
    requires AllAccepted(a) && AllAccepted(b)
    ensures AllAccepted(a + b)
  {
    forall i | 0 <= i < |a + b|
      ensures Accepted((a + b)[i])
    {
      if i < |a| {
        assert (a + b)[i] == a[i];
      } else {
        assert (a + b)[i] == b[i - |a|];
      }
    }
  }

  /** Every video found is accepted, and each query finds at most five. */
  lemma {:induction false} FoundFromAccepted(visit: string -> Visit, qs: seq<string>)
    ensures AllAccepted(FoundFrom(visit, qs))
    ensures |FoundFrom(visit, qs)| <= MaxContainers * |qs|
    decreases |qs|
  {
    if qs != [] {
      FoundFromAccepted(visit, qs[1..]);
      var v := QueryVideos(visit, qs[0]);
      if visit(SearchUrl(qs[0])).Loaded? {
        PageVideosBound(visit(SearchUrl(qs[0])).page);
      }
      assert AllAccepted(v) && |v| <= MaxContainers;
      AllAcceptedAppend(v, FoundFrom(visit, qs[1..]));
    }
  }

  /** The videos a run finds. */
  function Found(visit: string -> Visit): seq<Video> {
    FoundFrom(visit, SearchedQueries())
  }

  /** A run finds at most ten videos, each accepted. */
  lemma FoundAccepted(visit: string -> Visit)
    ensures AllAccepted(Found(visit)) && |Found(visit)| <= 10
  {
    FoundFromAccepted(visit, SearchedQueries());
  }

  /**
   * The container loop of `search_tiktok_videos`: read each container and
   * at once notify each accepted video when WhatsApp is configured (`on`).
   */
  method ReadVideos(on: bool, cs: seq<Container>) returns (videos: seq<Video>, sent: seq<string>)
    ensures videos == AcceptedVideos(ReadAll(VideoOf, cs))
    ensures sent == if on then Notices(videos) else []
  {
    videos, sent := [], [];
    var i := 0;
    while i < |cs|
      invariant 0 <= i <= |cs|
      invariant videos + AcceptedVideos(ReadAll(VideoOf, cs[i..])) == AcceptedVideos(ReadAll(VideoOf, cs))
      invariant sent == if on then Notices(videos) else []
    {
      assert cs[i..][1..] == cs[i + 1..];
      var info := ExtractVideoInfo(cs[i]);
      ghost var p := VideoOf(cs[i]);
      assert ReadAll(VideoOf, cs[i..]) == [p] + ReadAll(VideoOf, cs[i + 1..]);
      KeepStep(on, videos, sent, p, ReadAll(VideoOf, cs[i + 1..]), AcceptedVideos(ReadAll(VideoOf, cs)));
      if info.Some? {
        videos := videos + [info.value];
        if on {
          sent := sent + [VideoNotice("TikTok", info.value)];
        }
      }
      i := i + 1;
    }
    assert cs[i..] == [];
  }

  /** Reading the next video keeps the loop's accounts of the videos kept and the notices sent. */
  lemma KeepStep(on: bool, videos: seq<Video>, sent: seq<string>, p: Video, rest: seq<Video>, total: seq<Video>)
    requires videos + AcceptedVideos([p] + rest) == total
    requires sent == if on then Notices(videos) else []
    ensures var videos' := if Accepted(p) then videos + [p] else videos;
            videos' + AcceptedVideos(rest) == total
            && (if on && Accepted(p) then sent + [VideoNotice("TikTok", p)] else sent)
               == if on then Notices(videos') else []
  {
    assert ([p] + rest)[1..] == rest;
    var x := if Accepted(p) then [p] else [];
    XScout.Regroup(videos, x, AcceptedVideos(rest), total);
    NoticesStep(on, videos, x, sent);
    assert Notices([p]) == [VideoNotice("TikTok", p)];
  }

  /**
   * `search_tiktok_videos` for one query: load its results page and read
   * its examined containers; a failed navigation finds nothing.
   */
  method SearchVideos(on: bool, visit: string -> Visit, q: string) returns (videos: seq<Video>, sent: seq<string>)
    ensures videos == QueryVideos(visit, q)
    ensures sent == if on then Notices(videos) else []
  {
    videos, sent := [], [];
    var v := visit(SearchUrl(q));
    if v.Loaded? {
      var cs := ExamineContainers(v.page, VideoSelectors);
      videos, sent := ReadVideos(on, cs);
    }
  }

  /** The pause after each search. */
  const SearchPause: nat := 2

  /** Each query in turn, then a pause; the videos found, the notices sent and the pauses made. */
  method RunQueries(on: bool, visit: string -> Visit, qs: seq<string>)
    returns (found: seq<Video>, sent: seq<string>, pauses: seq<nat>)
    ensures found == FoundFrom(visit, qs)
    ensures sent == if on then Notices(found) else []
    ensures |pauses| == |qs| && forall k :: 0 <= k < |pauses| ==> pauses[k] == SearchPause
  {
    found, sent, pauses := [], [], [];
    var i := 0;
    while i < |qs|
      invariant 0 <= i <= |qs|
      invariant found + FoundFrom(visit, qs[i..]) == FoundFrom(visit, qs)
      invariant sent == if on then Notices(found) else []
      invariant |pauses| == i && forall k :: 0 <= k < i ==> pauses[k] == SearchPause
    {
      assert qs[i..][1..] == qs[i + 1..];
      var videos, msgs := SearchVideos(on, visit, qs[i]);
      NoticesStep(on, found, videos, sent);
      ghost var rest := FoundFrom(visit, qs[i + 1..]);
      assert FoundFrom(visit, qs[i..]) == videos + rest;
      XScout.Regroup(found, videos, rest, FoundFrom(visit, qs));
      found, sent := found + videos, sent + msgs;
      pauses := pauses + [SearchPause];
      i := i + 1;
    }
    assert qs[i..] == [];
  }

  /** `run_search`: the first two queries, a notice per video found when WhatsApp is configured, two pauses. */
  method RunSearch(c: Config, visit: string -> Visit) returns (found: seq<Video>, sent: seq<string>, pauses: seq<nat>)
    ensures found == Found(visit)
    ensures sent == if WhatsAppOn(c) then Notices(found) else []
    ensures pauses == [SearchPause, SearchPause]
  {
    found, sent, pauses := RunQueries(WhatsAppOn(c), visit, SearchedQueries());
  }
}
