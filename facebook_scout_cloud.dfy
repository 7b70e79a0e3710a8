/**
 * The headless Facebook scout (facebook_scout_cloud.py): search queries taken
 * from the keywords, one results page per query, at most five post
 * containers per page, the author, content and permalink read from each with
 * ordered selector lists, the length and keyword filter, the WhatsApp text,
 * and the pauses between searches.
 * Whether the session or the automated login succeeded is an input, and so
 * is what each search URL loads.
 */
module FacebookScoutCloud {
  import opened Wrappers
  import opened Text
  import opened Dom
  import XScout

  // ---------------------------------------------------------------- configuration

  /** The attributes `__init__` reads from the environment; the login credentials are not modelled. */
  datatype Config = Config(
    phone: Option<string>,
    apiKey: Option<string>,
    portfolioUrl: string,
    keywords: seq<string>,
    queries: seq<string>)

  /** The texts that are not empty, in order. */
  function NonEmpty(ts: seq<string>): (r: seq<string>)
    ensures |r| <= |ts|
    ensures forall i :: 0 <= i < |r| ==> r[i] != ""
    decreases |ts|
  {
    if ts == [] then [] else (if ts[0] != "" then [ts[0]] else []) + NonEmpty(ts[1..])
  }

  /** `[kw.strip() for kw in keywords if kw.strip()]`. */
  function SearchQueries(kws: seq<string>): seq<string> {
    NonEmpty(StripAll(kws))
  }

  function ConfigFromEnv(env: XScout.Env): (c: Config)
    ensures c.keywords == Split(XScout.GetEnvOr(env, "KEYWORDS", ""), ',')
    ensures c.queries == SearchQueries(c.keywords)
  {
    var keywords := Split(XScout.GetEnvOr(env, "KEYWORDS", ""), ',');
    Config(XScout.GetEnv(env, "CALLMEBOT_PHONE"), XScout.GetEnv(env, "CALLMEBOT_APIKEY"),
           XScout.GetEnvOr(env, "PORTFOLIO_URL", ""), keywords, SearchQueries(keywords))
  }

  /** A text is kept exactly when it is one of the texts and not empty. */
  lemma {:induction false} NonEmptyMembers(ts: seq<string>, q: string)
    ensures q in NonEmpty(ts) <==> q != "" && q in ts
    decreases |ts|
  {
    if ts != [] {
      NonEmptyMembers(ts[1..], q);
      assert ts == [ts[0]] + ts[1..];
    }
  }

  /** Filtering two lists one after the other filters each, in order. */
  lemma {:induction false} NonEmptyAppend(a: seq<string>, b: seq<string>)
    ensures NonEmpty(a + b) == NonEmpty(a) + NonEmpty(b)
    decreases |a|
  {
    if a == [] {
      assert a + b == b;
    } else {
      assert (a + b)[0] == a[0] && (a + b)[1..] == a[1..] + b;
      NonEmptyAppend(a[1..], b);
    }
  }

  /** A query is searched exactly when it is the stripped form of some keyword and not empty. */
  lemma SearchQueriesMembers(kws: seq<string>, q: string)
    ensures q in SearchQueries(kws) <==> q != "" && exists i :: 0 <= i < |kws| && Strip(kws[i]) == q
  {
    NonEmptyMembers(StripAll(kws), q);
    var ss := StripAll(kws);
    if q in ss {
      var i :| 0 <= i < |ss| && ss[i] == q;
      assert Strip(kws[i]) == q;
    }
  }

  /** The queries of two keyword lists one after the other are those of each, in order. */
  lemma SearchQueriesAppend(a: seq<string>, b: seq<string>)
    ensures SearchQueries(a + b) == SearchQueries(a) + SearchQueries(b)
  {
    StripAllAppend(a, b);
    NonEmptyAppend(StripAll(a), StripAll(b));
  }

  /** `KEYWORDS` set to comma-free keywords joined by commas gives the queries of those keywords. */
  lemma QueriesFromKeywords(env: XScout.Env, ks: seq<string>)
    requires |ks| >= 1 && forall i :: 0 <= i < |ks| ==> ',' !in ks[i]
    requires XScout.GetEnv(env, "KEYWORDS") == Some(Join(",", ks))
    ensures ConfigFromEnv(env).keywords == ks
    ensures ConfigFromEnv(env).queries == SearchQueries(ks)
  {
    SplitJoin(ks, ',');
  }

  /** Without `KEYWORDS` there is one blank keyword and nothing to search for. */
  lemma NoKeywords(env: XScout.Env)
    requires "KEYWORDS" !in env
    ensures ConfigFromEnv(env).keywords == [""]
    ensures ConfigFromEnv(env).queries == []
  {
    SplitAbsent("", ',');
  }

  /** Both CallMeBot settings are present, so notifications are sent. */
  predicate WhatsAppOn(c: Config) {
    XScout.Present(c.phone) && XScout.Present(c.apiKey)
  }

  // ---------------------------------------------------------------- posts

  /** The `post_info` record. */
  datatype Post = Post(author: string, content: string, url: string)

  const PostSelectors: seq<string> :=
    ["[role=\"article\"]", "div[data-pagelet*=\"FeedUnit\"]", "div[class*=\"userContentWrapper\"]"]

  const AuthorSelectors: seq<string> :=
    ["a[role=\"link\"] strong", "h4 a", "a[class*=\"actor\"]"]

  const ContentSelectors: seq<string> :=
    ["div[data-ad-preview=\"message\"]", "div[data-ad-comet-preview=\"message\"]", "div[dir=\"auto\"]"]

  const LinkSelector := "a[href*=\"/posts/\"], a[href*=\"/permalink/\"]"

  const FacebookHome := "https://www.facebook.com"

  /** `text and len(text) > 20`: meaningful content. */
  predicate LongText(t: string) {
    t != "" && |t| > 20
  }

  /**
   * The post URL from the permalink lookup: the href up to its first `?`,
   * prefixed with the Facebook origin unless it starts with `http`; empty
   * when there is no link or no href, the bare origin when the lookup raises.
   */
  function Permalink(l: LinkLookup): (u: string)
    ensures '?' !in u
    ensures u == "" <==> l.NoLink? || (l.Link? && !XScout.Present(l.href))
    ensures u != "" ==> StartsWith(u, "http")
    ensures l.LinkThrew? ==> u == FacebookHome
  {
    match l
    case NoLink => ""
    case LinkThrew =>
      assert FacebookHome[..4] == "http";
      FacebookHome
    case Link(href) =>
      if !XScout.Present(href) then ""
      else
        var h := href.value;
        var cut := Split(h, '?')[0];
        if StartsWith(h, "http") then
          SplitHeadKeeps(h, '?', "http");
          cut
        else
          assert (FacebookHome + cut)[..4] == FacebookHome[..4] == "http";
          FacebookHome + cut
  }

  /** A permalink is its own permalink: normalising twice changes nothing. */
  lemma PermalinkIdempotent(l: LinkLookup)
    requires Permalink(l) != ""
    ensures Permalink(Link(Some(Permalink(l)))) == Permalink(l)
  {
    SplitAbsent(Permalink(l), '?');
  }

  /** The query string of an href is dropped, and only a relative path gets the origin. */
  lemma PermalinkDropsQuery(a: string, b: string)
    requires '?' !in a
    ensures Permalink(Link(Some(a + "?" + b))) == if StartsWith(a, "http") then a else FacebookHome + a
  {
    HeadBeforeQuery(a, b);
    SchemeBeforeQuery(a, b);
  }

  /** The first `?`-piece of `a?b` is `a`. */
  lemma HeadBeforeQuery(a: string, b: string)
    requires '?' !in a
    ensures Split(a + "?" + b, '?')[0] == a
  {
    IndexOfAfterFreePrefix(a, '?', b);
    var h := a + "?" + b;
    assert h[..|a|] == a;
  }

  /** `a?b` starts with `http` exactly when `a` does. */
  lemma SchemeBeforeQuery(a: string, b: string)
    requires '?' !in a
    ensures StartsWith(a + "?" + b, "http") <==> StartsWith(a, "http")
  {
    var h := a + "?" + b;
    if |a| < 4 {
      assert h[|a|] == '?';
      assert "http"[|a|] != '?';
    } else {
      assert h[..4] == a[..4];
    }
  }

  /** An href without a query string is kept whole. */
  lemma PermalinkWithoutQuery(h: string)
    requires h != "" && '?' !in h
    ensures Permalink(Link(Some(h))) == if StartsWith(h, "http") then h else FacebookHome + h
  {
    SplitAbsent(h, '?');
  }

  /** Some keyword, stripped and lower-cased, occurs in the lower-cased content. */
  predicate MatchesKeyword(keywords: seq<string>, content: string) {
    exists i :: 0 <= i < |keywords| && Contains(Lower(content), Lower(Strip(keywords[i])))
  }

  /** The post is reported: meaningful content that mentions a keyword. */
  predicate Kept(keywords: seq<string>, p: Post) {
    LongText(p.content) && MatchesKeyword(keywords, p.content)
  }

  /** A blank keyword (a trailing comma in `KEYWORDS`, or none set) matches every content. */
  lemma BlankKeywordMatchesAll(keywords: seq<string>, content: string, i: nat)
    requires i < |keywords| && Strip(keywords[i]) == ""
    ensures MatchesKeyword(keywords, content)
  {
    assert OccursAt(Lower(content), Lower(Strip(keywords[i])), 0);
  }

  /** The keyword test ignores the case of the content. */
  lemma MatchIgnoresCase(keywords: seq<string>, content: string)
    ensures MatchesKeyword(keywords, content) <==> MatchesKeyword(keywords, Lower(content))
  {
    LowerKeeps(Lower(content));
  }

  /**
   * The post read from one container: the stripped text of the first author
   * selector with an element (`Unknown` if none), the stripped text of the
   * first content selector whose text is meaningful (empty if none), and the
   * permalink; a lookup that raises moves on to the next selector.
   */
  function PostOf(c: Container): Post {
    var author := FirstText(c, AuthorSelectors, AnyText);
    var content := FirstText(c, ContentSelectors, LongText);
    Post(if author.Some? then Strip(author.value) else "Unknown",
         if content.Some? then Strip(content.value) else "",
         Permalink(c.link(LinkSelector)))
  }

  /** The first author selector with an element gives the author, even when its text is blank. */
  lemma AuthorFromFirstElement(c: Container, k: nat)
    requires k < |AuthorSelectors| && c.find(AuthorSelectors[k]).Element?
    requires forall j :: 0 <= j < k ==> !c.find(AuthorSelectors[j]).Element?
    ensures PostOf(c).author == Strip(c.find(AuthorSelectors[k]).text)
  {
    FirstTextAt(c, AuthorSelectors, AnyText, k);
  }

  /** A container with no author element keeps the default author. */
  lemma AuthorUnknown(c: Container)
    requires forall j :: 0 <= j < |AuthorSelectors| ==> !c.find(AuthorSelectors[j]).Element?
    ensures PostOf(c).author == "Unknown"
  {
    FirstTextNone(c, AuthorSelectors, AnyText);
  }

  /** The first content selector with meaningful text gives the content, stripped. */
  lemma ContentFromFirstLongText(c: Container, k: nat)
    requires k < |ContentSelectors| && Found(c.find(ContentSelectors[k]), LongText)
    requires forall j :: 0 <= j < k ==> !Found(c.find(ContentSelectors[j]), LongText)
    ensures PostOf(c).content == Strip(c.find(ContentSelectors[k]).text)
  {
    FirstTextAt(c, ContentSelectors, LongText, k);
  }

  /** A container with no meaningful text has empty content and is never reported. */
  lemma ContentEmpty(c: Container, keywords: seq<string>)
    requires forall j :: 0 <= j < |ContentSelectors| ==> !Found(c.find(ContentSelectors[j]), LongText)
    ensures PostOf(c).content == "" && !Kept(keywords, PostOf(c))
  {
    FirstTextNone(c, ContentSelectors, LongText);
  }

  /** Reads one container, overwriting the record's defaults field by field. */
  method ExtractPost(c: Container) returns (p: Post)
    ensures p == PostOf(c)
  {
    p := Post("Unknown", "", "");
    var author := FindText(c, AuthorSelectors, AnyText);
    if author.Some? {
      p := p.(author := Strip(author.value));
    }
    var content := FindText(c, ContentSelectors, LongText);
    if content.Some? {
      p := p.(content := Strip(content.value));
    }
    p := p.(url := Permalink(c.link(LinkSelector)));
  }

  /** The posts that pass the filter, in order. */
  function KeptPosts(keywords: seq<string>, ps: seq<Post>): (r: seq<Post>)
    ensures |r| <= |ps|
    ensures forall i :: 0 <= i < |r| ==> Kept(keywords, r[i])
    decreases |ps|
  {
    if ps == [] then []
    else (if Kept(keywords, ps[0]) then [ps[0]] else []) + KeptPosts(keywords, ps[1..])
  }

  /** Every post that passes the filter is reported. */
  lemma {:induction false} KeptPostsComplete(keywords: seq<string>, ps: seq<Post>, i: nat)
    requires i < |ps| && Kept(keywords, ps[i])
    ensures ps[i] in KeptPosts(keywords, ps)
    decreases i
  {
    if i > 0 {
      KeptPostsComplete(keywords, ps[1..], i - 1);
      assert ps[1..][i - 1] == ps[i];
    }
  }

  /** Only posts of the list are reported. */
  lemma {:induction false} KeptPostsSound(keywords: seq<string>, ps: seq<Post>, p: Post)
    requires p in KeptPosts(keywords, ps)
    ensures p in ps
    decreases |ps|
  {
    if ps[0] != p {
      KeptPostsSound(keywords, ps[1..], p);
    }
  }

  /** `extract_facebook_posts`: the reported posts of the examined containers of a page. */
  function ExtractedPosts(keywords: seq<string>, pg: Page): seq<Post> {
    KeptPosts(keywords, ReadAll(PostOf, Examined(pg, PostSelectors)))
  }

  /** A post is reported exactly when it is one of the posts read and passes the filter. */
  lemma KeptPostsExact(keywords: seq<string>, ps: seq<Post>, p: Post)
    ensures p in KeptPosts(keywords, ps) <==> Kept(keywords, p) && p in ps
  {
    if p in KeptPosts(keywords, ps) {
      KeptPostsSound(keywords, ps, p);
    }
    if Kept(keywords, p) && p in ps {
      var i :| 0 <= i < |ps| && ps[i] == p;
      KeptPostsComplete(keywords, ps, i);
    }
  }

  /** The container loop of `extract_facebook_posts`, appending each post that passes the filter. */
  method ExtractFacebookPosts(pg: Page, keywords: seq<string>) returns (posts: seq<Post>)
    ensures posts == ExtractedPosts(keywords, pg)
    ensures |posts| <= MaxContainers
    ensures forall i :: 0 <= i < |posts| ==> Kept(keywords, posts[i])
  {
    var cs := ExamineContainers(pg, PostSelectors);
    posts := [];
    var i := 0;
    while i < |cs|
      invariant 0 <= i <= |cs|
      invariant posts + KeptPosts(keywords, ReadAll(PostOf, cs[i..])) == KeptPosts(keywords, ReadAll(PostOf, cs))
    {
      assert cs[i..][1..] == cs[i + 1..];
      var p := ExtractPost(cs[i]);
      var rest := ReadAll(PostOf, cs[i + 1..]);
      assert ReadAll(PostOf, cs[i..]) == [p] + rest;
      assert ([p] + rest)[1..] == rest;
      var x := if Kept(keywords, p) then [p] else [];
      XScout.Regroup(posts, x, KeptPosts(keywords, rest), KeptPosts(keywords, ReadAll(PostOf, cs)));
      posts := posts + x;
      i := i + 1;
    }
    assert cs[i..] == [];
    ReadAllAt(PostOf, cs);
  }

  // ---------------------------------------------------------------- notifications

  /** `send_whatsapp_notification(post, platform)`: the header, author, the first 150 characters of the content, and the URL. */
  function LeadNotice(platform: string, p: Post): string {
    "[!] New " + platform + " Lead Found!\n\n" + "Author: " + p.author + "\n"
    + "Post: " + Take(p.content, 150) + "...\n\n" + "View: " + p.url
  }

  /**
   * A notice names the platform and the author, then holds the content when it
   * is shorter than 150 characters and its first 150 otherwise, then `...`
   * in both cases, and ends with the URL.
   */
  lemma LeadNoticeExcerpt(platform: string, p: Post)
    ensures var m := LeadNotice(platform, p);
            var h := "[!] New " + platform + " Lead Found!\n\n" + "Author: " + p.author + "\n" + "Post: ";
            var n := if |p.content| < 150 then |p.content| else 150;
            |m| == |h| + n + 11 + |p.url|
            && m[..|h|] == h && m[|h|..|h| + n] == p.content[..n] && m[|h| + n..|h| + n + 3] == "..."
            && m[|m| - |p.url|..] == p.url
  {
    var m := LeadNotice(platform, p);
    var h := "[!] New " + platform + " Lead Found!\n\n" + "Author: " + p.author + "\n" + "Post: ";
    var t := Take(p.content, 150);
    assert m == h + t + "...\n\nView: " + p.url;
  }

  /** The Facebook notices of some posts, in order. */
  function Notices(ps: seq<Post>): seq<string>
    decreases |ps|
  {
    if ps == [] then [] else [LeadNotice("Facebook", ps[0])] + Notices(ps[1..])
  }

  /** One notice per post, in post order. */
  lemma {:induction false} NoticesAt(ps: seq<Post>)
    ensures |Notices(ps)| == |ps|
    ensures forall i :: 0 <= i < |ps| ==> Notices(ps)[i] == LeadNotice("Facebook", ps[i])
    decreases |ps|
  {
    if ps != [] {
      NoticesAt(ps[1..]);
    }
  }

  /** The notices of two runs of posts one after the other. */
  lemma {:induction false} NoticesAppend(a: seq<Post>, b: seq<Post>)
    ensures Notices(a + b) == Notices(a) + Notices(b)
    decreases |a|
  {
    if a == [] {
      assert a + b == b;
    } else {
      assert (a + b)[1..] == a[1..] + b;
      NoticesAppend(a[1..], b);
    }
  }

  /** The notices sent so far stay those of the posts found so far when a query's posts and notices are added. */
  lemma NoticesStep(on: bool, found: seq<Post>, posts: seq<Post>, sent: seq<string>)
    requires sent == if on then Notices(found) else []
    ensures sent + (if on then Notices(posts) else []) == if on then Notices(found + posts) else []
  {
    NoticesAppend(found, posts);
  }

  // ---------------------------------------------------------------- the search

  const SearchBase := "https://www.facebook.com/search/posts/?q="

  /** The results URL of a query, its spaces written `%20`. */
  function SearchUrl(q: string): string {
    SearchBase + Replace(q, " ", "%20")
  }

  /** The URL holds no space, and unescaping its query part gives back a query without `%`. */
  lemma SearchUrlRoundTrip(q: string)
    requires '%' !in q
    ensures StartsWith(SearchUrl(q), SearchBase)
    ensures ' ' !in SearchUrl(q)[|SearchBase|..]
    ensures Replace(SearchUrl(q)[|SearchBase|..], "%20", " ") == q
  {
    var e := Replace(q, " ", "%20");
    assert SearchUrl(q)[|SearchBase|..] == e;
    ReplaceCharRemoves(q, ' ', "%20");
    EscapeSpacesRoundTrip(q);
  }

  /** A scout's page extraction: the reported posts of a results page, for some keywords. */
  type Extract = (seq<string>, Page) -> seq<Post>

  /** The posts reported for one query; a failed navigation reports none. */
  function QueryPosts(extract: Extract, keywords: seq<string>, visit: string -> Visit, q: string): seq<Post> {
    match visit(SearchUrl(q))
    case NavFailed => []
    case Loaded(pg) => extract(keywords, pg)
  }

  /** The posts reported for some queries, query by query. */
  function FoundFrom(extract: Extract, keywords: seq<string>, visit: string -> Visit, qs: seq<string>): seq<Post>
    decreases |qs|
  {
    if qs == [] then []
    else QueryPosts(extract, keywords, visit, qs[0]) + FoundFrom(extract, keywords, visit, qs[1..])
  }

  /** The posts reported by a run: none unless logged in. */
  function Reported(c: Config, loggedIn: bool, visit: string -> Visit): seq<Post> {
    if loggedIn then FoundFrom(ExtractedPosts, c.keywords, visit, c.queries) else []
  }

  /** Every post passes the filter. */
  predicate AllKept(keywords: seq<string>, ps: seq<Post>) {
    forall i :: 0 <= i < |ps| ==> Kept(keywords, ps[i])
  }

  lemma AllKeptAppend(keywords: seq<string>, a: seq<Post>, b: seq<Post>)
    requires AllKept(keywords, a) && AllKept(keywords, b)
    ensures AllKept(keywords, a + b)
  {
    forall i | 0 <= i < |a + b|
      ensures Kept(keywords, (a + b)[i])
    {
      if i < |a| {
        assert (a + b)[i] == a[i];
      } else {
        assert (a + b)[i] == b[i - |a|];
      }
    }
  }

  /** When every page gives only posts that pass the filter, so does every run. */
  lemma {:induction false} FoundFromKept(extract: Extract, keywords: seq<string>, visit: string -> Visit, qs: seq<string>)
    requires forall pg :: AllKept(keywords, extract(keywords, pg))
    ensures AllKept(keywords, FoundFrom(extract, keywords, visit, qs))
    decreases |qs|
  {
    if qs != [] {
      FoundFromKept(extract, keywords, visit, qs[1..]);
      AllKeptAppend(keywords, QueryPosts(extract, keywords, visit, qs[0]), FoundFrom(extract, keywords, visit, qs[1..]));
    }
  }

  /** When every page gives at most five posts, a run gives at most five per query. */
  lemma {:induction false} FoundFromBound(extract: Extract, keywords: seq<string>, visit: string -> Visit, qs: seq<string>)
    requires forall pg :: |extract(keywords, pg)| <= MaxContainers
    ensures |FoundFrom(extract, keywords, visit, qs)| <= MaxContainers * |qs|
    decreases |qs|
  {
    if qs != [] {
      FoundFromBound(extract, keywords, visit, qs[1..]);
    }
  }

  /** A page gives at most five posts, each passing the filter. */
  lemma ExtractedPostsBound(keywords: seq<string>, pg: Page)
    ensures AllKept(keywords, ExtractedPosts(keywords, pg))
    ensures |ExtractedPosts(keywords, pg)| <= MaxContainers
  {
    ReadAllAt(PostOf, Examined(pg, PostSelectors));
  }

  /** A run reports only posts that pass the filter, at most five per query. */
  lemma ReportedKept(c: Config, loggedIn: bool, visit: string -> Visit)
    ensures AllKept(c.keywords, Reported(c, loggedIn, visit))
    ensures |Reported(c, loggedIn, visit)| <= MaxContainers * |c.queries|
  {
    forall pg
      ensures AllKept(c.keywords, ExtractedPosts(c.keywords, pg))
      ensures |ExtractedPosts(c.keywords, pg)| <= MaxContainers
    {
      ExtractedPostsBound(c.keywords, pg);
    }
    FoundFromKept(ExtractedPosts, c.keywords, visit, c.queries);
    FoundFromBound(ExtractedPosts, c.keywords, visit, c.queries);
  }

  // ---------------------------------------------------------------- pauses

  /**
   * The pause written after the query at 1-based position `idx` of `n`, as
   * the code reads it: when the query reported posts, `idx` has been
   * rebound by the inner `enumerate(posts)` to the last post's 0-based index.
   */
  function DelayAsWritten(n: nat, idx: nat, found: nat): Option<nat> {
    var j := if found > 0 then found - 1 else idx;
    if j < n then Some(if j < 5 then 4 else 6) else None
  }

  /** The intended pause after the query at 1-based position `idx` of `n`: 4s early on, 6s later, none after the last. */
  function DelayAfter(n: nat, idx: nat): Option<nat> {
    if idx < n then Some(if idx < 5 then 4 else 6) else None
  }

  /** The two readings agree when the query reported nothing. */
  lemma DelayAsWrittenWithoutPosts(n: nat, idx: nat)
    ensures DelayAsWritten(n, idx, 0) == DelayAfter(n, idx)
  {
  }

  /** After one reported post the code pauses after the last query, and pauses 4s where 6s is due. */
  lemma DelayShadowed()
    ensures DelayAsWritten(1, 1, 1) == Some(4) && DelayAfter(1, 1) == None
    ensures DelayAsWritten(7, 6, 1) == Some(4) && DelayAfter(7, 6) == Some(6)
  {
  }

  /**
   * Over a whole run: one query that reports one post is followed by a 4s
   * pause, and the intended schedule has none; with seven queries where
   * only the sixth reports one post, the pause after it is 4s where the
   * intended schedule (`PausesFromShape`) has 6s.
   */
  lemma PausesShadowed()
    ensures PausesAsWrittenFrom([1], 0) == [4] && PausesFrom(1, 0) == []
    ensures PausesAsWrittenFrom([0, 0, 0, 0, 0, 1, 0], 0) == [4, 4, 4, 4, 6, 4]
  {
    assert PausesAsWrittenFrom([1], 1) == [];
    PausesShadowedTail([0, 0, 0, 0, 0, 1, 0]);
  }

  /** The pauses of the seven-query run, from the back. */
  lemma PausesShadowedTail(w: seq<nat>)
    requires |w| == 7 && w[5] == 1
    requires w[0] == 0 && w[1] == 0 && w[2] == 0 && w[3] == 0 && w[4] == 0 && w[6] == 0
    ensures PausesAsWrittenFrom(w, 0) == [4, 4, 4, 4, 6, 4]
  {
    assert PausesAsWrittenFrom(w, 7) == [];
    PauseUnfold(w, 6);
    PauseUnfold(w, 5);
    PauseUnfold(w, 4);
    PauseUnfold(w, 3);
    PauseUnfold(w, 2);
    PauseUnfold(w, 1);
    PauseUnfold(w, 0);
  }

  /** One step of the code's pause schedule. */
  lemma PauseUnfold(counts: seq<nat>, i: nat)
    requires i < |counts|
    ensures PausesAsWrittenFrom(counts, i) == DelayAsWritten(|counts|, i + 1, counts[i]).ToSeq() + PausesAsWrittenFrom(counts, i + 1)
  {
  }

  /** The pauses after the queries at 0-based positions `i` to `n - 1`. */
  function PausesFrom(n: nat, i: nat): seq<nat>
    decreases n - i
  {
    if i >= n then [] else DelayAfter(n, i + 1).ToSeq() + PausesFrom(n, i + 1)
  }

  /**
   * One pause between each two consecutive queries, none after the last:
   * the pause after the `k`-th query is 4s for the first four and 6s after.
   */
  lemma {:induction false} PausesFromShape(n: nat, i: nat)
    requires i <= n
    ensures |PausesFrom(n, i)| == if i < n then n - 1 - i else 0
    ensures forall k :: 0 <= k < |PausesFrom(n, i)| ==> PausesFrom(n, i)[k] == if i + 1 + k < 5 then 4 else 6
    decreases n - i
  {
    if i < n {
      PausesFromShape(n, i + 1);
      if i + 1 < n {
        assert PausesFrom(n, i) == [if i + 1 < 5 then 4 else 6] + PausesFrom(n, i + 1);
      } else {
        assert PausesFrom(n, i) == [];
      }
    }
  }

  /** How many posts each query reported, in query order. */
  function ReportCounts(keywords: seq<string>, visit: string -> Visit, qs: seq<string>): (r: seq<nat>)
    ensures |r| == |qs|
  {
    if qs == [] then [] else [|QueryPosts(ExtractedPosts, keywords, visit, qs[0])|] + ReportCounts(keywords, visit, qs[1..])
  }

  /** Entry `k` of the counts is the number of posts query `k` reported. */
  lemma {:induction false} ReportCountAt(keywords: seq<string>, visit: string -> Visit, qs: seq<string>, k: nat)
    requires k < |qs|
    ensures ReportCounts(keywords, visit, qs)[k] == |QueryPosts(ExtractedPosts, keywords, visit, qs[k])|
  {
    if k > 0 {
      ReportCountAt(keywords, visit, qs[1..], k - 1);
    }
  }

  /**
   * The pauses the code takes after the queries at 0-based positions `i` to
   * `|counts| - 1`, where `counts[k]` is how many posts query `k` reported.
   */
  function PausesAsWrittenFrom(counts: seq<nat>, i: nat): seq<nat>
    decreases |counts| - i
  {
    if i >= |counts| then [] else DelayAsWritten(|counts|, i + 1, counts[i]).ToSeq() + PausesAsWrittenFrom(counts, i + 1)
  }

  /** One more query's posts extend the posts found so far towards the whole run. */
  lemma FoundStep(keywords: seq<string>, visit: string -> Visit, qs: seq<string>, i: nat, found: seq<Post>)
    requires i < |qs|
    requires found + FoundFrom(ExtractedPosts, keywords, visit, qs[i..]) == FoundFrom(ExtractedPosts, keywords, visit, qs)
    ensures (found + QueryPosts(ExtractedPosts, keywords, visit, qs[i])) + FoundFrom(ExtractedPosts, keywords, visit, qs[i + 1..])
            == FoundFrom(ExtractedPosts, keywords, visit, qs)
  {
    assert qs[i..][1..] == qs[i + 1..];
    XScout.Regroup(found, QueryPosts(ExtractedPosts, keywords, visit, qs[i]),
                   FoundFrom(ExtractedPosts, keywords, visit, qs[i + 1..]), FoundFrom(ExtractedPosts, keywords, visit, qs));
  }

  /** One more query's pause `d` extends the pauses taken so far towards the whole schedule. */
  lemma PauseStep(counts: seq<nat>, i: nat, pauses: seq<nat>, d: Option<nat>, next: seq<nat>)
    requires i < |counts| && pauses + PausesAsWrittenFrom(counts, i) == PausesAsWrittenFrom(counts, 0)
    requires d == DelayAsWritten(|counts|, i + 1, counts[i]) && next == pauses + d.ToSeq()
    ensures next + PausesAsWrittenFrom(counts, i + 1) == PausesAsWrittenFrom(counts, 0)
  {
    XScout.Regroup(pauses, d.ToSeq(), PausesAsWrittenFrom(counts, i + 1), PausesAsWrittenFrom(counts, 0));
  }

  /** When no query from position `i` on reported a post, the code's pauses are the intended ones. */
  lemma {:induction false} PausesAsWrittenWithoutPosts(counts: seq<nat>, i: nat)
    requires forall k :: i <= k < |counts| ==> counts[k] == 0
    ensures PausesAsWrittenFrom(counts, i) == PausesFrom(|counts|, i)
    decreases |counts| - i
  {
    if i < |counts| {
      DelayAsWrittenWithoutPosts(|counts|, i + 1);
      PausesAsWrittenWithoutPosts(counts, i + 1);
    }
  }

  /** A run that reports nothing has no post to rebind the query counter, so its pauses are as intended. */
  lemma {:induction false} QuietRunPausesAsIntended(keywords: seq<string>, visit: string -> Visit, qs: seq<string>)
    requires FoundFrom(ExtractedPosts, keywords, visit, qs) == []
    ensures PausesAsWrittenFrom(ReportCounts(keywords, visit, qs), 0) == PausesFrom(|qs|, 0)
  {
    QuietQueries(keywords, visit, qs);
    forall k | 0 <= k < |qs|
      ensures ReportCounts(keywords, visit, qs)[k] == 0
    {
      ReportCountAt(keywords, visit, qs, k);
    }
    PausesAsWrittenWithoutPosts(ReportCounts(keywords, visit, qs), 0);
  }

  /** A run that reports nothing reported nothing for any one of its queries. */
  lemma {:induction false} QuietQueries(keywords: seq<string>, visit: string -> Visit, qs: seq<string>)
    requires FoundFrom(ExtractedPosts, keywords, visit, qs) == []
    ensures forall k :: 0 <= k < |qs| ==> QueryPosts(ExtractedPosts, keywords, visit, qs[k]) == []
  {
    if qs != [] {
      QuietQueries(keywords, visit, qs[1..]);
      forall k | 1 <= k < |qs|
        ensures QueryPosts(ExtractedPosts, keywords, visit, qs[k]) == []
      {
        assert qs[k] == qs[1..][k - 1];
      }
    }
  }

  /** One query: navigate to its results URL and extract the posts; a failed navigation gives none. */
  method SearchQuery(c: Config, visit: string -> Visit, q: string) returns (posts: seq<Post>)
    ensures posts == QueryPosts(ExtractedPosts, c.keywords, visit, q)
  {
    posts := [];
    var v := visit(SearchUrl(q));
    if v.Loaded? {
      posts := ExtractFacebookPosts(v.page, c.keywords);
    }
  }

  /** `send_whatsapp_notification` for each post in turn; nothing is sent unless WhatsApp is configured (`on`). */
  method NotifyAll(on: bool, posts: seq<Post>) returns (sent: seq<string>)
    ensures sent == if on then Notices(posts) else []
  {
    sent := [];
    var j := 0;
    while j < |posts|
      invariant 0 <= j <= |posts|
      invariant sent == if on then Notices(posts[..j]) else []
    {
      if on {
        NoticesAppend(posts[..j], [posts[j]]);
        assert posts[..j + 1] == posts[..j] + [posts[j]];
        sent := sent + [LeadNotice("Facebook", posts[j])];
      }
      j := j + 1;
    }
    assert posts[..j] == posts;
  }

  /**
   * `search_facebook_marketplace` once logged in: each query's results page,
   * the posts it reports, a notice per post when WhatsApp is configured, and
   * the pause the code takes after it, with `idx` rebound by the inner loop
   * whenever the query reported posts.
   */
  method SearchFacebook(c: Config, loggedIn: bool, visit: string -> Visit)
    returns (found: seq<Post>, sent: seq<string>, pauses: seq<nat>)
    ensures found == Reported(c, loggedIn, visit)
    ensures sent == if WhatsAppOn(c) then Notices(found) else []
    ensures pauses == if loggedIn then PausesAsWrittenFrom(ReportCounts(c.keywords, visit, c.queries), 0) else []
  {
    found, sent, pauses := [], [], [];
    if !loggedIn {
      return;
    }
    var qs := c.queries;
    ghost var counts := ReportCounts(c.keywords, visit, qs);
    var i := 0;
    while i < |qs|
      invariant 0 <= i <= |qs|
      invariant found + FoundFrom(ExtractedPosts, c.keywords, visit, qs[i..]) == FoundFrom(ExtractedPosts, c.keywords, visit, qs)
      invariant sent == if WhatsAppOn(c) then Notices(found) else []
      invariant pauses + PausesAsWrittenFrom(counts, i) == PausesAsWrittenFrom(counts, 0)
    {
      var posts := SearchQuery(c, visit, qs[i]);
      var msgs := NotifyAll(WhatsAppOn(c), posts);
      NoticesStep(WhatsAppOn(c), found, posts, sent);
      FoundStep(c.keywords, visit, qs, i, found);
      found, sent := found + posts, sent + msgs;
      // the inner `enumerate(posts)` has rebound `idx` when the query reported posts
      var d := DelayAsWritten(|qs|, i + 1, |posts|);
      ReportCountAt(c.keywords, visit, qs, i);
      ghost var before := pauses;
      if d.Some? {
        pauses := pauses + [d.value];
      }
      PauseStep(counts, i, before, d, pauses);
      i := i + 1;
    }
    assert qs[i..] == [];
  }
}
