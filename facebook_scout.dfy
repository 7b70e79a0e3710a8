/**
 * The interactive Facebook scout (facebook_scout.py): the same post
 * extraction and filter as the headless scout, except that each field's
 * selector loop sits inside a single `try`; the first two of four fixed
 * queries; a bounded wait for a manual login; and a fixed pause after each
 * query. What the login probes see and what each search URL loads are inputs.
 */
module FacebookScout {
  import opened Wrappers
  import opened Text
  import opened Dom
  import XScout
  import Cloud = FacebookScoutCloud

  // ---------------------------------------------------------------- configuration

  /** The attributes `__init__` reads from the environment. */
  datatype Config = Config(
    phone: Option<string>,
    apiKey: Option<string>,
    portfolioUrl: string,
    keywords: seq<string>)

  function ConfigFromEnv(env: XScout.Env): (c: Config)
    ensures c.keywords == Split(XScout.GetEnvOr(env, "KEYWORDS", ""), ',')
  {
    Config(XScout.GetEnv(env, "CALLMEBOT_PHONE"), XScout.GetEnv(env, "CALLMEBOT_APIKEY"),
           XScout.GetEnvOr(env, "PORTFOLIO_URL", ""), Split(XScout.GetEnvOr(env, "KEYWORDS", ""), ','))
  }

  /** Both CallMeBot settings are present, so notifications are sent. */
  predicate WhatsAppOn(c: Config) {
    XScout.Present(c.phone) && XScout.Present(c.apiKey)
  }

  /** The fixed search queries. */
  const FixedQueries: seq<string> :=
    ["need a website", "looking for web developer", "hire developer", "need developer"]

  /** `search_queries[:2]`: the queries actually searched. */
  function SearchedQueries(): (qs: seq<string>)
    ensures qs == ["need a website", "looking for web developer"]
  {
    Take(FixedQueries, 2)
  }

  // ---------------------------------------------------------------- posts

  /**
   * The post read from one container: as in the headless scout, except that
   * a lookup that raises ends that field's search and keeps its default.
   */
  function PostOf(c: Container): Cloud.Post {
    var author := FirstTextBeforeThrow(c, Cloud.AuthorSelectors, AnyText);
    var content := FirstTextBeforeThrow(c, Cloud.ContentSelectors, Cloud.LongText);
    Cloud.Post(if author.Some? then Strip(author.value) else "Unknown",
               if content.Some? then Strip(content.value) else "",
               Cloud.Permalink(c.link(Cloud.LinkSelector)))
  }

  /** No field lookup raises. */
  predicate NoLookupThrows(c: Container) {
    (forall j :: 0 <= j < |Cloud.AuthorSelectors| ==> !c.find(Cloud.AuthorSelectors[j]).Threw?)
    && (forall j :: 0 <= j < |Cloud.ContentSelectors| ==> !c.find(Cloud.ContentSelectors[j]).Threw?)
  }

  /** When no lookup raises, both scouts read the same post. */
  lemma SamePostWithoutThrows(c: Container)
    requires NoLookupThrows(c)
    ensures PostOf(c) == Cloud.PostOf(c)
  {
    NoThrowSameText(c, Cloud.AuthorSelectors, AnyText);
    NoThrowSameText(c, Cloud.ContentSelectors, Cloud.LongText);
  }

  /**
   * A lookup that raises before the first author element stops the search
   * here, keeping `Unknown`, while the headless scout skips it and takes
   * that element's stripped text.
   */
  lemma ThrowHidesLaterAuthor(c: Container, k: nat, m: nat)
    requires k < m < |Cloud.AuthorSelectors|
    requires c.find(Cloud.AuthorSelectors[k]).Threw? && c.find(Cloud.AuthorSelectors[m]).Element?
    requires forall j :: 0 <= j < m ==> !c.find(Cloud.AuthorSelectors[j]).Element?
    ensures PostOf(c).author == "Unknown"
    ensures Cloud.PostOf(c).author == Strip(c.find(Cloud.AuthorSelectors[m]).text)
  {
    var j0 := FirstThrow(c, Cloud.AuthorSelectors, k);
    FirstTextBeforeThrowStops(c, Cloud.AuthorSelectors, AnyText, j0);
    Cloud.AuthorFromFirstElement(c, m);
  }

  /** The first raising lookup at or before `k`. */
  function FirstThrow(c: Container, sels: seq<string>, k: nat): (j: nat)
    requires k < |sels| && c.find(sels[k]).Threw?
    ensures j <= k && c.find(sels[j]).Threw?
    ensures forall i :: 0 <= i < j ==> !c.find(sels[i]).Threw?
    decreases k
  {
    if k == 0 || forall i :: 0 <= i < k ==> !c.find(sels[i]).Threw? then k
    else
      var i :| 0 <= i < k && c.find(sels[i]).Threw?;
      FirstThrow(c, sels, i)
  }

  /** Reads one container with a single `try` around each field's selector loop. */
  method ExtractPost(c: Container) returns (p: Cloud.Post)
    ensures p == PostOf(c)
  {
    p := Cloud.Post("Unknown", "", "");
    var author := FindTextBeforeThrow(c, Cloud.AuthorSelectors, AnyText);
    if author.Some? {
      p := p.(author := Strip(author.value));
    }
    var content := FindTextBeforeThrow(c, Cloud.ContentSelectors, Cloud.LongText);
    if content.Some? {
      p := p.(content := Strip(content.value));
    }
    p := p.(url := Cloud.Permalink(c.link(Cloud.LinkSelector)));
  }

  /** `extract_facebook_posts`: the reported posts of the examined containers of a page. */
  function ExtractedPosts(keywords: seq<string>, pg: Page): seq<Cloud.Post> {
    Cloud.KeptPosts(keywords, ReadAll(PostOf, Examined(pg, Cloud.PostSelectors)))
  }

  /** The container loop of `extract_facebook_posts`, appending each post that passes the filter. */
  method ExtractFacebookPosts(pg: Page, keywords: seq<string>) returns (posts: seq<Cloud.Post>)
    ensures posts == ExtractedPosts(keywords, pg)
    ensures |posts| <= MaxContainers
    ensures forall i :: 0 <= i < |posts| ==> Cloud.Kept(keywords, posts[i])
  {
    var cs := ExamineContainers(pg, Cloud.PostSelectors);
    posts := [];
    var i := 0;
    while i < |cs|
      invariant 0 <= i <= |cs|
      invariant posts + Cloud.KeptPosts(keywords, ReadAll(PostOf, cs[i..])) == Cloud.KeptPosts(keywords, ReadAll(PostOf, cs))
    {
      assert cs[i..][1..] == cs[i + 1..];
      var p := ExtractPost(cs[i]);
      var rest := ReadAll(PostOf, cs[i + 1..]);
      assert ReadAll(PostOf, cs[i..]) == [p] + rest;
      assert ([p] + rest)[1..] == rest;
      var x := if Cloud.Kept(keywords, p) then [p] else [];
      XScout.Regroup(posts, x, Cloud.KeptPosts(keywords, rest), Cloud.KeptPosts(keywords, ReadAll(PostOf, cs)));
      posts := posts + x;
      i := i + 1;
    }
    assert cs[i..] == [];
    ReadAllAt(PostOf, cs);
  }

  // ---------------------------------------------------------------- login

  /** The number of login probes, one every five seconds for five minutes. */
  const LoginProbes := 60

  /**
   * The manual-login wait: nothing to do when the first check already sees
   * a session; otherwise up to 60 probes, stopping at the first that sees
   * one and saving the session then. `probe(k)` is what the `k`-th probe sees.
   */
  method AwaitLogin(initial: bool, probe: nat -> bool) returns (loggedIn: bool, saved: bool, probes: nat)
    ensures initial ==> loggedIn && !saved && probes == 0
    ensures !initial ==> (loggedIn <==> exists k :: 0 <= k < LoginProbes && probe(k))
    ensures saved <==> !initial && loggedIn
    ensures probes <= LoginProbes
    ensures forall k :: 0 <= k < probes - 1 ==> !probe(k)
    ensures saved ==> probes >= 1 && probe(probes - 1)
    ensures !loggedIn ==> probes == LoginProbes
  {
    loggedIn, saved, probes := initial, false, 0;
    if initial {
      return;
    }
    var i := 0;
    while i < LoginProbes
      invariant 0 <= i <= LoginProbes
      invariant probes == i && !loggedIn && !saved
      invariant forall k :: 0 <= k < i ==> !probe(k)
    {
      probes := probes + 1;
      if probe(i) {
        loggedIn, saved := true, true;
        return;
      }
      i := i + 1;
    }
  }

  // ---------------------------------------------------------------- the search

  /** The pause after every query, the last included. */
  const QueryPause: nat := 3

  /** The pauses after the queries at 0-based positions `i` to `n - 1`: one after each, the last included. */
  function PausesFrom(n: nat, i: nat): seq<nat>
    decreases n - i
  {
    if i >= n then [] else [QueryPause] + PausesFrom(n, i + 1)
  }

  /** The posts reported by the searched queries. */
  function Found(c: Config, visit: string -> Visit): seq<Cloud.Post> {
    Cloud.FoundFrom(ExtractedPosts, c.keywords, visit, SearchedQueries())
  }

  /** A run reports only posts that pass the filter, at most ten in all. */
  lemma FoundKept(c: Config, visit: string -> Visit)
    ensures Cloud.AllKept(c.keywords, Found(c, visit))
    ensures |Found(c, visit)| <= 2 * MaxContainers
  {
    forall pg
      ensures Cloud.AllKept(c.keywords, ExtractedPosts(c.keywords, pg))
      ensures |ExtractedPosts(c.keywords, pg)| <= MaxContainers
    {
      ReadAllAt(PostOf, Examined(pg, Cloud.PostSelectors));
    }
    Cloud.FoundFromKept(ExtractedPosts, c.keywords, visit, SearchedQueries());
    Cloud.FoundFromBound(ExtractedPosts, c.keywords, visit, SearchedQueries());
  }

  /** One query: navigate to its results URL and extract the posts; a failed navigation gives none. */
  method SearchQuery(c: Config, visit: string -> Visit, q: string) returns (posts: seq<Cloud.Post>)
    ensures posts == Cloud.QueryPosts(ExtractedPosts, c.keywords, visit, q)
  {
    posts := [];
    var v := visit(Cloud.SearchUrl(q));
    if v.Loaded? {
      posts := ExtractFacebookPosts(v.page, c.keywords);
    }
  }

  /** The query loop: each query's reported posts, their notices when `on`, and a pause after each query. */
  method RunQueries(c: Config, visit: string -> Visit, qs: seq<string>)
    returns (found: seq<Cloud.Post>, sent: seq<string>, pauses: seq<nat>)
    ensures found == Cloud.FoundFrom(ExtractedPosts, c.keywords, visit, qs)
    ensures sent == if WhatsAppOn(c) then Cloud.Notices(found) else []
    ensures pauses == PausesFrom(|qs|, 0)
  {
    found, sent, pauses := [], [], [];
    var on := WhatsAppOn(c);
    var i := 0;
    while i < |qs|
      invariant 0 <= i <= |qs|
      invariant found + Cloud.FoundFrom(ExtractedPosts, c.keywords, visit, qs[i..]) == Cloud.FoundFrom(ExtractedPosts, c.keywords, visit, qs)
      invariant sent == if on then Cloud.Notices(found) else []
      invariant pauses + PausesFrom(|qs|, i) == PausesFrom(|qs|, 0)
    {
      assert qs[i..][1..] == qs[i + 1..];
      var posts := SearchQuery(c, visit, qs[i]);
      var msgs := Cloud.NotifyAll(on, posts);
      Cloud.NoticesStep(on, found, posts, sent);
      ghost var rest := Cloud.FoundFrom(ExtractedPosts, c.keywords, visit, qs[i + 1..]);
      assert Cloud.FoundFrom(ExtractedPosts, c.keywords, visit, qs[i..]) == posts + rest;
      XScout.Regroup(found, posts, rest, Cloud.FoundFrom(ExtractedPosts, c.keywords, visit, qs));
      found, sent := found + posts, sent + msgs;
      XScout.Regroup(pauses, [QueryPause], PausesFrom(|qs|, i + 1), PausesFrom(|qs|, 0));
      pauses := pauses + [QueryPause];
      i := i + 1;
    }
    assert qs[i..] == [];
  }

  /**
   * `search_facebook_marketplace`: the login wait, then, once logged in, the
   * first two queries, a notice per reported post when WhatsApp is
   * configured, and a 3s pause after each query.
   */
  method SearchFacebook(c: Config, initial: bool, probe: nat -> bool, visit: string -> Visit)
    returns (saved: bool, found: seq<Cloud.Post>, sent: seq<string>, pauses: seq<nat>)
    ensures saved <==> !initial && exists k :: 0 <= k < LoginProbes && probe(k)
    ensures found == if initial || saved then Found(c, visit) else []
    ensures sent == if WhatsAppOn(c) then Cloud.Notices(found) else []
    ensures pauses == if initial || saved then [QueryPause, QueryPause] else []
  {
    var loggedIn, probes;
    loggedIn, saved, probes := AwaitLogin(initial, probe);
    if !loggedIn {
      return false, [], [], [];
    }
    var qs := SearchedQueries();
    found, sent, pauses := RunQueries(c, visit, qs);
    assert PausesFrom(2, 2) == [];
    assert PausesFrom(2, 0) == [QueryPause, QueryPause];
  }
}
