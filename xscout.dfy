/**
 * The long-running Twitter scout (xscout.py): configuration read from the
 * environment, the search query, the tweet URL, the WhatsApp message and the
 * auto-reply template, the missing-credentials report, and the search pass
 * that deduplicates tweets against the ids already seen by this process.
 * The Twitter client and the CallMeBot webhook are not modelled: a search
 * answer is an input, and a notification or a reply is an entry appended to
 * an output log.
 */
module XScout {
  import opened Wrappers
  import opened Text

  // ---------------------------------------------------------------- configuration

  /** The process environment after loading `.env`. */
  type Env = map<string, string>

  /** `os.getenv(k)`. */
  function GetEnv(env: Env, k: string): Option<string> {
    if k in env then Some(env[k]) else None
  }

  /** `os.getenv(k, default)`. */
  function GetEnvOr(env: Env, k: string, default: string): string {
    GetEnv(env, k).GetOr(default)
  }

  /** Python's truthiness of an optional string: set and non-empty. */
  predicate Present(v: Option<string>) {
    v.Some? && v.value != ""
  }

  /** `os.getenv(k, default).lower() == 'true'`, the parse of a boolean switch. */
  predicate Switch(env: Env, k: string, default: string) {
    Lower(GetEnvOr(env, k, default)) == "true"
  }

  /** The attributes `XScout.__init__` reads from the environment. */
  datatype Config = Config(
    bearerToken: Option<string>,
    apiKey: Option<string>,
    apiSecret: Option<string>,
    accessToken: Option<string>,
    accessSecret: Option<string>,
    phone: Option<string>,
    callMeBotKey: Option<string>,
    autoReply: bool,
    portfolioUrl: string,
    keywords: seq<string>)

  function ConfigFromEnv(env: Env): (c: Config)
    ensures c.autoReply <==> Switch(env, "AUTO_REPLY", "true")
    ensures c.portfolioUrl == GetEnvOr(env, "PORTFOLIO_URL", "")
    ensures |c.keywords| >= 1 && Join(",", c.keywords) == GetEnvOr(env, "KEYWORDS", "")
  {
    Config(
      GetEnv(env, "TWITTER_BEARER_TOKEN"), GetEnv(env, "TWITTER_API_KEY"),
      GetEnv(env, "TWITTER_API_SECRET"), GetEnv(env, "TWITTER_ACCESS_TOKEN"),
      GetEnv(env, "TWITTER_ACCESS_SECRET"),
      GetEnv(env, "CALLMEBOT_PHONE"), GetEnv(env, "CALLMEBOT_APIKEY"),
      Switch(env, "AUTO_REPLY", "true"), GetEnvOr(env, "PORTFOLIO_URL", ""),
      Split(GetEnvOr(env, "KEYWORDS", ""), ','))
  }

  /** Auto-reply is on when `AUTO_REPLY` is unset. */
  lemma AutoReplyDefaultsOn(env: Env)
    requires "AUTO_REPLY" !in env
    ensures ConfigFromEnv(env).autoReply
  {
    LowerKeeps("true");
  }

  /** Any casing of `true` turns auto-reply on; an empty value turns it off. */
  lemma AutoReplyCasing(env: Env)
    ensures "AUTO_REPLY" in env && env["AUTO_REPLY"] == "TrUE" ==> ConfigFromEnv(env).autoReply
    ensures "AUTO_REPLY" in env && env["AUTO_REPLY"] == "" ==> !ConfigFromEnv(env).autoReply
  {
    if "AUTO_REPLY" in env && env["AUTO_REPLY"] == "TrUE" {
      var l := Lower("TrUE");
      assert l[0] == 't' && l[1] == 'r' && l[2] == 'u' && l[3] == 'e';
      assert l == "true";
    }
  }

  // ---------------------------------------------------------------- validate_credentials

  /** The credential variables, in the order `validate_credentials` checks them. */
  const CredentialNames: seq<string> :=
    ["TWITTER_BEARER_TOKEN", "TWITTER_API_KEY", "TWITTER_API_SECRET",
     "TWITTER_ACCESS_TOKEN", "TWITTER_ACCESS_SECRET"]

  /** The value of the `k`-th credential. */
  function Credential(c: Config, k: nat): Option<string>
    requires k < 5
  {
    match k
    case 0 => c.bearerToken
    case 1 => c.apiKey
    case 2 => c.apiSecret
    case 3 => c.accessToken
    case _ => c.accessSecret
  }

  /** The names of the absent credentials among the first `k`, in check order. */
  function MissingUpTo(c: Config, k: nat): seq<string>
    requires k <= 5
  {
    if k == 0 then []
    else MissingUpTo(c, k - 1) + (if Present(Credential(c, k - 1)) then [] else [CredentialNames[k - 1]])
  }

  /** The five credential names are distinct. */
  lemma CredentialNamesDistinct()
    ensures forall i, j :: 0 <= i < j < 5 ==> CredentialNames[i] != CredentialNames[j]
  {
    assert CredentialNames[0][8] != CredentialNames[3][8];
  }

  /**
   * Among the first `k` credentials, a name is reported exactly when its
   * value is absent, only credential names are reported, each at most once.
   */
  lemma {:induction false} MissingUpToExact(c: Config, k: nat)
    requires k <= 5
    ensures forall j :: 0 <= j < 5 ==> (CredentialNames[j] in MissingUpTo(c, k) <==> j < k && !Present(Credential(c, j)))
    ensures forall x :: x in MissingUpTo(c, k) ==> x in CredentialNames[..k]
    ensures |MissingUpTo(c, k)| <= k
  {
    CredentialNamesDistinct();
    if k > 0 {
      MissingUpToExact(c, k - 1);
      assert CredentialNames[..k] == CredentialNames[..k - 1] + [CredentialNames[k - 1]];
    }
  }

  /** `validate_credentials`' list of missing credential names. */
  method MissingCredentials(c: Config) returns (missing: seq<string>)
    ensures missing == MissingUpTo(c, 5)
    ensures forall j :: 0 <= j < 5 ==> (CredentialNames[j] in missing <==> !Present(Credential(c, j)))
  {
    missing := [];
    if !Present(c.bearerToken) { missing := missing + ["TWITTER_BEARER_TOKEN"]; }
    assert missing == MissingUpTo(c, 1);
    if !Present(c.apiKey) { missing := missing + ["TWITTER_API_KEY"]; }
    assert missing == MissingUpTo(c, 2);
    if !Present(c.apiSecret) { missing := missing + ["TWITTER_API_SECRET"]; }
    assert missing == MissingUpTo(c, 3);
    if !Present(c.accessToken) { missing := missing + ["TWITTER_ACCESS_TOKEN"]; }
    assert missing == MissingUpTo(c, 4);
    if !Present(c.accessSecret) { missing := missing + ["TWITTER_ACCESS_SECRET"]; }
    MissingUpToExact(c, 5);
  }

  // ---------------------------------------------------------------- the query

  /** The filters appended to every query. */
  const QuerySuffix := " -is:retweet lang:en"

  /** The separator between alternatives, and the quote around each. */
  const Or := " OR "
  const Quote := "\""

  /** `'"' + keyword.strip() + '"'`, one alternative of the query. */
  function Quoted(ks: seq<string>): (r: seq<string>)
    ensures |r| == |ks|
    ensures forall i :: 0 <= i < |ks| ==> r[i] == Quote + Strip(ks[i]) + Quote
  {
    if ks == [] then [] else [Quote + Strip(ks[0]) + Quote] + Quoted(ks[1..])
  }

  /** The search query: the quoted, stripped keywords joined by ` OR `, then the filters. */
  function SearchQuery(ks: seq<string>): string {
    Join(Or, Quoted(ks)) + QuerySuffix
  }

  /** The items at even positions: the first, the third, and so on. */
  function Evens(s: seq<string>): (r: seq<string>)
    decreases |s|
  {
    if |s| < 2 then [] else [s[0]] + Evens(s[2..])
  }

  /**
   * Reads the keywords back out of a query: the texts between the first and
   * second, third and fourth, ... double quote.
   */
  function QueryKeywords(q: string): seq<string> {
    Evens(Split(q, '"')[1..])
  }

  /**
   * The pieces between the double quotes of a query: each keyword followed
   * by ` OR `, the last keyword followed by the pieces of `tail`.
   */
  function QuotePieces(ks: seq<string>, tail: seq<string>): seq<string>
    requires |ks| >= 1
  {
    if |ks| == 1 then [ks[0]] + tail else [ks[0]] + ([Or] + QuotePieces(ks[1..], tail))
  }

  lemma JoinCons(sep: string, a: string, rest: seq<string>)
    requires rest != []
    ensures Join(sep, [a] + rest) == a + sep + Join(sep, rest)
  {
    assert ([a] + rest)[1..] == rest;
  }

  /** Quoting strips each keyword, so stripping them first changes nothing. */
  lemma QuotedStripAll(ks: seq<string>)
    ensures Quoted(StripAll(ks)) == Quoted(ks)
  {
    forall i | 0 <= i < |ks|
      ensures Quoted(StripAll(ks))[i] == Quoted(ks)[i]
    {
      StripStripped(ks[i]);
    }
  }

  /**
   * For stripped keywords, a quote followed by the pieces joined with quotes
   * is the ` OR `-joined quoted keywords followed by the quote-joined tail.
   */
  lemma {:induction false} JoinQuotePieces(ks: seq<string>, tail: seq<string>)
    requires |ks| >= 1 && tail != []
    requires forall i :: 0 <= i < |ks| ==> Strip(ks[i]) == ks[i]
    ensures Quote + Join(Quote, QuotePieces(ks, tail)) == Join(Or, Quoted(ks)) + Join(Quote, tail)
    decreases |ks|
  {
    if |ks| == 1 {
      JoinQuotePiecesOne(ks, tail);
    } else {
      JoinQuotePieces(ks[1..], tail);
      JoinQuotePiecesStep(ks, tail);
    }
  }

  /** The base case of `JoinQuotePieces`: a single keyword. */
  lemma JoinQuotePiecesOne(ks: seq<string>, tail: seq<string>)
    requires |ks| == 1 && Strip(ks[0]) == ks[0] && tail != []
    ensures Quote + Join(Quote, QuotePieces(ks, tail)) == Join(Or, Quoted(ks)) + Join(Quote, tail)
  {
    var k := ks[0];
    assert QuotePieces(ks, tail) == [k] + tail;
    JoinCons(Quote, k, tail);
    assert Quoted(ks) == [Quote + k + Quote];
    assert Join(Or, Quoted(ks)) == Quote + k + Quote;
    RegroupBase(Quote, k, Join(Quote, tail));
  }

  lemma RegroupBase(q: string, k: string, e: string)
    ensures q + (k + q + e) == q + k + q + e
  {
  }

  /** The inductive step of `JoinQuotePieces`: one more keyword in front. */
  lemma JoinQuotePiecesStep(ks: seq<string>, tail: seq<string>)
    requires |ks| >= 2 && Strip(ks[0]) == ks[0] && tail != []
    requires Quote + Join(Quote, QuotePieces(ks[1..], tail)) == Join(Or, Quoted(ks[1..])) + Join(Quote, tail)
    ensures Quote + Join(Quote, QuotePieces(ks, tail)) == Join(Or, Quoted(ks)) + Join(Quote, tail)
  {
    var k, r := ks[0], ks[1..];
    var p := QuotePieces(r, tail);
    var a := Join(Quote, p);
    var b := Join(Or, Quoted(r));
    JoinCons(Quote, k, [Or] + p);
    JoinCons(Quote, Or, p);
    assert Join(Quote, QuotePieces(ks, tail)) == k + Quote + (Or + Quote + a);
    var qs := Quoted(ks);
    assert qs == [Quote + k + Quote] + Quoted(r);
    JoinCons(Or, Quote + k + Quote, Quoted(r));
    assert Join(Or, qs) == Quote + k + Quote + Or + b;
    RegroupStep(Quote, k, Or, a, b, Join(Quote, tail));
  }

  /** The regrouping `JoinQuotePieces` needs in its inductive step. */
  lemma RegroupStep(q: string, k: string, o: string, a: string, b: string, e: string)
    requires q + a == b + e
    ensures q + (k + q + (o + q + a)) == q + k + q + o + b + e
  {
    calc {
      q + (k + q + (o + q + a));
      q + k + q + o + (q + a);
      q + k + q + o + (b + e);
      q + k + q + o + b + e;
    }
  }

  /** The even pieces are the keywords, then the odd pieces of the tail. */
  lemma {:induction false} EvensQuotePieces(ks: seq<string>, tail: seq<string>)
    requires |ks| >= 1 && tail != []
    ensures Evens(QuotePieces(ks, tail)) == ks + Evens(tail[1..])
    decreases |ks|
  {
    if |ks| == 1 {
      assert ([ks[0]] + tail)[2..] == tail[1..];
    } else {
      EvensQuotePieces(ks[1..], tail);
      assert ([ks[0]] + ([Or] + QuotePieces(ks[1..], tail)))[2..] == QuotePieces(ks[1..], tail);
      assert ks == [ks[0]] + ks[1..];
    }
  }

  /** The stripped keywords are their own strip and hold no double quote. */
  lemma StrippedQuoteFree(ks: seq<string>)
    requires forall i :: 0 <= i < |ks| ==> '"' !in ks[i]
    ensures forall i :: 0 <= i < |ks| ==> '"' !in StripAll(ks)[i] && Strip(StripAll(ks)[i]) == StripAll(ks)[i]
  {
    forall i | 0 <= i < |ks|
      ensures '"' !in StripAll(ks)[i] && Strip(StripAll(ks)[i]) == StripAll(ks)[i]
    {
      TrimOmits(ks[i], IsSpace, '"');
      StripStripped(ks[i]);
    }
  }

  /** Joining after an empty first piece starts with the separator. */
  lemma JoinEmptyHead(sep: string, parts: seq<string>)
    requires parts != []
    ensures Join(sep, [""] + parts) == sep + Join(sep, parts)
  {
    JoinCons(sep, "", parts);
  }

  /** The separator between alternatives holds no double quote. */
  lemma OrQuoteFree()
    ensures '"' !in Or
  {
    assert forall i :: 0 <= i < |Or| ==> Or[i] != '"';
  }

  /** No piece of a query over quote-free keywords and a quote-free tail holds a double quote. */
  lemma {:induction false} PiecesQuoteFree(ks: seq<string>, tail: seq<string>)
    requires |ks| >= 1
    requires forall i :: 0 <= i < |ks| ==> '"' !in ks[i]
    requires forall i :: 0 <= i < |tail| ==> '"' !in tail[i]
    ensures forall i :: 0 <= i < |[""] + QuotePieces(ks, tail)| ==> '"' !in ([""] + QuotePieces(ks, tail))[i]
    decreases |ks|
  {
    var p := QuotePieces(ks, tail);
    if |ks| == 1 {
      forall i | 0 <= i < |[""] + p|
        ensures '"' !in ([""] + p)[i]
      {
        if i >= 2 {
          assert ([""] + p)[i] == tail[i - 2];
        }
      }
    } else {
      PiecesQuoteFree(ks[1..], tail);
      OrQuoteFree();
      assert p == [ks[0]] + ([Or] + QuotePieces(ks[1..], tail));
      forall i | 0 <= i < |[""] + p|
        ensures '"' !in ([""] + p)[i]
      {
        if i >= 3 {
          assert ([""] + p)[i] == ([""] + QuotePieces(ks[1..], tail))[i - 2];
        }
      }
    }
  }

  /**
   * A query made of the quoted keywords and a tail of pieces is the
   * quote-join of those pieces behind an empty first piece.
   */
  lemma TailAsPieces(ks: seq<string>, tail: seq<string>)
    requires |ks| >= 1 && tail != []
    requires forall i :: 0 <= i < |ks| ==> '"' !in ks[i]
    ensures Join(Or, Quoted(ks)) + Join(Quote, tail) == Join(Quote, [""] + QuotePieces(StripAll(ks), tail))
  {
    StrippedQuoteFree(ks);
    JoinQuotePieces(StripAll(ks), tail);
    QuotedStripAll(ks);
    JoinEmptyHead(Quote, QuotePieces(StripAll(ks), tail));
  }

  /**
   * Reading back a query made of the quoted keywords and a quote-free tail:
   * the stripped keywords, then every second piece of the tail.
   */
  lemma TailRoundTrip(ks: seq<string>, tail: seq<string>)
    requires tail != []
    requires forall i :: 0 <= i < |ks| ==> '"' !in ks[i]
    requires forall i :: 0 <= i < |tail| ==> '"' !in tail[i]
    ensures QueryKeywords(Join(Or, Quoted(ks)) + Join(Quote, tail)) == StripAll(ks) + Evens(tail[1..])
  {
    assert Quote == ['"'];
    if ks == [] {
      assert Join(Or, Quoted(ks)) + Join(Quote, tail) == Join(Quote, tail);
      SplitJoin(tail, '"');
    } else {
      var sk := StripAll(ks);
      var pieces := [""] + QuotePieces(sk, tail);
      TailAsPieces(ks, tail);
      StrippedQuoteFree(ks);
      PiecesQuoteFree(sk, tail);
      SplitJoin(pieces, '"');
      assert pieces[1..] == QuotePieces(sk, tail);
      EvensQuotePieces(sk, tail);
    }
  }

  /**
   * The query round trip: for keywords without a double quote, reading the
   * query back gives the keywords, stripped, in order.
   */
  lemma QueryRoundTrip(ks: seq<string>)
    requires forall i :: 0 <= i < |ks| ==> '"' !in ks[i]
    ensures QueryKeywords(SearchQuery(ks)) == StripAll(ks)
  {
    SuffixQuoteFree();
    assert Join(Quote, [QuerySuffix]) == QuerySuffix;
    TailRoundTrip(ks, [QuerySuffix]);
    assert [QuerySuffix][1..] == [];
  }

  /** The filters hold no double quote. */
  lemma SuffixQuoteFree()
    ensures '"' !in QuerySuffix
  {
    var s := QuerySuffix;
    assert forall i :: 0 <= i < |s| ==> s[i] != '"';
  }

  // ---------------------------------------------------------------- search results

  datatype Tweet = Tweet(id: nat, authorId: nat, text: string)
  datatype User = User(id: nat, username: string)

  /** What `search_recent_tweets` gave: an API error, or the tweets and the expanded users. */
  datatype SearchResponse = ApiError | Response(data: seq<Tweet>, users: seq<User>)

  /** `{user.id: user for user in users}`: a later user with the same id replaces an earlier one. */
  function UsersById(users: seq<User>): map<nat, string>
    decreases |users|
  {
    if users == [] then map[]
    else
      var last := users[|users| - 1];
      UsersById(users[..|users| - 1])[last.id := last.username]
  }

  /**
   * Every expanded user's id is a key; each key maps to the name of a user
   * with that id, and that of the last such user.
   */
  lemma UsersByIdLookup(users: seq<User>)
    ensures forall u :: u in users ==> u.id in UsersById(users)
    ensures forall id :: id in UsersById(users) ==>
              exists k :: 0 <= k < |users| && users[k].id == id && UsersById(users)[id] == users[k].username
                          && forall j :: k < j < |users| ==> users[j].id != id
  {
    UsersByIdKeys(users);
    UsersByIdLast(users);
  }

  /** Every expanded user's id is a key. */
  lemma {:induction false} UsersByIdKeys(users: seq<User>)
    ensures forall u :: u in users ==> u.id in UsersById(users)
    decreases |users|
  {
    if users != [] {
      var before := users[..|users| - 1];
      UsersByIdKeys(before);
      forall u | u in users
        ensures u.id in UsersById(users)
      {
        if u != users[|users| - 1] {
          var k :| 0 <= k < |users| && users[k] == u;
          assert u == before[k];
        }
      }
    }
  }

  /** Each key maps to the name of the last user with that id. */
  lemma {:induction false} UsersByIdLast(users: seq<User>)
    ensures forall id :: id in UsersById(users) ==>
              exists k :: 0 <= k < |users| && users[k].id == id && UsersById(users)[id] == users[k].username
                          && forall j :: k < j < |users| ==> users[j].id != id
    decreases |users|
  {
    if users != [] {
      var before := users[..|users| - 1];
      var last := users[|users| - 1];
      UsersByIdLast(before);
      var m := UsersById(users);
      assert m == UsersById(before)[last.id := last.username];
      forall id | id in m
        ensures exists k :: 0 <= k < |users| && users[k].id == id && m[id] == users[k].username
                            && forall j :: k < j < |users| ==> users[j].id != id
      {
        if id == last.id {
          assert users[|users| - 1].id == id && m[id] == users[|users| - 1].username;
        } else {
          var k :| 0 <= k < |before| && before[k].id == id && UsersById(before)[id] == before[k].username
                   && forall j :: k < j < |before| ==> before[j].id != id;
          assert users[k] == before[k] && m[id] == UsersById(before)[id];
          assert forall j :: k < j < |users| ==> users[j].id != id by {
            forall j | k < j < |users|
              ensures users[j].id != id
            {
              if j < |before| {
                assert users[j] == before[j];
              }
            }
          }
        }
      }
    }
  }

  /** `author.username if author else 'unknown'`. */
  function Username(users: map<nat, string>, authorId: nat): string {
    if authorId in users then users[authorId] else "unknown"
  }

  /**
   * The author's name is that of the last expanded user with the tweet's
   * author id, and `unknown` when no expanded user has that id.
   */
  lemma UsernameOfAuthor(users: seq<User>, t: Tweet, k: nat)
    ensures (forall u :: u in users ==> u.id != t.authorId) ==> Username(UsersById(users), t.authorId) == "unknown"
    ensures k < |users| && users[k].id == t.authorId && (forall j :: k < j < |users| ==> users[j].id != t.authorId) ==>
              Username(UsersById(users), t.authorId) == users[k].username
  {
    UsersByIdLookup(users);
    var m := UsersById(users);
    if k < |users| && users[k].id == t.authorId && (forall j :: k < j < |users| ==> users[j].id != t.authorId) {
      assert users[k] in users;
      var k' :| 0 <= k' < |users| && users[k'].id == t.authorId && m[t.authorId] == users[k'].username
                && forall j :: k' < j < |users| ==> users[j].id != t.authorId;
      assert k' == k;
    }
  }

  /** `https://twitter.com/{username}/status/{id}`. */
  function TweetUrl(username: string, id: nat): string {
    "https://twitter.com/" + username + "/status/" + DecimalString(id)
  }

  /** Reads the author and the id back out of a tweet URL. */
  function ParseTweetUrl(url: string): Option<(string, nat)> {
    var p := Split(url, '/');
    if |p| == 6 && p[0] == "https:" && p[1] == "" && p[2] == "twitter.com" && p[4] == "status"
       && AllDigits(p[5])
    then Some((p[3], DigitsValue(p[5])))
    else None
  }

  /** The pieces of a tweet URL between its slashes. */
  function UrlParts(username: string, digits: string): seq<string> {
    ["https:", "", "twitter.com", username, "status", digits]
  }

  /** Joining six pieces puts the separator between each two. */
  lemma JoinSix(sep: string, a: string, b: string, c: string, d: string, e: string, f: string)
    ensures Join(sep, [a, b, c, d, e, f]) == a + sep + b + sep + c + sep + d + sep + e + sep + f
  {
    var parts := [a, b, c, d, e, f];
    JoinCons(sep, e, [f]);
    assert parts[4..] == [e, f];
    JoinCons(sep, d, parts[4..]);
    assert parts[3..] == [d] + parts[4..];
    JoinCons(sep, c, parts[3..]);
    assert parts[2..] == [c] + parts[3..];
    JoinCons(sep, b, parts[2..]);
    assert parts[1..] == [b] + parts[2..];
    JoinCons(sep, a, parts[1..]);
    assert parts == [a] + parts[1..];
  }

  /** A tweet URL is its pieces joined with `/`. */
  lemma UrlAsJoin(username: string, d: string)
    ensures Join("/", UrlParts(username, d)) == "https://twitter.com/" + username + "/status/" + d
  {
    JoinSix("/", "https:", "", "twitter.com", username, "status", d);
    assert "https:" + "/" + "" + "/" + "twitter.com" + "/" == "https://twitter.com/";
    assert "/" + "status" + "/" == "/status/";
  }

  /** Decimal digits hold no `/`. */
  lemma DigitsSlashFree(d: string)
    requires AllDigits(d)
    ensures '/' !in d
  {
    assert forall i :: 0 <= i < |d| ==> IsDigit(d[i]);
  }

  /** The URL round trip, for a username without `/`. */
  lemma TweetUrlRoundTrip(username: string, id: nat)
    requires '/' !in username
    ensures ParseTweetUrl(TweetUrl(username, id)) == Some((username, id))
  {
    var d := DecimalString(id);
    UrlAsJoin(username, d);
    DigitsSlashFree(d);
    SplitJoin(UrlParts(username, d), '/');
  }

  /** Distinct tweets (or authors) have distinct URLs. */
  lemma TweetUrlInjective(u: string, i: nat, u': string, i': nat)
    requires '/' !in u && '/' !in u'
    requires TweetUrl(u, i) == TweetUrl(u', i')
    ensures u == u' && i == i'
  {
    TweetUrlRoundTrip(u, i);
    TweetUrlRoundTrip(u', i');
  }

  // ---------------------------------------------------------------- messages

  /** Both CallMeBot settings are present, so notifications are sent. */
  predicate WhatsAppConfigured(c: Config) {
    Present(c.phone) && Present(c.callMeBotKey)
  }

  const LeadHeader := "[!] New Lead Found!\n\nAuthor: @"

  /** The WhatsApp text: author, the first 200 characters of the tweet and `...` (always), and the URL. */
  function LeadMessage(text: string, url: string, author: string): string {
    LeadHeader + author + "\n" + "Tweet: " + Take(text, 200) + "...\n\n" + "View: " + url
  }

  /**
   * A lead message starts with the header naming the author; then comes the
   * tweet itself when it is shorter than 200 characters, else its first 200,
   * then `...` in both cases; it ends with the URL.
   */
  lemma LeadMessageExcerpt(text: string, url: string, author: string)
    ensures var m := LeadMessage(text, url, author);
            var h := LeadHeader + author + "\nTweet: ";
            var n := if |text| < 200 then |text| else 200;
            |m| == |h| + n + 11 + |url|
            && m[..|h|] == h && m[|h|..|h| + n] == text[..n] && m[|h| + n..|h| + n + 3] == "..."
            && m[|m| - |url|..] == url
  {
    var m := LeadMessage(text, url, author);
    var h := LeadHeader + author + "\nTweet: ";
    var t := Take(text, 200);
    assert m == h + t + "...\n\nView: " + url;
  }

  const ReplyIntro := "Hi! I'm a web developer specializing in frontend and fullstack development. Check out my portfolio: "
  const ReplyOutro := "\n\nI'd love to discuss your project!"

  /** The reply posted by `send_auto_reply`. */
  function ReplyTemplate(portfolioUrl: string): string {
    ReplyIntro + portfolioUrl + ReplyOutro
  }

  /** A notification the scout sent: the tweet it is about and the message text. */
  datatype Notice = Notice(tweetId: nat, message: string)

  /** A reply the scout posted. */
  datatype ReplyPost = ReplyPost(inReplyTo: nat, text: string)

  /** Replies are posted when auto-reply is on and a portfolio URL is set. */
  predicate RepliesOn(c: Config) {
    c.autoReply && c.portfolioUrl != ""
  }

  /** `send_whatsapp_notification`: nothing when CallMeBot is not configured. */
  function NoticeFor(c: Config, users: map<nat, string>, t: Tweet): (n: Option<Notice>)
    ensures n.Some? <==> WhatsAppConfigured(c)
    ensures n.Some? ==> n.value.tweetId == t.id
  {
    if !WhatsAppConfigured(c) then None
    else
      var name := Username(users, t.authorId);
      Some(Notice(t.id, LeadMessage(t.text, TweetUrl(name, t.id), name)))
  }

  /** `send_auto_reply`: nothing when auto-reply is off or no portfolio URL is set. */
  function ReplyFor(c: Config, t: Tweet): (r: Option<ReplyPost>)
    ensures r.Some? <==> RepliesOn(c)
    ensures r.Some? ==> r.value.inReplyTo == t.id
  {
    if !RepliesOn(c) then None else Some(ReplyPost(t.id, ReplyTemplate(c.portfolioUrl)))
  }

  /** The template reply carries the portfolio URL. */
  lemma TemplateMentionsPortfolio(portfolioUrl: string)
    ensures Contains(ReplyTemplate(portfolioUrl), portfolioUrl)
  {
    assert OccursAt(ReplyTemplate(portfolioUrl), portfolioUrl, 100);
  }

  // ---------------------------------------------------------------- deduplication

  /** The ids of some tweets. */
  function Ids(ts: seq<Tweet>): set<nat> {
    set t | t in ts :: t.id
  }

  /**
   * The tweets of `ts` a pass acts on, in order: a tweet is skipped when its id
   * is in `seen`, and once acted on its id is seen for the rest of the batch.
   */
  function Fresh(seen: set<nat>, ts: seq<Tweet>): seq<Tweet>
    decreases |ts|
  {
    if ts == [] then []
    else if ts[0].id in seen then Fresh(seen, ts[1..])
    else [ts[0]] + Fresh(seen + {ts[0].id}, ts[1..])
  }

  /** The tweets acted on are tweets of `ts`, none with an id in `seen`, and no id twice. */
  lemma {:induction false} FreshDistinct(seen: set<nat>, ts: seq<Tweet>)
    ensures forall t :: t in Fresh(seen, ts) ==> t in ts && t.id !in seen
    ensures forall i, j :: 0 <= i < j < |Fresh(seen, ts)| ==> Fresh(seen, ts)[i].id != Fresh(seen, ts)[j].id
    decreases |ts|
  {
    if ts != [] {
      if ts[0].id in seen {
        FreshDistinct(seen, ts[1..]);
        FreshSkipStep(seen, ts);
      } else {
        FreshDistinct(seen + {ts[0].id}, ts[1..]);
        FreshActStep(seen, ts);
      }
    }
  }

  /** The inductive step of `FreshDistinct` when the first tweet's id was seen. */
  lemma FreshSkipStep(seen: set<nat>, ts: seq<Tweet>)
    requires ts != [] && ts[0].id in seen
    requires var f := Fresh(seen, ts[1..]);
             (forall t :: t in f ==> t in ts[1..] && t.id !in seen)
             && (forall i, j :: 0 <= i < j < |f| ==> f[i].id != f[j].id)
    ensures forall t :: t in Fresh(seen, ts) ==> t in ts && t.id !in seen
    ensures forall i, j :: 0 <= i < j < |Fresh(seen, ts)| ==> Fresh(seen, ts)[i].id != Fresh(seen, ts)[j].id
  {
    assert Fresh(seen, ts) == Fresh(seen, ts[1..]);
    forall t | t in ts[1..] ensures t in ts { }
  }

  /** The inductive step of `FreshDistinct` when the first tweet is acted on. */
  lemma FreshActStep(seen: set<nat>, ts: seq<Tweet>)
    requires ts != [] && ts[0].id !in seen
    requires var f := Fresh(seen + {ts[0].id}, ts[1..]);
             (forall t :: t in f ==> t in ts[1..] && t.id !in seen + {ts[0].id})
             && (forall i, j :: 0 <= i < j < |f| ==> f[i].id != f[j].id)
    ensures forall t :: t in Fresh(seen, ts) ==> t in ts && t.id !in seen
    ensures forall i, j :: 0 <= i < j < |Fresh(seen, ts)| ==> Fresh(seen, ts)[i].id != Fresh(seen, ts)[j].id
  {
    var rest := Fresh(seen + {ts[0].id}, ts[1..]);
    var f := Fresh(seen, ts);
    assert f == [ts[0]] + rest;
    forall t | t in ts[1..] ensures t in ts { }
    forall i, j | 0 <= i < j < |f|
      ensures f[i].id != f[j].id
    {
      if i == 0 {
        assert f[j] in rest;
      } else {
        assert f[i] == rest[i - 1] && f[j] == rest[j - 1];
      }
    }
  }

  /** Every id of `ts` that is not in `seen` is acted on (once, by `FreshDistinct`). */
  lemma {:induction false} FreshComplete(seen: set<nat>, ts: seq<Tweet>)
    ensures forall t :: t in ts && t.id !in seen ==> exists u :: u in Fresh(seen, ts) && u.id == t.id
    decreases |ts|
  {
    if ts != [] {
      var rest := ts[1..];
      var after := if ts[0].id in seen then seen else seen + {ts[0].id};
      FreshComplete(after, rest);
      assert Fresh(seen, ts) == if ts[0].id in seen then Fresh(after, rest) else [ts[0]] + Fresh(after, rest);
      forall t | t in ts && t.id !in seen
        ensures exists u :: u in Fresh(seen, ts) && u.id == t.id
      {
        if t.id == ts[0].id {
          assert ts[0] in Fresh(seen, ts);
        } else {
          assert t in rest;
          var u :| u in Fresh(after, rest) && u.id == t.id;
          assert u in Fresh(seen, ts);
        }
      }
    }
  }

  /** A batch whose ids were all seen before produces nothing. */
  lemma {:induction false} FreshAllSeen(seen: set<nat>, ts: seq<Tweet>)
    requires Ids(ts) <= seen
    ensures Fresh(seen, ts) == []
    decreases |ts|
  {
    if ts != [] {
      assert ts[0] in ts;
      assert Ids(ts[1..]) <= Ids(ts) by {
        forall t | t in ts[1..] ensures t in ts { }
      }
      FreshAllSeen(seen, ts[1..]);
    }
  }

  /** The notifications produced for the tweets acted on. */
  function NoticesFor(c: Config, users: map<nat, string>, ts: seq<Tweet>): seq<Notice>
    decreases |ts|
  {
    if ts == [] then [] else NoticeFor(c, users, ts[0]).ToSeq() + NoticesFor(c, users, ts[1..])
  }

  /** The replies produced for the tweets acted on. */
  function RepliesFor(c: Config, ts: seq<Tweet>): seq<ReplyPost>
    decreases |ts|
  {
    if ts == [] then [] else ReplyFor(c, ts[0]).ToSeq() + RepliesFor(c, ts[1..])
  }

  /** With CallMeBot configured each tweet acted on gets one notice, in order; otherwise none does. */
  lemma {:induction false} NoticesForIds(c: Config, users: map<nat, string>, ts: seq<Tweet>)
    ensures var ns := NoticesFor(c, users, ts);
            (WhatsAppConfigured(c) ==> |ns| == |ts| && forall i :: 0 <= i < |ts| ==> ns[i].tweetId == ts[i].id)
            && (!WhatsAppConfigured(c) ==> ns == [])
    decreases |ts|
  {
    if ts != [] {
      NoticesForIds(c, users, ts[1..]);
      if WhatsAppConfigured(c) {
        var ns := NoticesFor(c, users, ts);
        forall i | 0 <= i < |ts|
          ensures ns[i].tweetId == ts[i].id
        {
          if i > 0 {
            assert ns[i] == NoticesFor(c, users, ts[1..])[i - 1];
          }
        }
      }
    }
  }

  /** With replies on each tweet acted on gets one reply, in order; otherwise none does. */
  lemma {:induction false} RepliesForIds(c: Config, ts: seq<Tweet>)
    ensures var rs := RepliesFor(c, ts);
            (RepliesOn(c) ==> |rs| == |ts| && forall i :: 0 <= i < |ts| ==> rs[i].inReplyTo == ts[i].id)
            && (!RepliesOn(c) ==> rs == [])
    decreases |ts|
  {
    if ts != [] {
      RepliesForIds(c, ts[1..]);
      if RepliesOn(c) {
        var rs := RepliesFor(c, ts);
        forall i | 0 <= i < |ts|
          ensures rs[i].inReplyTo == ts[i].id
        {
          if i > 0 {
            assert rs[i] == RepliesFor(c, ts[1..])[i - 1];
          }
        }
      }
    }
  }

  /** The notices of the tweets acted on carry distinct ids, none in `seen`, all from `ts`. */
  lemma FreshNoticesDistinct(c: Config, users: map<nat, string>, seen: set<nat>, ts: seq<Tweet>)
    ensures var ns := NoticesFor(c, users, Fresh(seen, ts));
            (forall i, j :: 0 <= i < j < |ns| ==> ns[i].tweetId != ns[j].tweetId)
            && (forall n :: n in ns ==> n.tweetId !in seen && n.tweetId in Ids(ts))
  {
    var f := Fresh(seen, ts);
    FreshDistinct(seen, ts);
    NoticesForIds(c, users, f);
    var ns := NoticesFor(c, users, f);
    forall n | n in ns
      ensures n.tweetId !in seen && n.tweetId in Ids(ts)
    {
      var i :| 0 <= i < |ns| && ns[i] == n;
      assert f[i] in f;
    }
  }

  /** The replies to the tweets acted on carry distinct ids, none in `seen`, all from `ts`. */
  lemma FreshRepliesDistinct(c: Config, seen: set<nat>, ts: seq<Tweet>)
    ensures var rs := RepliesFor(c, Fresh(seen, ts));
            (forall i, j :: 0 <= i < j < |rs| ==> rs[i].inReplyTo != rs[j].inReplyTo)
            && (forall r :: r in rs ==> r.inReplyTo !in seen && r.inReplyTo in Ids(ts))
  {
    var f := Fresh(seen, ts);
    FreshDistinct(seen, ts);
    RepliesForIds(c, f);
    var rs := RepliesFor(c, f);
    forall r | r in rs
      ensures r.inReplyTo !in seen && r.inReplyTo in Ids(ts)
    {
      var i :| 0 <= i < |rs| && rs[i] == r;
      assert f[i] in f;
    }
  }

  /** The ids of a batch grown by one tweet. */
  lemma IdsSnoc(ts: seq<Tweet>, t: Tweet)
    ensures Ids(ts + [t]) == Ids(ts) + {t.id}
  {
    assert (ts + [t])[..|ts|] == ts;
  }

  /** Moving one piece of the remaining output into what has been produced. */
  lemma Regroup<T>(acc: seq<T>, x: seq<T>, rest: seq<T>, target: seq<T>)
    requires acc + (x + rest) == target
    ensures (acc + x) + rest == target
  {
  }

  /** The notices of a run that starts with `t`. */
  lemma NoticesCons(c: Config, users: map<nat, string>, t: Tweet, rest: seq<Tweet>)
    ensures NoticesFor(c, users, [t] + rest) == NoticeFor(c, users, t).ToSeq() + NoticesFor(c, users, rest)
  {
    assert ([t] + rest)[1..] == rest;
  }

  /** The replies to a run that starts with `t`. */
  lemma RepliesCons(c: Config, t: Tweet, rest: seq<Tweet>)
    ensures RepliesFor(c, [t] + rest) == ReplyFor(c, t).ToSeq() + RepliesFor(c, rest)
  {
    assert ([t] + rest)[1..] == rest;
  }

  /** Notices of two runs of tweets, one after the other. */
  lemma {:induction false} NoticesAppend(c: Config, users: map<nat, string>, a: seq<Tweet>, b: seq<Tweet>)
    ensures NoticesFor(c, users, a + b) == NoticesFor(c, users, a) + NoticesFor(c, users, b)
    decreases |a|
  {
    if a != [] {
      assert (a + b)[1..] == a[1..] + b;
      NoticesAppend(c, users, a[1..], b);
    } else {
      assert a + b == b;
    }
  }

  /** Replies to two runs of tweets, one after the other. */
  lemma {:induction false} RepliesAppend(c: Config, a: seq<Tweet>, b: seq<Tweet>)
    ensures RepliesFor(c, a + b) == RepliesFor(c, a) + RepliesFor(c, b)
    decreases |a|
  {
    if a != [] {
      assert (a + b)[1..] == a[1..] + b;
      RepliesAppend(c, a[1..], b);
    } else {
      assert a + b == b;
    }
  }

  // ---------------------------------------------------------------- the scout

  /** The scout process: its configuration, the ids seen so far, and what it has sent. */
  class Scout {
    const config: Config
    var seenTweets: set<nat>
    var notified: seq<Notice>
    var replied: seq<ReplyPost>

    /** No tweet is notified or replied to twice, and only seen tweets ever are. */
    ghost predicate Valid()
      reads this
    {
      (forall i, j :: 0 <= i < j < |notified| ==> notified[i].tweetId != notified[j].tweetId)
      && (forall i, j :: 0 <= i < j < |replied| ==> replied[i].inReplyTo != replied[j].inReplyTo)
      && (forall n :: n in notified ==> n.tweetId in seenTweets)
      && (forall r :: r in replied ==> r.inReplyTo in seenTweets)
    }

    /** `XScout()`: nothing seen yet, nothing sent. */
    constructor (c: Config)
      ensures config == c && seenTweets == {} && notified == [] && replied == []
      ensures Valid()
    {
      config := c;
      seenTweets := {};
      notified := [];
      replied := [];
    }

    /**
     * One `search_tweets` pass over the API's answer: each tweet whose id was
     * not seen yet is added to the seen set, then notified and replied to.
     */
    method SearchTweets(resp: SearchResponse)
      requires Valid()
      modifies this
      ensures Valid()
      ensures seenTweets >= old(seenTweets)
      ensures resp.ApiError? ==> seenTweets == old(seenTweets) && notified == old(notified) && replied == old(replied)
      ensures resp.Response? ==>
                var acted := Fresh(old(seenTweets), resp.data);
                seenTweets == old(seenTweets) + Ids(resp.data)
                && notified == old(notified) + NoticesFor(config, UsersById(resp.users), acted)
                && replied == old(replied) + RepliesFor(config, acted)
    {
      if resp.ApiError? {
        return;
      }
      var users := UsersById(resp.users);
      var seen, ns, rs := ProcessBatch(config, users, seenTweets, resp.data);
      FreshNoticesDistinct(config, users, seenTweets, resp.data);
      FreshRepliesDistinct(config, seenTweets, resp.data);
      LogsStayDistinct(notified, ns, replied, rs, seenTweets, seen);
      seenTweets, notified, replied := seen, notified + ns, replied + rs;
    }
  }

  /**
   * The loop of `search_tweets` over one batch: every id goes into the seen
   * set, and each tweet whose id was not seen yet is notified and replied to.
   */
  method ProcessBatch(c: Config, users: map<nat, string>, seen: set<nat>, data: seq<Tweet>)
    returns (seen': set<nat>, ns: seq<Notice>, rs: seq<ReplyPost>)
    ensures seen' == seen + Ids(data)
    ensures ns == NoticesFor(c, users, Fresh(seen, data))
    ensures rs == RepliesFor(c, Fresh(seen, data))
  {
    seen', ns, rs := seen, [], [];
    ghost var allNotices, allReplies := NoticesFor(c, users, Fresh(seen, data)), RepliesFor(c, Fresh(seen, data));
    var i := 0;
    while i < |data|
      invariant 0 <= i <= |data|
      invariant seen' == seen + Ids(data[..i])
      invariant ns + NoticesFor(c, users, Fresh(seen', data[i..])) == allNotices
      invariant rs + RepliesFor(c, Fresh(seen', data[i..])) == allReplies
    {
      var tweet := data[i];
      BatchStep(seen', data, i);
      if tweet.id !in seen' {
        ghost var rest := Fresh(seen' + {tweet.id}, data[i + 1..]);
        var n := NoticeFor(c, users, tweet).ToSeq();
        var r := ReplyFor(c, tweet).ToSeq();
        NoticesCons(c, users, tweet, rest);
        RepliesCons(c, tweet, rest);
        Regroup(ns, n, NoticesFor(c, users, rest), allNotices);
        Regroup(rs, r, RepliesFor(c, rest), allReplies);
        ns := ns + n;
        rs := rs + r;
        seen' := seen' + {tweet.id};
      }
      i := i + 1;
    }
    assert data[..i] == data;
    assert data[i..] == [];
  }

  /** One step of the batch loop: the ids seen so far grow by the tweet's id, and the tweets left to act on. */
  lemma BatchStep(seen: set<nat>, data: seq<Tweet>, i: nat)
    requires i < |data|
    ensures Ids(data[..i + 1]) == Ids(data[..i]) + {data[i].id}
    ensures Fresh(seen, data[i..]) ==
            if data[i].id in seen then Fresh(seen, data[i + 1..])
            else [data[i]] + Fresh(seen + {data[i].id}, data[i + 1..])
  {
    assert data[..i + 1] == data[..i] + [data[i]];
    IdsSnoc(data[..i], data[i]);
    assert data[i..][1..] == data[i + 1..];
  }

  /**
   * Appending logs whose ids are distinct, unseen before and seen now keeps
   * the scout's invariant.
   */
  lemma LogsStayDistinct(ns: seq<Notice>, ns': seq<Notice>, rs: seq<ReplyPost>, rs': seq<ReplyPost>,
                         seen: set<nat>, seen': set<nat>)
    requires seen <= seen'
    requires forall i, j :: 0 <= i < j < |ns| ==> ns[i].tweetId != ns[j].tweetId
    requires forall i, j :: 0 <= i < j < |ns'| ==> ns'[i].tweetId != ns'[j].tweetId
    requires forall i, j :: 0 <= i < j < |rs| ==> rs[i].inReplyTo != rs[j].inReplyTo
    requires forall i, j :: 0 <= i < j < |rs'| ==> rs'[i].inReplyTo != rs'[j].inReplyTo
    requires forall n :: n in ns ==> n.tweetId in seen
    requires forall r :: r in rs ==> r.inReplyTo in seen
    requires forall n :: n in ns' ==> n.tweetId !in seen && n.tweetId in seen'
    requires forall r :: r in rs' ==> r.inReplyTo !in seen && r.inReplyTo in seen'
    ensures var n2 := ns + ns'; forall i, j :: 0 <= i < j < |n2| ==> n2[i].tweetId != n2[j].tweetId
    ensures var r2 := rs + rs'; forall i, j :: 0 <= i < j < |r2| ==> r2[i].inReplyTo != r2[j].inReplyTo
    ensures forall n :: n in ns + ns' ==> n.tweetId in seen'
    ensures forall r :: r in rs + rs' ==> r.inReplyTo in seen'
  {
    var n2 := ns + ns';
    forall i, j | 0 <= i < j < |n2|
      ensures n2[i].tweetId != n2[j].tweetId
    {
      if i < |ns| && j >= |ns| {
        assert n2[i] in ns && n2[j] == ns'[j - |ns|];
        assert n2[j] in ns';
      } else if i >= |ns| {
        assert n2[i] == ns'[i - |ns|] && n2[j] == ns'[j - |ns|];
      }
    }
    var r2 := rs + rs';
    forall i, j | 0 <= i < j < |r2|
      ensures r2[i].inReplyTo != r2[j].inReplyTo
    {
      if i < |rs| && j >= |rs| {
        assert r2[i] in rs && r2[j] == rs'[j - |rs|];
        assert r2[j] in rs';
      } else if i >= |rs| {
        assert r2[i] == rs'[i - |rs|] && r2[j] == rs'[j - |rs|];
      }
    }
  }

  /** Every tweet acted on has its id among the batch's ids. */
  lemma FreshIdsSeen(seen: set<nat>, ts: seq<Tweet>)
    ensures forall t :: t in Fresh(seen, ts) ==> t.id in Ids(ts)
  {
    FreshDistinct(seen, ts);
  }
}
