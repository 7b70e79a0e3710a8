/**
 * The scheduled single-run Twitter scout (xscout_single_run.py): the same
 * configuration as the long-running scout plus the AI switches, a query that
 * also excludes self-promotion phrases, one pass over the search answer with
 * no cross-run deduplication, the lead-quality gate when AI is on, and the
 * choice between an AI-written reply and the template.
 * The lead scores and the model's reply answers are inputs, one per position
 * in the search answer.
 */
module XScoutSingleRun {
  import opened Wrappers
  import opened Text
  import opened AiHelper
  import opened XScout

  // ---------------------------------------------------------------- the query

  /** The phrases whose tweets the query excludes, in query order. */
  const NegativePhrases: seq<string> :=
    ["I help", "I build", "I offer", "hire me", "portfolio", "check out my"]

  /** The exclusions appended after the filters. */
  const NegativeSuffix :=
    " -\"I help\"" + " -\"I build\"" + " -\"I offer\"" + " -\"hire me\"" + " -\"portfolio\"" + " -\"check out my\""

  /** ` -"p"`, the exclusion of the phrase `p`. */
  function Exclusion(p: string): string {
    " -" + Quote + p + Quote
  }

  /** The exclusions of some phrases, one after the other. */
  function Exclusions(ps: seq<string>): string
    decreases |ps|
  {
    if ps == [] then "" else Exclusion(ps[0]) + Exclusions(ps[1..])
  }

  /** The literal suffix excludes exactly the negative phrases, in order. */
  lemma NegativeSuffixIsExclusions()
    ensures Exclusions(NegativePhrases) == NegativeSuffix
  {
    var ps := NegativePhrases;
    assert ps[6..] == [];
    ExclusionsCons(ps, 5);
    ExclusionsCons(ps, 4);
    ExclusionsCons(ps, 3);
    ExclusionsCons(ps, 2);
    ExclusionsCons(ps, 1);
    ExclusionsCons(ps, 0);
    assert Exclusion("I help") == " -\"I help\"";
    assert Exclusion("I build") == " -\"I build\"";
    assert Exclusion("I offer") == " -\"I offer\"";
    assert Exclusion("hire me") == " -\"hire me\"";
    assert Exclusion("portfolio") == " -\"portfolio\"";
    assert Exclusion("check out my") == " -\"check out my\"";
  }

  lemma ExclusionsCons(ps: seq<string>, k: nat)
    requires k < |ps|
    ensures Exclusions(ps[k..]) == Exclusion(ps[k]) + Exclusions(ps[k + 1..])
  {
    assert ps[k..][1..] == ps[k + 1..];
  }

  /** The single-run query: the long-running scout's query, then the exclusions. */
  function SingleRunQuery(ks: seq<string>): string {
    SearchQuery(ks) + NegativeSuffix
  }

  /**
   * The pieces between the double quotes of `pre` followed by the exclusions
   * of `ps`: `pre -`, then each phrase followed by ` -`, the last one by the
   * empty text after the closing quote.
   */
  function ExclusionPieces(pre: string, ps: seq<string>): (r: seq<string>)
    ensures r != []
    decreases |ps|
  {
    if ps == [] then [pre] else [pre + " -", ps[0]] + ExclusionPieces("", ps[1..])
  }

  /** Joining the pieces with double quotes gives back `pre` and the exclusions. */
  lemma {:induction false} ExclusionPiecesJoin(pre: string, ps: seq<string>)
    ensures Join(Quote, ExclusionPieces(pre, ps)) == pre + Exclusions(ps)
    decreases |ps|
  {
    if ps == [] {
      assert Join(Quote, [pre]) == pre;
    } else {
      var rest := ExclusionPieces("", ps[1..]);
      ExclusionPiecesJoin("", ps[1..]);
      assert ExclusionPieces(pre, ps) == [pre + " -"] + ([ps[0]] + rest);
      JoinCons(Quote, pre + " -", [ps[0]] + rest);
      JoinCons(Quote, ps[0], rest);
      assert "" + Exclusions(ps[1..]) == Exclusions(ps[1..]);
      RegroupExclusion(pre, ps[0], Join(Quote, rest), Exclusions(ps[1..]));
      assert Exclusions(ps) == Exclusion(ps[0]) + Exclusions(ps[1..]);
    }
  }

  lemma RegroupExclusion(pre: string, p: string, j: string, e: string)
    requires j == e
    ensures pre + " -" + Quote + (p + Quote + j) == pre + (Exclusion(p) + e)
  {
  }

  /** Every second piece after the first is a phrase: the phrases come back in order. */
  lemma {:induction false} ExclusionPiecesEvens(pre: string, ps: seq<string>)
    ensures Evens(ExclusionPieces(pre, ps)[1..]) == ps
    decreases |ps|
  {
    if ps != [] {
      var rest := ExclusionPieces("", ps[1..]);
      ExclusionPiecesEvens("", ps[1..]);
      var s := ExclusionPieces(pre, ps)[1..];
      assert s == [ps[0]] + rest;
      assert s[2..] == rest[1..];
      assert ps == [ps[0]] + ps[1..];
    }
  }

  /** For quote-free `pre` and phrases, no piece holds a double quote. */
  lemma {:induction false} ExclusionPiecesQuoteFree(pre: string, ps: seq<string>)
    requires '"' !in pre
    requires forall i :: 0 <= i < |ps| ==> '"' !in ps[i]
    ensures forall i :: 0 <= i < |ExclusionPieces(pre, ps)| ==> '"' !in ExclusionPieces(pre, ps)[i]
    decreases |ps|
  {
    if ps != [] {
      ExclusionPiecesQuoteFree("", ps[1..]);
      DashQuoteFree(pre);
      var r := ExclusionPieces(pre, ps);
      forall i | 0 <= i < |r|
        ensures '"' !in r[i]
      {
        if i >= 2 {
          assert r[i] == ExclusionPieces("", ps[1..])[i - 2];
        }
      }
    }
  }

  lemma DashQuoteFree(pre: string)
    requires '"' !in pre
    ensures '"' !in pre + " -"
  {
    assert forall i :: 0 <= i < |pre + " -"| ==> (pre + " -")[i] != '"' by {
      forall i | 0 <= i < |pre + " -"|
        ensures (pre + " -")[i] != '"'
      {
        if i < |pre| {
          assert (pre + " -")[i] == pre[i];
        }
      }
    }
  }

  /** No negative phrase holds a double quote. */
  lemma NegativePhrasesQuoteFree()
    ensures forall i :: 0 <= i < |NegativePhrases| ==> '"' !in NegativePhrases[i]
  {
    forall i | 0 <= i < |NegativePhrases|
      ensures '"' !in NegativePhrases[i]
    {
      var p := NegativePhrases[i];
      assert forall k :: 0 <= k < |p| ==> p[k] != '"';
    }
  }

  /**
   * Reading back the long-running scout's query followed by exclusions:
   * the stripped keywords, then the excluded phrases, in order.
   */
  lemma ExclusionRoundTrip(ks: seq<string>, ps: seq<string>)
    requires forall i :: 0 <= i < |ks| ==> '"' !in ks[i]
    requires forall i :: 0 <= i < |ps| ==> '"' !in ps[i]
    ensures QueryKeywords(SearchQuery(ks) + Exclusions(ps)) == StripAll(ks) + ps
  {
    var tail := ExclusionPieces(QuerySuffix, ps);
    SuffixQuoteFree();
    ExclusionPiecesQuoteFree(QuerySuffix, ps);
    ExclusionPiecesJoin(QuerySuffix, ps);
    ExclusionPiecesEvens(QuerySuffix, ps);
    TailRoundTrip(ks, tail);
    assert Join(Quote, tail) == QuerySuffix + Exclusions(ps);
    assert SearchQuery(ks) + Exclusions(ps) == Join(Or, Quoted(ks)) + Join(Quote, tail);
  }

  /**
   * The single-run query round trip: for keywords without a double quote,
   * the quoted texts of the query are the stripped keywords in order,
   * followed by the excluded phrases.
   */
  lemma SingleRunQueryRoundTrip(ks: seq<string>)
    requires forall i :: 0 <= i < |ks| ==> '"' !in ks[i]
    ensures QueryKeywords(SingleRunQuery(ks)) == StripAll(ks) + NegativePhrases
  {
    NegativePhrasesQuoteFree();
    NegativeSuffixIsExclusions();
    ExclusionRoundTrip(ks, NegativePhrases);
  }

  // ---------------------------------------------------------------- configuration

  /** The attributes `XScoutSingleRun.__init__` sets. */
  datatype RunConfig = RunConfig(base: Config, aiEnabled: bool, helper: Option<Helper>, minLeadScore: int)

  /**
   * `XScoutSingleRun()`: the long-running scout's settings, the AI switch
   * (off by default), a helper only when the switch is on, and the minimum
   * lead score (7 by default). `None` when `int()` of the minimum score
   * raises, which aborts the constructor. `initSucceeds` says whether
   * configuring the Gemini client works.
   */
  function RunConfigFromEnv(env: Env, initSucceeds: bool): (r: Option<RunConfig>)
    ensures r.Some? <==> ParseInt(GetEnvOr(env, "AI_MIN_LEAD_SCORE", "7")).Some?
    ensures r.Some? ==> r.value.minLeadScore == ParseInt(GetEnvOr(env, "AI_MIN_LEAD_SCORE", "7")).value
    ensures r.Some? ==> r.value.base == ConfigFromEnv(env)
    ensures r.Some? ==> (r.value.aiEnabled <==> Switch(env, "ENABLE_AI_FEATURES", "false"))
    ensures r.Some? ==> (r.value.helper.Some? <==> r.value.aiEnabled)
    ensures r.Some? && r.value.helper.Some? ==> r.value.helper.value.apiKey == GetEnvOr(env, "GEMINI_API_KEY", "")
  {
    var ai := Switch(env, "ENABLE_AI_FEATURES", "false");
    var helper := if ai then Some(NewHelper(GetEnvOr(env, "GEMINI_API_KEY", ""), initSucceeds)) else None;
    match ParseInt(GetEnvOr(env, "AI_MIN_LEAD_SCORE", "7"))
    case None => None
    case Some(m) => Some(RunConfig(ConfigFromEnv(env), ai, helper, m))
  }

  /** The AI gate and the AI reply are active: switch on, helper present, helper enabled. */
  predicate AiActive(rc: RunConfig) {
    rc.aiEnabled && rc.helper.Some? && rc.helper.value.enabled
  }

  /** With neither AI variable set, the configuration is built, AI is off and the minimum score is 7. */
  lemma RunConfigDefaults(env: Env, initSucceeds: bool)
    requires "AI_MIN_LEAD_SCORE" !in env && "ENABLE_AI_FEATURES" !in env
    ensures RunConfigFromEnv(env, initSucceeds).Some?
    ensures var rc := RunConfigFromEnv(env, initSucceeds).value;
            rc.minLeadScore == 7 && !rc.aiEnabled && rc.helper == None && !AiActive(rc)
  {
    ParseDecimal(7);
    assert DecimalString(7) == "7";
    FalseIsLower();
  }

  /** A minimum score set to the decimal text of a number is that number. */
  lemma RunConfigMinScoreSet(env: Env, initSucceeds: bool, n: nat)
    requires "AI_MIN_LEAD_SCORE" in env && env["AI_MIN_LEAD_SCORE"] == DecimalString(n)
    ensures RunConfigFromEnv(env, initSucceeds).Some?
    ensures RunConfigFromEnv(env, initSucceeds).value.minLeadScore == n
  {
    ParseDecimal(n);
  }

  lemma FalseIsLower()
    ensures Lower("false") == "false"
  {
    LowerKeeps("false");
  }

  /** AI is active exactly when the switch is on and the key is usable and the client was configured. */
  lemma AiActiveFromEnv(env: Env, initSucceeds: bool)
    requires RunConfigFromEnv(env, initSucceeds).Some?
    ensures var key := GetEnvOr(env, "GEMINI_API_KEY", "");
            AiActive(RunConfigFromEnv(env, initSucceeds).value) <==>
              Switch(env, "ENABLE_AI_FEATURES", "false") && key != "" && key != PlaceholderKey && initSucceeds
  {
  }

  // ---------------------------------------------------------------- the quality gate

  /** What the gate does with one tweet: act on it, skip it, or raise and end the pass. */
  datatype Verdict = Act | Skip | Abort

  /**
   * The gate of `search_tweets` for a tweet whose `score_lead` result is `d`:
   * with AI off every tweet is acted on; with AI on the log line reads
   * `score` and `reason` and the test reads `is_quality`, and a missing key
   * raises `KeyError`, which ends the pass.
   */
  function Gate(rc: RunConfig, d: Dict): (v: Verdict)
    ensures !AiActive(rc) ==> v == Act
    ensures AiActive(rc) ==>
              (v == Abort <==> !("score" in d && "reason" in d && "is_quality" in d))
    ensures AiActive(rc) && v != Abort ==> (v == Act <==> Truthy(d["is_quality"]))
  {
    if !AiActive(rc) then Act
    else if "score" !in d || "reason" !in d || "is_quality" !in d then Abort
    else if Truthy(d["is_quality"]) then Act
    else Skip
  }

  /** A score from `score_lead` never has `is_quality`, so with AI on the gate always raises. */
  lemma GateAbortsOnScores(rc: RunConfig, call: ModelCall, loads: string -> Loaded, failText: string)
    requires AiActive(rc)
    ensures Gate(rc, ScoreLead(rc.helper.value, call, loads, failText)) == Abort
  {
  }

  // ---------------------------------------------------------------- the reply

  /** The AI reply is tried: AI active and the tweet text non-empty. */
  predicate TriesAi(rc: RunConfig, t: Tweet) {
    AiActive(rc) && t.text != ""
  }

  /**
   * The text `send_auto_reply` posts: the AI reply when it was tried and
   * came back non-empty; otherwise, also when generation raised, the
   * template.
   */
  function SingleReplyText(rc: RunConfig, t: Tweet, call: ModelCall): string {
    var ai := AiReply(rc, t, call);
    if ai.Some? && ai.value != "" then ai.value else ReplyTemplate(rc.base.portfolioUrl)
  }

  /** The AI reply, when it is tried. */
  function AiReply(rc: RunConfig, t: Tweet, call: ModelCall): Option<string> {
    if TriesAi(rc, t) then GenerateReply(rc.helper.value, call) else None
  }

  /** `send_auto_reply(tweet.id, username, tweet.text)`: nothing when auto-reply is off or no portfolio URL is set. */
  function SingleReplyFor(rc: RunConfig, t: Tweet, call: ModelCall): (r: Option<ReplyPost>)
    ensures r.Some? <==> RepliesOn(rc.base)
    ensures r.Some? ==> r.value.inReplyTo == t.id
  {
    if !RepliesOn(rc.base) then None else Some(ReplyPost(t.id, SingleReplyText(rc, t, call)))
  }

  /**
   * The reply choice: the template when AI is not tried or the model
   * raised or its cleaned answer is empty; otherwise the cleaned, capped
   * answer. Either way the text is non-empty, and an AI text is at most 280
   * characters.
   */
  lemma ReplyChoice(rc: RunConfig, t: Tweet, call: ModelCall)
    ensures var s := SingleReplyText(rc, t, call);
            (!TriesAi(rc, t) || call.Raised? ==> s == ReplyTemplate(rc.base.portfolioUrl))
            && (TriesAi(rc, t) && call.Responded? && CapReply(CleanReply(call.text)) == "" ==>
                  s == ReplyTemplate(rc.base.portfolioUrl))
            && (TriesAi(rc, t) && call.Responded? && CapReply(CleanReply(call.text)) != "" ==>
                  s == CapReply(CleanReply(call.text)) && |s| <= MaxReply)
            && s != ""
            && (s == ReplyTemplate(rc.base.portfolioUrl) || (TriesAi(rc, t) && |s| <= MaxReply))
  {
    assert |ReplyTemplate(rc.base.portfolioUrl)| > 0;
  }

  /** An answer that is an empty quoted string, `""`, falls back to the template. */
  lemma QuotedEmptyAnswerFallsBack(rc: RunConfig, t: Tweet)
    ensures SingleReplyText(rc, t, Responded("\"\"")) == ReplyTemplate(rc.base.portfolioUrl)
  {
    EmptyQuotesClean();
    assert CapReply(CleanReply("\"\"")) == "";
    ReplyChoice(rc, t, Responded("\"\""));
  }

  lemma EmptyQuotesClean()
    ensures CleanReply("\"\"") == ""
  {
    EmptyQuotesUnstripped();
    EmptyQuotesDropped();
    assert AllDrop("", IsChar('\''));
  }

  lemma EmptyQuotesUnstripped()
    ensures Strip("\"\"") == "\"\""
  {
    var q := "\"\"";
    assert !IsSpace(q[0]) && !IsSpace(q[1]);
    TrimKeeps(q, IsSpace);
  }

  lemma EmptyQuotesDropped()
    ensures StripChar("\"\"", '"') == ""
  {
    assert AllDrop("\"\"", IsChar('"'));
  }

  /** With AI off the single-run reply is the long-running scout's reply. */
  lemma ReplyWithoutAi(rc: RunConfig, t: Tweet, call: ModelCall)
    requires !AiActive(rc)
    ensures SingleReplyFor(rc, t, call) == ReplyFor(rc.base, t)
  {
  }

  /** `send_auto_reply` as written: the reply text starts unset and is reassigned step by step. */
  method AutoReply(rc: RunConfig, t: Tweet, call: ModelCall) returns (r: Option<ReplyPost>)
    ensures r == SingleReplyFor(rc, t, call)
  {
    if !rc.base.autoReply {
      return None;
    }
    if rc.base.portfolioUrl == "" {
      return None;
    }
    var text: Option<string> := None;
    if rc.aiEnabled && rc.helper.Some? && rc.helper.value.enabled && t.text != "" {
      text := GenerateReply(rc.helper.value, call);
    }
    assert text == AiReply(rc, t, call);
    if text.None? || text.value == "" {
      text := Some(ReplyTemplate(rc.base.portfolioUrl));
    }
    assert text.value == SingleReplyText(rc, t, call);
    r := Some(ReplyPost(t.id, text.value));
  }

  // ---------------------------------------------------------------- the pass

  /** What one pass sent, and whether it ended early on an exception. */
  datatype PassResult = PassResult(notices: seq<Notice>, replies: seq<ReplyPost>, aborted: bool)

  /**
   * The loop of `search_tweets` from position `i` on: `assess(j)` is the
   * `score_lead` result for the `j`-th tweet and `answer(j)` the model's
   * answer when its reply is generated.
   */
  function PassFrom(rc: RunConfig, users: map<nat, string>, data: seq<Tweet>, i: nat,
                    assess: nat -> Dict, answer: nat -> ModelCall): PassResult
    decreases |data| - i
  {
    if i >= |data| then PassResult([], [], false)
    else
      match Gate(rc, assess(i))
      case Abort => PassResult([], [], true)
      case Skip => PassFrom(rc, users, data, i + 1, assess, answer)
      case Act =>
        var rest := PassFrom(rc, users, data, i + 1, assess, answer);
        PassResult(NoticeFor(rc.base, users, data[i]).ToSeq() + rest.notices,
                   SingleReplyFor(rc, data[i], answer(i)).ToSeq() + rest.replies,
                   rest.aborted)
  }

  /** A whole pass: nothing on an API error, else the loop over the answer from the start. */
  function Pass(rc: RunConfig, resp: SearchResponse, assess: nat -> Dict, answer: nat -> ModelCall): PassResult {
    if resp.ApiError? then PassResult([], [], false)
    else PassFrom(rc, UsersById(resp.users), resp.data, 0, assess, answer)
  }

  /** `search_tweets`: one pass over the search answer, acting on each tweet the gate lets through. */
  method SearchTweets(rc: RunConfig, resp: SearchResponse, assess: nat -> Dict, answer: nat -> ModelCall)
    returns (res: PassResult)
    ensures res == Pass(rc, resp, assess, answer)
  {
    if resp.ApiError? || resp.data == [] {
      return PassResult([], [], false);
    }
    var users := UsersById(resp.users);
    var data := resp.data;
    ghost var total := PassFrom(rc, users, data, 0, assess, answer);
    var ns: seq<Notice> := [];
    var rs: seq<ReplyPost> := [];
    var i := 0;
    while i < |data|
      invariant 0 <= i <= |data|
      invariant ns + PassFrom(rc, users, data, i, assess, answer).notices == total.notices
      invariant rs + PassFrom(rc, users, data, i, assess, answer).replies == total.replies
      invariant PassFrom(rc, users, data, i, assess, answer).aborted == total.aborted
    {
      var v := Gate(rc, assess(i));
      if v == Abort {
        return PassResult(ns, rs, true);
      }
      if v == Act {
        var n := NoticeFor(rc.base, users, data[i]).ToSeq();
        var r := SingleReplyFor(rc, data[i], answer(i)).ToSeq();
        ghost var rest := PassFrom(rc, users, data, i + 1, assess, answer);
        Regroup(ns, n, rest.notices, total.notices);
        Regroup(rs, r, rest.replies, total.replies);
        ns := ns + n;
        rs := rs + r;
      }
      i := i + 1;
    }
    return PassResult(ns, rs, false);
  }

  // ---------------------------------------------------------------- properties of the pass

  /**
   * With AI off the gate lets every tweet through: every tweet of the answer
   * is notified and replied to with the template, in API order, repeated ids
   * included, and the pass runs to the end.
   */
  lemma {:induction false} PassWithoutAi(rc: RunConfig, users: map<nat, string>, data: seq<Tweet>, i: nat,
                                          assess: nat -> Dict, answer: nat -> ModelCall)
    requires !AiActive(rc) && i <= |data|
    ensures PassFrom(rc, users, data, i, assess, answer) ==
            PassResult(NoticesFor(rc.base, users, data[i..]), RepliesFor(rc.base, data[i..]), false)
    decreases |data| - i
  {
    if i < |data| {
      PassWithoutAi(rc, users, data, i + 1, assess, answer);
      ReplyWithoutAi(rc, data[i], answer(i));
      assert data[i..] == [data[i]] + data[i + 1..];
      NoticesCons(rc.base, users, data[i], data[i + 1..]);
      RepliesCons(rc.base, data[i], data[i + 1..]);
    } else {
      assert data[i..] == [];
    }
  }

  /** With AI off and CallMeBot configured, notice `k` is about tweet `k`: no deduplication. */
  lemma EveryTweetNotifiedWithoutAi(rc: RunConfig, resp: SearchResponse, assess: nat -> Dict, answer: nat -> ModelCall)
    requires !AiActive(rc) && resp.Response? && WhatsAppConfigured(rc.base)
    ensures var ns := Pass(rc, resp, assess, answer).notices;
            |ns| == |resp.data| && forall k :: 0 <= k < |ns| ==> ns[k].tweetId == resp.data[k].id
  {
    PassWithoutAi(rc, UsersById(resp.users), resp.data, 0, assess, answer);
    assert resp.data[0..] == resp.data;
    NoticesForIds(rc.base, UsersById(resp.users), resp.data);
  }

  /**
   * The positions, from `i` on, of the tweets the gate acts on before the
   * first one that raises.
   */
  function ActedOn(rc: RunConfig, n: nat, i: nat, assess: nat -> Dict): (ps: seq<nat>)
    ensures forall k :: 0 <= k < |ps| ==> i <= ps[k] < n
    decreases n - i
  {
    if i >= n then []
    else
      match Gate(rc, assess(i))
      case Abort => []
      case Skip => ActedOn(rc, n, i + 1, assess)
      case Act => [i] + ActedOn(rc, n, i + 1, assess)
  }

  /** Some position from `i` on raises, with none before it. */
  predicate AbortsFrom(rc: RunConfig, n: nat, i: nat, assess: nat -> Dict) {
    exists j :: i <= j < n && Gate(rc, assess(j)) == Abort
  }

  /** The tweets at some positions. */
  function Select(data: seq<Tweet>, ps: seq<nat>): (ts: seq<Tweet>)
    requires forall k :: 0 <= k < |ps| ==> ps[k] < |data|
    ensures |ts| == |ps|
    ensures forall k :: 0 <= k < |ps| ==> ts[k] == data[ps[k]]
  {
    if ps == [] then [] else [data[ps[0]]] + Select(data, ps[1..])
  }

  /** The replies to the tweets at some positions, with the answers for those positions. */
  function RepliesAt(rc: RunConfig, data: seq<Tweet>, answer: nat -> ModelCall, ps: seq<nat>): seq<ReplyPost>
    requires forall k :: 0 <= k < |ps| ==> ps[k] < |data|
  {
    if ps == [] then [] else SingleReplyFor(rc, data[ps[0]], answer(ps[0])).ToSeq() + RepliesAt(rc, data, answer, ps[1..])
  }

  /**
   * A pass is the gate followed by the actions: it notifies and replies to
   * exactly the tweets at the positions the gate acts on, in order, and ends
   * early exactly when some position raises.
   */
  lemma {:induction false} PassIsGateThenAct(rc: RunConfig, users: map<nat, string>, data: seq<Tweet>, i: nat,
                                              assess: nat -> Dict, answer: nat -> ModelCall)
    ensures var ps := ActedOn(rc, |data|, i, assess);
            PassFrom(rc, users, data, i, assess, answer) ==
            PassResult(NoticesFor(rc.base, users, Select(data, ps)), RepliesAt(rc, data, answer, ps),
                       AbortsFrom(rc, |data|, i, assess))
    decreases |data| - i
  {
    var ps := ActedOn(rc, |data|, i, assess);
    if i < |data| {
      PassIsGateThenAct(rc, users, data, i + 1, assess, answer);
      AbortsStep(rc, |data|, i, assess);
      var v := Gate(rc, assess(i));
      if v == Act {
        var ps' := ActedOn(rc, |data|, i + 1, assess);
        assert ps == [i] + ps';
        assert ps[1..] == ps';
        assert Select(data, ps) == [data[i]] + Select(data, ps');
        NoticesCons(rc.base, users, data[i], Select(data, ps'));
      }
    }
  }

  /** Whether the pass from `i` raises, one position at a time. */
  lemma AbortsStep(rc: RunConfig, n: nat, i: nat, assess: nat -> Dict)
    requires i < n
    ensures AbortsFrom(rc, n, i, assess) <==>
            Gate(rc, assess(i)) == Abort || AbortsFrom(rc, n, i + 1, assess)
  {
    if AbortsFrom(rc, n, i, assess) && Gate(rc, assess(i)) != Abort {
      var j :| i <= j < n && Gate(rc, assess(j)) == Abort;
      assert i + 1 <= j;
    }
  }

  /** Positions in increasing order, each one that the gate acts on. */
  predicate ActedInOrder(rc: RunConfig, ps: seq<nat>, assess: nat -> Dict) {
    (forall k :: 0 <= k < |ps| ==> Gate(rc, assess(ps[k])) == Act)
    && (forall k, l :: 0 <= k < l < |ps| ==> ps[k] < ps[l])
  }

  /**
   * The positions acted on are increasing and each passed the gate: with AI
   * on, its assessment has a truthy `is_quality`. A position whose
   * assessment has a falsy `is_quality` is never acted on.
   */
  lemma {:induction false} ActedOnPassGate(rc: RunConfig, n: nat, i: nat, assess: nat -> Dict)
    ensures ActedInOrder(rc, ActedOn(rc, n, i, assess), assess)
    decreases n - i
  {
    if i < n {
      ActedOnPassGate(rc, n, i + 1, assess);
      var v := Gate(rc, assess(i));
      if v == Act {
        ActedOnActStep(rc, n, i, assess);
      } else if v == Skip {
        assert ActedOn(rc, n, i, assess) == ActedOn(rc, n, i + 1, assess);
      }
    }
  }

  /** The step of `ActedOnPassGate` at a position the gate acts on. */
  lemma ActedOnActStep(rc: RunConfig, n: nat, i: nat, assess: nat -> Dict)
    requires i < n && Gate(rc, assess(i)) == Act
    requires ActedInOrder(rc, ActedOn(rc, n, i + 1, assess), assess)
    ensures ActedInOrder(rc, ActedOn(rc, n, i, assess), assess)
  {
    var ps' := ActedOn(rc, n, i + 1, assess);
    var ps := ActedOn(rc, n, i, assess);
    assert ps == [i] + ps';
    forall k | 0 < k < |ps|
      ensures ps[k] == ps'[k - 1] && i < ps[k]
    {
    }
    forall k, l | 0 <= k < l < |ps|
      ensures ps[k] < ps[l]
    {
      if k > 0 {
        assert ps'[k - 1] < ps'[l - 1];
      }
    }
  }

  /**
   * Skipped tweets do not stop later ones: every position whose gate acts
   * and which comes before any position that raises is acted on.
   */
  lemma {:induction false} ActedOnComplete(rc: RunConfig, n: nat, i: nat, assess: nat -> Dict, j: nat)
    requires i <= j < n && Gate(rc, assess(j)) == Act
    requires forall l :: i <= l < j ==> Gate(rc, assess(l)) != Abort
    ensures j in ActedOn(rc, n, i, assess)
    decreases j - i
  {
    if i < j {
      ActedOnComplete(rc, n, i + 1, assess, j);
      assert Gate(rc, assess(i)) != Abort;
    }
  }

  /**
   * With AI on, a score from `score_lead` never carries `is_quality`, so a
   * non-empty answer ends the pass at its first tweet with nothing sent.
   */
  lemma PassWithScoresAborts(rc: RunConfig, resp: SearchResponse, assess: nat -> Dict, answer: nat -> ModelCall,
                             calls: nat -> ModelCall, loads: string -> Loaded, failText: string)
    requires AiActive(rc) && resp.Response? && resp.data != []
    requires forall j :: assess(j) == ScoreLead(rc.helper.value, calls(j), loads, failText)
    ensures Pass(rc, resp, assess, answer) == PassResult([], [], true)
  {
    GateAbortsOnScores(rc, calls(0), loads, failText);
  }

  /** The minimum lead score plays no part in the pass. */
  lemma {:induction false} PassIgnoresMinScore(rc: RunConfig, m: int, users: map<nat, string>, data: seq<Tweet>,
                                                i: nat, assess: nat -> Dict, answer: nat -> ModelCall)
    ensures PassFrom(rc.(minLeadScore := m), users, data, i, assess, answer) == PassFrom(rc, users, data, i, assess, answer)
    decreases |data| - i
  {
    if i < |data| {
      PassIgnoresMinScore(rc, m, users, data, i + 1, assess, answer);
      MinScoreUnused(rc, m, assess(i), data[i], answer(i));
    }
  }

  /** The gate and the reply of one tweet do not read the minimum lead score. */
  lemma MinScoreUnused(rc: RunConfig, m: int, d: Dict, t: Tweet, call: ModelCall)
    ensures Gate(rc.(minLeadScore := m), d) == Gate(rc, d)
    ensures SingleReplyFor(rc.(minLeadScore := m), t, call) == SingleReplyFor(rc, t, call)
  {
  }
}
