# XScout lead scouts, modelled in Dafny

XScout finds people who are looking for a web developer. It searches Twitter,
Facebook and TikTok, sends each lead to the owner's WhatsApp through
CallMeBot, and can answer a tweet with a template reply or with one written
by Google Gemini. This project models the deterministic decisions around
those network calls:

- the Twitter search query, with the single-run scout's exclusion phrases;
- the long-running scout's deduplication against the tweet ids it has seen;
- the tweet URL and the `unknown` author fallback;
- the WhatsApp texts and the auto-reply guards and template;
- the single-run scout's lead-quality gate and its AI-or-template reply;
- the Gemini helper's enable rule, its lead-score dictionary, and its clean-up
  of replies, direct messages and expanded keywords;
- the browser scouts' "ordered selector list, first hit wins" extraction,
  with its five-container cap, field defaults, content and keyword filter,
  and permalink rules;
- the query lists and the pauses between searches.

Modules follow the source files: `XScout` (xscout.py), `XScoutSingleRun`
(xscout_single_run.py), `AiHelper` (ai_helper.py), `FacebookScoutCloud`
(facebook_scout_cloud.py), `FacebookScout` (facebook_scout.py) and
`TikTokScout` (tiktok_scout.py). Three helper modules support them:
- `Wrappers` holds `Option`.
- `Text` holds the Python string built-ins the code uses: `strip`,
  `strip(c)`, `lower`, `split`, `join`, `replace`, slicing and `int()`.
- `Dom` holds the outcome of each Playwright lookup and the two selector-loop
  shapes: one `try` per selector, or one `try` around the whole loop.

The outside world enters as values:
- The environment is a map from names to strings.
- A Twitter search answer is an API error or a list of tweets together with
  the expanded users.
- A Gemini call either answers with a text or raises, and `json.loads` is a
  function parameter.
- A results page maps each selector to what `wait_for_selector` and
  `query_selector_all` gave. A container maps each selector to what
  `query_selector` and `inner_text` or `get_attribute('href')` gave, a raised
  exception included.
- Login checks and navigation results are inputs.

Outputs are values too:
- A WhatsApp notification or a posted reply is an entry appended to a log.
- A pause is a number of seconds appended to a list.

The long-running scout is a class whose search pass updates its seen set and
its logs in place. The loops with `break` and `continue` are methods proved
against the functions that specify them.

## Model

| member | source | states |
|---|---|---|
| XScout.ConfigFromEnv | xscout.py:12-24 | auto-reply is on exactly when `AUTO_REPLY` (default `true`) lowercases to `true`; the portfolio URL defaults to empty; the keywords are the comma pieces of `KEYWORDS`, at least one, and joining them back gives the variable |
| XScout.AutoReplyDefaultsOn | xscout.py:21 | with `AUTO_REPLY` unset, auto-reply is on |
| XScout.AutoReplyCasing | xscout.py:21 | the switch ignores case (`TrUE` turns it on) and an empty value turns it off |
| XScout.CredentialNamesDistinct | xscout.py:43-52 | the five credential names are pairwise distinct |
| XScout.MissingUpToExact | xscout.py:42-52 | after the first `k` checks a credential name is listed exactly when it is among the first `k` and its value is unset or empty; nothing else is listed |
| XScout.MissingCredentials | xscout.py:42-53 | the missing list holds exactly the names of the unset or empty credentials, in the fixed order |
| XScout.Quoted | xscout.py:154 | keyword `i` becomes its stripped text between double quotes |
| XScout.QuotedStripAll | xscout.py:154 | quoting already stripped keywords gives the same pieces |
| XScout.JoinQuotePieces | xscout.py:154 | a leading quote plus the quote-joined pieces equals the ` OR `-joined quoted keywords followed by the quote-joined tail |
| XScout.EvensQuotePieces | xscout.py:154 | every second piece of the query, counted from the first, is a keyword, in order |
| XScout.TailRoundTrip | xscout.py:154-155 | for quote-free keywords and tail, reading the quoted texts back from the OR-query followed by any tail gives the stripped keywords, then the tail's quoted texts |
| XScout.QueryRoundTrip | xscout.py:154-155 | for keywords without `"`, the quoted texts of the query, suffixed with ` -is:retweet lang:en`, are exactly the stripped keywords in order |
| XScout.UsersByIdLookup | xscout.py:175 | every expanded user's id is a key of the user map, and each key maps to the name of the last user with that id |
| XScout.UsersByIdKeys | xscout.py:175 | every expanded user's id is a key |
| XScout.UsersByIdLast | xscout.py:175 | each key maps to the username of the last expanded user with that id |
| XScout.UsernameOfAuthor | xscout.py:183-184 | the author is the last expanded user with the tweet's author id, and `unknown` when no expanded user has that id |
| XScout.UrlAsJoin | xscout.py:185 | the tweet URL is its six pieces joined by `/` |
| XScout.TweetUrlRoundTrip | xscout.py:185 | for a username without `/`, the URL `https://twitter.com/{username}/status/{id}` parses back to that username and id |
| XScout.TweetUrlInjective | xscout.py:185 | two tweets with different ids, or different `/`-free authors, get different URLs |
| XScout.LeadMessageExcerpt | xscout.py:97-100 | the message is the header with `@author`, then the whole tweet text when shorter than 200 characters and its first 200 otherwise, then `...` in both cases, and it ends with the URL; its length is fixed by these parts |
| XScout.NoticeFor | xscout.py:93-95 | a tweet gets a notice exactly when both CallMeBot settings are set and non-empty, and the notice names that tweet |
| XScout.ReplyFor | xscout.py:119-134 | a tweet gets a reply exactly when auto-reply is on and a portfolio URL is set, and the reply answers that tweet |
| XScout.TemplateMentionsPortfolio | xscout.py:128 | the template reply contains the portfolio URL |
| XScout.FreshDistinct | xscout.py:177-181 | the tweets acted on come from the batch, none has an id seen before, and no id is acted on twice, even where the batch repeats it |
| XScout.FreshSkipStep | xscout.py:178-179 | a tweet whose id was seen is skipped and the rest keeps the guarantee |
| XScout.FreshActStep | xscout.py:178-181 | a tweet with an unseen id is acted on and its id is seen for the rest of the batch |
| XScout.FreshComplete | xscout.py:177-181 | every id of the batch not seen before is acted on |
| XScout.FreshAllSeen | xscout.py:178-179 | a batch whose ids were all seen produces nothing |
| XScout.FreshIdsSeen | xscout.py:181 | every tweet acted on has its id among the batch's ids |
| XScout.NoticesForIds | xscout.py:93-95 | with CallMeBot configured each tweet acted on gets one notice, in order; otherwise none gets one |
| XScout.RepliesForIds | xscout.py:119-126 | with replies on each tweet acted on gets one reply, in order; otherwise none gets one |
| XScout.FreshNoticesDistinct | xscout.py:177-191 | the notices of one pass carry distinct tweet ids, none seen before, all from the batch |
| XScout.FreshRepliesDistinct | xscout.py:177-192 | the replies of one pass answer distinct tweets, none seen before, all from the batch |
| XScout.NoticesAppend | xscout.py:177-191 | the notices for two runs of tweets are the first run's notices followed by the second's |
| XScout.RepliesAppend | xscout.py:177-192 | the replies to two runs of tweets are the first run's replies followed by the second's |
| XScout.Scout.constructor | xscout.py:35 | a new scout has seen nothing and sent nothing, and its invariant holds |
| XScout.Scout.SearchTweets | xscout.py:151-197 | the seen set only grows; an API error changes nothing; otherwise every id of the answer is added, and the logs grow by the notices and replies of exactly the tweets not seen before; no tweet is ever notified or replied to twice |
| XScout.ProcessBatch | xscout.py:177-192 | the batch loop adds every id to the seen set and notifies and replies to exactly the fresh tweets, in order |
| XScout.BatchStep | xscout.py:177-181 | one loop step adds the tweet's id to the seen ids and either skips the tweet or acts on it |
| XScout.LogsStayDistinct | xscout.py:177-192 | appending the logs of a pass keeps every logged id distinct and seen |
| AiHelper.NewHelper | ai_helper.py:11-24 | AI is on only for a non-empty key other than `your_gemini_api_key_here`; such a key with a working client turns it on; a failing client turns it off |
| AiHelper.Truncate | ai_helper.py:65 | for a float, `int()` rounds toward zero |
| AiHelper.IntOf | ai_helper.py:65 | `int()` keeps an int, maps a bool to 0 or 1, and raises on `None`, a list or an object |
| AiHelper.CleanModelText | ai_helper.py:63 | after the fences are removed, no run of three backquotes is left in the decoded text |
| AiHelper.Normalize | ai_helper.py:65-75 | the normalised score has exactly the four keys, an int score and level and a string urgency, and never an `is_quality` key |
| AiHelper.ScoreLead | ai_helper.py:26-78 | every result has the four-key shape without `is_quality`; with AI off it is exactly `{5, "AI disabled", "medium", 2}`; a raising call gives the error score carrying its message |
| AiHelper.NormalizeEmpty | ai_helper.py:65-68 | an object with none of the four fields normalises to score 5, "No reason provided", `medium`, level 2 |
| AiHelper.ScoreDefaults | ai_helper.py:62-75 | an empty answer object scores the documented defaults |
| AiHelper.ScoreOfWellTypedAnswer | ai_helper.py:62-75 | an answer with an int score and level and a string urgency comes back unchanged, except that the urgency is lowercased |
| AiHelper.NormalizeWellTyped | ai_helper.py:65-75 | normalising an object whose four fields have the right types keeps them and lowercases the urgency |
| AiHelper.ScoreOnDecodeFailure | ai_helper.py:63-78 | an answer that does not decode to an object gives the error score, with the decoder's message or the failure text |
| AiHelper.ErrorScoreShape | ai_helper.py:78 | the error score is 5, `medium`, level 2, with a reason that is `Error: ` followed by the message |
| AiHelper.ScoreOnBadNumber | ai_helper.py:65-78 | a score that `int()` rejects makes the whole answer the error score |
| AiHelper.CleanReply | ai_helper.py:104-107 | the cleaned reply is no longer than the answer and neither starts nor ends with `'` |
| AiHelper.CleanReplyExact | ai_helper.py:104-107 | a text is the cleaned reply exactly when it is the answer with its outer whitespace trimmed, then its outer runs of `"`, then its outer runs of `'`; each trim keeps a slice of its input and removes only those characters around it |
| AiHelper.CleanReplyKeeps | ai_helper.py:104-107 | an answer with no outer whitespace and no quote at either end comes back unchanged |
| AiHelper.CapReply | ai_helper.py:109-112 | the result is at most 280 characters; a text of at most 280 is unchanged; a longer one keeps its first 277 characters and ends in `...`, exactly 280 |
| AiHelper.GenerateReply | ai_helper.py:80-115 | a reply exists exactly when AI is on and the call answered, and it is at most 280 characters |
| AiHelper.GenerateDm | ai_helper.py:117-152 | a message exists exactly when AI is on and the call answered, and it is no longer than the answer |
| AiHelper.ReplyIsCappedDm | ai_helper.py:104-112 | the reply is the direct message for the same answer, capped at 280 characters; both exist or neither does, and they agree when the message fits |
| AiHelper.KeepKeywords | ai_helper.py:177 | the kept keywords are exactly those of the input that are non-empty and shorter than 100 characters, and there are no more of them than inputs |
| AiHelper.KeepKeywordsAppend | ai_helper.py:177 | the filter keeps order: filtering a concatenation concatenates the filtered parts |
| AiHelper.ParsedKeywordsClean | ai_helper.py:175-177 | every parsed keyword is kept, holds no comma and has no outer whitespace |
| AiHelper.KeptPiecesClean | ai_helper.py:175-177 | the kept, stripped pieces of a comma split hold no comma and have no outer whitespace |
| AiHelper.ExpandKeywords | ai_helper.py:154-180 | with AI off the result is empty; otherwise at most `count` keywords come back, each non-empty and shorter than 100 characters |
| AiHelper.ExpandUsesFirstFive | ai_helper.py:162 | keywords after the fifth never change the expansion |
| AiHelper.ExpandIsFilteredPrefix | ai_helper.py:174-177 | the expansion is a prefix of the filtered answer, in order, and all of it when `count` is at least its length |
| XScoutSingleRun.NegativeSuffixIsExclusions | xscout_single_run.py:129 | the literal suffix excludes exactly the six self-promotion phrases, in order |
| XScoutSingleRun.ExclusionPiecesJoin | xscout_single_run.py:129 | joining those pieces with double quotes gives back the text followed by its exclusions |
| XScoutSingleRun.ExclusionPiecesEvens | xscout_single_run.py:129 | every second piece after the first is an excluded phrase, in order |
| XScoutSingleRun.ExclusionPiecesQuoteFree | xscout_single_run.py:129 | for quote-free text and phrases no piece holds a double quote |
| XScoutSingleRun.NegativePhrasesQuoteFree | xscout_single_run.py:129 | no excluded phrase holds a double quote |
| XScoutSingleRun.ExclusionRoundTrip | xscout_single_run.py:127-129 | for quote-free keywords and phrases, the quoted texts of the long-running scout's query followed by the exclusions are the stripped keywords, then the phrases |
| XScoutSingleRun.SingleRunQueryRoundTrip | xscout_single_run.py:127-129 | the quoted texts of the single-run query are the stripped keywords in order followed by the six excluded phrases, so the query is the long-running scout's query plus the exclusions |
| XScoutSingleRun.RunConfigFromEnv | xscout_single_run.py:15-32 | the settings exist exactly when `AI_MIN_LEAD_SCORE` (default `7`) parses as an int, and the minimum score is that int; the base settings are the long-running scout's; the AI switch defaults off; a helper exists exactly when the switch is on, and it is built from `GEMINI_API_KEY` |
| XScoutSingleRun.RunConfigDefaults | xscout_single_run.py:30-32 | with neither AI variable set, the settings exist, AI is off with no helper, and the minimum score is 7 |
| XScoutSingleRun.RunConfigMinScoreSet | xscout_single_run.py:32 | `AI_MIN_LEAD_SCORE` set to the decimal text of a number gives settings whose minimum score is that number |
| XScoutSingleRun.AiActiveFromEnv | xscout_single_run.py:30-31 | the AI gate is active exactly when the switch is on, the key is non-empty and not the placeholder, and the client configured |
| XScoutSingleRun.Gate | xscout_single_run.py:163-172 | with AI off every tweet is acted on; with AI on a missing `score`, `reason` or `is_quality` key raises and ends the pass; otherwise a tweet is acted on exactly when `is_quality` is truthy |
| XScoutSingleRun.GateAbortsOnScores | xscout_single_run.py:165-168 | with AI on, any score from `score_lead` lacks `is_quality`, so the gate raises |
| XScoutSingleRun.SingleReplyFor | xscout_single_run.py:76-82 | a reply is posted exactly when auto-reply is on and a portfolio URL is set, whatever AI does, and it answers that tweet |
| XScoutSingleRun.ReplyChoice | xscout_single_run.py:84-98 | the template is used when AI is not tried, when the model raised, or when the cleaned answer is empty; otherwise the cleaned and capped answer is used; the text is never empty, and an AI text is at most 280 characters |
| XScoutSingleRun.QuotedEmptyAnswerFallsBack | xscout_single_run.py:88-97 | an answer that is just `""` cleans to nothing, so the template is used |
| XScoutSingleRun.EmptyQuotesClean | ai_helper.py:104-107 | the answer `""` cleans to the empty text |
| XScoutSingleRun.ReplyWithoutAi | xscout_single_run.py:84-97 | with AI off the single-run reply is the long-running scout's template reply |
| XScoutSingleRun.AutoReply | xscout_single_run.py:70-105 | the step-by-step reassignment of the reply text posts the reply that `SingleReplyFor` chooses |
| XScoutSingleRun.SearchTweets | xscout_single_run.py:148-180 | the loop with `continue` and the exception exit computes the specified pass |
| XScoutSingleRun.PassWithoutAi | xscout_single_run.py:154-175 | with AI off every tweet is notified and answered with the template, in API order, repeated ids included, and the pass runs to the end |
| XScoutSingleRun.EveryTweetNotifiedWithoutAi | xscout_single_run.py:154-174 | with AI off and CallMeBot configured, notice `k` is about tweet `k`, so there is no deduplication |
| XScoutSingleRun.ActedOn | xscout_single_run.py:154-175 | every position acted on lies in the answer, from the starting position on |
| XScoutSingleRun.Select | xscout_single_run.py:154-175 | the selected tweets are those at the given positions, in the given order |
| XScoutSingleRun.PassIsGateThenAct | xscout_single_run.py:154-180 | a pass sends notices and replies for exactly the tweets at the positions the gate acts on, in order, and it ends early exactly when some position raises |
| XScoutSingleRun.AbortsStep | xscout_single_run.py:163-180 | the pass from a position raises exactly when that position's gate raises or the pass from the next one does |
| XScoutSingleRun.ActedOnPassGate | xscout_single_run.py:163-172 | the positions acted on increase, and each one passed the gate; a falsy `is_quality` is never acted on |
| XScoutSingleRun.ActedOnActStep | xscout_single_run.py:163-172 | one position the gate acts on keeps the acted positions increasing and gated |
| XScoutSingleRun.ActedOnComplete | xscout_single_run.py:168-170 | skipped tweets do not stop later ones: every position the gate acts on, before any position that raises, is acted on |
| XScoutSingleRun.PassWithScoresAborts | xscout_single_run.py:163-168 | with AI on and real `score_lead` results, a non-empty answer ends the pass at its first tweet with nothing sent |
| XScoutSingleRun.PassIgnoresMinScore | xscout_single_run.py:32 | the minimum lead score plays no part in what a pass sends |
| XScoutSingleRun.MinScoreUnused | xscout_single_run.py:163-170 | neither the gate nor the reply of one tweet reads the minimum lead score |
| Text.Strip | xscout.py:154 | the stripped text neither starts nor ends with whitespace, and it is no longer than the input |
| Text.StripExact | xscout.py:154 | a text is `s.strip()` exactly when it is a slice of `s` with no whitespace at its ends and only whitespace before and after it |
| Text.StripChar | tiktok_scout.py:157 | a text stripped of `c` neither starts nor ends with `c` |
| Text.StripCharExact | tiktok_scout.py:157 | a text is `s.strip(c)` exactly when it is a slice of `s` that neither starts nor ends with `c` and has only `c` before and after it |
| Text.TrimExact | tiktok_scout.py:157 | trimming by any character test gives exactly the slice between the outer runs of characters that pass the test |
| Text.TrimmedOfUnique | tiktok_scout.py:157 | two texts that are both `s` with its outer runs removed are equal, so the characterisation fixes the result |
| Text.Lower | xscout.py:21 | each character is lowered and none is left upper case |
| Text.Split | xscout.py:24 | the pieces hold no separator and joining them with it gives back the text |
| Text.SplitJoin | xscout.py:24 | splitting a join of separator-free pieces gives back the pieces |
| Text.EscapeSpacesRoundTrip | facebook_scout.py:142 | writing spaces as `%20` and back restores a text without `%` |
| Text.RemoveTripleRun | ai_helper.py:63 | removing every run of three backquotes leaves none |
| Text.ParseDecimal | xscout_single_run.py:32 | the decimal text of a number parses back to it |
| Dom.Examined | facebook_scout_cloud.py:237-245 | at most five containers are examined |
| Dom.ExaminedFirstHit | facebook_scout_cloud.py:237-309 | when a selector matches and every earlier one timed out or matched nothing, its first five containers are examined and later selectors are not consulted |
| Dom.ExaminedNothing | facebook_scout_cloud.py:311-315 | nothing is examined when no selector matches or a query raises first |
| Dom.ExamineContainers | facebook_scout.py:191-267 | the selector loop with `break` and `continue` examines the specified containers |
| Dom.ReadAllAt | facebook_scout_cloud.py:245 | each examined container gives one record, in container order |
| Dom.FirstTextAt | facebook_scout_cloud.py:260-267 | with a `try` per selector, the first accepted element wins, whatever the earlier lookups gave |
| Dom.FirstTextNone | facebook_scout_cloud.py:260-267 | nothing is found when no selector gives an accepted element |
| Dom.FirstTextBeforeThrowAt | facebook_scout.py:208-221 | with one `try` around the loop, the first accepted element wins only if no earlier lookup raised |
| Dom.FirstTextBeforeThrowStops | facebook_scout.py:215-221 | a lookup that raises before any accepted element ends the search with nothing |
| Dom.NoThrowSameText | facebook_scout.py:208-239 | when no lookup raises the two loop shapes agree |
| Dom.FindText | facebook_scout_cloud.py:276-285 | the loop with a `try` per selector and `break` finds the specified text |
| Dom.FindTextBeforeThrow | facebook_scout.py:224-239 | the loop inside one `try` finds the specified text |
| FacebookScoutCloud.NonEmpty | facebook_scout_cloud.py:28 | no kept text is empty |
| FacebookScoutCloud.NonEmptyMembers | facebook_scout_cloud.py:28 | a text is kept exactly when it is among the inputs and non-empty |
| FacebookScoutCloud.NonEmptyAppend | facebook_scout_cloud.py:28 | the filter keeps order |
| FacebookScoutCloud.ConfigFromEnv | facebook_scout_cloud.py:16-28 | the keywords are the comma split of `KEYWORDS` and the queries are derived from them |
| FacebookScoutCloud.SearchQueriesMembers | facebook_scout_cloud.py:28 | a query is searched exactly when it is the non-empty stripped form of some keyword |
| FacebookScoutCloud.SearchQueriesAppend | facebook_scout_cloud.py:28 | the queries keep the keywords' order |
| FacebookScoutCloud.QueriesFromKeywords | facebook_scout_cloud.py:19-28 | comma-free keywords joined into `KEYWORDS` come back as the keywords, and the queries are their non-empty stripped forms |
| FacebookScoutCloud.NoKeywords | facebook_scout_cloud.py:19-28 | with `KEYWORDS` unset the keywords are one empty text and there is no query |
| FacebookScoutCloud.Permalink | facebook_scout_cloud.py:288-298 | the URL holds no `?`; it is empty exactly when there is no link or the link has no href; otherwise it starts with `http`, and a lookup that raises gives `https://www.facebook.com` |
| FacebookScoutCloud.PermalinkIdempotent | facebook_scout_cloud.py:288-298 | a permalink is its own permalink |
| FacebookScoutCloud.PermalinkDropsQuery | facebook_scout_cloud.py:294-296 | the href is cut at its first `?`, then kept if absolute and prefixed with the site otherwise |
| FacebookScoutCloud.HeadBeforeQuery | facebook_scout_cloud.py:294 | the first `?` piece of an href is the part before its first `?` |
| FacebookScoutCloud.SchemeBeforeQuery | facebook_scout_cloud.py:293 | cutting at `?` does not change whether the href starts with `http` |
| FacebookScoutCloud.PermalinkWithoutQuery | facebook_scout_cloud.py:293-296 | an href without `?` is kept if absolute and prefixed with the site otherwise |
| FacebookScoutCloud.BlankKeywordMatchesAll | facebook_scout_cloud.py:303 | a blank keyword, as from a trailing comma, matches every content |
| FacebookScoutCloud.MatchIgnoresCase | facebook_scout_cloud.py:302-303 | the keyword test ignores the case of the content |
| FacebookScoutCloud.AuthorFromFirstElement | facebook_scout_cloud.py:260-267 | the author is the stripped text of the first author selector with an element, even an empty text, whatever earlier lookups raised |
| FacebookScoutCloud.AuthorUnknown | facebook_scout_cloud.py:248-267 | with no author element the author stays `Unknown` |
| FacebookScoutCloud.ContentFromFirstLongText | facebook_scout_cloud.py:276-285 | the content is the stripped text of the first content selector whose raw text is longer than 20 characters |
| FacebookScoutCloud.ContentEmpty | facebook_scout_cloud.py:249-301 | with no long enough content text the content stays empty and the post is dropped |
| FacebookScoutCloud.ExtractPost | facebook_scout_cloud.py:246-298 | the field loops fill in the specified post |
| FacebookScoutCloud.KeptPosts | facebook_scout_cloud.py:300-304 | every kept post passes the length and keyword filter |
| FacebookScoutCloud.KeptPostsComplete | facebook_scout_cloud.py:300-304 | every post passing the filter is kept |
| FacebookScoutCloud.KeptPostsSound | facebook_scout_cloud.py:300-304 | every kept post was read from the page |
| FacebookScoutCloud.KeptPostsExact | facebook_scout_cloud.py:300-304 | a post is kept exactly when it was read and passes the filter |
| FacebookScoutCloud.ExtractFacebookPosts | facebook_scout_cloud.py:226-317 | the nested selector loops report the specified posts: at most five, each passing the filter |
| FacebookScoutCloud.LeadNoticeExcerpt | facebook_scout_cloud.py:37-40 | the message names the platform and author, holds the content when shorter than 150 characters and its first 150 otherwise, then `...` in both cases, and ends with the URL |
| FacebookScoutCloud.NoticesAt | facebook_scout_cloud.py:202-208 | notice `i` is the message for post `i` |
| FacebookScoutCloud.NoticesAppend | facebook_scout_cloud.py:202-208 | the notices for two lists of posts are the first list's notices followed by the second's |
| FacebookScoutCloud.NoticesStep | facebook_scout_cloud.py:200-208 | sending one query's notices extends the log of the notices for all posts so far, and nothing is sent without WhatsApp |
| FacebookScoutCloud.SearchUrlRoundTrip | facebook_scout_cloud.py:186 | the search URL starts with the search endpoint, its query part holds no space, and unescaping `%20` gives back a query without `%` |
| FacebookScoutCloud.AllKeptAppend | facebook_scout_cloud.py:183-219 | two lists of posts that pass the filter concatenate into one that does |
| FacebookScoutCloud.FoundFromKept | facebook_scout_cloud.py:183-219 | when every page reports only posts that pass the filter, so does every run |
| FacebookScoutCloud.FoundFromBound | facebook_scout_cloud.py:183-219 | when every page reports at most five posts, a run reports at most five per query |
| FacebookScoutCloud.ExtractedPostsBound | facebook_scout_cloud.py:226-317 | a page reports at most five posts, each passing the filter |
| FacebookScoutCloud.ReportedKept | facebook_scout_cloud.py:172-219 | a run reports only posts that pass the filter, at most five per query |
| FacebookScoutCloud.DelayAsWrittenWithoutPosts | facebook_scout_cloud.py:216-217 | the code's pause agrees with the intended one after a query that reported nothing |
| FacebookScoutCloud.DelayShadowed | facebook_scout_cloud.py:202-217 | after a query that reported a post the code pauses even after the last query, and pauses 4s where 6s is due |
| FacebookScoutCloud.PausesFromShape | facebook_scout_cloud.py:216-219 | there is one pause between each two queries and none after the last; the pause after query `k` (1-based) is 4s for `k < 5` and 6s after |
| FacebookScoutCloud.PausesAsWrittenWithoutPosts | facebook_scout_cloud.py:202-219 | when no query reports a post, the pauses the code takes are the intended schedule |
| FacebookScoutCloud.QuietRunPausesAsIntended | facebook_scout_cloud.py:183-219 | a run that reports no post at all pauses by the intended schedule |
| FacebookScoutCloud.QuietQueries | facebook_scout_cloud.py:183-209 | a run that reports no post reported none for any one of its queries |
| FacebookScoutCloud.PausesShadowed | facebook_scout_cloud.py:202-219 | over a whole run, one query with one post is followed by a 4s pause where none is due, and in a seven-query run the sixth query's single post makes its pause 4s where 6s is due |
| FacebookScoutCloud.SearchQuery | facebook_scout_cloud.py:186-213 | one query reports the posts of its results page, none when navigation fails |
| FacebookScoutCloud.NotifyAll | facebook_scout_cloud.py:200-208 | each reported post gets its notice, in order, when WhatsApp is configured; otherwise nothing is sent |
| FacebookScoutCloud.SearchFacebook | facebook_scout_cloud.py:163-221 | not logged in, nothing is searched; logged in, every query is searched in order, each reported post is notified when WhatsApp is configured, and the pauses are the ones the code takes: after a query that reported posts the pause test reads the last post's index |
| FacebookScout.ConfigFromEnv | facebook_scout.py:17-20 | the keywords are the comma split of `KEYWORDS` |
| FacebookScout.SearchedQueries | facebook_scout.py:139 | only `need a website` and `looking for web developer`, the first two of the four fixed queries, are searched |
| FacebookScout.SamePostWithoutThrows | facebook_scout.py:208-252 | when no lookup raises, this scout reads the same post as the headless one |
| FacebookScout.ThrowHidesLaterAuthor | facebook_scout.py:208-221 | for every container where an author lookup raises before the first author element, this scout keeps `Unknown` while the headless one takes that element's stripped text |
| FacebookScout.ExtractPost | facebook_scout.py:200-252 | the field loops, each in one `try`, fill in the specified post |
| FacebookScout.ExtractFacebookPosts | facebook_scout.py:179-272 | the nested selector loops report the specified posts: at most five, each passing the length and keyword filter |
| FacebookScout.AwaitLogin | facebook_scout.py:107-134 | with a session already valid nothing is probed or saved; otherwise at most 60 probes run, stopping at the first that sees a login, which is then saved; a session is saved exactly when a probe succeeded; a failed wait runs all 60 |
| FacebookScout.FoundKept | facebook_scout.py:139-172 | a run reports only posts that pass the filter, at most ten in all |
| FacebookScout.SearchQuery | facebook_scout.py:142-170 | one query reports the posts of its results page, none when navigation fails |
| FacebookScout.RunQueries | facebook_scout.py:139-172 | the queries are searched in order, each reported post is notified when WhatsApp is configured, and a 3s pause follows every query, the last included |
| FacebookScout.SearchFacebook | facebook_scout.py:103-174 | without a login nothing is searched; with a session or a successful probe the two queries are searched with a pause after each; the session is saved exactly when a probe succeeded |
| TikTokScout.ConfigFromEnv | tiktok_scout.py:16-20 | auto-comment is on exactly when `AUTO_REPLY` (default `true`) lowercases to `true`; the keywords are the comma split of `KEYWORDS` |
| TikTokScout.AutoCommentDefaultsOn | tiktok_scout.py:18 | with `AUTO_REPLY` unset, auto-comment is on |
| TikTokScout.SearchedQueries | tiktok_scout.py:206 | only `need a website` and `looking for web developer`, the first two of the four fixed queries, are searched |
| TikTokScout.VideoUrl | tiktok_scout.py:179-189 | the URL is empty exactly when there is no link, no href or a raising lookup; otherwise it starts with `http` and ends with the href, and an absolute href is kept unchanged |
| TikTokScout.VideoUrlIdempotent | tiktok_scout.py:183-187 | a video URL is its own video URL |
| TikTokScout.VideoUrlRelative | tiktok_scout.py:186-187 | a relative href is appended to the origin whole, its query string included |
| TikTokScout.VideoInfo | tiktok_scout.py:135-199 | a video is returned exactly when its author is not `Unknown` or its description is non-empty, and then it is the video read from the container |
| TikTokScout.AuthorFromFirstElement | tiktok_scout.py:153-160 | the author is the first author element's text with `@` stripped from both ends and then whitespace, whatever earlier lookups raised |
| TikTokScout.DescFromFirstElement | tiktok_scout.py:169-176 | the description is the first description element's stripped text, even an empty one |
| TikTokScout.NoFieldsNoVideo | tiktok_scout.py:138-195 | with no author and no description element the fields keep their defaults and no video is returned |
| TikTokScout.BareHandleKept | tiktok_scout.py:157-192 | an author element reading just `@` gives an empty author, which is not `Unknown`, so the video is kept |
| TikTokScout.ExtractVideoInfo | tiktok_scout.py:135-199 | the field loops and the link lookup return the specified video |
| TikTokScout.AcceptedVideos | tiktok_scout.py:97-103 | every video kept is accepted, and there are no more of them than candidates |
| TikTokScout.AcceptedVideosComplete | tiktok_scout.py:100-103 | every accepted video is kept |
| TikTokScout.AcceptedVideosSound | tiktok_scout.py:100-103 | every video kept was read from the page |
| TikTokScout.AcceptedVideosExact | tiktok_scout.py:100-103 | a video is kept exactly when it was read and is accepted |
| TikTokScout.PageVideosBound | tiktok_scout.py:89-116 | a page gives at most five videos, each accepted |
| TikTokScout.VideoNoticeExcerpt | tiktok_scout.py:35-40 | the message names the platform and `@author`, holds the description when shorter than 150 characters and its first 150 otherwise, then `...`, likes and views as `N/A`, and ends with the URL |
| TikTokScout.NoticesAt | tiktok_scout.py:102-110 | notice `i` is the message for video `i` |
| TikTokScout.NoticesAppend | tiktok_scout.py:102-110 | the notices for two lists of videos are the first list's notices followed by the second's |
| TikTokScout.NoticesStep | tiktok_scout.py:102-110 | sending one query's notices extends the log of the notices for all videos so far, and nothing is sent without WhatsApp |
| TikTokScout.SearchUrlRoundTrip | tiktok_scout.py:72 | the search URL starts with the search endpoint, its query part holds no space, and unescaping `%20` gives back a query without `%` |
| TikTokScout.AllAcceptedAppend | tiktok_scout.py:206-208 | two lists of accepted videos concatenate into one |
| TikTokScout.FoundFromAccepted | tiktok_scout.py:206-208 | a run finds only accepted videos, at most five per query |
| TikTokScout.FoundAccepted | tiktok_scout.py:206-208 | a run finds only accepted videos, at most ten in all |
| TikTokScout.ReadVideos | tiktok_scout.py:97-114 | the container loop keeps exactly the accepted videos in order and notifies each as it is found, when WhatsApp is configured |
| TikTokScout.KeepStep | tiktok_scout.py:100-110 | one container either adds its accepted video and its notice, or changes nothing |
| TikTokScout.SearchVideos | tiktok_scout.py:59-133 | one query finds the accepted videos of its results page, none when navigation fails, and notifies each |
| TikTokScout.RunQueries | tiktok_scout.py:206-208 | the queries are searched in order, each found video is notified when WhatsApp is configured, and a 2s pause follows every query |
| TikTokScout.RunSearch | tiktok_scout.py:201-210 | the two searched queries find the specified videos, with a 2s pause after each |

## Left out

- Network calls are not modelled: the Twitter client, the CallMeBot request and its status code, the Gemini client and the Playwright browser. Their results are inputs and their effects are log entries.
- A notification or reply whose HTTP request fails is still logged in the model. The source prints the failure and carries on, so nothing later depends on it.
- Each `Notice` entry carries the tweet id it is about. The source sends only the text; the id is kept so that the deduplication invariant can be stated.
- Clocks and sleeps are not modelled: the search time window from `datetime.now()`, and `time.sleep` and `asyncio.sleep`. The pauses between searches are returned as numbers of seconds.
- The long-running scout's `run` loop, its interval and the `KeyboardInterrupt` exit are left out. They only repeat `search_tweets` forever.
- Printing, log line texts and exception messages are left out. Python's exception text for a failed `int()` or `lower()` is a parameter (`failText`).
- Gemini prompt texts are left out. A model call is an input outcome, and so is `json.loads`.
- `validate_credentials` is modelled only as its missing-credentials list. The `get_me` authentication check and the other lines it prints are left out.
- `.env` loading, the session cookie file and the `GITHUB_ACTIONS` check are left out.
- The headless scout's automated login through `FACEBOOK_EMAIL` and `FACEBOOK_PASSWORD` is an input: whether the session check or the login succeeded.
- The interactive scout's `FACEBOOK_GROUPS` setting is read but never used, so it is not modelled.
- Scrolling is not modelled; it only changes what the page shows, which is an input.
- The TikTok scout's `auto_comment`, `portfolio_url` and `keywords` are read but never used by the search.
- TikTok likes and views are always `N/A`, so they live in the message text and not in `Video`.
- The TikTok scout's outer `except` around the whole video read is not modelled; nothing inside it can raise.
- `Text.Lower` lowercases ASCII letters only; Python's `lower()` also folds other scripts.
- `Text.ParseInt` accepts surrounding whitespace, a sign and decimal digits. Python's `int()` of a string also accepts underscores between digits and non-ASCII digits.
- AiHelper.IntOf: floats are exact reals here, so the infinities and NaN, for which Python's `int()` raises, cannot occur. JSON decoding does not produce them by default.
- unified_scout.py, check_gemini_models.py, test_ai_features.py and test_env.py are not part of this model. They chain I/O calls or print live API results.
- There is no lead-score threshold. The single-run scout's gate reads an `is_quality` key that `score_lead` never returns, so with AI on the gate raises `KeyError` and the pass ends. The model keeps this behaviour (`XScoutSingleRun.PassWithScoresAborts`); `AI_MIN_LEAD_SCORE` is parsed but compared with nothing (`XScoutSingleRun.PassIgnoresMinScore`).

## Findings

| source | as written | input that shows it | evidently intended | confidence | as-written member | corrected member |
|---|---|---|---|---|---|---|
| facebook_scout_cloud.py:202-217 | the inner `for idx, post in enumerate(posts)` rebinds the query counter `idx`, so the pause test after a query with posts uses the last post's 0-based index | one query that reports one post: `idx` becomes 0, `0 < 1` holds, and the scout waits 4s after its only query; with seven queries, query 6 with one post waits 4s instead of 6s | one pause between each two consecutive queries and none after the last: 4s after queries 1 to 4, 6s after | not executed | FacebookScoutCloud.PausesShadowed | FacebookScoutCloud.PausesFromShape |
