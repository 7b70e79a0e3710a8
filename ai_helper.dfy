/**
 * The Gemini helper of XScout (ai_helper.py): whether AI features are on,
 * the lead-score dictionary built from the model's JSON answer, the clean-up
 * of generated replies and direct messages, and the filtering of expanded
 * keywords. The model call and json.loads are inputs: a call either answers
 * with a text or raises.
 */
module AiHelper {
  import opened Wrappers
  import opened Text

  /** The example key shipped in the configuration template. */
  const PlaceholderKey := "your_gemini_api_key_here"

  /** The longest reply `generate_reply` hands back, and the length kept before `...`. */
  const MaxReply := 280
  const KeptBeforeEllipsis := 277

  /** An `AIHelper` after `__init__`: its key and whether AI features stayed on. */
  datatype Helper = Helper(apiKey: string, enabled: bool)

  /** The outcome of one `generate_content` call followed by reading `.text`. */
  datatype ModelCall = Responded(text: string) | Raised(message: string)

  /** A JSON-decoded Python value, as far as `score_lead` looks at it. */
  datatype Value =
    | VNone
    | VBool(b: bool)
    | VInt(i: int)
    | VReal(x: real)
    | VStr(s: string)
    | VOther(nonEmpty: bool)   // a list or an object; only its truthiness matters

  type Dict = map<string, Value>

  /** What `json.loads` made of the cleaned model text. */
  datatype Loaded = LoadedDict(d: Dict) | LoadedOther(v: Value) | LoadError(message: string)

  /** Python's truthiness of a value. */
  predicate Truthy(v: Value) {
    match v
    case VNone => false
    case VBool(b) => b
    case VInt(i) => i != 0
    case VReal(x) => x != 0.0
    case VStr(s) => s != ""
    case VOther(n) => n
  }

  /** `d.get(k, default)`. */
  function Get(d: Dict, k: string, default: Value): Value {
    if k in d then d[k] else default
  }

  // ---------------------------------------------------------------- __init__

  /**
   * `AIHelper(api_key)`: AI is on for a non-empty key other than the
   * placeholder, and goes off again when configuring the client fails
   * (`initSucceeds` is false).
   */
  function NewHelper(apiKey: string, initSucceeds: bool): (h: Helper)
    ensures h.apiKey == apiKey
    ensures h.enabled ==> apiKey != "" && apiKey != PlaceholderKey
    ensures apiKey != "" && apiKey != PlaceholderKey && initSucceeds ==> h.enabled
    ensures !initSucceeds ==> !h.enabled
  {
    var enabled := apiKey != [] && apiKey != PlaceholderKey;
    if enabled && !initSucceeds then Helper(apiKey, false) else Helper(apiKey, enabled)
  }

  // ---------------------------------------------------------------- score_lead

  const ScoreKeys: set<string> := {"score", "reason", "urgency", "urgency_level"}

  /** The score returned when AI is off. */
  const DisabledScore: Dict :=
    map["score" := VInt(5), "reason" := VStr("AI disabled"),
        "urgency" := VStr("medium"), "urgency_level" := VInt(2)]

  /** The score returned when anything in the scoring raised `e`. */
  function ErrorScore(e: string): Dict {
    map["score" := VInt(5), "reason" := VStr("Error: " + e),
        "urgency" := VStr("medium"), "urgency_level" := VInt(2)]
  }

  /** The shape every score has: the four keys, an int score and level, a string urgency. */
  predicate WellFormedScore(d: Dict) {
    d.Keys == ScoreKeys && d["score"].VInt? && d["urgency_level"].VInt? && d["urgency"].VStr?
  }

  /** Python's `int(x)` truncating toward zero for a float. */
  function Truncate(x: real): (n: int)
    ensures x >= 0.0 ==> n as real <= x < n as real + 1.0
    ensures x < 0.0 ==> n as real - 1.0 < x <= n as real
  {
    if x >= 0.0 then x.Floor else -((-x).Floor)
  }

  /** Python's `int(v)`; `None` where it raises. */
  function IntOf(v: Value): (r: Option<int>)
    ensures v.VInt? ==> r == Some(v.i)
    ensures v.VBool? ==> r == Some(if v.b then 1 else 0)
    ensures v.VNone? || v.VOther? ==> r.None?
  {
    match v
    case VBool(b) => Some(if b then 1 else 0)
    case VInt(i) => Some(i)
    case VReal(x) => Some(Truncate(x))
    case VStr(s) => ParseInt(s)
    case _ => None
  }

  /** The model text handed to json.loads: stripped, every "```json" then every "```" removed. */
  function CleanModelText(t: string): (r: string)
    ensures !Contains(r, "```")
  {
    var r := Replace(Replace(Strip(t), "```json", ""), "```", "");
    RemoveTripleRun(Replace(Strip(t), "```json", ""), '`');
    assert [ '`', '`', '`'] == "```";
    r
  }

  /**
   * The score built from a decoded dictionary: missing fields take their
   * defaults, score and urgency level go through `int()`, urgency through
   * `lower()`; a conversion that raises gives the error score, whose text
   * (Python's own wording) is `failText`.
   */
  function Normalize(res: Dict, failText: string): (d: Dict)
    ensures WellFormedScore(d)
    ensures "is_quality" !in d
  {
    var score := IntOf(Get(res, "score", VInt(5)));
    var reason := Get(res, "reason", VStr("No reason provided"));
    var urgency := Get(res, "urgency", VStr("medium"));
    var level := IntOf(Get(res, "urgency_level", VInt(2)));
    if score.None? || !urgency.VStr? || level.None? then ErrorScore(failText)
    else
      map["score" := VInt(score.value), "reason" := reason,
          "urgency" := VStr(Lower(urgency.s)), "urgency_level" := VInt(level.value)]
  }

  /**
   * `score_lead`: the fixed score when AI is off, the error score when the
   * call, the decoding or the normalisation raises, and otherwise the
   * normalised answer. The result never holds an `is_quality` key.
   */
  function ScoreLead(h: Helper, call: ModelCall, loads: string -> Loaded, failText: string): (d: Dict)
    ensures WellFormedScore(d)
    ensures "is_quality" !in d
    ensures !h.enabled ==> d == DisabledScore
    ensures call.Raised? ==> !h.enabled || d == ErrorScore(call.message)
  {
    if !h.enabled then DisabledScore
    else
      match call
      case Raised(e) => ErrorScore(e)
      case Responded(t) =>
        match loads(CleanModelText(t))
        case LoadError(e) => ErrorScore(e)
        case LoadedOther(_) => ErrorScore(failText)
        case LoadedDict(res) => Normalize(res, failText)
  }

  /** The score of an empty answer object: every field at its documented default. */
  const DefaultScore: Dict :=
    map["score" := VInt(5), "reason" := VStr("No reason provided"),
        "urgency" := VStr("medium"), "urgency_level" := VInt(2)]

  /** Normalising an object with none of the four fields yields the defaults. */
  lemma NormalizeEmpty(failText: string)
    ensures Normalize(map[], failText) == DefaultScore
  {
    MediumIsLower();
  }

  lemma MediumIsLower()
    ensures Lower("medium") == "medium"
  {
    LowerKeeps("medium");
  }

  /** An empty answer object gives the documented defaults. */
  lemma ScoreDefaults(h: Helper, t: string, loads: string -> Loaded, failText: string)
    requires h.enabled && loads(CleanModelText(t)) == LoadedDict(map[])
    ensures ScoreLead(h, Responded(t), loads, failText) == DefaultScore
  {
    NormalizeEmpty(failText);
  }

  /** An answer with an int score and level and a string urgency is passed through, urgency lowercased. */
  lemma ScoreOfWellTypedAnswer(h: Helper, t: string, loads: string -> Loaded, failText: string,
                               score: int, reason: Value, urgency: string, level: int)
    requires h.enabled
    requires loads(CleanModelText(t)) == LoadedDict(map["score" := VInt(score), "reason" := reason,
                                                         "urgency" := VStr(urgency), "urgency_level" := VInt(level)])
    ensures ScoreLead(h, Responded(t), loads, failText)
            == map["score" := VInt(score), "reason" := reason,
                   "urgency" := VStr(Lower(urgency)), "urgency_level" := VInt(level)]
  {
    NormalizeWellTyped(score, reason, urgency, level, failText);
  }

  /** `Normalize` on an object whose four fields already have the right types. */
  lemma NormalizeWellTyped(score: int, reason: Value, urgency: string, level: int, failText: string)
    ensures Normalize(map["score" := VInt(score), "reason" := reason,
                          "urgency" := VStr(urgency), "urgency_level" := VInt(level)], failText)
            == map["score" := VInt(score), "reason" := reason,
                   "urgency" := VStr(Lower(urgency)), "urgency_level" := VInt(level)]
  {
    var res := map["score" := VInt(score), "reason" := reason,
                   "urgency" := VStr(urgency), "urgency_level" := VInt(level)];
    assert Get(res, "score", VInt(5)) == VInt(score);
    assert Get(res, "reason", VStr("No reason provided")) == reason;
    assert Get(res, "urgency", VStr("medium")) == VStr(urgency);
    assert Get(res, "urgency_level", VInt(2)) == VInt(level);
  }

  /**
   * When the answer does not decode to an object, the error score is
   * returned, carrying the decoder's message or, for a non-object, `failText`.
   */
  lemma ScoreOnDecodeFailure(h: Helper, t: string, loads: string -> Loaded, failText: string)
    requires h.enabled && !loads(CleanModelText(t)).LoadedDict?
    ensures ScoreLead(h, Responded(t), loads, failText)
            == ErrorScore(if loads(CleanModelText(t)).LoadError? then loads(CleanModelText(t)).message else failText)
  {
  }

  /** The error score: the neutral fields, and a reason that starts with `Error: ` followed by the message. */
  lemma ErrorScoreShape(e: string)
    ensures var d := ErrorScore(e);
            d["score"] == VInt(5) && d["urgency"] == VStr("medium") && d["urgency_level"] == VInt(2)
            && d["reason"].VStr? && StartsWith(d["reason"].s, "Error: ") && d["reason"].s[7..] == e
  {
    assert ErrorScore(e)["reason"] == VStr("Error: " + e);
  }

  /** A score that `int()` rejects makes the whole answer fall back to the error score. */
  lemma ScoreOnBadNumber(h: Helper, t: string, loads: string -> Loaded, failText: string, res: Dict)
    requires h.enabled && loads(CleanModelText(t)) == LoadedDict(res)
    requires "score" in res && IntOf(res["score"]).None?
    ensures ScoreLead(h, Responded(t), loads, failText) == ErrorScore(failText)
  {
  }

  // ---------------------------------------------------------------- generate_reply / generate_dm

  /** Outer whitespace stripped, then every leading and trailing `"`, then every leading and trailing `'`. */
  function CleanReply(t: string): (r: string)
    ensures r != [] ==> r[0] != '\'' && r[|r| - 1] != '\''
    ensures |r| <= |t|
  {
    StripChar(StripChar(Strip(t), '"'), '\'')
  }

  /**
   * The clean-up is exactly the three strips in order: the outer whitespace,
   * then the outer runs of `"`, then the outer runs of `'`.
   */
  lemma CleanReplyExact(t: string, r: string)
    ensures r == CleanReply(t) <==>
              exists m1, m2 :: TrimmedOf(t, m1, IsSpace) && TrimmedOf(m1, m2, IsChar('"'))
                               && TrimmedOf(m2, r, IsChar('\''))
  {
    var m1 := Strip(t);
    var m2 := StripChar(m1, '"');
    StripExact(t, m1);
    StripCharExact(m1, '"', m2);
    StripCharExact(m2, '\'', CleanReply(t));
    forall n1, n2 | TrimmedOf(t, n1, IsSpace) && TrimmedOf(n1, n2, IsChar('"')) && TrimmedOf(n2, r, IsChar('\''))
      ensures r == CleanReply(t)
    {
      StripExact(t, n1);
      StripCharExact(n1, '"', n2);
      StripCharExact(n2, '\'', r);
    }
  }

  /** The 280-character cap: longer texts keep their first 277 characters and end in `...`. */
  function CapReply(s: string): (r: string)
    ensures |r| <= MaxReply
    ensures |s| <= MaxReply ==> r == s
    ensures |s| > MaxReply ==> |r| == MaxReply && r[..KeptBeforeEllipsis] == s[..KeptBeforeEllipsis]
                               && r[KeptBeforeEllipsis..] == "..."
  {
    if |s| > MaxReply then s[..KeptBeforeEllipsis] + "..." else s
  }

  /** `generate_reply`: `None` when AI is off or the call raises, else the cleaned, capped text. */
  function GenerateReply(h: Helper, call: ModelCall): (r: Option<string>)
    ensures r.Some? <==> h.enabled && call.Responded?
    ensures r.Some? ==> |r.value| <= MaxReply
  {
    if !h.enabled then None
    else
      match call
      case Raised(_) => None
      case Responded(t) => Some(CapReply(CleanReply(t)))
  }

  /** `generate_dm`: the same as `generate_reply` without the length cap. */
  function GenerateDm(h: Helper, call: ModelCall): (r: Option<string>)
    ensures r.Some? <==> h.enabled && call.Responded?
    ensures r.Some? ==> |r.value| <= |call.text|
  {
    if !h.enabled then None
    else
      match call
      case Raised(_) => None
      case Responded(t) => Some(CleanReply(t))
  }

  /** A reply is the direct message for the same answer, capped at 280 characters. */
  lemma ReplyIsCappedDm(h: Helper, call: ModelCall)
    ensures GenerateReply(h, call).Some? <==> GenerateDm(h, call).Some?
    ensures GenerateDm(h, call).Some? ==> GenerateReply(h, call).value == CapReply(GenerateDm(h, call).value)
    ensures GenerateDm(h, call).Some? && |GenerateDm(h, call).value| <= MaxReply ==>
              GenerateReply(h, call) == GenerateDm(h, call)
  {
  }

  /** An answer with no outer whitespace and no quote at either end is returned as it is. */
  lemma CleanReplyKeeps(t: string)
    requires t != [] ==> !IsSpace(t[0]) && !IsSpace(t[|t| - 1])
    requires t != [] ==> t[0] != '"' && t[|t| - 1] != '"' && t[0] != '\'' && t[|t| - 1] != '\''
    ensures CleanReply(t) == t
  {
    TrimKeeps(t, IsSpace);
    StripCharKeeps(t, '"');
    StripCharKeeps(t, '\'');
  }

  // ---------------------------------------------------------------- expand_keywords

  /** The items `expand_keywords` keeps: non-empty and shorter than 100 characters. */
  predicate KeptKeyword(k: string) { k != "" && |k| < 100 }

  /** `[k for k in ks if k and len(k) < 100]`. */
  function KeepKeywords(ks: seq<string>): (r: seq<string>)
    ensures |r| <= |ks|
    ensures forall i :: 0 <= i < |r| ==> KeptKeyword(r[i])
    ensures forall k :: k in r <==> k in ks && KeptKeyword(k)
  {
    if ks == [] then []
    else if KeptKeyword(ks[0]) then [ks[0]] + KeepKeywords(ks[1..])
    else KeepKeywords(ks[1..])
  }

  /** Filtering keeps order: the filter of a concatenation is the concatenation of the filters. */
  lemma {:induction false} KeepKeywordsAppend(a: seq<string>, b: seq<string>)
    ensures KeepKeywords(a + b) == KeepKeywords(a) + KeepKeywords(b)
    decreases |a|
  {
    if a == [] {
      assert a + b == b;
    } else {
      assert (a + b)[0] == a[0] && (a + b)[1..] == a[1..] + b;
      KeepKeywordsAppend(a[1..], b);
    }
  }


  /** The keyword list parsed out of the model's comma-separated answer. */
  function ParseKeywords(t: string): seq<string> {
    KeepKeywords(StripAll(Split(Strip(t), ',')))
  }

  /** A keyword as `expand_keywords` returns it: kept, with no comma and no outer whitespace. */
  predicate CleanKeyword(k: string) {
    KeptKeyword(k) && ',' !in k && !IsSpace(k[0]) && !IsSpace(k[|k| - 1])
  }

  /** Every parsed keyword is kept, holds no comma and has no outer whitespace. */
  lemma ParsedKeywordsClean(t: string)
    ensures forall k :: k in ParseKeywords(t) ==> CleanKeyword(k)
  {
    var pieces := Split(Strip(t), ',');
    KeptPiecesClean(pieces);
    assert ParseKeywords(t) == KeepKeywords(StripAll(pieces));
  }

  /** Kept, stripped pieces of a comma split have no comma and no outer whitespace. */
  lemma KeptPiecesClean(pieces: seq<string>)
    requires forall i :: 0 <= i < |pieces| ==> ',' !in pieces[i]
    ensures forall k :: k in KeepKeywords(StripAll(pieces)) ==> CleanKeyword(k)
  {
    var stripped := StripAll(pieces);
    forall k | k in KeepKeywords(stripped)
      ensures CleanKeyword(k)
    {
      assert k in stripped && KeptKeyword(k);
      var i :| 0 <= i < |stripped| && stripped[i] == k;
      TrimOmits(pieces[i], IsSpace, ',');
    }
  }

  /**
   * `expand_keywords(base, count)`: `[]` when AI is off or the call raises;
   * otherwise the parsed keywords, sliced `[:count]`. The prompt sees only
   * `", ".join(base[:5])` and `count`.
   */
  function ExpandKeywords(h: Helper, base: seq<string>, count: int, ask: (string, int) -> ModelCall): (r: seq<string>)
    ensures count >= 0 ==> |r| <= count
    ensures forall i :: 0 <= i < |r| ==> KeptKeyword(r[i])
    ensures !h.enabled ==> r == []
  {
    if !h.enabled then []
    else
      match ask(Join(", ", Take(base, 5)), count)
      case Raised(_) => []
      case Responded(t) => Take(ParseKeywords(t), count)
  }

  /** Keywords after the fifth never influence the expansion. */
  lemma ExpandUsesFirstFive(h: Helper, base: seq<string>, base': seq<string>, count: int,
                            ask: (string, int) -> ModelCall)
    requires Take(base, 5) == Take(base', 5)
    ensures ExpandKeywords(h, base, count, ask) == ExpandKeywords(h, base', count, ask)
  {
  }

  /** The expansion is the in-order filtered answer, cut to `count` (all of it when fewer are kept). */
  lemma ExpandIsFilteredPrefix(h: Helper, base: seq<string>, count: int, ask: (string, int) -> ModelCall)
    requires h.enabled && ask(Join(", ", Take(base, 5)), count).Responded?
    ensures var kept := ParseKeywords(ask(Join(", ", Take(base, 5)), count).text);
            var r := ExpandKeywords(h, base, count, ask);
            r == kept[..|r|] && (count >= |kept| ==> r == kept)
  {
  }
}
