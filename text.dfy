/**
 * The Python string built-ins the scouts rely on, with CPython 3 semantics:
 * str.strip() and str.strip(chars), str.lower() (ASCII letters), str.split(sep),
 * sep.join(parts), `p in s`, str.startswith, str.replace, the slice s[:n],
 * str(n) for a non-negative int and int(s) for a decimal string.
 */
module Text {
  import opened Wrappers

  /** Python's str.isspace(): the characters str.strip() removes. */
  predicate IsSpace(c: char) {
    ('\t' <= c <= '\r') || ('\U{1C}' <= c <= '\U{1F}') || c == ' '
    || c == '\U{85}' || c == '\U{A0}' || c == '\U{1680}'
    || ('\U{2000}' <= c <= '\U{200A}') || c == '\U{2028}' || c == '\U{2029}'
    || c == '\U{202F}' || c == '\U{205F}' || c == '\U{3000}'
  }

  // ---------------------------------------------------------------- strip

  /** Every character of `s` satisfies `drop`. */
  predicate AllDrop(s: string, drop: char -> bool) {
    forall i :: 0 <= i < |s| ==> drop(s[i])
  }

  /** Drops the leading characters that satisfy `drop`. */
  function TrimLeft(s: string, drop: char -> bool): (r: string)
    ensures |r| <= |s| && r == s[|s| - |r|..]
    ensures AllDrop(s[..|s| - |r|], drop)
    ensures r != [] ==> !drop(r[0])
    decreases |s|
  {
    if s != [] && drop(s[0]) then
      var r := TrimLeft(s[1..], drop);
      assert s[..|s| - |r|] == [s[0]] + s[1..][..|s| - 1 - |r|];
      r
    else s
  }

  /** Drops the trailing characters that satisfy `drop`. */
  function TrimRight(s: string, drop: char -> bool): (r: string)
    ensures |r| <= |s| && r == s[..|r|]
    ensures AllDrop(s[|r|..], drop)
    ensures r != [] ==> !drop(r[|r| - 1])
    decreases |s|
  {
    if s != [] && drop(s[|s| - 1]) then
      var r := TrimRight(s[..|s| - 1], drop);
      assert s[|r|..] == s[..|s| - 1][|r|..] + [s[|s| - 1]];
      r
    else s
  }

  /** `r` is the slice of `s` from `lo`, with only `drop` characters before and after it. */
  predicate TrimmedAt(s: string, r: string, lo: int, drop: char -> bool) {
    0 <= lo <= |s| - |r| && r == s[lo..lo + |r|]
    && AllDrop(s[..lo], drop) && AllDrop(s[lo + |r|..], drop)
  }

  /**
   * `r` is `s` with its outer runs of `drop` characters removed: a slice of
   * `s` whose ends do not satisfy `drop`, with only `drop` characters
   * before and after it.
   */
  ghost predicate TrimmedOf(s: string, r: string, drop: char -> bool) {
    (r != [] ==> !drop(r[0]) && !drop(r[|r| - 1]))
    && exists lo :: TrimmedAt(s, r, lo, drop)
  }

  /**
   * Drops leading and trailing characters that satisfy `drop`: the ends of
   * what is left do not satisfy it, and nothing is left exactly when every
   * character satisfies it. `TrimExact` shows it is the slice between the
   * two outer runs.
   */
  function Trim(s: string, drop: char -> bool): (r: string)
    ensures r != [] ==> !drop(r[0]) && !drop(r[|r| - 1])
    ensures r == [] <==> AllDrop(s, drop)
    ensures |r| <= |s|
  {
    TrimEmpty(s, drop);
    TrimRight(TrimLeft(s, drop), drop)
  }

  /** Nothing is left after trimming exactly when every character satisfies `drop`. */
  lemma TrimEmpty(s: string, drop: char -> bool)
    ensures var r := TrimRight(TrimLeft(s, drop), drop);
            (r != [] ==> !drop(r[0])) && (r == [] <==> AllDrop(s, drop))
  {
    var t := TrimLeft(s, drop);
    var r := TrimRight(t, drop);
    var lo := |s| - |t|;
    if r == [] {
      assert t[|r|..] == t;
      assert s[..lo] == s;
    } else {
      assert r[0] == t[0] == s[lo];
    }
  }

  /** A suffix after a dropped run, cut before a dropped run, is the slice between the two runs. */
  lemma SliceBetweenRuns(s: string, t: string, r: string, drop: char -> bool)
    requires |t| <= |s| && t == s[|s| - |t|..] && AllDrop(s[..|s| - |t|], drop)
    requires |r| <= |t| && r == t[..|r|] && AllDrop(t[|r|..], drop)
    ensures TrimmedAt(s, r, |s| - |t|, drop)
  {
    var lo := |s| - |t|;
    assert r == s[lo..lo + |r|];
    assert s[lo + |r|..] == t[|r|..];
  }

  /** What `TrimmedAt` says index by index. */
  lemma TrimmedAtIndices(s: string, r: string, lo: int, drop: char -> bool)
    requires TrimmedAt(s, r, lo, drop)
    ensures forall j :: 0 <= j < lo ==> drop(s[j])
    ensures forall j :: lo + |r| <= j < |s| ==> drop(s[j])
    ensures forall j :: 0 <= j < |r| ==> r[j] == s[lo + j]
  {
    forall j | 0 <= j < lo
      ensures drop(s[j])
    {
      assert s[..lo][j] == s[j];
    }
    forall j | lo + |r| <= j < |s|
      ensures drop(s[j])
    {
      assert s[lo + |r|..][j - lo - |r|] == s[j];
    }
  }

  /** There is only one way to trim a text: `TrimmedOf` fixes the result. */
  lemma TrimmedOfUnique(s: string, r1: string, r2: string, drop: char -> bool)
    requires TrimmedOf(s, r1, drop) && TrimmedOf(s, r2, drop)
    ensures r1 == r2
  {
    var lo1 :| TrimmedAt(s, r1, lo1, drop);
    var lo2 :| TrimmedAt(s, r2, lo2, drop);
    TrimmedAtIndices(s, r1, lo1, drop);
    TrimmedAtIndices(s, r2, lo2, drop);
    if r1 != [] && r2 != [] {
      assert lo1 == lo2;
      assert |r1| == |r2|;
    }
  }

  /** `Trim` removes exactly the outer runs: a text is `Trim(s, drop)` iff it is `s` trimmed. */
  lemma TrimExact(s: string, r: string, drop: char -> bool)
    ensures r == Trim(s, drop) <==> TrimmedOf(s, r, drop)
  {
    var t := TrimLeft(s, drop);
    SliceBetweenRuns(s, t, TrimRight(t, drop), drop);
    assert TrimmedOf(s, Trim(s, drop), drop);
    if TrimmedOf(s, r, drop) {
      TrimmedOfUnique(s, r, Trim(s, drop), drop);
    }
  }

  /** Python's `s.strip()`. */
  function Strip(s: string): (r: string)
    ensures r != [] ==> !IsSpace(r[0]) && !IsSpace(r[|r| - 1])
    ensures |r| <= |s|
  {
    Trim(s, IsSpace)
  }

  /** The test for the character `c`. */
  function IsChar(c: char): char -> bool {
    x => x == c
  }

  /** Python's `s.strip(c)` for a one-character argument. */
  function StripChar(s: string, c: char): (r: string)
    ensures r != [] ==> r[0] != c && r[|r| - 1] != c
    ensures |r| <= |s|
  {
    var r := Trim(s, IsChar(c));
    assert r != [] ==> !IsChar(c)(r[0]) && !IsChar(c)(r[|r| - 1]);
    r
  }

  /** `s.strip()` is `s` without its leading and trailing whitespace, and nothing else. */
  lemma StripExact(s: string, r: string)
    ensures r == Strip(s) <==> TrimmedOf(s, r, IsSpace)
  {
    TrimExact(s, r, IsSpace);
  }

  /** `s.strip(c)` is `s` without its leading and trailing runs of `c`, and nothing else. */
  lemma StripCharExact(s: string, c: char, r: string)
    ensures r == StripChar(s, c) <==> TrimmedOf(s, r, IsChar(c))
  {
    TrimExact(s, r, IsChar(c));
  }

  /** `s.strip(c)` leaves alone a text that neither starts nor ends with `c`. */
  lemma StripCharKeeps(s: string, c: char)
    requires s != [] ==> s[0] != c && s[|s| - 1] != c
    ensures StripChar(s, c) == s
  {
    TrimKeeps(s, IsChar(c));
  }

  /** `strip` is idempotent. */
  lemma StripStripped(s: string)
    ensures Strip(Strip(s)) == Strip(s)
  {
    TrimKeeps(Strip(s), IsSpace);
  }

  /** Stripping a string whose ends are kept leaves it unchanged. */
  lemma TrimKeeps(s: string, drop: char -> bool)
    requires s != [] ==> !drop(s[0]) && !drop(s[|s| - 1])
    ensures Trim(s, drop) == s
  {
  }

  /** Trimming introduces no character: one absent from `s` is absent from the result. */
  lemma TrimOmits(s: string, drop: char -> bool, c: char)
    requires c !in s
    ensures c !in Trim(s, drop)
  {
    var t := TrimLeft(s, drop);
    var r := TrimRight(t, drop);
    var lo := |s| - |t|;
    assert r == s[lo..lo + |r|];
  }

  // ---------------------------------------------------------------- lower

  predicate IsUpper(c: char) { 'A' <= c <= 'Z' }

  function LowerChar(c: char): char {
    if IsUpper(c) then (c as int + 32) as char else c
  }

  /** Python's `s.lower()` on ASCII letters; every other character is kept. */
  function Lower(s: string): (r: string)
    ensures |r| == |s|
    ensures forall i :: 0 <= i < |s| ==> r[i] == LowerChar(s[i])
    ensures forall i :: 0 <= i < |r| ==> !IsUpper(r[i])
  {
    if s == [] then [] else [LowerChar(s[0])] + Lower(s[1..])
  }

  /** Lowering text with no upper-case letter changes nothing. */
  lemma {:induction false} LowerKeeps(s: string)
    requires forall i :: 0 <= i < |s| ==> !IsUpper(s[i])
    ensures Lower(s) == s
  {
    if s != [] {
      LowerKeeps(s[1..]);
    }
  }

  // ---------------------------------------------------------------- search

  /** `p` occurs in `s` starting at index `i`. */
  predicate OccursAt(s: string, p: string, i: int) {
    0 <= i <= |s| - |p| && s[i..i + |p|] == p
  }

  /** Python's `p in s`; the empty string occurs in every string. */
  predicate Contains(s: string, p: string) {
    exists i :: 0 <= i <= |s| - |p| && OccursAt(s, p, i)
  }

  /** Python's `s.startswith(p)`. */
  predicate StartsWith(s: string, p: string) {
    |p| <= |s| && s[..|p|] == p
  }

  /** The index of the first `c` in `s`. */
  function IndexOf(s: string, c: char): (r: Option<nat>)
    ensures r.None? <==> c !in s
    ensures r.Some? ==> r.value < |s| && s[r.value] == c && c !in s[..r.value]
  {
    if s == [] then None
    else if s[0] == c then Some(0)
    else
      var k := IndexOf(s[1..], c);
      assert k.Some? ==> s[..k.value + 1] == [s[0]] + s[1..][..k.value];
      if k.None? then None else Some(k.value + 1)
  }

  /** The first `c` after a `c`-free prefix is the one right after that prefix. */
  lemma IndexOfAfterFreePrefix(a: string, c: char, t: string)
    requires c !in a
    ensures IndexOf(a + [c] + t, c) == Some(|a|)
  {
    var s := a + [c] + t;
    assert s[|a|] == c;
    assert forall i :: 0 <= i < |a| ==> s[i] == a[i];
  }

  // ---------------------------------------------------------------- join and split

  /** Python's `sep.join(parts)`. */
  function Join(sep: string, parts: seq<string>): string
    decreases |parts|
  {
    if |parts| == 0 then ""
    else if |parts| == 1 then parts[0]
    else parts[0] + sep + Join(sep, parts[1..])
  }

  /**
   * Python's `s.split(sep)` for a one-character separator: at least one
   * piece, no piece holds the separator, and joining the pieces with it
   * gives `s` back; the first piece is the part of `s` before the first `sep`.
   */
  function Split(s: string, sep: char): (r: seq<string>)
    ensures |r| >= 1
    ensures forall i :: 0 <= i < |r| ==> sep !in r[i]
    ensures Join([sep], r) == s
    ensures |r[0]| <= |s| && r[0] == s[..|r[0]|]
    decreases |s|
  {
    var k := IndexOf(s, sep);
    if k.None? then [s]
    else
      var rest := Split(s[k.value + 1..], sep);
      assert s == s[..k.value] + [sep] + s[k.value + 1..];
      assert ([s[..k.value]] + rest)[1..] == rest;
      [s[..k.value]] + rest
  }

  /** A text without the separator splits into itself alone. */
  lemma SplitAbsent(s: string, sep: char)
    requires sep !in s
    ensures Split(s, sep) == [s]
  {
  }

  /**
   * The first piece is exactly the text before the first separator: a
   * prefix without `sep`, followed by `sep` or by the end of `s`.
   */
  lemma SplitHead(s: string, sep: char)
    ensures var h := Split(s, sep)[0];
            StartsWith(s, h) && sep !in h && (|h| == |s| || s[|h|] == sep)
  {
    var k := IndexOf(s, sep);
    if k.Some? {
      assert Split(s, sep)[0] == s[..k.value];
    }
  }

  /** The first piece keeps any prefix of `s` that holds no separator. */
  lemma SplitHeadKeeps(s: string, sep: char, p: string)
    requires StartsWith(s, p) && sep !in p
    ensures StartsWith(Split(s, sep)[0], p)
  {
    SplitHead(s, sep);
  }

  /** Splitting a join of separator-free pieces gives the pieces back. */
  lemma {:induction false} SplitJoin(parts: seq<string>, sep: char)
    requires |parts| >= 1
    requires forall i :: 0 <= i < |parts| ==> sep !in parts[i]
    ensures Split(Join([sep], parts), sep) == parts
    decreases |parts|
  {
    if |parts| > 1 {
      var a, rest := parts[0], parts[1..];
      var j := Join([sep], rest);
      assert Join([sep], parts) == a + [sep] + j;
      IndexOfAfterFreePrefix(a, sep, j);
      var s := a + [sep] + j;
      assert s[..|a|] == a && s[|a| + 1..] == j;
      SplitJoin(rest, sep);
    }
  }

  /** `[k.strip() for k in ks]`. */
  function StripAll(ks: seq<string>): (r: seq<string>)
    ensures |r| == |ks|
    ensures forall i :: 0 <= i < |r| ==> r[i] == Strip(ks[i])
  {
    if ks == [] then [] else [Strip(ks[0])] + StripAll(ks[1..])
  }

  /** Stripping two lists one after the other strips each, in order. */
  lemma {:induction false} StripAllAppend(a: seq<string>, b: seq<string>)
    ensures StripAll(a + b) == StripAll(a) + StripAll(b)
    decreases |a|
  {
    if a == [] {
      assert a + b == b;
    } else {
      assert (a + b)[0] == a[0] && (a + b)[1..] == a[1..] + b;
      StripAllAppend(a[1..], b);
    }
  }

  // ---------------------------------------------------------------- replace

  /**
   * Python's `s.replace(pat, rep)`: occurrences are replaced left to right
   * without overlap; an empty `pat` inserts `rep` around every character.
   */
  function Replace(s: string, pat: string, rep: string): string
    decreases |s|
  {
    if |pat| == 0 then
      if s == [] then rep else rep + [s[0]] + Replace(s[1..], pat, rep)
    else if |s| < |pat| then s
    else if s[..|pat|] == pat then rep + Replace(s[|pat|..], pat, rep)
    else [s[0]] + Replace(s[1..], pat, rep)
  }

  /** An occurrence in the tail of `s` is an occurrence in `s`, one further on. */
  lemma OccursInTail(s: string, p: string, i: int)
    requires s != [] && OccursAt(s[1..], p, i)
    ensures OccursAt(s, p, i + 1)
  {
    assert s[i + 1..i + 1 + |p|] == s[1..][i..i + |p|];
  }

  /** Replacing a pattern that does not occur changes nothing. */
  lemma {:induction false} ReplaceAbsent(s: string, pat: string, rep: string)
    requires |pat| > 0 && !Contains(s, pat)
    ensures Replace(s, pat, rep) == s
    decreases |s|
  {
    if |s| >= |pat| {
      assert !OccursAt(s, pat, 0);
      if Contains(s[1..], pat) {
        var i :| 0 <= i <= |s[1..]| - |pat| && OccursAt(s[1..], pat, i);
        OccursInTail(s, pat, i);
        assert false;
      }
      ReplaceAbsent(s[1..], pat, rep);
    }
  }

  /** Replacing a single character by a text without it removes that character. */
  lemma {:induction false} ReplaceCharRemoves(s: string, c: char, rep: string)
    requires c !in rep
    ensures c !in Replace(s, [c], rep)
    decreases |s|
  {
    if |s| >= 1 {
      ReplaceCharRemoves(s[1..], c, rep);
    }
  }

  /** Percent-escaping spaces is undone by unescaping `%20`, for text without `%`. */
  lemma {:induction false} EscapeSpacesRoundTrip(s: string)
    requires '%' !in s
    ensures Replace(Replace(s, " ", "%20"), "%20", " ") == s
    decreases |s|
  {
    if s != [] {
      var rest := Replace(s[1..], " ", "%20");
      EscapeSpacesRoundTrip(s[1..]);
      if s[0] == ' ' {
        var e := "%20" + rest;
        assert Replace(s, " ", "%20") == e;
        assert e[..3] == "%20" && e[3..] == rest;
      } else {
        var e := [s[0]] + rest;
        assert s[..1] != " ";
        assert Replace(s, " ", "%20") == e;
        if |e| >= 3 {
          assert e[..3][0] == s[0];
        }
        assert e[1..] == rest;
      }
    }
  }

  /** The number of leading `c` characters of `s`. */
  function LeadingRun(s: string, c: char): (n: nat)
    ensures n <= |s|
    ensures forall i :: 0 <= i < n ==> s[i] == c
    ensures n < |s| ==> s[n] != c
  {
    if s != [] && s[0] == c then 1 + LeadingRun(s[1..], c) else 0
  }

  /** Putting one character before a `ccc`-free text creates no `ccc` unless it starts a run of three. */
  lemma ConsNoTriple(x: char, t: string, c: char)
    requires !Contains(t, [c, c, c])
    requires x == c ==> LeadingRun(t, c) <= 1
    ensures !Contains([x] + t, [c, c, c])
  {
    var p, r := [c, c, c], [x] + t;
    if |r| >= 3 {
      assert r[0] == x && r[1] == t[0] && r[2] == t[1];
      if x == c && t[0] == c {
        assert LeadingRun(t, c) == 1 + LeadingRun(t[1..], c);
        assert t[1..][0] == t[1];
      }
      assert r[0..3] != p;
    }
    forall i | 1 <= i <= |r| - 3
      ensures !OccursAt(r, p, i)
    {
      assert r[i..i + 3] == t[i - 1..i + 2];
      assert !OccursAt(t, p, i - 1);
    }
  }

  /** A leading `ccc` adds three to the leading run of `c`. */
  lemma LeadingRunTriple(s: string, c: char)
    requires |s| >= 3 && s[..3] == [c, c, c]
    ensures LeadingRun(s, c) == 3 + LeadingRun(s[3..], c)
  {
    assert s[0] == c && s[1] == c && s[2] == c;
    assert s[1..][1..] == s[2..] && s[2..][1..] == s[3..];
    assert LeadingRun(s[2..], c) == 1 + LeadingRun(s[3..], c);
    assert LeadingRun(s[1..], c) == 1 + LeadingRun(s[2..], c);
  }

  /** The leading run of `[x] + t`. */
  lemma LeadingRunCons(x: char, t: string, c: char)
    ensures LeadingRun([x] + t, c) == if x == c then 1 + LeadingRun(t, c) else 0
  {
    assert ([x] + t)[1..] == t;
  }

  /** Removing `ccc` from a text that does not start with it keeps its first character. */
  lemma ReplaceTripleCons(s: string, c: char)
    requires |s| >= 3 && s[..3] != [c, c, c]
    ensures Replace(s, [c, c, c], "") == [s[0]] + Replace(s[1..], [c, c, c], "")
  {
  }

  /** The inductive step of `RemoveTripleRun` when `s` does not start with `ccc`. */
  lemma RemoveTripleStep(s: string, c: char)
    requires |s| >= 3 && s[..3] != [c, c, c]
    requires var r' := Replace(s[1..], [c, c, c], "");
             !Contains(r', [c, c, c]) && LeadingRun(r', c) == LeadingRun(s[1..], c) % 3
    ensures !Contains(Replace(s, [c, c, c], ""), [c, c, c])
    ensures LeadingRun(Replace(s, [c, c, c], ""), c) == LeadingRun(s, c) % 3
  {
    var r' := Replace(s[1..], [c, c, c], "");
    ReplaceTripleCons(s, c);
    LeadingRunCons(s[0], r', c);
    assert s == [s[0]] + s[1..];
    LeadingRunCons(s[0], s[1..], c);
    if s[0] == c {
      assert s[1..][1..] == s[2..];
      assert s[1] != c || s[2] != c;
      var k := LeadingRun(s[1..], c);
      assert k <= 1;
      SmallMod(k);
      SmallMod(k + 1);
      assert LeadingRun(r', c) == k;
    } else {
      assert LeadingRun(s, c) == 0;
    }
    ConsNoTriple(s[0], r', c);
  }

  lemma SmallMod(n: nat)
    requires n < 3
    ensures n % 3 == n
  {
  }

  /**
   * Removing every occurrence of `ccc` leaves no `ccc` behind, and the
   * leading run of `c` shrinks to its length modulo 3. (The second part is
   * what makes the first go through by induction.)
   */
  lemma {:induction false} RemoveTripleRun(s: string, c: char)
    ensures !Contains(Replace(s, [c, c, c], ""), [c, c, c])
    ensures LeadingRun(Replace(s, [c, c, c], ""), c) == LeadingRun(s, c) % 3
    decreases |s|
  {
    if |s| < 3 {
      RemoveTripleShort(s, c);
    } else if s[..3] == [c, c, c] {
      RemoveTripleRun(s[3..], c);
      RemoveTripleHead(s, c);
    } else {
      RemoveTripleRun(s[1..], c);
      RemoveTripleStep(s, c);
    }
  }

  /** The base case of `RemoveTripleRun`: a text shorter than the pattern. */
  lemma RemoveTripleShort(s: string, c: char)
    requires |s| < 3
    ensures !Contains(Replace(s, [c, c, c], ""), [c, c, c])
    ensures LeadingRun(Replace(s, [c, c, c], ""), c) == LeadingRun(s, c) % 3
  {
    assert Replace(s, [c, c, c], "") == s;
  }

  /** The inductive step of `RemoveTripleRun` when `s` starts with `ccc`. */
  lemma RemoveTripleHead(s: string, c: char)
    requires |s| >= 3 && s[..3] == [c, c, c]
    requires var r' := Replace(s[3..], [c, c, c], "");
             !Contains(r', [c, c, c]) && LeadingRun(r', c) == LeadingRun(s[3..], c) % 3
    ensures !Contains(Replace(s, [c, c, c], ""), [c, c, c])
    ensures LeadingRun(Replace(s, [c, c, c], ""), c) == LeadingRun(s, c) % 3
  {
    assert Replace(s, [c, c, c], "") == Replace(s[3..], [c, c, c], "");
    LeadingRunTriple(s, c);
    PlusThreeMod(LeadingRun(s[3..], c));
  }

  lemma PlusThreeMod(n: nat)
    ensures (n + 3) % 3 == n % 3
  {
  }

  // ---------------------------------------------------------------- slicing

  /** Python's slice `s[:n]`: the first `n` items, or all but the last `-n` when `n` is negative. */
  function Take<T>(s: seq<T>, n: int): (r: seq<T>)
    ensures |r| <= |s| && r == s[..|r|]
    ensures n >= 0 ==> |r| == if n <= |s| then n else |s|
    ensures n < 0 ==> |r| == if |s| + n >= 0 then |s| + n else 0
  {
    var k := if n >= 0 then (if n <= |s| then n else |s|)
             else (if |s| + n >= 0 then |s| + n else 0);
    s[..k]
  }

  // ---------------------------------------------------------------- numbers

  predicate IsDigit(c: char) { '0' <= c <= '9' }

  predicate AllDigits(s: string) { forall i :: 0 <= i < |s| ==> IsDigit(s[i]) }

  function DigitChar(d: nat): (c: char)
    requires d < 10
    ensures IsDigit(c)
  {
    ('0' as int + d) as char
  }

  /** The value of a string of decimal digits. */
  function DigitsValue(s: string): nat
    requires AllDigits(s)
  {
    if s == [] then 0 else 10 * DigitsValue(s[..|s| - 1]) + (s[|s| - 1] as int - '0' as int)
  }

  /** Python's `str(n)` (and `f"{n}"`) for a non-negative int: its decimal digits. */
  function DecimalString(n: nat): (r: string)
    ensures |r| >= 1 && AllDigits(r)
    ensures DigitsValue(r) == n
    decreases n
  {
    if n < 10 then [DigitChar(n)]
    else
      var r := DecimalString(n / 10) + [DigitChar(n % 10)];
      assert r[..|r| - 1] == DecimalString(n / 10);
      r
  }

  /**
   * Python's `int(s)` for decimal text: surrounding whitespace, an optional
   * sign and at least one ASCII digit; anything else raises (None here).
   */
  function ParseInt(s: string): Option<int> {
    var t := Strip(s);
    if t == [] then None
    else
      var body := if t[0] == '-' || t[0] == '+' then t[1..] else t;
      if body != [] && AllDigits(body) then
        var v: int := DigitsValue(body);
        Some(if t[0] == '-' then -v else v)
      else None
  }

  /** `int(str(n)) == n`. */
  lemma ParseDecimal(n: nat)
    ensures ParseInt(DecimalString(n)) == Some(n)
  {
    var d := DecimalString(n);
    assert IsDigit(d[0]) && IsDigit(d[|d| - 1]);
    TrimKeeps(d, IsSpace);
    assert Strip(d) == d;
    assert d[0] != '-' && d[0] != '+';
  }
}
