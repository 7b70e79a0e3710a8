/**
 * The outcomes of the Playwright lookups the browser scouts make, and the
 * "ordered selector list, first hit wins" rules they apply to them. A page
 * answers each container query, and a container answers each element
 * lookup, by selector; the answers stand for what the live DOM gave, a
 * timeout or an exception included.
 */
module Dom {
  import opened Wrappers
  import opened Text

  /** What `query_selector(sel)` and then `inner_text()` gave inside a container. */
  datatype Lookup = NoElement | Element(text: string) | Threw

  /** What `query_selector(sel)` and then `get_attribute('href')` gave inside a container. */
  datatype LinkLookup = NoLink | Link(href: Option<string>) | LinkThrew

  /** A post or video container: the outcome of each element and link lookup inside it. */
  datatype Container = Container(find: string -> Lookup, link: string -> LinkLookup)

  /** What `wait_for_selector(sel)` and then `query_selector_all(sel)` gave on the page. */
  datatype ContainerQuery = TimedOut | QueryThrew | Matched(elems: seq<Container>)

  /** A loaded results page: the outcome of each container query. */
  datatype Page = Page(query: string -> ContainerQuery)

  /** What navigating to a search URL gave: an error, or the loaded results page. */
  datatype Visit = NavFailed | Loaded(page: Page)

  /** The number of containers examined per page: `elements[:5]`. */
  const MaxContainers := 5

  // ---------------------------------------------------------------- containers

  /** The selector matched at least one container. */
  predicate Hit(q: ContainerQuery) {
    q.Matched? && |q.elems| > 0
  }

  /** The loop goes on to the next selector: a timeout, or no match. */
  predicate GoesOn(q: ContainerQuery) {
    q.TimedOut? || (q.Matched? && |q.elems| == 0)
  }

  /**
   * The containers a scout examines: the first five matched by the first
   * selector that matches any; none when a query raises before that.
   */
  function Examined(p: Page, sels: seq<string>): (cs: seq<Container>)
    ensures |cs| <= MaxContainers
    decreases |sels|
  {
    if sels == [] then []
    else
      match p.query(sels[0])
      case TimedOut => Examined(p, sels[1..])
      case QueryThrew => []
      case Matched(es) => if |es| == 0 then Examined(p, sels[1..]) else Take(es, MaxContainers)
  }

  /**
   * First hit wins: when selector `k` matches and every earlier one timed
   * out or matched nothing, the examined containers are the first five of
   * selector `k`'s, and later selectors are not consulted.
   */
  lemma {:induction false} ExaminedFirstHit(p: Page, sels: seq<string>, k: nat)
    requires k < |sels| && Hit(p.query(sels[k]))
    requires forall j :: 0 <= j < k ==> GoesOn(p.query(sels[j]))
    ensures Examined(p, sels) == Take(p.query(sels[k]).elems, MaxContainers)
    decreases k
  {
    if k > 0 {
      assert GoesOn(p.query(sels[0]));
      ExaminedFirstHit(p, sels[1..], k - 1);
    }
  }

  /** Nothing is examined when no selector matches, or when a query raises before any does. */
  lemma {:induction false} ExaminedNothing(p: Page, sels: seq<string>, k: nat)
    requires k <= |sels|
    requires forall j :: 0 <= j < k ==> GoesOn(p.query(sels[j]))
    requires k == |sels| || p.query(sels[k]).QueryThrew?
    ensures |Examined(p, sels)| == 0
    decreases k
  {
    if k > 0 {
      assert GoesOn(p.query(sels[0]));
      ExaminedNothing(p, sels[1..], k - 1);
    }
  }

  /** `find_containers`-style loop: try each selector in order, stop at the first match. */
  method ExamineContainers(p: Page, sels: seq<string>) returns (cs: seq<Container>)
    ensures cs == Examined(p, sels)
  {
    var i := 0;
    while i < |sels|
      invariant 0 <= i <= |sels|
      invariant Examined(p, sels) == Examined(p, sels[i..])
    {
      assert sels[i..][1..] == sels[i + 1..];
      var q := p.query(sels[i]);
      if q.QueryThrew? {
        return [];
      }
      if q.Matched? && |q.elems| > 0 {
        return Take(q.elems, MaxContainers);
      }
      i := i + 1;
    }
    return [];
  }

  /** What `read` gives for each container, in container order. */
  function ReadAll<T>(read: Container -> T, cs: seq<Container>): seq<T>
    decreases |cs|
  {
    if cs == [] then [] else [read(cs[0])] + ReadAll(read, cs[1..])
  }

  /** One result per container, in container order. */
  lemma {:induction false} ReadAllAt<T>(read: Container -> T, cs: seq<Container>)
    ensures |ReadAll(read, cs)| == |cs|
    ensures forall i :: 0 <= i < |cs| ==> ReadAll(read, cs)[i] == read(cs[i])
    decreases |cs|
  {
    if cs != [] {
      ReadAllAt(read, cs[1..]);
    }
  }

  // ---------------------------------------------------------------- fields

  /** The lookup found an element whose text is accepted. */
  predicate Found(l: Lookup, ok: string -> bool) {
    l.Element? && ok(l.text)
  }

  /** Any text is accepted. */
  predicate AnyText(t: string) {
    true
  }

  /**
   * One `try` per selector: the text of the first selector whose element
   * has an accepted text; a lookup that raises moves on to the next one.
   */
  function FirstText(c: Container, sels: seq<string>, ok: string -> bool): Option<string>
    decreases |sels|
  {
    if sels == [] then None
    else if Found(c.find(sels[0]), ok) then Some(c.find(sels[0]).text)
    else FirstText(c, sels[1..], ok)
  }

  /**
   * One `try` around the whole loop: as `FirstText`, except that a lookup
   * that raises ends the search with nothing found.
   */
  function FirstTextBeforeThrow(c: Container, sels: seq<string>, ok: string -> bool): Option<string>
    decreases |sels|
  {
    if sels == [] then None
    else if c.find(sels[0]).Threw? then None
    else if Found(c.find(sels[0]), ok) then Some(c.find(sels[0]).text)
    else FirstTextBeforeThrow(c, sels[1..], ok)
  }

  /** The first accepted element wins, whatever the earlier lookups gave. */
  lemma {:induction false} FirstTextAt(c: Container, sels: seq<string>, ok: string -> bool, k: nat)
    requires k < |sels| && Found(c.find(sels[k]), ok)
    requires forall j :: 0 <= j < k ==> !Found(c.find(sels[j]), ok)
    ensures FirstText(c, sels, ok) == Some(c.find(sels[k]).text)
    decreases k
  {
    if k > 0 {
      assert !Found(c.find(sels[0]), ok);
      FirstTextAt(c, sels[1..], ok, k - 1);
    }
  }

  /** Nothing is found when no selector gives an accepted element. */
  lemma {:induction false} FirstTextNone(c: Container, sels: seq<string>, ok: string -> bool)
    requires forall j :: 0 <= j < |sels| ==> !Found(c.find(sels[j]), ok)
    ensures FirstText(c, sels, ok) == None
    decreases |sels|
  {
    if sels != [] {
      assert !Found(c.find(sels[0]), ok);
      FirstTextNone(c, sels[1..], ok);
    }
  }

  /** With one `try` around the loop, the first accepted element wins only when no lookup before it raised. */
  lemma {:induction false} FirstTextBeforeThrowAt(c: Container, sels: seq<string>, ok: string -> bool, k: nat)
    requires k < |sels| && Found(c.find(sels[k]), ok)
    requires forall j :: 0 <= j < k ==> !Found(c.find(sels[j]), ok) && !c.find(sels[j]).Threw?
    ensures FirstTextBeforeThrow(c, sels, ok) == Some(c.find(sels[k]).text)
    decreases k
  {
    if k > 0 {
      assert !Found(c.find(sels[0]), ok) && !c.find(sels[0]).Threw?;
      FirstTextBeforeThrowAt(c, sels[1..], ok, k - 1);
    }
  }

  /** A lookup that raises before any accepted element ends the search with nothing. */
  lemma {:induction false} FirstTextBeforeThrowStops(c: Container, sels: seq<string>, ok: string -> bool, k: nat)
    requires k < |sels| && c.find(sels[k]).Threw?
    requires forall j :: 0 <= j < k ==> !Found(c.find(sels[j]), ok) && !c.find(sels[j]).Threw?
    ensures FirstTextBeforeThrow(c, sels, ok) == None
    decreases k
  {
    if k > 0 {
      assert !Found(c.find(sels[0]), ok) && !c.find(sels[0]).Threw?;
      FirstTextBeforeThrowStops(c, sels[1..], ok, k - 1);
    }
  }

  /** When no lookup raises, the two granularities agree. */
  lemma {:induction false} NoThrowSameText(c: Container, sels: seq<string>, ok: string -> bool)
    requires forall j :: 0 <= j < |sels| ==> !c.find(sels[j]).Threw?
    ensures FirstTextBeforeThrow(c, sels, ok) == FirstText(c, sels, ok)
    decreases |sels|
  {
    if sels != [] {
      assert !c.find(sels[0]).Threw?;
      NoThrowSameText(c, sels[1..], ok);
    }
  }

  /** The selector loop with a `try` per selector and `break` at the first accepted element. */
  method FindText(c: Container, sels: seq<string>, ok: string -> bool) returns (r: Option<string>)
    ensures r == FirstText(c, sels, ok)
  {
    var i := 0;
    while i < |sels|
      invariant 0 <= i <= |sels|
      invariant FirstText(c, sels, ok) == FirstText(c, sels[i..], ok)
    {
      assert sels[i..][1..] == sels[i + 1..];
      var l := c.find(sels[i]);
      if l.Element? && ok(l.text) {
        return Some(l.text);
      }
      i := i + 1;
    }
    return None;
  }

  /** The selector loop inside a single `try`: a lookup that raises leaves the loop. */
  method FindTextBeforeThrow(c: Container, sels: seq<string>, ok: string -> bool) returns (r: Option<string>)
    ensures r == FirstTextBeforeThrow(c, sels, ok)
  {
    var i := 0;
    while i < |sels|
      invariant 0 <= i <= |sels|
      invariant FirstTextBeforeThrow(c, sels, ok) == FirstTextBeforeThrow(c, sels[i..], ok)
    {
      assert sels[i..][1..] == sels[i + 1..];
      var l := c.find(sels[i]);
      if l.Threw? {
        return None;
      }
      if l.Element? && ok(l.text) {
        return Some(l.text);
      }
      i := i + 1;
    }
    return None;
  }
}
