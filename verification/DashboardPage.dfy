/** The text of the dashboard page: every placeholder gets its class in one pass. */
module DashboardPage {
  import opened Sequences
  import opened TextReplace
  import opened Placeholders
  import opened Dashboard

  /** The CSS class a page's navigation entry gets. */
  function Class(selected: Option<Page>, p: Page): string {
    if selected == Some(p) then "active" else "text-white"
  }

  function ClassPair(selected: Option<Page>, p: Page): Pair {
    Pair(Placeholder(p), Class(selected, p))
  }

  /** The classes of the five placeholders; at most one of them is `active`. */
  function Classes(selected: Option<Page>): seq<Pair> {
    [ClassPair(selected, Overview), ClassPair(selected, Clients), ClassPair(selected, ApiKeys),
     ClassPair(selected, Logs), ClassPair(selected, Admin)]
  }

  /** The replacements the handler makes: the selected page first, then all five. */
  function Steps(selected: Option<Page>): seq<Pair> {
    (if selected.Some? then [ClassPair(selected, selected.value)] else []) + Classes(None)
  }

  predicate Upper(s: string) {
    forall c :: c in s ==> 'A' <= c <= 'Z'
  }

  lemma FamilyIsUpper(p: Page)
    ensures Upper(Family(p))
  {
  }

  /** Capitals, braces and the underscore. */
  predicate KeyTail(c: char) {
    'A' <= c <= 'Z' || c == '{' || c == '}' || c == '_'
  }

  lemma TailOfKey(family: string)
    requires Upper(family)
    ensures forall c :: c in "{{" + family + "_CLASS}}" ==> KeyTail(c)
  {
    assert forall c :: c in "_CLASS}}" ==> KeyTail(c);
    assert forall c :: c in "{{" ==> KeyTail(c);
  }

  lemma DollarAndTail(key: string, tail: string)
    requires key == "$" + tail && forall c :: c in tail ==> KeyTail(c)
    ensures IsKey(key) && 'a' !in key && 't' !in key
  {
    assert key[1..] == tail;
    assert forall c :: c in key ==> c == '$' || c in tail;
  }

  lemma PlaceholderIsKey(p: Page)
    ensures var key := Placeholder(p); IsKey(key) && 'a' !in key && 't' !in key
  {
    FamilyIsUpper(p);
    TailOfKey(Family(p));
    DollarAndTail(Placeholder(p), "{{" + Family(p) + "_CLASS}}");
  }

  /** No text starts with two different placeholders. */
  lemma PlaceholdersExclude(p: Page, q: Page, s: string)
    requires Placeholder(p) <= s && Placeholder(q) <= s
    ensures p == q
  {
    var x, y := Placeholder(p), Placeholder(q);
    assert x[3] == s[3] == y[3] && x[4] == s[4] == y[4];
    assert x[3] == Family(p)[0] && x[4] == Family(p)[1];
    assert y[3] == Family(q)[0] && y[4] == Family(q)[1];
  }

  predicate IsClass(value: string) {
    value == "active" || value == "text-white"
  }

  ghost predicate IsClassPair(p: Pair) {
    IsClass(p.value) && exists page :: p.key == Placeholder(page)
  }

  lemma {:induction false} ClassPairsIndependent(pairs: seq<Pair>)
    requires forall p :: p in pairs ==> IsClassPair(p)
    ensures Independent(pairs) && AllKeys(pairs)
  {
    forall p, q | p in pairs && q in pairs
      ensures IsKey(p.key) && '$' !in q.value && q.value != "" && q.value[0] !in p.key
    {
      var page :| p.key == Placeholder(page);
      PlaceholderIsKey(page);
      assert q.value[0] == 'a' || q.value[0] == 't';
    }
  }

  lemma AreClassPairs(selected: Option<Page>)
    ensures forall p :: p in Classes(selected) ==> IsClassPair(p)
    ensures forall p :: p in Steps(selected) ==> IsClassPair(p)
  {
    forall s: Option<Page>, page: Page ensures IsClassPair(ClassPair(s, page)) {
    }
  }

  lemma {:induction false} StepsIndependent(selected: Option<Page>)
    ensures Independent(Steps(selected)) && AllKeys(Steps(selected))
    ensures Independent(Classes(selected)) && AllKeys(Classes(selected))
  {
    AreClassPairs(selected);
    ClassPairsIndependent(Steps(selected));
    ClassPairsIndependent(Classes(selected));
  }

  lemma ClassesMember(selected: Option<Page>, p: Page)
    ensures ClassPair(selected, p) in Classes(selected)
  {
  }

  lemma ClassesOnly(selected: Option<Page>, p: Pair) returns (page: Page)
    requires p in Classes(selected)
    ensures p == ClassPair(selected, page)
  {
    page :| p == ClassPair(selected, page);
  }

  lemma LookupClasses(s: string, selected: Option<Page>, p: Page)
    requires Placeholder(p) <= s
    ensures Lookup(s, Classes(selected)) == Some(ClassPair(selected, p))
  {
    var found := Lookup(s, Classes(selected));
    assert found.Some? && found.value in Classes(selected) && found.value.key <= s by {
      LookupFinds(s, Classes(selected));
      ClassesMember(selected, p);
    }
    var page := ClassesOnly(selected, found.value);
    PlaceholdersExclude(page, p, s);
  }

  /** The selected page ahead of the five does what the five with their classes do. */
  lemma LookupSelected(s: string, page: Page)
    ensures Lookup(s, [ClassPair(Some(page), page)] + Classes(None)) == Lookup(s, Classes(Some(page)))
  {
    var steps := [ClassPair(Some(page), page)] + Classes(None);
    assert steps[1..] == Classes(None);
    if Placeholder(page) <= s {
      LookupClasses(s, Some(page), page);
    } else if p :| Placeholder(p) <= s {
      LookupClasses(s, Some(page), p);
      LookupClasses(s, None, p);
    } else {
      LookupNothing(s, Some(page));
      LookupNothing(s, None);
    }
  }

  lemma LookupNothing(s: string, selected: Option<Page>)
    requires forall p :: !(Placeholder(p) <= s)
    ensures Lookup(s, Classes(selected)) == None
  {
    LookupFinds(s, Classes(selected));
    if Lookup(s, Classes(selected)).Some? {
      var page := ClassesOnly(selected, Lookup(s, Classes(selected)).value);
      assert false;
    }
  }

  lemma LookupSteps(s: string, selected: Option<Page>)
    ensures Lookup(s, Steps(selected)) == Lookup(s, Classes(selected))
  {
    match selected
    case Some(page) => LookupSelected(s, page);
    case None => assert Steps(selected) == Classes(None);
  }

  lemma {:induction false} SameLookupsSamePass(s: string, a: seq<Pair>, b: seq<Pair>)
    requires NonEmptyKeys(a) && NonEmptyKeys(b) && forall t: string :: Lookup(t, a) == Lookup(t, b)
    ensures SinglePass(s, a) == SinglePass(s, b)
    decreases |s|
  {
    if s != "" {
      LookupFinds(s, a);
      match Lookup(s, a)
      case Some(p) => SameLookupsSamePass(s[|p.key|..], a, b);
      case None => SameLookupsSamePass(s[1..], a, b);
    }
  }

  /** The handler's replacements, in their order, are one simultaneous substitution. */
  lemma StepsAreOnePass(content: string, selected: Option<Page>)
    ensures NonEmptyKeys(Steps(selected)) && NonEmptyKeys(Classes(selected))
    ensures ApplyAll(content, Steps(selected)) == SinglePass(content, Classes(selected))
  {
    StepsIndependent(selected);
    SequentialIsSinglePass(content, Steps(selected));
    forall t: string ensures Lookup(t, Steps(selected)) == Lookup(t, Classes(selected)) {
      LookupSteps(t, selected);
    }
    SameLookupsSamePass(content, Steps(selected), Classes(selected));
  }

  /** The page text while the handler works on it. */
  class PageText {
    var content: string

    constructor (text: string)
      ensures content == text
    {
      content := text;
    }

    method ReplacePlaceholder(page: Page, value: string, ghost original: string, ghost done: seq<Pair>)
      returns (ghost more: seq<Pair>)
      requires NonEmptyKeys(done) && content == ApplyAll(original, done)
      modifies this
      ensures more == done + [Pair(Placeholder(page), value)]
      ensures NonEmptyKeys(more) && content == ApplyAll(original, more)
    {
      ghost var passes;
      PlaceholderIsKey(page);
      ApplySnoc(original, done, Pair(Placeholder(page), value));
      content, passes := ReplaceStrInString(content, Placeholder(page), value);
      more := done + [Pair(Placeholder(page), value)];
    }

    /** The five replacements at the end of the handler. */
    method ReplaceAll(ghost original: string, ghost done: seq<Pair>) returns (ghost more: seq<Pair>)
      requires NonEmptyKeys(done) && content == ApplyAll(original, done)
      modifies this
      ensures more == done + Classes(None)
      ensures NonEmptyKeys(more) && content == ApplyAll(original, more)
    {
      more := ReplacePlaceholder(Overview, "text-white", original, done);
      more := ReplacePlaceholder(Clients, "text-white", original, more);
      more := ReplacePlaceholder(ApiKeys, "text-white", original, more);
      more := ReplacePlaceholder(Logs, "text-white", original, more);
      more := ReplacePlaceholder(Admin, "text-white", original, more);
    }
  }

  /**
    The handler.  For every page text and request target the result is the text with each
    placeholder replaced where it stands: the selected page's by `active`, all others by `text-white`.
   */
  method RenderDashboard(text: string, target: string) returns (result: string)
    ensures NonEmptyKeys(Classes(Selected(target)))
    ensures result == SinglePass(text, Classes(Selected(target)))
  {
    var page := new PageText(text);
    ghost var done: seq<Pair> := [];
    var resolved := Resolve(target);
    if '?' !in target {
      done := page.ReplacePlaceholder(Overview, "active", text, done);
      NamesDispatch(Logs);
      assert resolved == "" && Dispatch(resolved) == None;
    }
    match Dispatch(resolved) {
      case Some(selected) => done := page.ReplacePlaceholder(selected, "active", text, done);
      case None =>
    }
    done := page.ReplaceAll(text, done);
    result := page.content;
    StepsAreOnePass(text, Selected(target));
    assert done == Steps(Selected(target));
  }

  lemma NoPlaceholderLeft(text: string, selected: Option<Page>, p: Page, at: nat)
    ensures NonEmptyKeys(Classes(selected))
    ensures !Matches(SinglePass(text, Classes(selected)), Placeholder(p), at)
  {
    StepsIndependent(selected);
    ClassesMember(selected, p);
    NoneLeft(text, Classes(selected), Placeholder(p), at);
  }

  lemma OneActive(selected: Option<Page>, p: Page, q: Page)
    requires Class(selected, p) == "active" == Class(selected, q)
    ensures p == q
  {
    assert "active"[0] != "text-white"[0];
  }

  /** Where a placeholder stands, the page comes out `active` if it is the selected one and `text-white` if not. */
  lemma {:induction false} PlaceholderRendered(selected: Option<Page>, p: Page, rest: string)
    ensures NonEmptyKeys(Classes(selected))
    ensures SinglePass(Placeholder(p) + rest, Classes(selected))
      == (if selected == Some(p) then "active" else "text-white") + SinglePass(rest, Classes(selected))
  {
    StepsIndependent(selected);
    var s := Placeholder(p) + rest;
    LookupClasses(s, selected, p);
    assert s[|Placeholder(p)|..] == rest;
  }

  /** No placeholder is left in the page, and at most one navigation entry is `active`. */
  lemma {:induction false} DashboardComplete(text: string, target: string, p: Page, at: nat)
    ensures NonEmptyKeys(Classes(Selected(target)))
    ensures !Matches(SinglePass(text, Classes(Selected(target))), Placeholder(p), at)
    ensures forall q :: Class(Selected(target), p) == "active" == Class(Selected(target), q) ==> p == q
  {
    NoPlaceholderLeft(text, Selected(target), p, at);
    forall q | Class(Selected(target), p) == "active" == Class(Selected(target), q) ensures p == q {
      OneActive(Selected(target), p, q);
    }
  }
}
