/** The `/dashboard.html` handler: which page the request selects and what the page text becomes. */
module Dashboard {
  import opened Sequences
  import StringHash

  datatype Page = Overview | Clients | ApiKeys | Logs | Admin

  function Family(p: Page): string {
    match p
    case Overview => "DASHBOARD"
    case Clients => "CLIENTS"
    case ApiKeys => "APIKEYS"
    case Logs => "LOGS"
    case Admin => "ADMIN"
  }

  /** For example `${{CLIENTS_CLASS}}`. */
  function Placeholder(p: Page): string {
    "${{" + Family(p) + "_CLASS}}"
  }

  /** The query that names a page; the overview has none. */
  function Name(p: Page): string {
    match p
    case Overview => ""
    case Clients => "clients"
    case ApiKeys => "api-keys"
    case Logs => "logs"
    case Admin => "admin"
  }

  lemma ClientsAndKeys()
    ensures Name(Clients) == "clients" && Placeholder(Clients) == "${{CLIENTS_CLASS}}"
    ensures Name(ApiKeys) == "api-keys" && Placeholder(ApiKeys) == "${{APIKEYS_CLASS}}"
  {
  }

  lemma LogsAndAdmin()
    ensures Name(Logs) == "logs" && Placeholder(Logs) == "${{LOGS_CLASS}}"
    ensures Name(Admin) == "admin" && Placeholder(Admin) == "${{ADMIN_CLASS}}"
  {
  }

  /** The queries and the placeholders that go with them. */
  lemma PlaceholderOfQuery()
    ensures Name(Clients) == "clients" && Placeholder(Clients) == "${{CLIENTS_CLASS}}"
    ensures Name(ApiKeys) == "api-keys" && Placeholder(ApiKeys) == "${{APIKEYS_CLASS}}"
    ensures Name(Logs) == "logs" && Placeholder(Logs) == "${{LOGS_CLASS}}"
    ensures Name(Admin) == "admin" && Placeholder(Admin) == "${{ADMIN_CLASS}}"
    ensures Placeholder(Overview) == "${{DASHBOARD_CLASS}}"
  {
    ClientsAndKeys();
    LogsAndAdmin();
  }

  // ---------------------------------------------------------------- the request target

  /** `target.find(c)`: the first position of `c`, or the length for npos. */
  function IndexOf(s: string, c: char): (at: nat)
    ensures at <= |s| && c !in s[..at] && (at < |s| ==> s[at] == c)
  {
    if s == "" || s[0] == c then 0
    else
      var rest := IndexOf(s[1..], c);
      assert s[..rest + 1] == [s[0]] + s[1..][..rest];
      rest + 1
  }

  const SIZE_T_RANGE: nat := 0x1_0000_0000_0000_0000

  /** `a - q - 1` in `size_t`. */
  function SubstrLength(q: nat, a: nat): int {
    if a > q then a - q - 1 else a - q - 1 + SIZE_T_RANGE
  }

  /** `resolvedTarget`; it stays empty without a query. */
  function Resolve(target: string): string {
    var q, a := IndexOf(target, '?'), IndexOf(target, '&');
    if q == |target| then ""
    else
      var tail := target[q + 1..];
      if a == |target| then tail
      else
        var length := SubstrLength(q, a);
        if 0 <= length < |tail| then tail[..length] else tail
  }

  lemma {:induction false} IndexOfConcat(s: string, t: string, c: char)
    ensures IndexOf(s + t, c) == if c in s then IndexOf(s, c) else |s| + IndexOf(t, c)
    ensures c in s ==> IndexOf(s, c) < |s|
    decreases |s|
  {
    if s == "" {
      assert s + t == t;
    } else {
      assert (s + t)[1..] == s[1..] + t;
      IndexOfConcat(s[1..], t, c);
      assert s == [s[0]] + s[1..];
    }
  }

  /**
    The resolved target is the first query parameter: the text between the first `?` and the
    first `&`.  An `&` ahead of the `?` wraps the length around, and everything after the `?` counts.
   */
  lemma {:induction false} ResolveTakesFirstParameter(path: string, query: string)
    requires '?' !in path && |path| + 1 + |query| < SIZE_T_RANGE
    ensures Resolve(path + ("?" + query)) ==
      if '&' in path || '&' !in query then query else query[..IndexOf(query, '&')]
  {
    TargetPositions(path, query);
    IndexOfConcat(query, "", '&');
    assert query + "" == query && query[..|query|] == query;
  }

  lemma TargetPositions(path: string, query: string)
    requires '?' !in path
    ensures var target := path + ("?" + query);
      && IndexOf(target, '?') == |path|
      && target[|path| + 1..] == query
      && (if '&' in path then IndexOf(target, '&') < |path|
          else IndexOf(target, '&') == |path| + 1 + IndexOf(query, '&'))
  {
    IndexOfConcat(path, "?" + query, '?');
    IndexOfConcat(path, "?" + query, '&');
    IndexOfConcat("?", query, '&');
  }

  // ---------------------------------------------------------------- dispatch

  /** `switch (StringHash(resolvedTarget))` */
  function Dispatch(resolved: string): Option<Page> {
    var h := StringHash.Hash(resolved);
    if h == StringHash.Hash("clients") then Some(Clients)
    else if h == StringHash.Hash("api-keys") then Some(ApiKeys)
    else if h == StringHash.Hash("logs") then Some(Logs)
    else if h == StringHash.Hash("admin") then Some(Admin)
    else None
  }

  /** The page whose placeholder becomes `active`. */
  function Selected(target: string): Option<Page> {
    if '?' !in target then Some(Overview) else Dispatch(Resolve(target))
  }

  lemma {:induction false} HashesOfNames()
    ensures StringHash.Hash("") == 0
    ensures StringHash.Hash("clients") == 860587528
    ensures StringHash.Hash("api-keys") == 920982983
    ensures StringHash.Hash("logs") == 3327407
    ensures StringHash.Hash("admin") == 92668751
  {
    HashClients();
    HashApiKeys();
    HashLogs();
    HashAdmin();
  }

  /** One more character, with the polynomial's value. */
  lemma Extend(s: string, c: char, value: int) returns (t: string)
    requires StringHash.Polynomial(s) == value
    ensures t == s + [c] && StringHash.Polynomial(t) == value * 31 + StringHash.CharValue(c)
  {
    t := s + [c];
    StringHash.PolynomialSnoc(s, c);
  }

  lemma {:induction false} HashClients()
    ensures StringHash.Hash("clients") == 860587528
  {
    var s1 := Extend("", 'c', 0);
    var s2 := Extend(s1, 'l', 99);
    var s3 := Extend(s2, 'i', 3177);
    var s4 := Extend(s3, 'e', 98592);
    var s5 := Extend(s4, 'n', 3056453);
    var s6 := Extend(s5, 't', 94750153);
    var s7 := Extend(s6, 's', 2937254859);
    assert s7 == "clients";
  }

  lemma {:induction false} HashApiKeys()
    ensures StringHash.Hash("api-keys") == 920982983
  {
    var s1 := Extend("", 'a', 0);
    var s2 := Extend(s1, 'p', 97);
    var s3 := Extend(s2, 'i', 3119);
    var s4 := Extend(s3, '-', 96794);
    var s5 := Extend(s4, 'k', 3000659);
    var s6 := Extend(s5, 'e', 93020536);
    var s7 := Extend(s6, 'y', 2883636717);
    var s8 := Extend(s7, 's', 89392738348);
    assert s8 == "api-keys";
  }

  lemma {:induction false} HashLogs()
    ensures StringHash.Hash("logs") == 3327407
  {
    var s1 := Extend("", 'l', 0);
    var s2 := Extend(s1, 'o', 108);
    var s3 := Extend(s2, 'g', 3459);
    var s4 := Extend(s3, 's', 107332);
    assert s4 == "logs";
  }

  lemma HashAdmin()
    ensures StringHash.Hash("admin") == 92668751
  {
    var s1 := Extend("", 'a', 0);
    var s2 := Extend(s1, 'd', 97);
    var s3 := Extend(s2, 'm', 3107);
    var s4 := Extend(s3, 'i', 96426);
    var s5 := Extend(s4, 'n', 2989311);
    assert s5 == "admin";
  }

  /** Every page is dispatched by its own name, and an empty query selects none. */
  lemma {:induction false} NamesDispatch(page: Page)
    requires page != Overview
    ensures Dispatch(Name(page)) == Some(page)
    ensures Dispatch("") == None
  {
    HashesOfNames();
  }

  /** A target without a query selects the overview, and one with the name of a page as its query that page. */
  lemma {:induction false} TargetSelects(page: Page, path: string)
    requires '?' !in path && |path| + 9 < SIZE_T_RANGE
    ensures Selected(path) == Some(Overview)
    ensures page != Overview ==> Selected(path + ("?" + Name(page))) == Some(page)
  {
    if page != Overview {
      var query := Name(page);
      assert '&' !in query && |query| <= 8;
      ResolveTakesFirstParameter(path, query);
      NamesDispatch(page);
      assert (path + ("?" + query))[|path|] == '?';
    }
  }

  /** A text selects a page exactly when it has the hash of the page's name. */
  lemma {:induction false} DispatchIffHash(page: Page, resolved: string)
    requires page != Overview
    ensures Dispatch(resolved) == Some(page) <==> StringHash.Hash(resolved) == StringHash.Hash(Name(page))
  {
    HashesOfNames();
  }

  /**
    A text that differs from the name of a page inside a window of five characters selects that page
    exactly when the polynomials of the windows are equal.
   */
  lemma {:induction false} WindowDispatched(page: Page, before: string, right: string, wrong: string, after: string)
    requires page != Overview && Name(page) == before + right + after && |right| == |wrong| <= 5
    ensures Dispatch(before + wrong + after) == Some(page)
      <==> StringHash.Polynomial(wrong) == StringHash.Polynomial(right)
  {
    DispatchIffHash(page, before + wrong + after);
    StringHash.ShortWindowKeepsHash(before, wrong, right, after);
  }

  /** A page name mistyped in one character never selects that page. */
  lemma {:induction false} MistypedNameNotDispatched(page: Page, before: string, right: char, wrong: char,
                                                     after: string)
    requires page != Overview && Name(page) == before + [right] + after
    requires StringHash.IsByte(right) && StringHash.IsByte(wrong) && right != wrong
    ensures Dispatch(before + [wrong] + after) != Some(page)
  {
    DispatchIffHash(page, before + [wrong] + after);
    StringHash.OneSubstitutionSeparates(before, wrong, right, after);
  }

  /** With two adjacent characters mistyped it does exactly when the second makes up for the first. */
  lemma {:induction false} TwoMistypedDispatched(page: Page, before: string, a: char, b: char, c: char, d: char,
                                                 after: string)
    requires page != Overview && Name(page) == before + [a, b] + after
    ensures Dispatch(before + [c, d] + after) == Some(page)
      <==> StringHash.PRIME * (StringHash.CharValue(a) - StringHash.CharValue(c))
           == StringHash.CharValue(d) - StringHash.CharValue(b)
  {
    DispatchIffHash(page, before + [c, d] + after);
    StringHash.TwoSubstitutions(before, a, b, c, d, after);
  }

  /** For example, this text selects the clients page. */
  lemma {:induction false} CollidingNameDispatched()
    ensures Dispatch("dMients") == Some(Clients) && "dMients" != Name(Clients)
  {
    var right, wrong := "" + ['c', 'l'] + "ients", "" + ['d', 'M'] + "ients";
    assert right == "clients" && wrong == "dMients";
    assert StringHash.Hash(right) == StringHash.Hash(wrong) by {
      StringHash.TwoSubstitutions("", 'c', 'l', 'd', 'M', "ients");
    }
    DispatchIffHash(Clients, wrong);
    assert "clients"[0] != "dMients"[0];
  }
}
