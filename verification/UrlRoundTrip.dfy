/** Printing a URL and splitting it again gives its components back. */
module UrlRoundTrip {
  import opened Chars
  import opened UrlLayout
  import opened UrlHost
  import opened UrlParser

  datatype HostText = Name(text: string) | Bracketed(text: string)

  datatype Authority = Authority(userinfo: string, host: HostText, port: string)

  datatype Url =
    | Absolute(schema: string, authority: Authority, path: string, query: string, fragment: string)
    | Local(path: string, query: string, fragment: string)

  // ---- printing; an empty component is left out with its delimiter ----

  function PrintUserinfo(s: string): string {
    if s == "" then "" else s + "@"
  }

  function PrintHost(h: HostText): string {
    match h case Name(s) => s case Bracketed(s) => "[" + s + "]"
  }

  function Prefixed(delimiter: char, s: string): string {
    if s == "" then "" else [delimiter] + s
  }

  function PrintTail(u: Url): string {
    u.path + (Prefixed('?', u.query) + Prefixed('#', u.fragment))
  }

  function PrintAuthority(a: Authority): string {
    PrintUserinfo(a.userinfo) + (PrintHost(a.host) + Prefixed(':', a.port))
  }

  function Print(u: Url): string {
    match u
    case Absolute(schema, authority, _, _, _) => schema + ("://" + (PrintAuthority(authority) + PrintTail(u)))
    case Local(_, _, _) => PrintTail(u)
  }

  // ---- the components ----

  predicate SchemaText(s: string) {
    s != "" && forall k :: 0 <= k < |s| ==> IsAlpha(s[k])
  }

  predicate UserinfoText(s: string) {
    forall k :: 0 <= k < |s| ==> IsUserinfoChar(s[k])
  }

  predicate HostOk(h: HostText) {
    h.text != "" && forall k :: 0 <= k < |h.text| ==> if h.Name? then IsHostChar(h.text[k]) else V6Byte(h.text[k])
  }

  predicate PortText(s: string) {
    (forall k :: 0 <= k < |s| ==> IsNum(s[k])) && Decimal(s) <= 0xFFFF
  }

  predicate PathText(s: string) {
    forall k :: 0 <= k < |s| ==> IsUrlChar(s[k])
  }

  predicate QueryText(s: string) {
    forall k :: 0 <= k < |s| ==> IsUrlChar(s[k]) || s[k] == '?'
  }

  predicate FragmentText(s: string) {
    (forall k :: 0 <= k < |s| ==> IsUrlChar(s[k]) || s[k] == '?' || s[k] == '#') && (s != "" ==> s[0] != '#')
  }

  predicate TailOk(u: Url) {
    PathText(u.path) && QueryText(u.query) && FragmentText(u.fragment)
  }

  predicate AuthorityOk(a: Authority) {
    UserinfoText(a.userinfo) && HostOk(a.host) && PortText(a.port)
  }

  /** A URL that can be printed: a fragment may follow a path or a query, not the authority itself. */
  predicate Proper(u: Url) {
    && TailOk(u)
    && match u
       case Absolute(schema, authority, path, query, fragment) =>
         && SchemaText(schema) && AuthorityOk(authority)
         && (path != "" ==> path[0] == '/')
         && (fragment != "" ==> path != "" || query != "")
       case Local(path, _, _) => path != "" && (path[0] == '/' || path[0] == '*')
  }

  function Component(u: Url, f: UrlField): string {
    match f
    case UfPath => u.path
    case UfQuery => u.query
    case UfFragment => u.fragment
    case UfSchema => if u.Absolute? then u.schema else ""
    case UfUserinfo => if u.Absolute? then u.authority.userinfo else ""
    case UfHost => if u.Absolute? then u.authority.host.text else ""
    case UfPort => if u.Absolute? then u.authority.port else ""
  }

  // ---- where printing puts them ----

  /** The text `s` stands at byte `i`. */
  predicate Has(d: string, i: nat, s: string) {
    i + |s| <= |d| && forall k :: i <= k < i + |s| ==> d[k] == s[k - i]
  }

  lemma Lay(d: string, i: nat, s: string, rest: string)
    requires i <= |d| && d[i..] == s + rest
    ensures Has(d, i, s) && d[i + |s|..] == rest && |d| == i + |s| + |rest|
  {
    forall k | i <= k < i + |s| ensures d[k] == s[k - i] {
      assert d[i..][k - i] == s[k - i];
    }
    assert d[i + |s|..] == d[i..][|s|..] == rest;
  }

  /** A component with its delimiter. */
  lemma LayPrefixed(d: string, i: nat, c: char, s: string, rest: string)
    requires i <= |d| && d[i..] == Prefixed(c, s) + rest
    ensures var j := if s == "" then i else i + 1;
            && (s != "" ==> i < |d| && d[i] == c)
            && Has(d, j, s) && d[j + |s|..] == rest && |d| == j + |s| + |rest|
  {
    if s == "" {
      Lay(d, i, "", rest);
    } else {
      assert [c] + s + rest == [c] + (s + rest);
      Lay(d, i, [c], s + rest);
      Lay(d, i + 1, s, rest);
    }
  }

  lemma HasText(d: string, i: nat, s: string)
    requires Has(d, i, s)
    ensures d[i..i + |s|] == s
  {
  }

  lemma FindIs(d: string, i: nat, e: nat, stops: set<char>, r: nat)
    requires i <= r <= e <= |d| && (forall k :: i <= k < r ==> d[k] !in stops) && (r < e ==> d[r] in stops)
    ensures Find(d, i, e, stops) == r
  {
  }

  /** Where the texts of path, query and fragment are when they are printed at byte `i`. */
  datatype TailPlaces = TailPlaces(pathEnd: nat, query: nat, queryEnd: nat, fragment: nat)

  function TailOf(u: Url, i: nat): TailPlaces {
    var pathEnd := i + |u.path|;
    var query := if u.query == "" then pathEnd else pathEnd + 1;
    var queryEnd := query + |u.query|;
    TailPlaces(pathEnd, query, queryEnd, if u.fragment == "" then queryEnd else queryEnd + 1)
  }

  predicate TailLies(d: string, u: Url, i: nat) {
    var t := TailOf(u, i);
    && |d| == t.fragment + |u.fragment|
    && Has(d, i, u.path) && Has(d, t.query, u.query) && Has(d, t.fragment, u.fragment)
    && (u.query != "" ==> d[t.pathEnd] == '?')
    && (u.fragment != "" ==> d[t.queryEnd] == '#')
  }

  lemma TailText(u: Url)
    ensures PrintTail(u) == u.path + (Prefixed('?', u.query) + (Prefixed('#', u.fragment) + ""))
  {
    hide Prefixed;
  }

  lemma QueryLays(d: string, q: nat, query: string, fragment: string)
    requires q <= |d| && d[q..] == Prefixed('?', query) + (Prefixed('#', fragment) + "")
    ensures var i := if query == "" then q else q + 1;
            var e := i + |query|;
            var f := if fragment == "" then e else e + 1;
            && Has(d, i, query) && Has(d, f, fragment) && |d| == f + |fragment|
            && (query != "" ==> q < |d| && d[q] == '?') && (fragment != "" ==> e < |d| && d[e] == '#')
  {
    hide Prefixed, Has;
    var i := if query == "" then q else q + 1;
    LayPrefixed(d, q, '?', query, Prefixed('#', fragment) + "");
    LayPrefixed(d, i + |query|, '#', fragment, "");
  }

  lemma TailLays(d: string, u: Url, i: nat)
    requires i <= |d| && d[i..] == PrintTail(u)
    ensures TailLies(d, u, i)
  {
    hide Prefixed, Has, PrintTail;
    TailText(u);
    Lay(d, i, u.path, Prefixed('?', u.query) + (Prefixed('#', u.fragment) + ""));
    QueryLays(d, i + |u.path|, u.query, u.fragment);
  }

  /** Splitting finds the path, the query and the fragment. */
  lemma TailSplit(d: string, u: Url, i: nat)
    requires TailOk(u) && TailLies(d, u, i)
    ensures var t := TailOf(u, i);
            && Find(d, i, |d|, {'?', '#'}) == t.pathEnd
            && (t.pathEnd < |d| && d[t.pathEnd] == '?' <==> u.query != "")
            && Find(d, t.query, |d|, {'#'}) == t.queryEnd
            && SkipHashes(d, t.queryEnd) == t.fragment
  {
    var t := TailOf(u, i);
    PathFound(d, u, i);
    QueryFound(d, u, i);
    FragmentFound(d, u, i);
  }

  lemma PathFound(d: string, u: Url, i: nat)
    requires PathText(u.path) && TailLies(d, u, i)
    ensures var t := TailOf(u, i);
            Find(d, i, |d|, {'?', '#'}) == t.pathEnd && (t.pathEnd < |d| && d[t.pathEnd] == '?' <==> u.query != "")
  {
    var t := TailOf(u, i);
    forall k | i <= k < t.pathEnd ensures d[k] != '?' && d[k] != '#' {
      assert IsUrlChar(u.path[k - i]);
    }
    hide Has, PathText;
    FindIs(d, i, |d|, {'?', '#'}, t.pathEnd);
  }

  lemma QueryFound(d: string, u: Url, i: nat)
    requires QueryText(u.query) && TailLies(d, u, i)
    ensures Find(d, TailOf(u, i).query, |d|, {'#'}) == TailOf(u, i).queryEnd
  {
    var t := TailOf(u, i);
    forall k | t.query <= k < t.queryEnd ensures d[k] != '#' {
      assert IsUrlChar(u.query[k - t.query]) || u.query[k - t.query] == '?';
    }
    hide Has, QueryText;
    FindIs(d, t.query, |d|, {'#'}, t.queryEnd);
  }

  lemma FragmentFound(d: string, u: Url, i: nat)
    requires FragmentText(u.fragment) && TailLies(d, u, i)
    ensures SkipHashes(d, TailOf(u, i).queryEnd) == TailOf(u, i).fragment
  {
    var t := TailOf(u, i);
    if u.fragment != "" {
      assert d[t.fragment] == u.fragment[0];
      hide Has, FragmentText;
      assert SkipHashes(d, t.fragment) == t.fragment;
    }
  }

  // ---- the authority ----

  /** Where the texts of an authority printed at byte `i` are, in the terms of the splitter. */
  function HostOf(a: Authority, i: nat): HostLayout {
    var found := a.userinfo != "";
    var host := if found then i + |a.userinfo| + 1 else i;
    var v6 := a.host.Bracketed?;
    var name := if v6 then host + 1 else host;
    var nameEnd := name + |a.host.text|;
    var colon := if v6 then nameEnd + 1 else nameEnd;
    var port := if a.port == "" then colon else colon + 1;
    HostLayout(found, if found then i + |a.userinfo| else port + |a.port|, host, v6, name, nameEnd, colon, port)
  }

  function EndOf(a: Authority, i: nat): nat {
    HostOf(a, i).port + |a.port|
  }

  predicate AuthorityLies(d: string, a: Authority, i: nat) {
    var h := HostOf(a, i);
    && EndOf(a, i) <= |d|
    && Has(d, i, a.userinfo) && Has(d, h.name, a.host.text) && Has(d, h.port, a.port)
    && (h.found ==> d[h.at] == '@')
    && (h.v6 ==> d[h.host] == '[' && d[h.nameEnd] == ']')
    && (a.port != "" ==> d[h.colon] == ':')
  }

  lemma LayUserinfo(d: string, i: nat, s: string, rest: string)
    requires i <= |d| && d[i..] == PrintUserinfo(s) + rest
    ensures var j := if s == "" then i else i + |s| + 1;
            Has(d, i, s) && j <= |d| && d[j..] == rest && (s != "" ==> d[i + |s|] == '@')
  {
    if s == "" {
      Lay(d, i, "", rest);
    } else {
      assert s + "@" + rest == s + ("@" + rest);
      Lay(d, i, s, "@" + rest);
      Lay(d, i + |s|, "@", rest);
    }
  }

  lemma LayHost(d: string, i: nat, h: HostText, rest: string)
    requires i <= |d| && d[i..] == PrintHost(h) + rest
    ensures var name := if h.Bracketed? then i + 1 else i;
            var nameEnd := name + |h.text|;
            var end := if h.Bracketed? then nameEnd + 1 else nameEnd;
            && Has(d, name, h.text) && end <= |d| && d[end..] == rest
            && (h.Bracketed? ==> d[i] == '[' && d[nameEnd] == ']')
  {
    match h
    case Name(s) => Lay(d, i, s, rest);
    case Bracketed(s) => LayBracketed(d, i, s, rest);
  }

  lemma LayBracketed(d: string, i: nat, s: string, rest: string)
    requires i <= |d| && d[i..] == "[" + s + "]" + rest
    ensures var end := i + 1 + |s|;
            Has(d, i + 1, s) && end < |d| && d[end + 1..] == rest && d[i] == '[' && d[end] == ']'
  {
    assert "[" + s + "]" + rest == "[" + (s + ("]" + rest));
    Lay(d, i, "[", s + ("]" + rest));
    Lay(d, i + 1, s, "]" + rest);
    Lay(d, i + 1 + |s|, "]", rest);
  }

  /** What is printed after the user information. */
  function HostAndMore(a: Authority, rest: string): string {
    PrintHost(a.host) + (Prefixed(':', a.port) + rest)
  }

  lemma AuthorityText(a: Authority, rest: string)
    ensures PrintAuthority(a) + rest == PrintUserinfo(a.userinfo) + HostAndMore(a, rest)
  {
    hide PrintUserinfo, PrintHost, Prefixed;
  }

  lemma AuthorityLays(d: string, a: Authority, i: nat, rest: string)
    requires i <= |d| && d[i..] == PrintAuthority(a) + rest
    ensures AuthorityLies(d, a, i) && d[EndOf(a, i)..] == rest
  {
    hide Has, PrintAuthority, HostAndMore;
    AuthorityText(a, rest);
    AuthorityPieces(d, a, i, rest);
  }

  lemma AuthorityPieces(d: string, a: Authority, i: nat, rest: string)
    requires i <= |d| && d[i..] == PrintUserinfo(a.userinfo) + HostAndMore(a, rest)
    ensures var h := HostOf(a, i);
            && Has(d, i, a.userinfo) && (a.userinfo != "" ==> i + |a.userinfo| < |d| && d[i + |a.userinfo|] == '@')
            && Has(d, h.name, a.host.text)
            && (h.v6 ==> h.nameEnd < |d| && d[h.host] == '[' && d[h.nameEnd] == ']')
            && (a.port != "" ==> h.colon < |d| && d[h.colon] == ':') && Has(d, h.port, a.port)
            && EndOf(a, i) <= |d| && d[EndOf(a, i)..] == rest
  {
    hide Has, PrintUserinfo, HostAndMore;
    var h := HostOf(a, i);
    LayUserinfo(d, i, a.userinfo, HostAndMore(a, rest));
    assert h.host == if a.userinfo == "" then i else i + |a.userinfo| + 1;
    hide HostOf;
    LayHostPort(d, i, a, rest);
  }

  lemma LayHostPort(d: string, i: nat, a: Authority, rest: string)
    requires var h := HostOf(a, i); h.host <= |d| && d[h.host..] == HostAndMore(a, rest)
    ensures var h := HostOf(a, i);
            && Has(d, h.name, a.host.text) && (h.v6 ==> h.nameEnd < |d| && d[h.host] == '[' && d[h.nameEnd] == ']')
            && (a.port != "" ==> h.colon < |d| && d[h.colon] == ':') && Has(d, h.port, a.port)
            && EndOf(a, i) <= |d| && d[EndOf(a, i)..] == rest
  {
    hide Has, PrintHost, Prefixed;
    var h := HostOf(a, i);
    assert h.v6 == a.host.Bracketed? && h.name == (if h.v6 then h.host + 1 else h.host);
    assert h.nameEnd == h.name + |a.host.text| && h.colon == (if h.v6 then h.nameEnd + 1 else h.nameEnd);
    assert h.port == if a.port == "" then h.colon else h.colon + 1;
    hide HostOf;
    LayHost(d, h.host, a.host, Prefixed(':', a.port) + rest);
    LayPrefixed(d, h.colon, ':', a.port, rest);
  }

  /** The bytes of a printed authority. */
  lemma AuthorityBytes(d: string, a: Authority, i: nat, k: nat)
    requires AuthorityOk(a) && AuthorityLies(d, a, i) && i <= k < EndOf(a, i)
    ensures var h := HostOf(a, i);
            if h.found && k < h.at then IsUserinfoChar(d[k])
            else if h.found && k == h.at then d[k] == '@'
            else if h.v6 && k == h.host then d[k] == '['
            else if k < h.nameEnd then if h.v6 then V6Byte(d[k]) else IsHostChar(d[k])
            else if k < h.colon then d[k] == ']'
            else if k < h.port then d[k] == ':'
            else IsNum(d[k])
  {
    hide Decimal, IsUserinfoChar, IsHostChar, V6Byte, IsNum;
    var h := HostOf(a, i);
    if h.found && k < h.at { assert d[k] == a.userinfo[k - i]; }
    else if h.name <= k < h.nameEnd { assert d[k] == a.host.text[k - h.name]; }
    else if h.port <= k { assert d[k] == a.port[k - h.port]; }
  }

  lemma AtFound(d: string, a: Authority, i: nat)
    requires AuthorityOk(a) && AuthorityLies(d, a, i)
    ensures Find(d, i, EndOf(a, i), {'@'}) == HostOf(a, i).at
  {
    var h := HostOf(a, i);
    forall k | i <= k < h.at ensures d[k] != '@' { AuthorityBytes(d, a, i, k); }
    hide AuthorityOk, Has;
    FindIs(d, i, EndOf(a, i), {'@'}, h.at);
  }

  lemma NameEndFound(d: string, a: Authority, i: nat)
    requires AuthorityOk(a) && AuthorityLies(d, a, i)
    ensures var h := HostOf(a, i); Find(d, h.name, EndOf(a, i), if h.v6 then {']'} else {':'}) == h.nameEnd
    ensures var h := HostOf(a, i); !h.v6 ==> d[h.host] != '['
  {
    var h := HostOf(a, i);
    AuthorityBytes(d, a, i, h.name);
    forall k | h.name <= k < h.nameEnd ensures if h.v6 then d[k] != ']' else d[k] != ':' { AuthorityBytes(d, a, i, k); }
    hide AuthorityOk, Has;
    FindIs(d, h.name, EndOf(a, i), if h.v6 then {']'} else {':'}, h.nameEnd);
  }

  lemma AuthoritySplit(d: string, a: Authority, i: nat)
    requires AuthorityOk(a) && AuthorityLies(d, a, i)
    ensures SplitHost(d, i, EndOf(a, i)) == HostOf(a, i)
  {
    AtFound(d, a, i);
    NameEndFound(d, a, i);
    assert a.host.text != "";
    hide Has, Find, AuthorityOk;
  }

  lemma AuthorityFine(d: string, a: Authority, i: nat)
    requires AuthorityOk(a) && AuthorityLies(d, a, i)
    ensures HostFine(d, i, EndOf(a, i))
  {
    hide Has, Decimal, Find;
    AuthoritySplit(d, a, i);
    var h, end := HostOf(a, i), EndOf(a, i);
    forall k | i <= k < end ensures HostLegalAt(d, h, k) { AuthorityBytes(d, a, i, k); }
  }

  lemma AuthorityServer(d: string, a: Authority, i: nat, k: nat)
    requires AuthorityOk(a) && AuthorityLies(d, a, i) && i <= k < EndOf(a, i)
    ensures ServerByte(d[k]) && d[k] != '/' && d[k] != '?' && (d[k] == '@' && k > i ==> d[k - 1] != '@')
  {
    hide Has, Decimal;
    AuthorityBytes(d, a, i, k);
    if k > i { AuthorityBytes(d, a, i, k - 1); }
  }

  // ---- the tail ----

  lemma TailLegal(d: string, u: Url, i: nat, l: Layout, k: nat)
    requires TailOk(u) && TailLies(d, u, i) && i <= k < |d|
    requires var t := TailOf(u, i);
             l.path == i && l.pathEnd == t.pathEnd && l.query == t.query && l.queryEnd == t.queryEnd
               && l.fragment == t.fragment
    requires l.absolute ==> l.schema + 3 <= i
    ensures LegalAt(d, l, k)
  {
    var t := TailOf(u, i);
    if k < t.pathEnd { assert IsUrlChar(u.path[k - i]); }
    else if t.query <= k < t.queryEnd { assert d[k] == u.query[k - t.query]; }
    else if t.fragment <= k { assert d[k] == u.fragment[k - t.fragment]; }
  }

  // ---- whole URLs ----

  /** The layout of a printed URL whose authority starts at byte `i` and whose path starts at byte `e`. */
  function LayoutOf(u: Url, absolute: bool, i: nat, e: nat): Layout
    requires absolute ==> i >= 3
  {
    var t := TailOf(u, e);
    Layout(absolute, if absolute then i - 3 else 0, i, e, t.pathEnd, t.query, t.queryEnd, t.fragment)
  }

  lemma AbsoluteLays(u: Url)
    requires u.Absolute?
    ensures var d, i := Print(u), |u.schema| + 3;
            && Has(d, 0, u.schema) && Has(d, |u.schema|, "://")
            && AuthorityLies(d, u.authority, i) && TailLies(d, u, EndOf(u.authority, i))
  {
    hide Has, PrintAuthority, PrintTail, AuthorityLies, TailLies, EndOf;
    var d := Print(u);
    var a, t := PrintAuthority(u.authority), PrintTail(u);
    assert d[0..] == d;
    Lay(d, 0, u.schema, "://" + (a + t));
    Lay(d, |u.schema|, "://", a + t);
    AuthorityLays(d, u.authority, |u.schema| + 3, t);
    AuthorityEnds(d, u.authority, |u.schema| + 3);
    TailLays(d, u, EndOf(u.authority, |u.schema| + 3));
  }

  lemma AuthorityEnds(d: string, a: Authority, i: nat)
    requires AuthorityLies(d, a, i)
    ensures i <= EndOf(a, i) <= |d|
  {
  }

  /** The byte that ends the authority. */
  lemma TailBegins(d: string, u: Url, e: nat)
    requires u.Absolute? && Proper(u) && TailLies(d, u, e) && e < |d|
    ensures d[e] == '/' || d[e] == '?'
  {
    if u.path != "" { assert d[e] == u.path[0]; }
  }

  lemma AbsoluteSplit(u: Url)
    requires u.Absolute? && Proper(u)
    ensures var i := |u.schema| + 3; Split(Print(u), false) == LayoutOf(u, true, i, EndOf(u.authority, i))
  {
    hide AuthorityLies, TailLies, EndOf, Print, TailOk, AuthorityOk, TailOf;
    AbsoluteLays(u);
    var d, i := Print(u), |u.schema| + 3;
    var e := EndOf(u.authority, i);
    SchemaFound(d, u.schema);
    AuthorityEnds(d, u.authority, i);
    PathStart(d, u, i);
    TailSplit(d, u, e);
    TailSkips(u, e);
  }

  lemma TailSkips(u: Url, i: nat)
    ensures var t := TailOf(u, i); t.query == if u.query == "" then t.pathEnd else t.pathEnd + 1
  {
  }

  lemma SchemaFound(d: string, schema: string)
    requires SchemaText(schema) && Has(d, 0, schema) && Has(d, |schema|, "://")
    ensures |schema| + 3 <= |d| && d[0] != '/' && d[0] != '*' && Find(d, 0, |d|, {':'}) == |schema|
  {
    assert d[0] == schema[0];
    forall k | 0 <= k < |schema| ensures d[k] != ':' { assert d[k] == schema[k]; }
    assert d[|schema|] == "://"[0];
    FindIs(d, 0, |d|, {':'}, |schema|);
  }

  lemma PathStart(d: string, u: Url, i: nat)
    requires u.Absolute? && Proper(u) && AuthorityLies(d, u.authority, i) && TailLies(d, u, EndOf(u.authority, i))
             && i <= |d|
    ensures Find(d, i, |d|, {'/', '?'}) == EndOf(u.authority, i)
  {
    hide TailLies, EndOf, AuthorityOk, TailOk;
    var e := EndOf(u.authority, i);
    assert AuthorityOk(u.authority);
    AuthorityEnds(d, u.authority, i);
    forall k | i <= k < e ensures d[k] != '/' && d[k] != '?' { AuthorityServer(d, u.authority, i, k); }
    if e < |d| { TailBegins(d, u, e); }
    FindIs(d, i, |d|, {'/', '?'}, e);
  }

  lemma AbsoluteLegal(u: Url)
    requires u.Absolute? && Proper(u)
    ensures Legal(Print(u), Split(Print(u), false))
  {
    hide AuthorityLies, TailLies, EndOf, Print, AuthorityOk, TailOk, Split, TailOf;
    var d, i := Print(u), |u.schema| + 3;
    var e := EndOf(u.authority, i);
    AbsoluteLays(u);
    AbsoluteSplit(u);
    var l := Split(d, false);
    assert AuthorityOk(u.authority) && TailOk(u);
    AuthorityEnds(d, u.authority, i);
    forall k | 0 <= k < |d| ensures LegalAt(d, l, k) {
      if k < i {
        SchemaLegal(d, u.schema, l, k);
      } else if k < e {
        AuthorityServer(d, u.authority, i, k);
      } else {
        TailLegal(d, u, e, l, k);
      }
    }
  }

  lemma SchemaLegal(d: string, schema: string, l: Layout, k: nat)
    requires SchemaText(schema) && Has(d, 0, schema) && Has(d, |schema|, "://")
    requires l.absolute && l.schema == |schema| && k < |schema| + 3
    ensures LegalAt(d, l, k)
  {
    if k < |schema| { assert d[k] == schema[k]; } else { assert d[k] == "://"[k - |schema|]; }
  }

  /** Splitting a printed absolute URL succeeds and gives its components. */
  lemma AbsoluteRoundTrip(u: Url, f: UrlField)
    requires u.Absolute? && Proper(u)
    ensures Accepts(Print(u), false) && PortOf(Print(u), false) == Decimal(u.authority.port)
    ensures Cut(Print(u), Where(Print(u), false, f)) == Component(u, f)
  {
    hide Print, Split, SplitHost, Legal, HostFine, Where, Component, Decimal, AuthorityLies, Cut;
    var d, i := Print(u), |u.schema| + 3;
    AbsoluteLays(u);
    AbsoluteSplit(u);
    AbsoluteLegal(u);
    assert AuthorityOk(u.authority);
    hide AuthorityOk;
    AuthorityFine(d, u.authority, i);
    PortSmall(u.authority);
    AbsoluteCut(u, UfPort);
    assert Component(u, UfPort) == u.authority.port by { PortComponent(u); }
    AbsoluteCut(u, f);
  }

  lemma PortComponent(u: Url)
    requires u.Absolute?
    ensures Component(u, UfPort) == u.authority.port
  {
  }

  lemma AbsoluteCut(u: Url, f: UrlField)
    requires u.Absolute? && Proper(u)
    ensures Cut(Print(u), Where(Print(u), false, f)) == Component(u, f)
  {
    if f.UfUserinfo? || f.UfHost? || f.UfPort? { AuthorityCut(u, f); } else { PathCut(u, f); }
  }

  lemma AuthorityCut(u: Url, f: UrlField)
    requires u.Absolute? && Proper(u) && (f.UfUserinfo? || f.UfHost? || f.UfPort?)
    ensures Cut(Print(u), Where(Print(u), false, f)) == Component(u, f)
  {
    hide Print, Split, SplitHost, AuthorityLies, TailLies, Decimal, AuthorityOk, TailOk, TailOf, Raw;
    var d, i := Print(u), |u.schema| + 3;
    AbsoluteLays(u);
    AbsoluteSplit(u);
    assert AuthorityOk(u.authority);
    AuthoritySplit(d, u.authority, i);
    HostCuts(d, u.authority, i);
  }

  lemma PathCut(u: Url, f: UrlField)
    requires u.Absolute? && Proper(u) && !(f.UfUserinfo? || f.UfHost? || f.UfPort?)
    ensures Cut(Print(u), Where(Print(u), false, f)) == Component(u, f)
  {
    hide Print, Split, SplitHost, AuthorityLies, TailLies, Decimal, AuthorityOk, TailOk, EndOf;
    AbsoluteLays(u);
    AbsoluteSplit(u);
    TailCuts(Print(u), u, EndOf(u.authority, |u.schema| + 3));
    HasText(Print(u), 0, u.schema);
  }

  lemma PortSmall(a: Authority)
    requires AuthorityOk(a)
    ensures Decimal(a.port) <= 0xFFFF
  {
  }

  lemma HostCuts(d: string, a: Authority, i: nat)
    requires AuthorityLies(d, a, i)
    ensures var h := HostOf(a, i);
            && EndOf(a, i) <= |d|
            && d[h.name..h.nameEnd] == a.host.text && d[h.port..EndOf(a, i)] == a.port
            && (if h.found then d[i..h.at] == a.userinfo else a.userinfo == "")
  {
    var h := HostOf(a, i);
    HasText(d, i, a.userinfo);
    HasText(d, h.name, a.host.text);
    HasText(d, h.port, a.port);
  }

  lemma TailCuts(d: string, u: Url, i: nat)
    requires TailLies(d, u, i)
    ensures var t := TailOf(u, i);
            && t.fragment <= |d|
            && d[i..t.pathEnd] == u.path && d[t.query..t.queryEnd] == u.query && d[t.fragment..|d|] == u.fragment
  {
    var t := TailOf(u, i);
    HasText(d, i, u.path);
    HasText(d, t.query, u.query);
    HasText(d, t.fragment, u.fragment);
  }

  /** The same for a URL that starts with its path. */
  lemma LocalRoundTrip(u: Url, f: UrlField)
    requires u.Local? && Proper(u)
    ensures Accepts(Print(u), false) && PortOf(Print(u), false) == 0
    ensures Cut(Print(u), Where(Print(u), false, f)) == Component(u, f)
  {
    hide Legal, LegalAt, HostFine, PrintTail, TailLies;
    var d := Print(u);
    LocalSplit(u);
    LocalLegal(u);
    assert d[0..] == d;
    TailLays(d, u, 0);
    TailCuts(d, u, 0);
  }

  lemma LocalSplit(u: Url)
    requires u.Local? && Proper(u)
    ensures Split(Print(u), false) == LayoutOf(u, false, 0, 0)
  {
    hide PrintTail;
    var d := Print(u);
    assert d[0..] == d;
    TailLays(d, u, 0);
    assert d[0] == u.path[0];
    hide TailLies, TailOf;
    TailSplit(d, u, 0);
    TailSkips(u, 0);
  }

  lemma LocalLegal(u: Url)
    requires u.Local? && Proper(u)
    ensures Legal(Print(u), Split(Print(u), false))
  {
    hide Split, PrintTail, TailLies, LegalAt;
    var d := Print(u);
    LocalSplit(u);
    assert d[0..] == d;
    TailLays(d, u, 0);
    forall k | 0 <= k < |d| ensures LegalAt(d, Split(d, false), k) { TailLegal(d, u, 0, Split(d, false), k); }
  }

  lemma HostNonEmpty(a: Authority)
    requires AuthorityOk(a)
    ensures a.host.text != ""
  {
  }
}
