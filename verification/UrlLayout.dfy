/** Where the parts of a URL are, told from its delimiters alone: the reference that the two automata of
    http_parser_parse_url are compared with. */
module UrlLayout {
  import opened Chars
  import opened ParserTypes
  import UrlChar

  /** The first byte in d[i..e] that is one of `stops`, `e` when there is none. */
  function Find(d: string, i: nat, e: nat, stops: set<char>): (r: nat)
    requires i <= e <= |d|
    ensures i <= r <= e && (r < e ==> d[r] in stops)
    ensures forall k :: i <= k < r ==> d[k] !in stops
    decreases e - i
  {
    if i == e || d[i] in stops then i else Find(d, i + 1, e, stops)
  }

  /** The first byte from `i` on that is no '#'. */
  function SkipHashes(d: string, i: nat): (r: nat)
    requires i <= |d|
    ensures i <= r <= |d| && (r < |d| ==> d[r] != '#')
    ensures forall k :: i <= k < r ==> d[k] == '#'
    decreases |d| - i
  {
    if i == |d| || d[i] != '#' then i else SkipHashes(d, i + 1)
  }

  /** The parts of a URL. `absolute`: it starts with a schema; `schema` is where that ends. The authority is
      from `authority` to `path`, the path from there to `pathEnd`, the query from `query` to `queryEnd`,
      and the fragment from `fragment` to the end. */
  datatype Layout = Layout(
    absolute: bool, schema: nat, authority: nat, path: nat, pathEnd: nat, query: nat, queryEnd: nat, fragment: nat)

  function Split(d: string, connect: bool): (l: Layout)
    ensures l.schema <= l.authority <= l.path <= l.pathEnd <= l.query <= l.queryEnd <= l.fragment <= |d|
  {
    var absolute := !connect && d != "" && d[0] != '/' && d[0] != '*';
    var schema := if absolute then Find(d, 0, |d|, {':'}) else 0;
    var authority := if !absolute then 0 else if schema + 3 <= |d| then schema + 3 else |d|;
    var path := if connect || absolute then Find(d, authority, |d|, {'/', '?'}) else 0;
    var pathEnd := Find(d, path, |d|, {'?', '#'});
    var query := if pathEnd < |d| && d[pathEnd] == '?' then pathEnd + 1 else pathEnd;
    var queryEnd := Find(d, query, |d|, {'#'});
    Layout(absolute, schema, authority, path, pathEnd, query, queryEnd, SkipHashes(d, queryEnd))
  }

  predicate ServerByte(ch: char) {
    IsUserinfoChar(ch) || ch == '[' || ch == ']' || ch == '@'
  }

  /** Byte `k` may stand where it does. */
  predicate LegalAt(d: string, l: Layout, k: nat)
    requires k < |d|
  {
    if l.absolute && k < l.schema then IsAlpha(d[k])
    else if l.absolute && k == l.schema then l.schema > 0
    else if l.absolute && k < l.schema + 3 then d[k] == '/'
    else if k < l.path then ServerByte(d[k]) && (d[k] == '@' && k > l.authority ==> d[k - 1] != '@')
    else if k < l.pathEnd then IsUrlChar(d[k])
    else if k < l.query then true
    else if k < l.queryEnd then IsUrlChar(d[k]) || d[k] == '?'
    else if k < l.fragment then true
    else IsUrlChar(d[k]) || d[k] == '?' || d[k] == '#'
  }

  predicate Legal(d: string, l: Layout) {
    forall k :: 0 <= k < |d| ==> LegalAt(d, l, k)
  }

  function Start(connect: bool): UrlState {
    if connect then ServerStart else UrlStart
  }

  /** The state of the automaton after `k` legal bytes. */
  function Expected(d: string, connect: bool, l: Layout, k: nat): UrlState
    requires k <= |d|
  {
    if k == 0 then Start(connect)
    else if l.absolute && k <= l.schema then Schema
    else if l.absolute && k == l.schema + 1 then SchemaSlash
    else if l.absolute && k == l.schema + 2 then SchemaSlashSlash
    else if k <= l.authority then ServerStart
    else if k <= l.path then if d[k - 1] == '@' then ServerWithAt else Server
    else if k <= l.pathEnd then Path
    else if k <= l.query then QueryStart
    else if k <= l.queryEnd then Query
    else if k <= l.fragment then FragmentStart
    else Fragment
  }

  lemma SchemaStep(d: string, connect: bool, k: nat)
    requires k < |d|
    requires var l := Split(d, connect); l.absolute && k < l.schema + 3
    ensures var l := Split(d, connect);
            UrlChar.Next(Expected(d, connect, l, k), d[k]) ==
            if LegalAt(d, l, k) then Expected(d, connect, l, k + 1) else UrlDead
  {
  }

  lemma ServerStep(d: string, connect: bool, k: nat)
    requires k < |d|
    requires var l := Split(d, connect); l.authority <= k < l.path
    ensures var l := Split(d, connect);
            UrlChar.Next(Expected(d, connect, l, k), d[k]) ==
            if LegalAt(d, l, k) then Expected(d, connect, l, k + 1) else UrlDead
  {
  }

  lemma PathStep(d: string, connect: bool, k: nat)
    requires k < |d|
    requires var l := Split(d, connect); (l.absolute ==> l.schema + 3 <= k) && l.path <= k < l.query
    ensures var l := Split(d, connect);
            UrlChar.Next(Expected(d, connect, l, k), d[k]) ==
            if LegalAt(d, l, k) then Expected(d, connect, l, k + 1) else UrlDead
  {
  }

  lemma TailStep(d: string, connect: bool, k: nat)
    requires k < |d|
    requires var l := Split(d, connect); (l.absolute ==> l.schema + 3 <= k) && l.query <= k
    ensures var l := Split(d, connect);
            UrlChar.Next(Expected(d, connect, l, k), d[k]) ==
            if LegalAt(d, l, k) then Expected(d, connect, l, k + 1) else UrlDead
  {
  }

  /** The automaton sees exactly the parts that the delimiters cut, and dies exactly on an illegal byte. */
  lemma {:induction false} ScanExact(d: string, connect: bool, k: nat)
    requires k <= |d|
    ensures var l := Split(d, connect);
            UrlChar.After(Start(connect), d, k) ==
            if forall j :: 0 <= j < k ==> LegalAt(d, l, j) then Expected(d, connect, l, k) else UrlDead
  {
    hide UrlChar.Next, LegalAt, Expected, Split;
    var l := Split(d, connect);
    if k == 0 {
      assert Expected(d, connect, l, 0) == Start(connect) by { ExpectedStart(d, connect, l); }
    } else {
      ScanExact(d, connect, k - 1);
      if UrlChar.After(Start(connect), d, k - 1) == UrlDead {
        DeadStays(d[k - 1]);
        NeverExpected(d, connect, l, k - 1);
      } else {
        OneStep(d, connect, k - 1);
        NeverExpected(d, connect, l, k);
      }
    }
  }

  lemma ExpectedStart(d: string, connect: bool, l: Layout)
    ensures Expected(d, connect, l, 0) == Start(connect)
  {
  }

  lemma NeverExpected(d: string, connect: bool, l: Layout, k: nat)
    requires k <= |d|
    ensures Expected(d, connect, l, k) != UrlDead
  {
  }

  lemma DeadStays(ch: char)
    ensures UrlChar.Next(UrlDead, ch) == UrlDead
  {
  }

  lemma OneStep(d: string, connect: bool, k: nat)
    requires k < |d|
    ensures var l := Split(d, connect);
            UrlChar.Next(Expected(d, connect, l, k), d[k]) ==
            if LegalAt(d, l, k) then Expected(d, connect, l, k + 1) else UrlDead
  {
    hide UrlChar.Next, LegalAt, Expected;
    var l := Split(d, connect);
    if l.absolute && k < l.schema + 3 { SchemaStep(d, connect, k); }
    else if k < l.path { ServerStep(d, connect, k); }
    else if k < l.query { PathStep(d, connect, k); }
    else { TailStep(d, connect, k); }
  }
}
