/** The targets of CONNECT: which texts the splitter accepts, and which of them are a host and a port. */
module UrlConnect {
  import opened Chars
  import opened UrlLayout
  import opened UrlHost
  import opened UrlParser
  import opened UrlRoundTrip

  /** What a CONNECT target should be: hostname:port. */
  predicate HostAndPort(a: Authority) {
    AuthorityOk(a) && a.userinfo == "" && a.port != ""
  }

  /** An empty query and empty fragments. */
  predicate NothingMore(s: string) {
    s == "" || (s[0] == '?' && forall k :: 1 <= k < |s| ==> s[k] == '#')
  }

  /** An empty user information, or none. */
  function Sign(at: bool): string {
    if at then "@" else ""
  }

  predicate IsTarget(d: string, at: bool, a: Authority, more: string) {
    HostAndPort(a) && NothingMore(more) && d == Sign(at) + (PrintAuthority(a) + more)
  }

  // ---- a target is accepted ----

  /** What an '@' before the authority changes. */
  function Signed(at: bool, h: HostLayout): HostLayout {
    if at then h.(found := true, at := 0) else h
  }

  lemma SignedSplit(d: string, at: bool, e: nat)
    requires var i := |Sign(at)|; i <= e <= |d| && (at ==> d[0] == '@') && Find(d, i, e, {'@'}) == e
    ensures SplitHost(d, 0, e) == Signed(at, SplitHost(d, |Sign(at)|, e))
  {
    if at { assert Find(d, 0, e, {'@'}) == 0; }
  }

  lemma SignedFine(d: string, at: bool, e: nat)
    requires var i := |Sign(at)|; i <= e <= |d| && (at ==> d[0] == '@') && Find(d, i, e, {'@'}) == e
    requires HostFine(d, |Sign(at)|, e)
    ensures HostFine(d, 0, e)
  {
    var i := |Sign(at)|;
    var h := SplitHost(d, i, e);
    SignedSplit(d, at, e);
    hide SplitHost, Find;
    forall k | 0 <= k < e ensures HostLegalAt(d, Signed(at, h), k) {
      if k >= i { assert HostLegalAt(d, h, k); }
    }
  }

  /** Where the parts of a target are. */
  lemma TargetLays(d: string, at: bool, a: Authority, more: string)
    requires IsTarget(d, at, a, more)
    ensures var i := |Sign(at)|; var e := EndOf(a, i);
            && i < e <= |d| && d[e..] == more && (at ==> d[0] == '@') && AuthorityLies(d, a, i)
            && HostOf(a, i).at == e && SplitHost(d, i, e) == HostOf(a, i)
            && Find(d, i, e, {'@'}) == e && HostFine(d, i, e)
  {
    hide PrintAuthority, AuthorityLies, AuthorityOk, HostFine, SplitHost, Find;
    var i := |Sign(at)|;
    assert d[i..] == PrintAuthority(a) + more;
    AuthorityLays(d, a, i, more);
    AuthorityEnds(d, a, i);
    AuthorityFine(d, a, i);
    AuthoritySplit(d, a, i);
    AtFound(d, a, i);
    HostNonEmpty(a);
  }

  /** The bytes of the authority of a target. */
  lemma TargetByte(d: string, at: bool, a: Authority, more: string, k: nat)
    requires IsTarget(d, at, a, more) && k < EndOf(a, |Sign(at)|) && k < |d|
    ensures ServerByte(d[k]) && d[k] != '/' && d[k] != '?' && (d[k] == '@' <==> at && k == 0)
  {
    hide PrintAuthority, AuthorityLies, AuthorityOk, HostFine, SplitHost, HostOf, EndOf;
    TargetLays(d, at, a, more);
    if k >= |Sign(at)| { AuthorityServer(d, a, |Sign(at)|, k); }
  }

  lemma TargetSplit(d: string, e: nat)
    requires e <= |d| && Find(d, 0, |d|, {'/', '?'}) == e && NothingMore(d[e..])
    ensures var q := if e < |d| then e + 1 else e; Split(d, true) == Layout(false, 0, 0, e, e, q, q, |d|)
  {
    if e < |d| {
      assert d[e] == d[e..][0];
      assert forall k :: e < k < |d| ==> d[k] == d[e..][k - e];
      FindIs(d, e + 1, |d|, {'#'}, e + 1);
      AllHashes(d, e + 1);
    }
  }

  lemma AllHashes(d: string, i: nat)
    requires i <= |d| && forall k :: i <= k < |d| ==> d[k] == '#'
    ensures SkipHashes(d, i) == |d| && Find(d, i, |d|, {'#'}) == i
  {
  }

  lemma MoreStarts(d: string, e: nat)
    requires e < |d| && NothingMore(d[e..])
    ensures d[e] == '?'
  {
    assert d[e] == d[e..][0];
  }

  lemma TargetMore(d: string, at: bool, a: Authority, more: string)
    requires IsTarget(d, at, a, more)
    ensures var e := EndOf(a, |Sign(at)|); e <= |d| && d[e..] == more && NothingMore(d[e..])
  {
    hide PrintAuthority, AuthorityLies, HostAndPort, HostFine, SplitHost, Find, NothingMore;
    TargetLays(d, at, a, more);
  }

  /** The layout of a target. */
  lemma TargetLayout(d: string, at: bool, a: Authority, more: string)
    requires IsTarget(d, at, a, more)
    ensures var e := EndOf(a, |Sign(at)|);
            && e <= |d| && Split(d, true).path == e
            && Split(d, true) == Layout(false, 0, 0, e, e, Split(d, true).query, Split(d, true).query, |d|)
            && Legal(d, Split(d, true))
  {
    hide IsTarget, Find, EndOf, LegalAt, NothingMore;
    var e := EndOf(a, |Sign(at)|);
    TargetMore(d, at, a, more);
    forall k | 0 <= k < e ensures d[k] !in {'/', '?'} { TargetByte(d, at, a, more, k); }
    if e < |d| { MoreStarts(d, e); }
    FindIs(d, 0, |d|, {'/', '?'}, e);
    TargetSplit(d, e);
    forall k | 0 <= k < |d| ensures LegalAt(d, Split(d, true), k) { TargetLegalAt(d, at, a, more, k); }
  }

  lemma TargetLegalAt(d: string, at: bool, a: Authority, more: string, k: nat)
    requires IsTarget(d, at, a, more) && k < |d|
    requires var l := Split(d, true); var e := EndOf(a, |Sign(at)|);
             !l.absolute && l.authority == 0 && l.path == e == l.pathEnd && l.query == l.queryEnd && l.fragment == |d|
    ensures LegalAt(d, Split(d, true), k)
  {
    hide IsTarget, EndOf, HostOf, Split;
    if k < EndOf(a, |Sign(at)|) {
      TargetByte(d, at, a, more, k);
      if k > 0 { TargetByte(d, at, a, more, k - 1); }
    }
  }

  /** A host and a port, behind an '@' or not, with an empty query and empty fragments or not, are accepted, and are
      told apart. */
  lemma TargetAccepted(d: string, at: bool, a: Authority, more: string)
    requires IsTarget(d, at, a, more)
    ensures Accepts(d, true) && PortOf(d, true) == Decimal(a.port)
    ensures Cut(d, Where(d, true, UfHost)) == a.host.text && Cut(d, Where(d, true, UfPort)) == a.port
  {
    hide PrintAuthority, AuthorityLies, AuthorityOk, Legal, HostFine, SplitHost, Find, Decimal, Split, NothingMore;
    var i := |Sign(at)|;
    var e := EndOf(a, i);
    TargetLays(d, at, a, more);
    TargetLayout(d, at, a, more);
    SignedSplit(d, at, e);
    SignedFine(d, at, e);
    PortSmall(a);
    HostCuts(d, a, i);
    HostNonEmpty(a);
  }

  // ---- an accepted target is one ----

  /** The host and the port that the delimiters cut. */
  function AuthorityIn(d: string): Authority {
    var e := Split(d, true).path;
    var h := SplitHost(d, 0, e);
    var host := d[h.name..h.nameEnd];
    Authority("", if h.v6 then Bracketed(host) else Name(host), d[h.port..e])
  }

  lemma AcceptedParts(d: string)
    requires Accepts(d, true)
    ensures var l := Split(d, true); var e := l.path; var h := SplitHost(d, 0, e);
            && l.authority == 0 && HostFine(d, 0, e) && (h.found ==> h.at == 0) && h.name < h.nameEnd && h.port < e
            && Decimal(d[h.port..e]) <= 0xFFFF && NothingMore(d[e..])
  {
    hide Decimal, HostFine;
    var l := Split(d, true);
    var e := l.path;
    assert Where(d, true, UfUserinfo).len == 0 && Where(d, true, UfHost).len > 0 && Where(d, true, UfPort).len > 0;
    assert Where(d, true, UfPath).len == 0 && Where(d, true, UfQuery).len == 0 && Where(d, true, UfFragment).len == 0;
    assert l.path == l.pathEnd && l.query == l.queryEnd && l.fragment == |d|;
    assert e < |d| ==> d[e] == '?' && forall k :: e < k < |d| ==> d[k] == '#';
  }

  /** The delimiters of a well-formed authority without user information, that has a port. */
  lemma FineMarks(d: string, e: nat)
    requires e <= |d| && HostFine(d, 0, e)
    requires var h := SplitHost(d, 0, e); (h.found ==> h.at == 0) && h.name < h.nameEnd && h.port < e
    ensures var h := SplitHost(d, 0, e);
            && h.host == |Sign(h.found)| && d[..h.host] == Sign(h.found)
            && h.port == h.colon + 1 && d[h.colon] == ':'
            && (if h.v6 then h.name == h.host + 1 && h.colon == h.nameEnd + 1 && d[h.host] == '[' && d[h.nameEnd] == ']'
                else h.name == h.host && h.colon == h.nameEnd)
  {
    assert HostLegalAt(d, SplitHost(d, 0, e), SplitHost(d, 0, e).colon);
    hide Find;
  }

  lemma AcceptedHost(d: string)
    requires Accepts(d, true)
    ensures HostAndPort(AuthorityIn(d))
  {
    hide Split, SplitHost, Decimal, Accepts;
    AcceptedParts(d);
    var e := Split(d, true).path;
    FineMarks(d, e);
    var h := SplitHost(d, 0, e);
    forall k | h.name <= k < h.nameEnd ensures if h.v6 then V6Byte(d[k]) else IsHostChar(d[k]) {
      assert HostLegalAt(d, h, k);
    }
    forall k | h.port <= k < e ensures IsNum(d[k]) { assert HostLegalAt(d, h, k); }
  }

  lemma HostPrints(d: string, host: nat, name: nat, nameEnd: nat, colon: nat, h: HostText)
    requires host <= name <= nameEnd <= colon <= |d| && h.text == d[name..nameEnd]
    requires if h.Name? then name == host && colon == nameEnd
             else name == host + 1 && colon == nameEnd + 1 && d[host] == '[' && d[nameEnd] == ']'
    ensures d[host..colon] == PrintHost(h)
  {
  }

  lemma PortPrints(d: string, colon: nat, e: nat)
    requires colon + 1 < e <= |d| && d[colon] == ':'
    ensures d[colon..e] == Prefixed(':', d[colon + 1..e])
  {
  }

  lemma AcceptedText(d: string)
    requires Accepts(d, true)
    ensures var l := Split(d, true); var h := SplitHost(d, 0, l.path);
            d == Sign(h.found) + (PrintAuthority(AuthorityIn(d)) + d[l.path..])
  {
    hide Split, SplitHost, Decimal, Accepts, NothingMore, HostFine, PrintHost, Prefixed, Sign;
    AcceptedParts(d);
    var e := Split(d, true).path;
    FineMarks(d, e);
    var h, a := SplitHost(d, 0, e), AuthorityIn(d);
    HostPrints(d, h.host, h.name, h.nameEnd, h.colon, a.host);
    PortPrints(d, h.colon, e);
    assert PrintAuthority(a) == "" + (d[h.host..h.colon] + d[h.colon..e]) == d[h.host..e];
    assert d == d[..h.host] + (d[h.host..e] + d[e..]);
  }

  lemma AcceptedTarget(d: string)
    requires Accepts(d, true)
    ensures var l := Split(d, true); IsTarget(d, SplitHost(d, 0, l.path).found, AuthorityIn(d), d[l.path..])
  {
    hide Accepts, HostAndPort, NothingMore, PrintAuthority;
    AcceptedParts(d);
    AcceptedHost(d);
    AcceptedText(d);
  }

  /** Exactly which targets of CONNECT are accepted. */
  lemma ConnectTargets(d: string)
    ensures Accepts(d, true) <==> exists at, a, more :: IsTarget(d, at, a, more)
  {
    hide Accepts, IsTarget;
    if Accepts(d, true) { AcceptedTarget(d); }
    if at, a, more :| IsTarget(d, at, a, more) { TargetAccepted(d, at, a, more); }
  }

  // ---- hostname:port ----

  predicate IsHostAndPort(d: string, a: Authority) {
    HostAndPort(a) && d == PrintAuthority(a)
  }

  lemma TargetMarks(d: string, at: bool, a: Authority, more: string)
    requires IsTarget(d, at, a, more)
    ensures ('@' in d <==> at) && ('?' in d <==> more != "")
  {
    hide PrintAuthority, HostAndPort, AuthorityLies, HostFine, SplitHost, HostOf, EndOf, Find;
    TargetLays(d, at, a, more);
    var e := EndOf(a, |Sign(at)|);
    forall k | 0 <= k < |d| ensures (d[k] == '@' <==> at && k == 0) && (d[k] == '?' <==> k == e) {
      if k < e { TargetByte(d, at, a, more, k); } else { assert d[k] == more[k - e]; }
    }
  }

  /** An accepted target of CONNECT is a host and a port and nothing else exactly when it has neither '?' nor '@'. */
  lemma ConnectExact(d: string)
    requires Accepts(d, true)
    ensures (exists a :: IsHostAndPort(d, a)) <==> '?' !in d && '@' !in d
  {
    hide Accepts, HostAndPort, PrintAuthority, NothingMore;
    if a :| IsHostAndPort(d, a) {
      assert d == Sign(false) + (PrintAuthority(a) + "");
      assert NothingMore("") by { NoMore(); }
      TargetMarks(d, false, a, "");
    }
    if '?' !in d && '@' !in d {
      var l := Split(d, true);
      var at, a, more := SplitHost(d, 0, l.path).found, AuthorityIn(d), d[l.path..];
      AcceptedTarget(d);
      TargetMarks(d, at, a, more);
      assert d == Sign(false) + (PrintAuthority(a) + "") == PrintAuthority(a);
      assert IsHostAndPort(d, a);
    }
  }

  lemma NoMore()
    ensures NothingMore("")
  {
  }

  /** What CONNECT takes: a host and a port. */
  lemma ConnectRoundTrip(a: Authority)
    requires HostAndPort(a)
    ensures var d := PrintAuthority(a);
            && Accepts(d, true) && PortOf(d, true) == Decimal(a.port)
            && Cut(d, Where(d, true, UfHost)) == a.host.text && Cut(d, Where(d, true, UfPort)) == a.port
  {
    hide Accepts, HostAndPort, PrintAuthority, NothingMore, PortOf, Where, Cut;
    var d := PrintAuthority(a);
    assert d == Sign(false) + (d + "");
    NoMore();
    TargetAccepted(d, false, a, "");
  }

  /** Only host and port are set. */
  lemma ConnectFields(d: string, f: UrlField)
    requires Accepts(d, true)
    ensures Where(d, true, f).len > 0 <==> f.UfHost? || f.UfPort?
  {
  }

  // ---- targets that are not hostname:port ----

  const SMALL := Authority("", Name("a"), "1")

  lemma SmallPrints()
    ensures HostAndPort(SMALL) && PrintAuthority(SMALL) == "a:1"
  {
    assert Decimal("1") == 1;
  }

  /** "a:1?" and "@a:1" are accepted for CONNECT. */
  lemma ConnectExample()
    ensures Accepts("a:1?", true) && Accepts("@a:1", true)
  {
    hide Accepts, HostAndPort, PrintAuthority, PortOf, Cut, Where;
    SmallPrints();
    NoMore();
    SmallTarget(false, "?");
    SmallTarget(true, "");
    assert Sign(false) + ("a:1" + "?") == "a:1?" && Sign(true) + ("a:1" + "") == "@a:1";
  }

  lemma SmallTarget(at: bool, more: string)
    requires NothingMore(more)
    ensures Accepts(Sign(at) + ("a:1" + more), true)
  {
    hide Accepts, HostAndPort, PrintAuthority, PortOf, Cut, Where, NothingMore, Sign;
    SmallPrints();
    TargetAccepted(Sign(at) + ("a:1" + more), at, SMALL, more);
  }
}
