/** What the parts of an accepted URL look like, and that splitting inverts printing. */
module UrlPrint {
  import opened UrlLayout
  import opened UrlHost
  import opened UrlParser

  // ---- accepted URLs ----

  /** The order of the fields in a URL. */
  function Order(f: UrlField): nat {
    match f
    case UfSchema => 0
    case UfUserinfo => 1
    case UfHost => 2
    case UfPort => 3
    case UfPath => 4
    case UfQuery => 5
    case UfFragment => 6
  }

  /** The fields are disjoint and in order. */
  lemma InOrder(d: string, connect: bool, f: UrlField, g: UrlField)
    requires Order(f) < Order(g)
    ensures Where(d, connect, f).off + Where(d, connect, f).len <= Where(d, connect, g).off
  {
  }

  predicate Delimiter(ch: char) {
    ch == ':' || ch == '/' || ch == '@' || ch == '[' || ch == ']' || ch == '?' || ch == '#'
  }

  predicate Covered(d: string, connect: bool, k: nat) {
    exists f: UrlField :: Holds(Where(d, connect, f), k)
  }

  /** No byte of an accepted URL is lost, delimiters apart. */
  lemma NothingLost(d: string, connect: bool, k: nat)
    requires Accepts(d, connect) && k < |d|
    ensures Covered(d, connect, k) || Delimiter(d[k])
  {
    hide SplitHost, HostFine, Decimal, Find, SkipHashes;
    var l := Split(d, connect);
    assert LegalAt(d, l, k);
    if l.authority <= k < l.path {
      AuthorityCovered(d, connect, k);
    } else if k < l.schema { assert Holds(Where(d, connect, UfSchema), k); }
    else if l.path <= k < l.pathEnd { assert Holds(Where(d, connect, UfPath), k); }
    else if l.query <= k < l.queryEnd { assert Holds(Where(d, connect, UfQuery), k); }
    else if l.fragment <= k { assert Holds(Where(d, connect, UfFragment), k); }
  }

  lemma AuthorityCovered(d: string, connect: bool, k: nat)
    requires var l := Split(d, connect); l.authority <= k < l.path && HostFine(d, l.authority, l.path)
    ensures Covered(d, connect, k) || Delimiter(d[k])
  {
    hide Split;
    var l := Split(d, connect);
    var h := SplitHost(d, l.authority, l.path);
    assert HostLegalAt(d, h, k);
    if h.found && k < h.at { assert Holds(Where(d, connect, UfUserinfo), k); }
    else if h.name <= k < h.nameEnd { assert Holds(Where(d, connect, UfHost), k); }
    else if h.port <= k { assert Holds(Where(d, connect, UfPort), k); }
  }

  /** A set schema implies a set host; the port has 16 bits. */
  lemma SchemaHasHost(d: string, connect: bool)
    requires Accepts(d, connect) && Where(d, connect, UfSchema).len > 0
    ensures Where(d, connect, UfHost).len > 0 && PortOf(d, connect) <= 0xFFFF
  {
    var l := Split(d, connect);
    FineHost(d, l.authority, l.path);
  }
}
