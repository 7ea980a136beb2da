/** The URL splitter http_parser_parse_url and its second pass http_parse_host, proved against the parts that
    the delimiters cut. */
module UrlParser {
  import opened Chars
  import opened ParserTypes
  import opened UrlLayout
  import opened UrlHost

  /** The enum http_parser_url_fields. */
  datatype UrlField = UfSchema | UfHost | UfPort | UfPath | UfQuery | UfFragment | UfUserinfo

  const ALL_FIELDS: set<UrlField> := {UfSchema, UfHost, UfPort, UfPath, UfQuery, UfFragment, UfUserinfo}

  lemma AllFields(f: UrlField)
    ensures f in ALL_FIELDS
  {
  }

  datatype Slice = Slice(off: nat, len: nat)

  datatype Current = NoField | At(field: UrlField)

  predicate Holds(s: Slice, k: int) {
    s.off <= k < s.off + s.len
  }

  /** The field that a byte belongs to, by the state it leads to. */
  function FieldOf(s: UrlState): Current {
    match s
    case Schema => At(UfSchema)
    case Server => At(UfHost)
    case ServerWithAt => At(UfHost)
    case Path => At(UfPath)
    case Query => At(UfQuery)
    case Fragment => At(UfFragment)
    case _ => NoField
  }

  /** The fields of the first pass; the whole authority counts as the host. */
  function Raw(l: Layout, n: nat, f: UrlField): Slice
    requires l.schema <= l.authority <= l.path <= l.pathEnd <= l.query <= l.queryEnd <= l.fragment <= n
  {
    match f
    case UfSchema => Slice(0, l.schema)
    case UfHost => Slice(l.authority, l.path - l.authority)
    case UfPath => Slice(l.path, l.pathEnd - l.path)
    case UfQuery => Slice(l.query, l.queryEnd - l.query)
    case UfFragment => Slice(l.fragment, n - l.fragment)
    case _ => Slice(0, 0)
  }

  /** Where a field of a URL is; empty when the URL has none. */
  function Where(d: string, connect: bool, f: UrlField): (s: Slice)
    ensures s.off + s.len <= |d|
  {
    var l := Split(d, connect);
    var h := SplitHost(d, l.authority, l.path);
    match f
    case UfUserinfo => Slice(l.authority, if h.found then h.at - l.authority else 0)
    case UfHost => Slice(h.name, h.nameEnd - h.name)
    case UfPort => Slice(h.port, l.path - h.port)
    case _ => Raw(l, |d|, f)
  }

  function Cut(d: string, s: Slice): string
    requires s.off + s.len <= |d|
  {
    d[s.off..s.off + s.len]
  }

  /** The number that a string of digits stands for. */
  function Decimal(s: string): nat {
    if s == "" || !IsNum(s[|s| - 1]) then 0 else Decimal(s[..|s| - 1]) * 10 + Digit(s[|s| - 1])
  }

  function PortOf(d: string, connect: bool): nat {
    Decimal(Cut(d, Where(d, connect, UfPort)))
  }

  /** What http_parser_parse_url accepts. */
  predicate Accepts(d: string, connect: bool) {
    var l := Split(d, connect);
    && Legal(d, l)
    && (connect || l.absolute ==> HostFine(d, l.authority, l.path))
    && (connect ==> forall f :: Where(d, connect, f).len > 0 <==> f.UfHost? || f.UfPort?)
    && PortOf(d, connect) <= 0xFFFF
  }

  lemma FieldExact(d: string, connect: bool, p: nat, f: UrlField)
    requires p < |d|
    ensures var l := Split(d, connect);
            LegalAt(d, l, p) ==> (FieldOf(Expected(d, connect, l, p + 1)) == At(f) <==> Holds(Raw(l, |d|, f), p))
  {
  }

  lemma AtExact(d: string, connect: bool, p: nat)
    requires p < |d|
    ensures var l := Split(d, connect);
            Expected(d, connect, l, p + 1) == ServerWithAt <==> l.authority <= p < l.path && d[p] == '@'
  {
  }

  // ---- reading fields byte by byte ----

  /** What a pass knows of the field `f`, which is at `r`, before byte `p`: it is set once its first byte is
      read, and its slice ends at `p` while more of it may come. */
  predicate FieldScanned(r: Slice, p: nat, f: UrlField, fields: set<UrlField>, slice: Slice, current: Current) {
    && (f in fields <==> r.len > 0 && r.off < p)
    && (f in fields ==> slice == if Holds(r, p) then Slice(r.off, p - r.off) else r)
    && (f in fields && Holds(r, p) ==> current == At(f))
    && (current == At(f) ==> f in fields)
    && (f.UfHost? && f !in fields ==> slice.len == 0)
  }

  type Parts = UrlField -> Slice

  ghost predicate Scanned(parts: Parts, p: nat, fields: set<UrlField>, data: map<UrlField, Slice>, current: Current) {
    forall f: UrlField :: f in data && FieldScanned(parts(f), p, f, fields, data[f], current)
  }

  /** Byte `p` is in the part `c` and in no other. */
  ghost predicate Only(parts: Parts, p: nat, c: Current) {
    forall f: UrlField :: Holds(parts(f), p) <==> c == At(f)
  }

  /** A byte of no field. */
  lemma ScanNothing(parts: Parts, p: nat, fields: set<UrlField>, data: map<UrlField, Slice>, current: Current)
    requires Scanned(parts, p, fields, data, current) && Only(parts, p, NoField)
    ensures Scanned(parts, p + 1, fields, data, current) && Scanned(parts, p + 1, fields, data, NoField)
  {
  }

  /** One more byte of the current field. */
  lemma ScanMore(parts: Parts, p: nat, fields: set<UrlField>, data: map<UrlField, Slice>, f: UrlField)
    requires Scanned(parts, p, fields, data, At(f)) && Only(parts, p, At(f))
    ensures f in data && f in fields
            && Scanned(parts, p + 1, fields, data[f := Slice(data[f].off, data[f].len + 1)], At(f))
  {
    assert f in data && FieldScanned(parts(f), p, f, fields, data[f], At(f));
    assert f in fields;
    hide FieldScanned;
    var data' := data[f := Slice(data[f].off, data[f].len + 1)];
    forall g: UrlField
      ensures g in data' && FieldScanned(parts(g), p + 1, g, fields, data'[g], At(f))
    {
      assert g in data && FieldScanned(parts(g), p, g, fields, data[g], At(f));
      FieldMore(parts(g), p, g, fields, data[g], f);
    }
  }

  lemma FieldMore(r: Slice, p: nat, g: UrlField, fields: set<UrlField>, slice: Slice, f: UrlField)
    requires FieldScanned(r, p, g, fields, slice, At(f)) && (Holds(r, p) <==> g == f)
    ensures FieldScanned(r, p + 1, g, fields, if g == f then Slice(slice.off, slice.len + 1) else slice, At(f))
  {
  }

  /** The first byte of a field. */
  lemma ScanFirst(parts: Parts, p: nat, fields: set<UrlField>, data: map<UrlField, Slice>, current: Current,
    f: UrlField)
    requires Scanned(parts, p, fields, data, current) && current != At(f) && Only(parts, p, At(f))
    ensures Scanned(parts, p + 1, fields + {f}, data[f := Slice(p, 1)], At(f))
    ensures f in data && f !in fields
  {
    hide FieldScanned;
    var data' := data[f := Slice(p, 1)];
    forall g: UrlField
      ensures g in data' && FieldScanned(parts(g), p + 1, g, fields + {f}, data'[g], At(f)) && (g == f ==> g !in fields)
    {
      assert g in data && FieldScanned(parts(g), p, g, fields, data[g], current);
      FieldFirst(parts(g), p, g, fields, data[g], current, f);
    }
  }

  lemma FieldFirst(r: Slice, p: nat, g: UrlField, fields: set<UrlField>, slice: Slice, current: Current, f: UrlField)
    requires FieldScanned(r, p, g, fields, slice, current) && (Holds(r, p) <==> g == f) && current != At(f)
    ensures FieldScanned(r, p + 1, g, fields + {f}, if g == f then Slice(p, 1) else slice, At(f))
    ensures g == f ==> g !in fields
  {
  }

  // ---- the two passes ----

  function RawParts(d: string, connect: bool): Parts {
    var l := Split(d, connect);
    (f: UrlField) => Raw(l, |d|, f)
  }

  lemma ScanStep(d: string, connect: bool, p: nat)
    requires p < |d| && UrlChar.After(Start(connect), d, p) != UrlDead
    ensures var l := Split(d, connect);
            var s := UrlChar.After(Start(connect), d, p + 1);
            && s == UrlChar.Next(UrlChar.After(Start(connect), d, p), d[p])
            && (if s == UrlDead then !Legal(d, l) else LegalAt(d, l, p) && Only(RawParts(d, connect), p, FieldOf(s)))
            && (s == ServerWithAt ==> l.authority <= p < l.path && d[p] == '@')
            && (s != ServerWithAt && s != UrlDead ==> !(l.authority <= p < l.path && d[p] == '@'))
  {
    hide UrlChar.Next, LegalAt, Expected, Split, FieldOf;
    var l := Split(d, connect);
    ScanExact(d, connect, p);
    ScanExact(d, connect, p + 1);
    AtExact(d, connect, p);
    NeverExpected(d, connect, l, p + 1);
    forall f: UrlField { FieldExact(d, connect, p, f); }
  }

  lemma ScanEnd(d: string, connect: bool)
    requires UrlChar.After(Start(connect), d, |d|) != UrlDead
    ensures Legal(d, Split(d, connect))
  {
    hide UrlChar.Next, LegalAt, Expected, Split;
    ScanExact(d, connect, |d|);
  }

  function HostField(s: HostState): Current {
    match s
    case Userinfo => At(UfUserinfo)
    case Host => At(UfHost)
    case V6 => At(UfHost)
    case Port => At(UfPort)
    case _ => NoField
  }

  function HostParts(d: string, from: nat, to: nat): Parts
    requires from <= to <= |d|
  {
    var h := SplitHost(d, from, to);
    (f: UrlField) =>
      match f
      case UfUserinfo => Slice(from, if h.found then h.at - from else 0)
      case UfHost => Slice(h.name, h.nameEnd - h.name)
      case UfPort => Slice(h.port, to - h.port)
      case _ => Slice(0, 0)
  }

  lemma HostPartExact(d: string, from: nat, to: nat, p: nat)
    requires from <= p < to <= |d| && HostLegalAt(d, SplitHost(d, from, to), p)
    ensures Only(HostParts(d, from, to), p, HostField(ExpectedHost(SplitHost(d, from, to), from, p + 1)))
  {
    hide Find, HostLegalAt;
  }

  lemma HostBegins(d: string, from: nat, to: nat, data: map<UrlField, Slice>)
    requires from <= to <= |d| && (forall f: UrlField :: f in data) && data[UfHost].len == 0
    ensures var h := SplitHost(d, from, to);
            && Scanned(HostParts(d, from, to), from, {}, data, NoField)
            && ExpectedHost(h, from, from) == (if h.found then UserinfoStart else HostStart)
            && HostField(UserinfoStart).NoField? && HostField(HostStart).NoField?
  {
  }

  /** The fields that are not seen keep their slices; the host bit is not touched. */
  ghost predicate Kept(seen: set<UrlField>, fields: set<UrlField>, data: map<UrlField, Slice>,
                       fields0: set<UrlField>, data0: map<UrlField, Slice>)
  {
    && fields == fields0 + (seen - {UfHost})
    && forall f: UrlField :: f in data && f in data0 && (f !in seen && !f.UfHost? ==> data[f] == data0[f])
  }

  lemma KeptBegins(fields: set<UrlField>, data: map<UrlField, Slice>, slice: Slice)
    requires forall f: UrlField :: f in data
    ensures Kept({}, fields, data[UfHost := slice], fields, data)
  {
  }

  lemma KeptMore(seen: set<UrlField>, fields: set<UrlField>, data: map<UrlField, Slice>, fields0: set<UrlField>,
                 data0: map<UrlField, Slice>, f: UrlField, slice: Slice)
    requires Kept(seen, fields, data, fields0, data0)
    ensures f in seen ==> Kept(seen, fields, data[f := slice], fields0, data0)
    ensures Kept(seen + {f}, if f.UfHost? then fields else fields + {f}, data[f := slice], fields0, data0)
  {
  }

  /** What the second pass leaves alone. */
  ghost predicate Beside(parts: Parts, fields: set<UrlField>, data: map<UrlField, Slice>,
                         fields0: set<UrlField>, data0: map<UrlField, Slice>)
  {
    forall f: UrlField ::
      && f in data && f in data0
      && (!f.UfUserinfo? && !f.UfPort? ==> (f in fields <==> f in fields0))
      && (parts(f).len == 0 && !f.UfHost? ==> data[f] == data0[f])
  }

  /** The user information, the host and the port are set to their parts. */
  ghost predicate Found(parts: Parts, fields: set<UrlField>, data: map<UrlField, Slice>) {
    && (UfUserinfo in fields <==> parts(UfUserinfo).len > 0)
    && (UfPort in fields <==> parts(UfPort).len > 0)
    && (forall f: UrlField :: parts(f).len > 0 ==> f in data && data[f] == parts(f))
  }

  lemma HostKept(d: string, from: nat, to: nat, p: nat, seen: set<UrlField>, current: Current, fields: set<UrlField>,
                 data: map<UrlField, Slice>, fields0: set<UrlField>, data0: map<UrlField, Slice>)
    requires from <= to <= |d| && Scanned(HostParts(d, from, to), p, seen, data, current)
    requires Kept(seen, fields, data, fields0, data0)
    ensures Beside(HostParts(d, from, to), fields, data, fields0, data0)
  {
    var parts := HostParts(d, from, to);
    forall f: UrlField
      ensures f in seen ==> parts(f).len > 0 && (f.UfUserinfo? || f.UfHost? || f.UfPort?)
    {
      assert f in data && FieldScanned(parts(f), p, f, seen, data[f], current);
    }
  }

  /** Everything is read: the fields are the parts. */
  lemma HostDone(d: string, from: nat, to: nat, seen: set<UrlField>, current: Current, fields: set<UrlField>,
                 data: map<UrlField, Slice>, fields0: set<UrlField>, data0: map<UrlField, Slice>)
    requires from <= to <= |d| && Scanned(HostParts(d, from, to), to, seen, data, current)
    requires Kept(seen, fields, data, fields0, data0) && UfUserinfo !in fields0 && UfPort !in fields0
    ensures Found(HostParts(d, from, to), fields, data)
  {
    var parts := HostParts(d, from, to);
    forall f: UrlField
      ensures (f in seen <==> parts(f).len > 0) && (parts(f).len > 0 ==> f in data && data[f] == parts(f))
    {
      assert f in data && FieldScanned(parts(f), to, f, seen, data[f], current);
    }
  }

  lemma DeadHost(d: string, from: nat, to: nat, k: nat)
    requires from <= k < to <= |d| && NextHost(ExpectedHost(SplitHost(d, from, to), from, k), d[k]).HostDead?
    ensures !HostFine(d, from, to)
  {
    hide NextHost, Find, HostLegalAt;
    HostStep(d, from, to, k);
    var h := SplitHost(d, from, to);
    assert !HostLegalAt(d, h, k);
  }

  /** One byte of an authority. */
  lemma HostByte(d: string, from: nat, to: nat, p: nat, s: HostState, seen: set<UrlField>, data: map<UrlField, Slice>)
    requires from <= p < to <= |d| && s == ExpectedHost(SplitHost(d, from, to), from, p)
    requires Scanned(HostParts(d, from, to), p, seen, data, HostField(s))
    ensures var parts, next := HostParts(d, from, to), NextHost(s, d[p]);
            if next.HostDead? then !HostFine(d, from, to)
            else
              && next == ExpectedHost(SplitHost(d, from, to), from, p + 1) && HostLegalAt(d, SplitHost(d, from, to), p)
              && match HostField(next)
                 case NoField => Scanned(parts, p + 1, seen, data, NoField)
                 case At(f) =>
                   f in data &&
                   if HostField(s) == At(f) then
                     f in seen && Scanned(parts, p + 1, seen, data[f := Slice(data[f].off, data[f].len + 1)], At(f))
                   else Scanned(parts, p + 1, seen + {f}, data[f := Slice(p, 1)], At(f))
  {
    hide NextHost, Scanned, SplitHost, HostLegalAt, ExpectedHost, HostFine, HostField, HostParts, Only;
    var parts, next := HostParts(d, from, to), NextHost(s, d[p]);
    HostStep(d, from, to, p);
    if next.HostDead? {
      DeadHost(d, from, to, p);
    } else {
      HostPartExact(d, from, to, p);
      match HostField(next)
      case NoField => ScanNothing(parts, p, seen, data, HostField(s));
      case At(f) =>
        if HostField(s) == At(f) { ScanMore(parts, p, seen, data, f); }
        else { ScanFirst(parts, p, seen, data, HostField(s), f); }
    }
  }

  // ---- from the passes to the parts ----

  ghost predicate Filled(parts: Parts, fields: set<UrlField>, data: map<UrlField, Slice>) {
    forall f: UrlField :: f in data && (f in fields <==> parts(f).len > 0) && (f in fields ==> data[f] == parts(f))
  }

  function UrlParts(d: string, connect: bool): Parts {
    (f: UrlField) => Where(d, connect, f)
  }

  lemma RawFilled(d: string, connect: bool, fields: set<UrlField>, data: map<UrlField, Slice>, current: Current)
    requires Scanned(RawParts(d, connect), |d|, fields, data, current)
    ensures Filled(RawParts(d, connect), fields, data)
  {
    var parts := RawParts(d, connect);
    forall f: UrlField
      ensures f in data && (f in fields <==> parts(f).len > 0) && (f in fields ==> data[f] == parts(f))
    {
      assert f in data && FieldScanned(parts(f), |d|, f, fields, data[f], current);
    }
  }

  /** A URL without authority has no user information, host or port. */
  lemma NoAuthority(d: string, connect: bool, fields: set<UrlField>, data: map<UrlField, Slice>)
    requires Filled(RawParts(d, connect), fields, data) && !connect && !Split(d, connect).absolute
    ensures Filled(UrlParts(d, connect), fields, data) && UfSchema !in fields && UfHost !in fields
    ensures PortOf(d, connect) == 0
  {
    var l := Split(d, connect);
    assert l.path == 0 && l.schema == 0;
    forall f: UrlField
      ensures var here, raw := Where(d, connect, f), RawParts(d, connect)(f);
              here.len == raw.len && (here.len > 0 ==> here == raw)
    {
    }
  }

  lemma EmptyHost(d: string, from: nat)
    requires from <= |d|
    ensures !HostFine(d, from, from) && !SplitHost(d, from, from).found
  {
  }

  /** A legal authority has a host, and a port of digits only. */
  lemma FineHost(d: string, from: nat, to: nat)
    requires from <= to <= |d| && HostFine(d, from, to)
    ensures var parts := HostParts(d, from, to);
            && from < to && parts(UfHost).len > 0
            && forall k :: to - parts(UfPort).len <= k < to ==> IsNum(d[k])
  {
    var h := SplitHost(d, from, to);
    if h.v6 { assert HostLegalAt(d, h, h.nameEnd); }
    forall k | h.port <= k < to ensures IsNum(d[k]) { assert HostLegalAt(d, h, k); }
  }

  lemma AuthorityFilled(d: string, connect: bool, fields0: set<UrlField>, data0: map<UrlField, Slice>,
                        fields: set<UrlField>, data: map<UrlField, Slice>)
    requires Filled(RawParts(d, connect), fields0, data0)
    requires var l := Split(d, connect);
             HostFine(d, l.authority, l.path)
             && Beside(HostParts(d, l.authority, l.path), fields, data, fields0, data0)
             && Found(HostParts(d, l.authority, l.path), fields, data)
    ensures Filled(UrlParts(d, connect), fields, data)
  {
    hide HostFine, SplitHost, Split, Where, HostParts, RawParts;
    var l := Split(d, connect);
    FineHost(d, l.authority, l.path);
    var parts, raw, host := UrlParts(d, connect), RawParts(d, connect), HostParts(d, l.authority, l.path);
    forall f: UrlField
      ensures f in data && (f in fields <==> parts(f).len > 0) && (f in fields ==> data[f] == parts(f))
    {
      WhereIs(d, connect, f);
      assert f in data0 && (f in fields0 <==> raw(f).len > 0);
    }
  }

  /** The parts of the authority come from the second pass, the others from the first. */
  lemma WhereIs(d: string, connect: bool, f: UrlField)
    ensures var l := Split(d, connect);
            var inHost := f.UfUserinfo? || f.UfHost? || f.UfPort?;
            var host, raw := HostParts(d, l.authority, l.path)(f), RawParts(d, connect)(f);
            && UrlParts(d, connect)(f) == Where(d, connect, f) == (if inHost then host else raw)
            && (!inHost ==> host.len == 0)
            && (inHost && !f.UfHost? ==> raw.len == 0)
            && (f.UfHost? ==> raw == Slice(l.authority, l.path - l.authority))
  {
    hide Split, SplitHost;
  }

  /** The fields before the second pass. */
  lemma RawHost(d: string, connect: bool, fields: set<UrlField>, data: map<UrlField, Slice>)
    requires Filled(RawParts(d, connect), fields, data)
    ensures UfUserinfo !in fields && UfPort !in fields && forall f: UrlField :: f in data
    ensures var l := Split(d, connect);
            if UfHost in fields then UfHost in data && data[UfHost] == Slice(l.authority, l.path - l.authority)
            else l.path == l.authority
    ensures UfSchema in fields || UfHost in fields ==> connect || Split(d, connect).absolute
    ensures Legal(d, Split(d, connect)) && Split(d, connect).absolute ==> UfSchema in fields
  {
    assert UfUserinfo in data && UfPort in data && UfHost in data && UfSchema in data;
    if Legal(d, Split(d, connect)) && Split(d, connect).absolute { AbsoluteSchema(d, connect); }
  }

  lemma Refused(d: string, connect: bool)
    requires var l := Split(d, connect); !Legal(d, l) || ((connect || l.absolute) && !HostFine(d, l.authority, l.path))
    ensures !Accepts(d, connect)
  {
  }

  lemma RawBegins(d: string, connect: bool, data: map<UrlField, Slice>)
    requires (forall f: UrlField :: f in data) && data[UfHost].len == 0
    ensures Scanned(RawParts(d, connect), 0, {}, data, NoField)
  {
    hide Split;
  }

  lemma AbsoluteSchema(d: string, connect: bool)
    requires var l := Split(d, connect); Legal(d, l) && l.absolute
    ensures Split(d, connect).schema > 0
  {
    assert LegalAt(d, Split(d, connect), 0);
  }

  lemma PortEnds(d: string, connect: bool)
    requires var l := Split(d, connect); HostFine(d, l.authority, l.path)
    ensures var w := Where(d, connect, UfPort);
            && (forall k :: w.off <= k < w.off + w.len ==> IsNum(d[k]))
            && (w.off + w.len < |d| ==> !IsNum(d[w.off + w.len]))
  {
    hide HostFine, SplitHost;
    var l := Split(d, connect);
    FineHost(d, l.authority, l.path);
  }

  /** The checks that are left once the fields are filled. */
  lemma AcceptsExact(d: string, connect: bool, fields: set<UrlField>, data: map<UrlField, Slice>)
    requires Filled(UrlParts(d, connect), fields, data)
    requires var l := Split(d, connect); Legal(d, l) && (connect || l.absolute ==> HostFine(d, l.authority, l.path))
    ensures Accepts(d, connect) <==> (connect ==> fields == {UfHost, UfPort}) && PortOf(d, connect) <= 0xFFFF
    ensures if UfPort in fields then UfPort in data && data[UfPort] == Where(d, connect, UfPort)
            else PortOf(d, connect) == 0
  {
    hide Split, Legal, HostFine, Where;
    assert UfPort in data && (UfPort in fields <==> UrlParts(d, connect)(UfPort).len > 0);
    if connect && fields == {UfHost, UfPort} {
      forall f: UrlField ensures Where(d, connect, f).len > 0 <==> f.UfHost? || f.UfPort? {
        assert f in fields <==> UrlParts(d, connect)(f).len > 0;
      }
    }
    if connect && fields != {UfHost, UfPort} {
      var f :| (f in fields) != (f == UfHost || f == UfPort);
      assert f in fields <==> UrlParts(d, connect)(f).len > 0;
    }
  }

  /** strtoul on digits. */
  method Strtoul(buf: string, from: nat, ghost to: nat) returns (v: nat)
    requires from <= to <= |buf| && (forall k :: from <= k < to ==> IsNum(buf[k]))
    requires to < |buf| ==> !IsNum(buf[to])
    ensures v == Decimal(buf[from..to])
  {
    var p := from;
    v := 0;
    while p < |buf| && IsNum(buf[p])
      invariant from <= p <= to && v == Decimal(buf[from..p])
    {
      assert buf[from..p + 1][..p - from] == buf[from..p];
      v := v * 10 + Digit(buf[p]);
      p := p + 1;
    }
  }

  class HttpParserUrl {
    var fieldSet: set<UrlField>
    var port: nat
    var fieldData: map<UrlField, Slice>

    /** A zeroed struct. */
    constructor ()
      ensures fieldSet == {} && port == 0 && forall f: UrlField :: f in fieldData && fieldData[f] == Slice(0, 0)
    {
      fieldSet, port := {}, 0;
      fieldData := map f: UrlField | f in ALL_FIELDS :: Slice(0, 0);
      new;
      forall f: UrlField ensures f in ALL_FIELDS { AllFields(f); }
    }

    /** http_parse_host, on the authority that the first pass left in the host field. */
    method ParseHost(buf: string, foundAt: bool) returns (ok: bool)
      requires (forall f: UrlField :: f in fieldData) && fieldData[UfHost].off + fieldData[UfHost].len <= |buf|
      requires UfUserinfo !in fieldSet && UfPort !in fieldSet
      requires var from := fieldData[UfHost].off;
               foundAt <==> SplitHost(buf, from, from + fieldData[UfHost].len).found
      modifies this`fieldSet, this`fieldData
      ensures var from, to := old(fieldData[UfHost].off), old(fieldData[UfHost].off + fieldData[UfHost].len);
              var parts := HostParts(buf, from, to);
              && (ok <==> HostFine(buf, from, to))
              && Beside(parts, fieldSet, fieldData, old(fieldSet), old(fieldData))
              && (ok ==> Found(parts, fieldSet, fieldData))
    {
      hide NextHost, Scanned, SplitHost, HostLegalAt, ExpectedHost, HostFine, HostField, HostParts, HostEnds, Beside,
        Found, Kept;
      var from, to := fieldData[UfHost].off, fieldData[UfHost].off + fieldData[UfHost].len;
      ghost var h, parts, seen := SplitHost(buf, from, to), HostParts(buf, from, to), {};
      KeptBegins(fieldSet, fieldData, Slice(from, 0));
      fieldData := fieldData[UfHost := Slice(from, 0)];
      HostBegins(buf, from, to, fieldData);
      var s := if foundAt then UserinfoStart else HostStart;
      var p := from;
      while p < to
        invariant from <= p <= to && s == ExpectedHost(h, from, p)
        invariant forall k :: from <= k < p ==> HostLegalAt(buf, h, k)
        invariant Scanned(parts, p, seen, fieldData, HostField(s))
        invariant Kept(seen, fieldSet, fieldData, old(fieldSet), old(fieldData))
      {
        HostByte(buf, from, to, p, s, seen, fieldData);
        var next := NextHost(s, buf[p]);
        if next.HostDead? {
          HostKept(buf, from, to, p, seen, HostField(s), fieldSet, fieldData, old(fieldSet), old(fieldData));
          return false;
        }
        match HostField(next) {
          case NoField =>
          case At(f) =>
            if HostField(s) == At(f) {
              KeptMore(seen, fieldSet, fieldData, old(fieldSet), old(fieldData), f,
                Slice(fieldData[f].off, fieldData[f].len + 1));
              fieldData := fieldData[f := Slice(fieldData[f].off, fieldData[f].len + 1)];
            } else {
              KeptMore(seen, fieldSet, fieldData, old(fieldSet), old(fieldData), f, Slice(p, 1));
              seen := seen + {f};
              fieldData := fieldData[f := Slice(p, 1)];
              if !f.UfHost? { fieldSet := fieldSet + {f}; }
            }
        }
        p := p + 1;
        s := next;
      }
      ok := HostEnds(s);
      HostEndExact(buf, from, to);
      HostKept(buf, from, to, p, seen, HostField(s), fieldSet, fieldData, old(fieldSet), old(fieldData));
      HostDone(buf, from, to, seen, HostField(s), fieldSet, fieldData, old(fieldSet), old(fieldData));
    }

    /** The loop of http_parser_parse_url. */
    method Scan(buf: string, isConnect: bool) returns (alive: bool, foundAt: bool)
      requires (forall f: UrlField :: f in fieldData) && fieldData[UfHost] == Slice(0, 0) && fieldSet == {}
      modifies this`fieldSet, this`fieldData
      ensures alive <==> Legal(buf, Split(buf, isConnect))
      ensures alive ==> Filled(RawParts(buf, isConnect), fieldSet, fieldData)
      ensures alive && UfHost !in fieldSet ==> fieldData[UfHost] == Slice(0, 0)
      ensures var l := Split(buf, isConnect); alive ==> (foundAt <==> SplitHost(buf, l.authority, l.path).found)
    {
      hide UrlChar.Next, Split, Scanned, Only, FieldOf, Legal, LegalAt;
      ghost var l, parts := Split(buf, isConnect), RawParts(buf, isConnect);
      var s := Start(isConnect);
      var current := NoField;
      foundAt := false;
      var p := 0;
      RawBegins(buf, isConnect, fieldData);
      while p < |buf|
        invariant 0 <= p <= |buf| && s == UrlChar.After(Start(isConnect), buf, p) && s != UrlDead
        invariant Scanned(parts, p, fieldSet, fieldData, current)
        invariant UfHost !in fieldSet ==> UfHost in fieldData && fieldData[UfHost] == Slice(0, 0)
        invariant foundAt <==> exists k :: l.authority <= k < l.path && k < p && buf[k] == '@'
      {
        ScanStep(buf, isConnect, p);
        s := UrlChar.Next(s, buf[p]);
        if s == UrlDead { return false, foundAt; }
        if s == ServerWithAt { foundAt := true; }
        match FieldOf(s) {
          case NoField => ScanNothing(parts, p, fieldSet, fieldData, current);
          case At(uf) =>
            if current == At(uf) {
              ScanMore(parts, p, fieldSet, fieldData, uf);
              fieldData := fieldData[uf := Slice(fieldData[uf].off, fieldData[uf].len + 1)];
            } else {
              ScanFirst(parts, p, fieldSet, fieldData, current, uf);
              fieldData := fieldData[uf := Slice(p, 1)];
              fieldSet := fieldSet + {uf};
              current := At(uf);
            }
        }
        p := p + 1;
      }
      alive := true;
      ScanEnd(buf, isConnect);
      RawFilled(buf, isConnect, fieldSet, fieldData, current);
    }

    /** http_parser_parse_url. The caller clears the struct, whose offsets have 16 bits. */
    method ParseUrl(buf: string, isConnect: bool) returns (ok: bool)
      requires |buf| <= 0xFFFF
      requires (forall f: UrlField :: f in fieldData) && fieldData[UfHost] == Slice(0, 0)
      modifies this
      ensures ok <==> Accepts(buf, isConnect)
      ensures ok ==> Filled(UrlParts(buf, isConnect), fieldSet, fieldData)
      ensures ok ==> port == if UfPort in fieldSet then PortOf(buf, isConnect) else 0
    {
      hide Split, SplitHost, Legal, HostFine, HostParts, RawParts, Beside, Found, Accepts, Filled, UrlParts, Where;
      port, fieldSet := 0, {};
      var alive, foundAt := Scan(buf, isConnect);
      if !alive {
        Refused(buf, isConnect);
        return false;
      }
      ghost var l, fields0, data0 := Split(buf, isConnect), fieldSet, fieldData;
      RawHost(buf, isConnect, fieldSet, fieldData);
      EmptyHost(buf, 0);
      EmptyHost(buf, l.authority);
      if UfSchema in fieldSet || UfHost in fieldSet {
        var fine := ParseHost(buf, foundAt);
        if !fine {
          Refused(buf, isConnect);
          return false;
        }
        AuthorityFilled(buf, isConnect, fields0, data0, fieldSet, fieldData);
        AcceptsExact(buf, isConnect, fieldSet, fieldData);
        PortEnds(buf, isConnect);
      } else if isConnect {
        Refused(buf, isConnect);
      } else {
        NoAuthority(buf, isConnect, fieldSet, fieldData);
        AcceptsExact(buf, isConnect, fieldSet, fieldData);
      }
      if isConnect && fieldSet != {UfHost, UfPort} { return false; }
      if UfPort in fieldSet {
        var v := Strtoul(buf, fieldData[UfPort].off, fieldData[UfPort].off + fieldData[UfPort].len);
        if v > 0xFFFF { return false; }
        port := v;
      }
      ok := true;
    }
  }
}
