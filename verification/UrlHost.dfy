/** The authority part of a URL: its automaton, and where its parts are, told from its delimiters alone. */
module UrlHost {
  import opened Chars
  import opened UrlLayout

  /** The enum http_host_state. */
  datatype HostState = HostDead | UserinfoStart | Userinfo | HostStart | V6Start | Host | V6 | V6End | PortStart | Port

  predicate V6Byte(ch: char) {
    IsHex(ch) || ch == ':' || ch == '.'
  }

  /** http_parse_host_char */
  function NextHost(s: HostState, ch: char): HostState {
    match s
    case Userinfo => InUserinfo(ch)
    case UserinfoStart => InUserinfo(ch)
    case HostStart => if ch == '[' then V6Start else if IsHostChar(ch) then Host else HostDead
    case Host => if IsHostChar(ch) then Host else if ch == ':' then PortStart else HostDead
    case V6End => if ch == ':' then PortStart else HostDead
    case V6 => if ch == ']' then V6End else if V6Byte(ch) then V6 else HostDead
    case V6Start => if V6Byte(ch) then V6 else HostDead
    case Port => if IsNum(ch) then Port else HostDead
    case PortStart => if IsNum(ch) then Port else HostDead
    case HostDead => HostDead
  }

  function InUserinfo(ch: char): HostState {
    if ch == '@' then HostStart else if IsUserinfoChar(ch) then Userinfo else HostDead
  }

  /** The parts of the authority d[from..to]. The user information, if `found`, ends at the '@' at byte `at`;
      `name` up to `nameEnd` is the host without brackets; `colon` is where a port would be announced. */
  datatype HostLayout = HostLayout(found: bool, at: nat, host: nat, v6: bool, name: nat, nameEnd: nat, colon: nat,
    port: nat)

  function SplitHost(d: string, from: nat, to: nat): (h: HostLayout)
    requires from <= to <= |d|
    ensures from <= h.at <= to && from <= h.host <= h.name <= h.nameEnd <= h.colon <= h.port <= to
  {
    var at := Find(d, from, to, {'@'});
    var host := if at < to then at + 1 else from;
    var v6 := host < to && d[host] == '[';
    var name := if v6 then host + 1 else host;
    var nameEnd := Find(d, name, to, if v6 then {']'} else {':'});
    var colon := if v6 && nameEnd < to then nameEnd + 1 else nameEnd;
    HostLayout(at < to, at, host, v6, name, nameEnd, colon, if colon < to then colon + 1 else to)
  }

  predicate HostLegalAt(d: string, h: HostLayout, k: nat)
    requires k < |d|
  {
    if h.found && k < h.at then IsUserinfoChar(d[k])
    else if k < h.name then true
    else if k < h.nameEnd then if h.v6 then V6Byte(d[k]) else IsHostChar(d[k])
    else if k < h.colon then h.nameEnd > h.name
    else if k == h.colon then d[k] == ':' && (h.v6 || h.nameEnd > h.name)
    else IsNum(d[k])
  }

  /** The state of the automaton at byte `k` of a legal authority. */
  function ExpectedHost(h: HostLayout, from: nat, k: nat): HostState {
    if h.found && k == from then UserinfoStart
    else if h.found && k <= h.at then Userinfo
    else if k <= h.host then HostStart
    else if h.v6 && k == h.name then V6Start
    else if k <= h.nameEnd then if h.v6 then V6 else Host
    else if k <= h.colon then V6End
    else if k <= h.port then PortStart
    else Port
  }

  lemma HostStep(d: string, from: nat, to: nat, k: nat)
    requires from <= k < to <= |d|
    ensures var h := SplitHost(d, from, to);
            NextHost(ExpectedHost(h, from, k), d[k]) ==
            if HostLegalAt(d, h, k) then ExpectedHost(h, from, k + 1) else HostDead
  {
    var h := SplitHost(d, from, to);
    if h.found && k <= h.at { UserinfoStep(d, from, to, k); }
    else if k <= h.nameEnd { NameStep(d, from, to, k); }
    else { PortStep(d, from, to, k); }
  }

  lemma UserinfoStep(d: string, from: nat, to: nat, k: nat)
    requires from <= k < to <= |d|
    requires var h := SplitHost(d, from, to); h.found && k <= h.at
    ensures var h := SplitHost(d, from, to);
            NextHost(ExpectedHost(h, from, k), d[k]) ==
            if HostLegalAt(d, h, k) then ExpectedHost(h, from, k + 1) else HostDead
  {
  }

  lemma NameStep(d: string, from: nat, to: nat, k: nat)
    requires from <= k < to <= |d|
    requires var h := SplitHost(d, from, to); h.host <= k <= h.nameEnd
    ensures var h := SplitHost(d, from, to);
            NextHost(ExpectedHost(h, from, k), d[k]) ==
            if HostLegalAt(d, h, k) then ExpectedHost(h, from, k + 1) else HostDead
  {
  }

  lemma PortStep(d: string, from: nat, to: nat, k: nat)
    requires from <= k < to <= |d|
    requires var h := SplitHost(d, from, to); h.nameEnd < k
    ensures var h := SplitHost(d, from, to);
            NextHost(ExpectedHost(h, from, k), d[k]) ==
            if HostLegalAt(d, h, k) then ExpectedHost(h, from, k + 1) else HostDead
  {
  }

  /** The states in which an authority may end. */
  predicate HostEnds(s: HostState) {
    s.Host? || s.V6End? || s.Port?
  }

  /** An authority is well formed: legal bytes, a host, and digits after the colon if there is one. */
  predicate HostFine(d: string, from: nat, to: nat)
    requires from <= to <= |d|
  {
    var h := SplitHost(d, from, to);
    && (forall k :: from <= k < to ==> HostLegalAt(d, h, k))
    && (if h.v6 then h.nameEnd < to else h.name < h.nameEnd)
    && (h.colon < to ==> h.port < to)
  }

  lemma HostEndExact(d: string, from: nat, to: nat)
    requires from <= to <= |d|
    requires var h := SplitHost(d, from, to); forall k :: from <= k < to ==> HostLegalAt(d, h, k)
    ensures HostFine(d, from, to) <==> HostEnds(ExpectedHost(SplitHost(d, from, to), from, to))
  {
    var h := SplitHost(d, from, to);
    assert h.colon < to ==> HostLegalAt(d, h, h.colon);
  }
}
