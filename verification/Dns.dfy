/** Compressed domain names (section 4.1.4 of RFC 1035) and dn_expand, which expands them. */
module Dns {
  type Octet = x: int | 0 <= x < 256

  type Label = seq<Octet>

  const DOT: Octet := 46
  /** The longest output, with its terminating NUL. */
  const MAX_SPACE: nat := 254

  // ---- the walk over labels and pointers ----

  predicate IsPointer(b: Octet) {
    b >= 64
  }

  /** Where the pointer at byte `p` leads. */
  function PointerAt(msg: seq<Octet>, p: nat): nat
    requires p + 1 < |msg|
  {
    msg[p] as int % 64 * 256 + msg[p + 1] as int
  }

  datatype Item = Out | Terminator | Pointer(target: nat) | Text(text: Label)

  /** What stands at byte `p`: `Out` when it does not fit into the message. */
  function ItemAt(msg: seq<Octet>, p: nat): Item {
    if p >= |msg| then Out
    else if IsPointer(msg[p]) then
      if p + 1 >= |msg| || PointerAt(msg, p) >= |msg| then Out else Pointer(PointerAt(msg, p))
    else if msg[p] == 0 then Terminator
    else if p + 1 + msg[p] >= |msg| then Out
    else Text(msg[p + 1..p + 1 + msg[p]])
  }

  /** The bytes an item takes. */
  function Size(item: Item): nat {
    match item
    case Out => 0
    case Terminator => 1
    case Pointer(_) => 2
    case Text(text) => 1 + |text|
  }

  /** Where the walk goes on after an item. */
  function After(item: Item, p: nat): nat {
    match item
    case Pointer(target) => target
    case _ => p + Size(item)
  }

  datatype Walk = Cut | Spelled(labels: seq<Label>)

  function Then(item: Item, rest: Walk): Walk {
    match rest
    case Cut => Cut
    case Spelled(labels) => Spelled(if item.Text? then [item.text] + labels else labels)
  }

  /** The labels of the name at byte `p`, when the walk reaches a terminator within `steps` items. */
  function Names(msg: seq<Octet>, p: nat, steps: nat): Walk
    decreases steps
  {
    var item := ItemAt(msg, p);
    if steps == 0 || item.Out? then Cut
    else if item.Terminator? then Spelled([])
    else Then(item, Names(msg, After(item, p), steps - 1))
  }

  /** The number of items that the loop counter allows. */
  function Allowed(msg: seq<Octet>): nat {
    (|msg| + 1) / 2
  }

  /** The labels joined by dots. */
  function Dotted(labels: seq<Label>): Label {
    if labels == [] then []
    else
      var n := |labels| - 1;
      Dotted(labels[..n]) + (if n == 0 then [] else [DOT]) + labels[n]
  }

  /** The end of the first pointer or terminator from byte `p` on: where the name ends in the message. */
  function NameEnd(msg: seq<Octet>, p: nat): nat
    decreases |msg| - p
  {
    var item := ItemAt(msg, p);
    if item.Text? then NameEnd(msg, p + Size(item)) else p + Size(item)
  }

  /** The part of a buffer of `space` bytes that is used. */
  function Room(space: int): nat {
    if space < 0 then 0 else if space > MAX_SPACE then MAX_SPACE else space
  }

  /** The name at `src` spells these labels, within the counted steps, and their text fits. */
  predicate Expands(msg: seq<Octet>, src: nat, space: int, labels: seq<Label>) {
    Names(msg, src, Allowed(msg)) == Spelled(labels) && |Dotted(labels)| < Room(space)
  }

  ghost predicate Expandable(msg: seq<Octet>, src: nat, space: int) {
    exists labels :: Expands(msg, src, space, labels)
  }

  // ---- dn_expand ----

  function Prepend(done: seq<Label>, rest: Walk): Walk {
    match rest
    case Cut => Cut
    case Spelled(labels) => Spelled(done + labels)
  }

  lemma PrependStep(done: seq<Label>, item: Item, rest: Walk)
    ensures Prepend(done, Then(item, rest)) == Prepend(if item.Text? then done + [item.text] else done, rest)
  {
    if item.Text? && rest.Spelled? {
      assert done + ([item.text] + rest.labels) == done + [item.text] + rest.labels;
    }
  }

  /** Joining more labels makes the text longer. */
  lemma {:induction false} DottedGrows(done: seq<Label>, more: seq<Label>)
    ensures |Dotted(done)| <= |Dotted(done + more)|
    ensures more != [] ==> |Dotted(done)| + (if done == [] then 0 else 1) + |more[0]| <= |Dotted(done + more)|
    decreases |more|
  {
    if more == [] {
      assert done + more == done;
    } else {
      var n := |more| - 1;
      assert (done + more)[..|done| + n] == done + more[..n];
      DottedGrows(done, more[..n]);
    }
  }

  /** One byte of output. */
  method Put(dest: array<Octet>, d: nat, b: Octet)
    requires d < dest.Length
    modifies dest
    ensures dest[..d + 1] == old(dest[..d]) + [b] && dest[d + 1..] == old(dest[d + 1..])
  {
    dest[d] := b;
  }

  lemma SuffixToo(a: seq<Octet>, b: seq<Octet>, d: nat, e: nat)
    requires d <= e <= |a| == |b| && a[d..] == b[d..]
    ensures a[e..] == b[e..]
  {
    assert a[e..] == a[d..][e - d..];
    assert b[e..] == b[d..][e - d..];
  }

  /** The copy of one label. */
  method Copy(msg: seq<Octet>, p: nat, dest: array<Octet>, d: nat, n: nat)
    requires p + n <= |msg| && d + n <= dest.Length
    modifies dest
    ensures dest[..d + n] == old(dest[..d]) + msg[p..p + n] && dest[d + n..] == old(dest[d + n..])
  {
    var k := 0;
    while k < n
      invariant 0 <= k <= n
      invariant dest[..d + k] == old(dest[..d]) + msg[p..p + k] && dest[d + k..] == old(dest[d + k..])
    {
      dest[d + k] := msg[p + k];
      assert dest[..d + k + 1] == dest[..d + k] + [msg[p + k]];
      assert msg[p..p + k + 1] == msg[p..p + k] + [msg[p + k]];
      k := k + 1;
    }
  }

  /** The branch of dn_expand for a label: a dot if there is text before it, then the label's bytes. */
  method ReadLabel(msg: seq<Octet>, p: nat, dest: array<Octet>, d: nat, dend: nat) returns (ok: bool, p': nat, d': nat)
    requires p < |msg| && d < dend <= dest.Length
    modifies dest
    ensures var dot: Label := if d == 0 then [] else [DOT];
            && dest[dend..] == old(dest[dend..])
            && (ok <==> p + 1 + msg[p] < |msg| && d + |dot| + msg[p] < dend)
            && (ok ==> p' == p + 1 + msg[p] && d' == d + |dot| + msg[p]
                       && dest[..d'] == old(dest[..d]) + dot + msg[p + 1..p'] && dest[d'..] == old(dest[d'..]))
  {
    p', d' := p, d;
    if d' != 0 {
      Put(dest, d', DOT);
      d' := d' + 1;
    }
    SuffixToo(dest[..], old(dest[..]), d', dend);
    var n := msg[p'];
    p' := p' + 1;
    if n >= |msg| - p' || n >= dend - d' { return false, p', d'; }
    SuffixToo(dest[..], old(dest[..]), d', d' + n);
    Copy(msg, p', dest, d', n);
    d', p' := d' + n, p' + n;
    assert dest[..][d'..] == dest[d'..] == old(dest[d'..]) == old(dest[..])[d'..];
    SuffixToo(dest[..], old(dest[..]), d', dend);
    ok := true;
  }

  /** What the loop knows before its next step: the labels read so far, and where their text ends. */
  ghost predicate Walking(msg: seq<Octet>, src: nat, p: nat, left: nat, done: seq<Label>, len: int) {
    && p < |msg| && src <= |msg|
    && Names(msg, src, Allowed(msg)) == Prepend(done, Names(msg, p, left))
    && (if len < 0 then NameEnd(msg, src) == NameEnd(msg, p) && p >= src else src + len == NameEnd(msg, src))
  }

  lemma WalkBegins(msg: seq<Octet>, src: nat)
    requires src < |msg|
    ensures Walking(msg, src, src, Allowed(msg), [], -1)
  {
    var w := Names(msg, src, Allowed(msg));
    if w.Spelled? { assert [] + w.labels == w.labels; }
  }

  lemma WalkFails(msg: seq<Octet>, src: nat, p: nat, left: nat, done: seq<Label>, len: int, space: int)
    requires Walking(msg, src, p, left, done, len) && (left == 0 || ItemAt(msg, p).Out?)
    ensures !Expandable(msg, src, space)
  {
  }

  lemma WalkEnds(msg: seq<Octet>, src: nat, p: nat, left: nat, done: seq<Label>, len: int)
    requires Walking(msg, src, p, left, done, len) && left > 0 && ItemAt(msg, p).Terminator?
    ensures Names(msg, src, Allowed(msg)) == Spelled(done)
    ensures NameEnd(msg, src) == (if len < 0 then p + 1 else src + len) && (len < 0 ==> p >= src)
  {
    assert done + [] == done;
  }

  lemma WalkPointer(msg: seq<Octet>, src: nat, p: nat, left: nat, done: seq<Label>, len: int)
    requires Walking(msg, src, p, left, done, len) && left > 0 && ItemAt(msg, p).Pointer?
    ensures Walking(msg, src, PointerAt(msg, p), left - 1, done, if len < 0 then p + 2 - src else len)
  {
    PrependStep(done, ItemAt(msg, p), Names(msg, PointerAt(msg, p), left - 1));
  }

  lemma WalkText(msg: seq<Octet>, src: nat, p: nat, left: nat, done: seq<Label>, len: int)
    requires Walking(msg, src, p, left, done, len) && left > 0 && ItemAt(msg, p).Text?
    ensures Walking(msg, src, p + 1 + msg[p], left - 1, done + [msg[p + 1..p + 1 + msg[p]]], len)
  {
    hide Prepend, Then;
    PrependStep(done, ItemAt(msg, p), Names(msg, p + 1 + msg[p], left - 1));
  }

  /** A label that does not fit makes the whole name too long. */
  lemma WalkOverflows(msg: seq<Octet>, src: nat, p: nat, left: nat, done: seq<Label>, len: int, space: int)
    requires Walking(msg, src, p, left, done, len) && left > 0 && ItemAt(msg, p).Text?
    requires |Dotted(done)| + (if done == [] then 0 else 1) + msg[p] >= Room(space)
    ensures !Expandable(msg, src, space)
  {
    hide Dotted;
    var text := msg[p + 1..p + 1 + msg[p]];
    WalkText(msg, src, p, left, done, len);
    var rest := Names(msg, p + 1 + msg[p], left - 1);
    if rest.Spelled? { Overflows(done, text, rest.labels); }
  }

  lemma Overflows(done: seq<Label>, text: Label, more: seq<Label>)
    ensures |Dotted(done)| + (if done == [] then 0 else 1) + |text| <= |Dotted(done + [text] + more)|
  {
    hide Dotted;
    DottedGrows(done, [text] + more);
    assert done + [text] + more == done + ([text] + more);
  }

  /** The text of one more label. */
  lemma DottedMore(done: seq<Label>, text: Label)
    ensures Dotted(done + [text]) == Dotted(done) + (if done == [] then [] else [DOT]) + text
  {
    assert (done + [text])[..|done|] == done;
  }

  /** The text of labels is empty only if there are none: no label is empty. */
  predicate Solid(labels: seq<Label>) {
    forall k :: 0 <= k < |labels| ==> labels[k] != []
  }

  lemma SolidNothing()
    ensures Solid([]) && Dotted([]) == []
  {
  }

  lemma SolidMore(labels: seq<Label>, text: Label)
    requires Solid(labels) && text != []
    ensures Solid(labels + [text])
  {
  }

  lemma DottedSolid(labels: seq<Label>)
    requires Solid(labels)
    ensures Dotted(labels) == [] <==> labels == []
  {
  }

  /** dn_expand. `space` is the size of the buffer; -1 is failure, any other result is the number of bytes
      that the name takes at `src`. */
  method DnExpand(msg: seq<Octet>, src: nat, dest: array<Octet>, space: int) returns (r: int)
    requires src <= |msg| && space <= dest.Length
    modifies dest
    ensures r == -1 <==> !Expandable(msg, src, space)
    ensures r != -1 ==>
              var w := Names(msg, src, Allowed(msg));
              && w.Spelled? && r == NameEnd(msg, src) - src
              && var text := Dotted(w.labels);
                 |text| < Room(space) && dest[..|text| + 1] == text + [0]
                   && dest[|text| + 1..] == old(dest[|text| + 1..])
    ensures dest[Room(space)..] == old(dest[Room(space)..])
  {
    hide Walking, Names, NameEnd, Dotted, Expandable, Expands, Solid;
    if src == |msg| || space <= 0 {
      NothingExpands(msg, src, space);
      return -1;
    }
    var dend := Room(space);
    var p: nat, d: nat, len, i := src, 0, -1, 0;
    ghost var done: seq<Label>, left := [], Allowed(msg);
    WalkBegins(msg, src);
    assert Solid([]) && Dotted([]) == [] by { SolidNothing(); }
    while i < |msg|
      invariant i == 2 * (Allowed(msg) - left) && p < |msg|
      invariant Walking(msg, src, p, left, done, len) && Solid(done)
      invariant d == |Dotted(done)| < dend && dest[..d] == Dotted(done) && dest[d..] == old(dest[d..])
    {
      if ItemAt(msg, p).Out? { WalkFails(msg, src, p, left, done, len, space); }
      if IsPointer(msg[p]) {
        if p + 1 == |msg| { return -1; }
        var j := PointerAt(msg, p);
        if j < |msg| { WalkPointer(msg, src, p, left, done, len); }
        if len < 0 { len := p + 2 - src; }
        if j >= |msg| { return -1; }
        p := j;
      } else if msg[p] != 0 {
        DottedSolid(done);
        var ok, p', d' := ReadLabel(msg, p, dest, d, dend);
        if ItemAt(msg, p).Text? {
          WalkText(msg, src, p, left, done, len);
          if !ok { WalkOverflows(msg, src, p, left, done, len, space); }
        }
        if !ok { return -1; }
        DottedMore(done, msg[p + 1..p']);
        SolidMore(done, msg[p + 1..p']);
        p, d, done := p', d', done + [msg[p + 1..p']];
      } else {
        WalkEnds(msg, src, p, left, done, len);
        SuffixToo(dest[..], old(dest[..]), d, d + 1);
        Put(dest, d, 0);
        SuffixToo(dest[..], old(dest[..]), d + 1, dend);
        if len < 0 { len := p + 1 - src; }
        Found(msg, src, space, done);
        return len;
      }
      i := i + 2;
      left := left - 1;
    }
    WalkFails(msg, src, p, left, done, len, space);
    r := -1;
  }

  lemma Found(msg: seq<Octet>, src: nat, space: int, labels: seq<Label>)
    requires Names(msg, src, Allowed(msg)) == Spelled(labels) && |Dotted(labels)| < Room(space)
    ensures Expandable(msg, src, space)
  {
    assert Expands(msg, src, space, labels);
  }

  lemma NothingExpands(msg: seq<Octet>, src: nat, space: int)
    requires src == |msg| || space <= 0
    ensures !Expandable(msg, src, space)
  {
  }
}
