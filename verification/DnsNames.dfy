/** Why the iteration counter of dn_expand is a sound loop detector, and that expanding inverts encoding. */
module DnsNames {
  import opened Dns

  // ---- the places of a walk ----

  /** Where the walk from byte `p` is after `k` items. */
  function Place(msg: seq<Octet>, p: nat, k: nat): nat {
    if k == 0 then p
    else
      var q := Place(msg, p, k - 1);
      After(ItemAt(msg, q), q)
  }

  /** The walk goes on for `k` items. */
  predicate Goes(msg: seq<Octet>, p: nat, k: nat) {
    forall i :: 0 <= i < k ==> var item := ItemAt(msg, Place(msg, p, i)); item.Pointer? || item.Text?
  }

  /** The walk ends: after `k` items it is at a terminator. */
  predicate Terminates(msg: seq<Octet>, p: nat, k: nat) {
    Goes(msg, p, k) && ItemAt(msg, Place(msg, p, k)).Terminator?
  }

  lemma {:induction false} PlaceShift(msg: seq<Octet>, p: nat, k: nat)
    ensures Place(msg, After(ItemAt(msg, p), p), k) == Place(msg, p, k + 1)
    decreases k
  {
    if k > 0 { PlaceShift(msg, p, k - 1); } else { assert Place(msg, p, 0) == p; }
  }

  lemma TerminatesShift(msg: seq<Octet>, p: nat, k: nat)
    requires ItemAt(msg, p).Pointer? || ItemAt(msg, p).Text?
    ensures Terminates(msg, After(ItemAt(msg, p), p), k) <==> Terminates(msg, p, k + 1)
  {
    var q := After(ItemAt(msg, p), p);
    forall i | 0 <= i <= k ensures Place(msg, q, i) == Place(msg, p, i + 1) { PlaceShift(msg, p, i); }
    assert Place(msg, p, 0) == p;
    if Goes(msg, q, k) {
      forall i | 0 <= i < k + 1 ensures var item := ItemAt(msg, Place(msg, p, i)); item.Pointer? || item.Text? {
        if i > 0 { assert Place(msg, q, i - 1) == Place(msg, p, i); }
      }
    }
  }

  /** A name is spelled within the counted steps exactly when the walk ends within them. */
  lemma {:induction false} SpelledExact(msg: seq<Octet>, p: nat, steps: nat)
    ensures Names(msg, p, steps).Spelled? <==> exists k: nat :: k < steps && Terminates(msg, p, k)
    decreases steps
  {
    hide ItemAt, After, Terminates, Goes, Place;
    var item := ItemAt(msg, p);
    var q := After(item, p);
    if steps > 0 {
      if item.Terminator? {
        EndsHere(msg, p);
      } else if item.Out? {
        forall k: nat ensures !Terminates(msg, p, k) { OutEnds(msg, p, k); }
      } else {
        SpelledExact(msg, q, steps - 1);
        forall k: nat ensures Terminates(msg, q, k) <==> Terminates(msg, p, k + 1) { TerminatesShift(msg, p, k); }
        if k: nat :| k < steps && Terminates(msg, p, k) {
          NotHere(msg, p);
          assert Terminates(msg, q, k - 1);
        }
      }
    }
  }

  lemma EndsHere(msg: seq<Octet>, p: nat)
    requires ItemAt(msg, p).Terminator?
    ensures Terminates(msg, p, 0)
  {
    assert Place(msg, p, 0) == p;
  }

  lemma NotHere(msg: seq<Octet>, p: nat)
    requires !ItemAt(msg, p).Terminator?
    ensures !Terminates(msg, p, 0)
  {
    assert Place(msg, p, 0) == p;
  }

  lemma OutEnds(msg: seq<Octet>, p: nat, k: nat)
    requires ItemAt(msg, p).Out?
    ensures !Terminates(msg, p, k)
  {
    assert Place(msg, p, 0) == p;
    assert k > 0 ==> !Goes(msg, p, k);
  }

  // ---- cycles ----

  lemma {:induction false} PlacesRepeat(msg: seq<Octet>, p: nat, i: nat, j: nat, k: nat)
    requires i <= j <= k && Place(msg, p, i) == Place(msg, p, j)
    ensures Place(msg, p, k) == Place(msg, p, k - (j - i))
    decreases k
  {
    hide ItemAt, After;
    if k > j { PlacesRepeat(msg, p, i, j, k - 1); }
  }

  /** A walk that comes back to a byte never ends, so it is never expanded, whatever the buffer. */
  lemma CyclesFail(msg: seq<Octet>, src: nat, i: nat, j: nat, space: int)
    requires i < j && Goes(msg, src, j) && Place(msg, src, i) == Place(msg, src, j)
    ensures forall k: nat :: !Terminates(msg, src, k)
    ensures !Expandable(msg, src, space)
  {
    hide ItemAt, After, Names;
    forall k: nat ensures !Terminates(msg, src, k) {
      if k >= j { PlacesRepeat(msg, src, i, j, k); }
    }
    SpelledExact(msg, src, Allowed(msg));
  }

  // ---- the pigeonhole argument ----

  function Bytes(from: nat, n: nat): (s: set<nat>)
    ensures |s| == n && forall b :: b in s <==> from <= b < from + n
  {
    if n == 0 then {} else Bytes(from, n - 1) + {from + n - 1}
  }

  function Taken(msg: seq<Octet>, p: nat, i: nat): set<nat> {
    Bytes(Place(msg, p, i), Size(ItemAt(msg, Place(msg, p, i))))
  }

  /** The first `k` + 1 items of the walk occupy disjoint bytes. */
  predicate Disjoint(msg: seq<Octet>, p: nat, k: nat) {
    forall i, j :: 0 <= i < j <= k ==> Taken(msg, p, i) !! Taken(msg, p, j)
  }

  function Occupied(msg: seq<Octet>, p: nat, k: nat): set<nat> {
    if k == 0 then {} else Occupied(msg, p, k - 1) + Taken(msg, p, k - 1)
  }

  lemma {:induction false} OccupiedApart(msg: seq<Octet>, p: nat, k: nat, j: nat)
    requires Disjoint(msg, p, j) && k <= j
    ensures Occupied(msg, p, k) !! Taken(msg, p, j)
    decreases k
  {
    hide Taken;
    if k > 0 { OccupiedApart(msg, p, k - 1, j); }
  }

  /** Disjoint items take at least two bytes each. */
  lemma {:induction false} OccupiedSize(msg: seq<Octet>, p: nat, k: nat, last: nat)
    requires Goes(msg, p, k) && Disjoint(msg, p, last) && k <= last
    ensures |Occupied(msg, p, k)| >= 2 * k
    ensures Occupied(msg, p, k) <= Bytes(0, |msg|)
    decreases k
  {
    hide Taken, Place, ItemAt, Size;
    if k > 0 {
      OccupiedSize(msg, p, k - 1, last);
      OccupiedApart(msg, p, k - 1, k - 1);
      TakenSize(msg, p, k - 1);
    }
  }

  lemma TakenSize(msg: seq<Octet>, p: nat, i: nat)
    ensures var item := ItemAt(msg, Place(msg, p, i));
            && |Taken(msg, p, i)| == Size(item) && Taken(msg, p, i) <= Bytes(0, |msg|)
            && (item.Pointer? || item.Text? ==> Size(item) >= 2) && (item.Terminator? ==> Size(item) == 1)
  {
    hide Place, ItemAt;
    ItemFits(msg, Place(msg, p, i));
    hide Size;
  }

  lemma ItemFits(msg: seq<Octet>, q: nat)
    ensures var item := ItemAt(msg, q);
            && (!item.Out? ==> q + Size(item) <= |msg|) && (item.Out? ==> Size(item) == 0)
            && (item.Pointer? || item.Text? ==> Size(item) >= 2) && (item.Terminator? ==> Size(item) == 1)
  {
  }

  lemma Fits(s: set<nat>, n: nat)
    requires s <= Bytes(0, n)
    ensures |s| <= n
  {
    Subset(s, Bytes(0, n));
  }

  lemma {:induction false} Subset(a: set<nat>, b: set<nat>)
    requires a <= b
    ensures |a| <= |b|
    decreases a
  {
    if a != {} {
      var x :| x in a;
      Subset(a - {x}, b - {x});
    }
  }

  /** The counter never cuts off a name whose labels, pointers and terminator occupy disjoint bytes: if its
      text fits it is expanded. */
  lemma CounterIsSound(msg: seq<Octet>, src: nat, k: nat, space: int)
    requires Terminates(msg, src, k) && Disjoint(msg, src, k)
    ensures 2 * k + 1 <= |msg| && Names(msg, src, Allowed(msg)).Spelled?
    ensures Expandable(msg, src, space) <==> |Dotted(Names(msg, src, Allowed(msg)).labels)| < Room(space)
  {
    hide Taken, Place, ItemAt, Size, Names, Dotted;
    OccupiedSize(msg, src, k, k);
    OccupiedApart(msg, src, k, k);
    TakenSize(msg, src, k);
    var all := Occupied(msg, src, k) + Taken(msg, src, k);
    assert |all| == |Occupied(msg, src, k)| + 1;
    Fits(all, |msg|);
    SpelledExact(msg, src, Allowed(msg));
    var w := Names(msg, src, Allowed(msg));
    assert Expands(msg, src, space, w.labels) <==> |Dotted(w.labels)| < Room(space);
  }

  /** Without disjointness it may: this walk ends after five items, on six bytes, and is cut off after three. */
  lemma CounterCutsOverlaps()
    ensures Terminates(OVERLAPPING, 0, 4) && Names(OVERLAPPING, 0, Allowed(OVERLAPPING)) == Cut
  {
    OverlappingItems();
    OverlappingPlaces();
    hide ItemAt, Place;
    var m := OVERLAPPING;
    assert Names(m, 3, 0) == Cut;
    assert Names(m, 1, 1) == Cut;
    assert Names(m, 2, 2) == Cut;
  }

  lemma OverlappingPlaces()
    ensures var m := OVERLAPPING;
            Place(m, 0, 0) == 0 && Place(m, 0, 1) == 2 && Place(m, 0, 2) == 1 && Place(m, 0, 3) == 3
              && Place(m, 0, 4) == 5
  {
    hide ItemAt;
    OverlappingItems();
    var m := OVERLAPPING;
    assert Place(m, 0, 0) == 0;
    assert Place(m, 0, 1) == 2;
    assert Place(m, 0, 2) == 1;
    assert Place(m, 0, 3) == 3;
  }

  const OVERLAPPING: seq<Octet> := [1, 1, 64, 1, 9, 0]

  lemma OverlappingItems()
    ensures var m := OVERLAPPING;
            && ItemAt(m, 0) == Text([1]) && ItemAt(m, 2) == Pointer(1) && ItemAt(m, 1) == Text([64])
            && ItemAt(m, 3) == Text([9]) && ItemAt(m, 5) == Terminator
  {
  }

  // ---- encoding ----

  predicate Encodable(labels: seq<Label>) {
    forall k :: 0 <= k < |labels| ==> 1 <= |labels[k]| <= 63
  }

  /** Labels as section 3.1 of RFC 1035 writes them, without the terminator. */
  function Encode(labels: seq<Label>): (s: seq<Octet>)
    requires Encodable(labels)
    ensures |s| >= 2 * |labels|
  {
    if labels == [] then [] else [|labels[0]|] + labels[0] + Encode(labels[1..])
  }

  const TERMINATOR: seq<Octet> := [0]

  /** The two bytes of a pointer to byte `q`. */
  function PointerTo(q: nat): seq<Octet>
    requires q < 16384
  {
    [192 + q / 256, q % 256]
  }

  predicate Stands(msg: seq<Octet>, p: nat, s: seq<Octet>) {
    p + |s| <= |msg| && msg[p..p + |s|] == s
  }

  lemma StandsParts(msg: seq<Octet>, p: nat, a: seq<Octet>, b: seq<Octet>)
    requires Stands(msg, p, a + b)
    ensures Stands(msg, p, a) && Stands(msg, p + |a|, b)
  {
    var all := msg[p..p + |a + b|];
    forall k | 0 <= k < |a| ensures msg[p + k] == a[k] { assert all[k] == (a + b)[k]; }
    forall k | 0 <= k < |b| ensures msg[p + |a| + k] == b[k] { assert all[|a| + k] == (a + b)[|a| + k]; }
  }

  lemma OneLabel(msg: seq<Octet>, p: nat, text: Label)
    requires 1 <= |text| <= 63 && Stands(msg, p, [|text|] + text) && p + 1 + |text| < |msg|
    ensures ItemAt(msg, p) == Text(text)
  {
    StandsParts(msg, p, [|text|], text);
    assert msg[p] == msg[p..p + 1][0];
  }

  lemma FirstStands(msg: seq<Octet>, p: nat, labels: seq<Label>)
    requires Encodable(labels) && labels != [] && Stands(msg, p, Encode(labels)) && p + |Encode(labels)| < |msg|
    ensures Encodable(labels[1..]) && |Encode(labels)| == 1 + |labels[0]| + |Encode(labels[1..])|
    ensures ItemAt(msg, p) == Text(labels[0]) && Stands(msg, p + 1 + |labels[0]|, Encode(labels[1..]))
  {
    hide Stands, ItemAt, Encode, Encodable;
    var first := labels[0];
    EncodeFirst(labels);
    StandsParts(msg, p, [|first|] + first, Encode(labels[1..]));
    OneLabel(msg, p, first);
  }

  /** The walk reads encoded labels one item each. */
  lemma {:induction false} EncodedWalk(msg: seq<Octet>, p: nat, labels: seq<Label>, steps: nat, q: nat)
    requires Encodable(labels) && Stands(msg, p, Encode(labels)) && p + |Encode(labels)| == q < |msg|
    ensures Names(msg, p, |labels| + steps) == Prepend(labels, Names(msg, q, steps))
            && NameEnd(msg, p) == NameEnd(msg, q)
    decreases |labels|
  {
    hide Stands, ItemAt, Names, NameEnd, Prepend, Dns.Then, Encode, Encodable;
    if labels == [] {
      EncodeNothing();
      PrependNothing(Names(msg, q, steps));
    } else {
      var first, rest := labels[0], labels[1..];
      FirstStands(msg, p, labels);
      TextStep(msg, p, first, |rest| + steps);
      EncodedWalk(msg, p + 1 + |first|, rest, steps, q);
      PrependFirst(labels, Names(msg, q, steps));
    }
  }

  lemma TextStep(msg: seq<Octet>, p: nat, text: Label, steps: nat)
    requires ItemAt(msg, p) == Text(text)
    ensures Names(msg, p, steps + 1) == Dns.Then(Text(text), Names(msg, p + 1 + |text|, steps))
    ensures NameEnd(msg, p) == NameEnd(msg, p + 1 + |text|)
  {
    hide ItemAt;
  }

  lemma PointerStep(msg: seq<Octet>, p: nat, q: nat, steps: nat)
    requires ItemAt(msg, p) == Pointer(q)
    ensures Names(msg, p, steps + 1) == Names(msg, q, steps) && NameEnd(msg, p) == p + 2
  {
    hide ItemAt;
  }

  lemma TerminatorStep(msg: seq<Octet>, p: nat, steps: nat)
    requires ItemAt(msg, p) == Terminator
    ensures Names(msg, p, steps + 1) == Spelled([]) && NameEnd(msg, p) == p + 1
  {
    hide ItemAt;
  }

  lemma EncodeNothing()
    ensures Encode([]) == []
  {
  }

  lemma PrependNothing(w: Walk)
    ensures Prepend([], w) == w
  {
    if w.Spelled? { assert [] + w.labels == w.labels; }
  }

  lemma PrependFirst(labels: seq<Label>, w: Walk)
    requires labels != []
    ensures Dns.Then(Text(labels[0]), Prepend(labels[1..], w)) == Prepend(labels, w)
  {
    if w.Spelled? { assert [labels[0]] + (labels[1..] + w.labels) == labels + w.labels; }
  }

  lemma EncodeFirst(labels: seq<Label>)
    requires Encodable(labels) && labels != []
    ensures 1 <= |labels[0]| <= 63 && Encodable(labels[1..])
    ensures Encode(labels) == [|labels[0]|] + labels[0] + Encode(labels[1..])
  {
  }

  /** More steps than needed do no harm. */
  lemma {:induction false} MoreSteps(msg: seq<Octet>, p: nat, a: nat, b: nat)
    requires a <= b && Names(msg, p, a).Spelled?
    ensures Names(msg, p, b) == Names(msg, p, a)
    decreases a
  {
    hide ItemAt;
    var item := ItemAt(msg, p);
    if a > 0 && !item.Terminator? && !item.Out? { MoreSteps(msg, After(item, p), a - 1, b - 1); }
  }

  /** An encoded name expands to its labels, wherever it stands in a message. */
  lemma EncodeExpands(msg: seq<Octet>, src: nat, labels: seq<Label>, space: int)
    requires Encodable(labels) && Stands(msg, src, Encode(labels) + TERMINATOR)
    ensures Names(msg, src, Allowed(msg)) == Spelled(labels) && NameEnd(msg, src) == src + |Encode(labels)| + 1
    ensures |Dotted(labels)| < Room(space) ==> Expands(msg, src, space, labels)
  {
    hide Stands, Encode, Dotted, ItemAt, Names, NameEnd;
    StandsParts(msg, src, Encode(labels), TERMINATOR);
    TerminatorStands(msg, src + |Encode(labels)|);
    EncodedWalk(msg, src, labels, 1, src + |Encode(labels)|);
    TerminatorStep(msg, src + |Encode(labels)|, 0);
    assert labels + [] == labels;
    MoreSteps(msg, src, |labels| + 1, Allowed(msg));
  }

  lemma TerminatorStands(msg: seq<Octet>, q: nat)
    requires Stands(msg, q, TERMINATOR)
    ensures ItemAt(msg, q) == Terminator && q < |msg|
  {
    assert msg[q] == msg[q..q + 1][0];
  }

  lemma PointerStands(msg: seq<Octet>, p: nat, q: nat)
    requires q < 16384 && q < |msg| && Stands(msg, p, PointerTo(q))
    ensures ItemAt(msg, p) == Pointer(q) && p + 1 < |msg|
  {
    assert msg[p] == msg[p..p + 2][0] && msg[p + 1] == msg[p..p + 2][1];
  }

  lemma StandsFits(msg: seq<Octet>, p: nat, s: seq<Octet>)
    requires Stands(msg, p, s)
    ensures p + |s| <= |msg|
  {
  }

  // ---- chains of pointers ----

  /** A part of a name: labels at some byte, and what follows them there. */
  datatype Part = Part(at: nat, labels: seq<Label>)

  /** What ends the first part: a pointer to the next one, or the terminator. */
  function PartEnd(parts: seq<Part>): seq<Octet>
    requires |parts| > 1 ==> parts[1].at < 16384
  {
    if |parts| > 1 then PointerTo(parts[1].at) else TERMINATOR
  }

  /** Each part of a name stands at its byte, and points to the next. */
  predicate ChainStands(msg: seq<Octet>, parts: seq<Part>)
    decreases |parts|
  {
    && parts != [] && (|parts| > 1 ==> parts[1].at < 16384)
    && Encodable(parts[0].labels) && Stands(msg, parts[0].at, Encode(parts[0].labels) + PartEnd(parts))
    && (|parts| > 1 ==> ChainStands(msg, parts[1..]))
  }

  function ChainLabels(parts: seq<Part>): seq<Label> {
    if parts == [] then [] else parts[0].labels + ChainLabels(parts[1..])
  }

  /** The labels, the pointers and the terminator. */
  function ChainItems(parts: seq<Part>): nat {
    if parts == [] then 0 else |parts[0].labels| + 1 + ChainItems(parts[1..])
  }

  /** The bytes of the first part. */
  function PartBytes(parts: seq<Part>): set<nat>
    requires parts != [] && Encodable(parts[0].labels)
  {
    Bytes(parts[0].at, |Encode(parts[0].labels)| + if |parts| > 1 then 2 else 1)
  }

  function ChainBytes(parts: seq<Part>): set<nat>
    requires forall i :: 0 <= i < |parts| ==> Encodable(parts[i].labels)
    decreases |parts|
  {
    if parts == [] then {} else PartBytes(parts) + ChainBytes(parts[1..])
  }

  /** The parts are disjoint. */
  predicate ChainApart(parts: seq<Part>)
    requires forall i :: 0 <= i < |parts| ==> Encodable(parts[i].labels)
    decreases |parts|
  {
    parts == [] || (PartBytes(parts) !! ChainBytes(parts[1..]) && ChainApart(parts[1..]))
  }

  lemma {:induction false} ChainEncodable(msg: seq<Octet>, parts: seq<Part>)
    requires ChainStands(msg, parts)
    ensures forall i :: 0 <= i < |parts| ==> Encodable(parts[i].labels)
    decreases |parts|
  {
    hide Stands, Encode, Encodable;
    if |parts| > 1 {
      ChainEncodable(msg, parts[1..]);
      assert forall i :: 1 <= i < |parts| ==> parts[i] == parts[1..][i - 1];
    }
  }

  /** The walk over a chain. */
  lemma {:induction false} ChainWalk(msg: seq<Octet>, parts: seq<Part>)
    requires ChainStands(msg, parts)
    ensures Names(msg, parts[0].at, ChainItems(parts)) == Spelled(ChainLabels(parts))
    ensures NameEnd(msg, parts[0].at) == parts[0].at + |Encode(parts[0].labels)| + (if |parts| > 1 then 2 else 1)
    decreases |parts|
  {
    hide Stands, Encode, ItemAt, Names, NameEnd, Encodable, PointerTo;
    var first, rest := parts[0], parts[1..];
    var q := first.at + |Encode(first.labels)|;
    StandsParts(msg, first.at, Encode(first.labels), PartEnd(parts));
    PartEnds(msg, parts, q);
    EncodedWalk(msg, first.at, first.labels, 1 + ChainItems(rest), q);
    if |parts| > 1 {
      ChainWalk(msg, rest);
      PointerStep(msg, q, parts[1].at, ChainItems(rest));
    } else {
      TerminatorStep(msg, q, 0);
      assert ChainItems(rest) == 0 && ChainLabels(rest) == [];
    }
  }

  lemma PartEnds(msg: seq<Octet>, parts: seq<Part>, q: nat)
    requires ChainStands(msg, parts) && Stands(msg, q, PartEnd(parts))
    ensures q < |msg| && ItemAt(msg, q) == if |parts| > 1 then Pointer(parts[1].at) else Terminator
  {
    hide Stands, Encode, ItemAt, Encodable, PointerTo;
    if |parts| > 1 {
      PartEndSize(parts[1..]);
      StandsIn(msg, parts[1].at, Encode(parts[1].labels) + PartEnd(parts[1..]));
      PointerStands(msg, q, parts[1].at);
    } else {
      TerminatorStands(msg, q);
    }
  }

  lemma StandsIn(msg: seq<Octet>, p: nat, s: seq<Octet>)
    requires Stands(msg, p, s) && s != []
    ensures p < |msg|
  {
  }

  /** The bytes of disjoint parts are at least two for each item but the last. */
  lemma {:induction false} ChainSize(msg: seq<Octet>, parts: seq<Part>)
    requires ChainStands(msg, parts) && forall i :: 0 <= i < |parts| ==> Encodable(parts[i].labels)
    requires ChainApart(parts)
    ensures |ChainBytes(parts)| >= 2 * ChainItems(parts) - 1 && ChainBytes(parts) <= Bytes(0, |msg|)
    decreases |parts|
  {
    hide Encodable, Encode, Stands, PointerTo;
    StandsFits(msg, parts[0].at, Encode(parts[0].labels) + PartEnd(parts));
    PartEndSize(parts);
    if |parts| > 1 { ChainSize(msg, parts[1..]); } else { assert parts[1..] == []; }
  }

  lemma PartEndSize(parts: seq<Part>)
    requires |parts| > 1 ==> parts[1].at < 16384
    ensures |PartEnd(parts)| == if |parts| > 1 then 2 else 1
  {
  }

  /** A name in any number of parts, each but the last ending in a pointer to the next, expands to all their labels,
      if the parts do not overlap; its length in the message is that of its first part. */
  lemma ChainExpands(msg: seq<Octet>, parts: seq<Part>, space: int)
    requires ChainStands(msg, parts) && (forall i :: 0 <= i < |parts| ==> Encodable(parts[i].labels))
             && ChainApart(parts)
    ensures Names(msg, parts[0].at, Allowed(msg)) == Spelled(ChainLabels(parts))
    ensures NameEnd(msg, parts[0].at) == parts[0].at + |Encode(parts[0].labels)| + (if |parts| > 1 then 2 else 1)
    ensures |Dotted(ChainLabels(parts))| < Room(space) ==> Expands(msg, parts[0].at, space, ChainLabels(parts))
  {
    hide Encodable, Encode, Stands, Names, NameEnd, Dotted, ChainLabels, ChainApart, ChainBytes, PointerTo;
    ChainWalk(msg, parts);
    ChainSize(msg, parts);
    Fits(ChainBytes(parts), |msg|);
    MoreSteps(msg, parts[0].at, ChainItems(parts), Allowed(msg));
  }

  /** The common case: labels, then a pointer to where the rest of the name is spelled out. */
  lemma CompressedExpands(msg: seq<Octet>, src: nat, front: seq<Label>, q: nat, back: seq<Label>, space: int)
    requires Encodable(front) && Encodable(back) && q < 16384
    requires Stands(msg, src, Encode(front) + PointerTo(q)) && Stands(msg, q, Encode(back) + TERMINATOR)
    requires q + |Encode(back)| + 1 <= src || src + |Encode(front)| + 2 <= q
    ensures Names(msg, src, Allowed(msg)) == Spelled(front + back) && NameEnd(msg, src) == src + |Encode(front)| + 2
    ensures |Dotted(front + back)| < Room(space) ==> Expands(msg, src, space, front + back)
  {
    hide Stands, Encode, Encodable, Dotted, PointerTo, Names, NameEnd;
    var parts := [Part(src, front), Part(q, back)];
    var rest := parts[1..];
    assert rest == [Part(q, back)] && rest[1..] == [];
    assert ChainLabels(rest) == back + ChainLabels(rest[1..]) == back;
    assert ChainBytes(rest[1..]) == {} && ChainBytes(rest) == PartBytes(rest);
    assert ChainApart(rest[1..]) && ChainApart(rest);
    ChainExpands(msg, parts, space);
  }
}
