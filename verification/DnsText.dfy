/** What the output of dn_expand says about the name: cutting it at its dots gives the labels back. */
module DnsText {
  import opened Dns
  import opened DnsNames

  /** The byte of a full stop. */
  const STOP: Octet := '.' as int

  /** The pieces of a text between the bytes `b`. */
  function Pieces(s: seq<Octet>, b: Octet): (ps: seq<Label>)
    ensures ps != []
    decreases |s|
  {
    if s == [] then [[]]
    else
      var rest := Pieces(s[1..], b);
      if s[0] == b then [[]] + rest else [[s[0]] + rest[0]] + rest[1..]
  }

  predicate NoStop(labels: seq<Label>) {
    forall i :: 0 <= i < |labels| ==> STOP !in labels[i]
  }

  /** A text without the byte is one piece; before one, it is the first of the pieces. */
  lemma {:induction false} PiecesPlain(a: seq<Octet>, s: seq<Octet>, b: Octet)
    requires b !in a
    ensures Pieces(a, b) == [a] && Pieces(a + [b] + s, b) == [a] + Pieces(s, b)
    decreases |a|
  {
    if a == [] {
      assert (a + [b] + s)[1..] == s;
    } else {
      assert b !in a[1..];
      PiecesPlain(a[1..], s, b);
      assert (a + [b] + s)[1..] == a[1..] + [b] + s;
      assert [a[0]] + a[1..] == a;
    }
  }

  /** No piece holds the byte. */
  lemma {:induction false} PiecesClean(s: seq<Octet>, b: Octet)
    ensures forall i :: 0 <= i < |Pieces(s, b)| ==> b !in Pieces(s, b)[i]
    decreases |s|
  {
    if s != [] { PiecesClean(s[1..], b); }
  }

  /** The labels from the left. */
  lemma {:induction false} DottedFirst(labels: seq<Label>)
    requires labels != []
    ensures Dotted(labels) == if |labels| == 1 then labels[0] else labels[0] + [STOP] + Dotted(labels[1..])
    decreases |labels|
  {
    hide Dotted;
    var n := |labels| - 1;
    var front, last := labels[..n], labels[n];
    assert labels == front + [last];
    DottedMore(front, last);
    SolidNothing();
    if n == 0 {
      assert [] + [] + last == last;
    } else {
      var rest := front[1..];
      assert labels[1..] == rest + [last];
      DottedFirst(front);
      DottedMore(rest, last);
      if n == 1 {
        assert [] + [] + last == last;
      } else {
        assert front[0] + [STOP] + Dotted(rest) + [DOT] + last == front[0] + [STOP] + (Dotted(rest) + [DOT] + last);
      }
    }
  }

  /** Cutting a dotted name at its dots gives its labels back, exactly when none of them holds a dot. */
  lemma {:induction false} PiecesExact(labels: seq<Label>)
    requires labels != []
    ensures Pieces(Dotted(labels), STOP) == labels <==> NoStop(labels)
    decreases |labels|
  {
    if NoStop(labels) {
      DottedFirst(labels);
      if |labels| == 1 {
        PiecesPlain(labels[0], [], STOP);
        assert [labels[0]] == labels;
      } else {
        PiecesExact(labels[1..]);
        PiecesPlain(labels[0], Dotted(labels[1..]), STOP);
        assert [labels[0]] + labels[1..] == labels;
      }
    } else {
      PiecesClean(Dotted(labels), STOP);
    }
  }

  /** The length of a dotted name: one byte for each dot, and those of the labels. */
  lemma {:induction false} DottedLength(labels: seq<Label>)
    requires Encodable(labels)
    ensures |Dotted(labels)| == if labels == [] then 0 else |Encode(labels)| - 1
    decreases |labels|
  {
    if labels != [] {
      EncodeFirst(labels);
      DottedFirst(labels);
      DottedLength(labels[1..]);
      if |labels| == 1 { assert labels[1..] == []; }
    }
  }

  /** The length of the text of a name. */
  function TextLength(labels: seq<Label>): nat
    requires Encodable(labels)
  {
    if labels == [] then 0 else |Encode(labels)| - 1
  }

  /** The labels of any walk have the lengths that encoded labels have. */
  lemma {:induction false} NamesEncodable(msg: seq<Octet>, p: nat, steps: nat)
    ensures var w := Names(msg, p, steps); w.Spelled? ==> Encodable(w.labels)
    decreases steps
  {
    var item := ItemAt(msg, p);
    if steps > 0 && !item.Out? && !item.Terminator? {
      hide Names;
      NamesEncodable(msg, After(item, p), steps - 1);
    }
  }

  /** Any name is expanded exactly when its walk ends within the counted steps, and its text and a NUL fit into the
      buffer and into 254 bytes. The text, cut at its dots, is then the labels, and the NUL follows. */
  method ExpandText(msg: seq<Octet>, src: nat, dest: array<Octet>, space: int) returns (r: int)
    requires src <= |msg| && space <= dest.Length
    modifies dest
    ensures var w := Names(msg, src, Allowed(msg));
            if w.Spelled? && Encodable(w.labels) && TextLength(w.labels) < space && TextLength(w.labels) < 254 then
              var n := TextLength(w.labels);
              && r == NameEnd(msg, src) - src
              && dest[n] == 0 && dest[n + 1..] == old(dest[n + 1..])
              && (w.labels != [] && NoStop(w.labels) ==> Pieces(dest[..n], STOP) == w.labels)
            else r == -1
    ensures var w := Names(msg, src, Allowed(msg)); w.Spelled? ==> Encodable(w.labels)
  {
    hide Encode, Encodable, Dotted, Names, NameEnd, Pieces, NoStop;
    ghost var w := Names(msg, src, Allowed(msg));
    NamesEncodable(msg, src, Allowed(msg));
    if w.Spelled? {
      DottedLength(w.labels);
      if w.labels != [] { PiecesExact(w.labels); }
      if TextLength(w.labels) < space && TextLength(w.labels) < 254 { assert Expands(msg, src, space, w.labels); }
    }
    r := DnExpand(msg, src, dest, space);
    if r != -1 {
      ghost var n := TextLength(w.labels);
      assert dest[..n] == dest[..n + 1][..n] == Dotted(w.labels);
    }
  }

  /** A name in any number of disjoint parts, and so any encoded name, is expanded exactly when its text fits; the text,
      cut at its dots, is its labels, and the result is the length of the first part. */
  method ExpandChain(msg: seq<Octet>, parts: seq<Part>, dest: array<Octet>, space: int) returns (r: int)
    requires ChainStands(msg, parts) && (forall i :: 0 <= i < |parts| ==> Encodable(parts[i].labels))
             && ChainApart(parts)
    requires space <= dest.Length
    modifies dest
    ensures var labels := ChainLabels(parts);
            Encodable(labels)
            && var n := TextLength(labels);
               if n < space && n < 254 then
                 && r == |Encode(parts[0].labels)| + (if |parts| > 1 then 2 else 1)
                 && dest[n] == 0 && dest[n + 1..] == old(dest[n + 1..])
                 && (labels != [] && NoStop(labels) ==> Pieces(dest[..n], STOP) == labels)
               else r == -1
  {
    hide Encode, Encodable, Dotted, Names, NameEnd, ChainStands, ChainApart, Pieces, NoStop, ChainLabels;
    ChainExpands(msg, parts, space);
    ChainBegins(msg, parts);
    r := ExpandText(msg, parts[0].at, dest, space);
  }

  lemma ChainBegins(msg: seq<Octet>, parts: seq<Part>)
    requires ChainStands(msg, parts)
    ensures parts != [] && parts[0].at <= |msg|
  {
  }

  /** A name of at most 255 octets, as section 2.3.4 of RFC 1035 allows, always fits into 254 bytes. */
  lemma RoomForNames(labels: seq<Label>)
    requires Encodable(labels) && |Encode(labels)| + 1 <= 255
    ensures TextLength(labels) < 254
    ensures forall msg, src, space: int :: space >= 254 && Names(msg, src, Allowed(msg)) == Spelled(labels) ==>
              Expands(msg, src, space, labels)
  {
    DottedLength(labels);
  }
}
