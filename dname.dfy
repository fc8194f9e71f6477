/** `strAsDname` (kabysdoh.py:39-46): dotted text to the wire-format domain
    name of section 3.1 of RFC 1035, each label preceded by its length octet
    and the whole name closed by the zero-length root label. */
module Dname {
  import opened Base

  datatype DnameError =
    | NotAscii      // `s.encode('ascii')` raises UnicodeEncodeError
    | LabelTooLong  // `bytes((len(label),))` raises ValueError above 255

  /** The octet of the ASCII full stop that separates labels. */
  const Dot: byte := 46

  predicate IsAscii(s: string) {
    forall i :: 0 <= i < |s| ==> s[i] as int < 128
  }

  /** `s.encode('ascii')`. */
  function AsciiBytes(s: string): (r: seq<byte>)
    requires IsAscii(s)
    ensures |r| == |s| && forall i :: 0 <= i < |s| ==> r[i] as int == s[i] as int
  {
    seq(|s|, i requires 0 <= i < |s| => s[i] as int as byte)
  }

  /** `b.split(b'.')`: the pieces between dots, empty pieces included. */
  function Split(b: seq<byte>): (r: seq<seq<byte>>)
    ensures |r| >= 1
  {
    if b == [] then [[]]
    else if b[0] == Dot then [[]] + Split(b[1..])
    else
      var p := Split(b[1..]);
      [[b[0]] + p[0]] + p[1..]
  }

  /** `b'.'.join(ps)`. */
  function Join(ps: seq<seq<byte>>): seq<byte>
    requires |ps| >= 1
  {
    if |ps| == 1 then ps[0] else ps[0] + [Dot] + Join(ps[1..])
  }

  /** Joining the pieces of `Split` with dots gives the octets back. */
  lemma {:induction false} SplitJoin(b: seq<byte>)
    ensures Join(Split(b)) == b
  {
    if b != [] {
      SplitJoin(b[1..]);
      if b[0] == Dot {
        JoinDotStep(b);
      } else {
        JoinByteStep(b);
      }
    }
  }

  lemma JoinDotStep(b: seq<byte>)
    requires b != [] && b[0] == Dot && Join(Split(b[1..])) == b[1..]
    ensures Join(Split(b)) == b
  {
    var p := Split(b[1..]);
    assert Split(b) == [[]] + p;
    assert Split(b)[1..] == p;
    assert b == [Dot] + b[1..];
  }

  lemma JoinByteStep(b: seq<byte>)
    requires b != [] && b[0] != Dot && Join(Split(b[1..])) == b[1..]
    ensures Join(Split(b)) == b
  {
    var p := Split(b[1..]);
    assert Split(b) == [[b[0]] + p[0]] + p[1..];
    JoinCons(b[0], p);
    assert b == [b[0]] + b[1..];
  }

  /** An octet put in front of the first piece comes first in the join. */
  lemma JoinCons(x: byte, p: seq<seq<byte>>)
    requires |p| >= 1
    ensures Join([[x] + p[0]] + p[1..]) == [x] + Join(p)
  {
    var q := [[x] + p[0]] + p[1..];
    if |p| > 1 {
      assert q[1..] == p[1..];
      assert Join(q) == ([x] + p[0]) + [Dot] + Join(p[1..]);
    }
  }

  /** The pieces of `Split` hold no dot. */
  lemma {:induction false} SplitDotFree(b: seq<byte>)
    ensures forall k :: 0 <= k < |Split(b)| ==> Dot !in Split(b)[k]
  {
    if b != [] {
      SplitDotFree(b[1..]);
      var p := Split(b[1..]);
      if b[0] != Dot {
        var q := [[b[0]] + p[0]] + p[1..];
        assert Split(b) == q;
        forall k | 0 <= k < |q| ensures Dot !in q[k] {
          if k == 0 {
            assert Dot !in p[0];
          } else {
            assert q[k] == p[k];
          }
        }
      }
    }
  }

  /** The non-empty pieces, in order. */
  function NonEmpty(ps: seq<seq<byte>>): (r: seq<seq<byte>>)
    ensures forall k :: 0 <= k < |r| ==> r[k] != []
    ensures ShortPieces(ps) ==> ValidLabels(r)
  {
    if ps == [] then []
    else NonEmpty(ps[..|ps| - 1]) + (if ps[|ps| - 1] == [] then [] else [ps[|ps| - 1]])
  }

  predicate ShortPieces(ps: seq<seq<byte>>) {
    forall k :: 0 <= k < |ps| ==> |ps[k]| < 256
  }

  predicate ValidLabels(ls: seq<seq<byte>>) {
    forall k :: 0 <= k < |ls| ==> 0 < |ls[k]| < 256
  }

  /** Length-prefixed labels, without the closing root label. */
  function LabelsWire(ls: seq<seq<byte>>): seq<byte>
    requires ValidLabels(ls)
  {
    if ls == [] then [] else [|ls[0]| as byte] + ls[0] + LabelsWire(ls[1..])
  }

  /** A complete wire-format name: the labels and the zero octet. */
  function EncodeName(ls: seq<seq<byte>>): seq<byte>
    requires ValidLabels(ls)
  {
    LabelsWire(ls) + [0]
  }

  /** The labels of a domain name given as ASCII text: its non-empty
      dot-separated pieces. */
  function TextLabels(s: string): seq<seq<byte>>
    requires IsAscii(s)
  {
    NonEmpty(Pieces(s))
  }

  /** `s.encode('ascii').split(b'.')`. */
  function Pieces(s: string): seq<seq<byte>>
    requires IsAscii(s)
  {
    Split(AsciiBytes(s))
  }

  /** Reads a wire-format name that fills the whole buffer: length-prefixed
      labels up to the one zero octet that ends the buffer. */
  function ParseName(w: seq<byte>): Option<seq<seq<byte>>>
    decreases |w|
  {
    if w == [] then None
    else if w[0] == 0 then (if |w| == 1 then Some([]) else None)
    else if |w| < 1 + w[0] as int then None
    else
      match ParseName(w[1 + w[0] as int..])
      case Some(ls) => Some([w[1..1 + w[0] as int]] + ls)
      case None => None
  }

  /** The encoder's inverse: every label comes back, and the zero octet is the
      last byte and the only length octet that is zero. */
  lemma {:induction false} NameRoundTrip(ls: seq<seq<byte>>)
    requires ValidLabels(ls)
    ensures ParseName(EncodeName(ls)) == Some(ls)
  {
    if ls == [] {
      assert EncodeName(ls) == [0];
    } else {
      var w := EncodeName(ls);
      var n := |ls[0]|;
      assert w == [n as byte] + ls[0] + EncodeName(ls[1..]);
      assert w[1 + n..] == EncodeName(ls[1..]);
      assert w[1..1 + n] == ls[0];
      NameRoundTrip(ls[1..]);
      assert [ls[0]] + ls[1..] == ls;
    }
  }

  lemma {:induction false} LabelsWireAppend(ls: seq<seq<byte>>, l: seq<byte>)
    requires ValidLabels(ls) && 0 < |l| < 256
    ensures ValidLabels(ls + [l])
    ensures LabelsWire(ls + [l]) == LabelsWire(ls) + [|l| as byte] + l
  {
    var all := ls + [l];
    assert forall k :: 0 <= k < |ls| ==> all[k] == ls[k];
    assert all[|ls|] == l;
    if ls == [] {
      assert all == [l];
    } else {
      var t := ls[1..];
      assert all[1..] == t + [l];
      LabelsWireAppend(t, l);
      assert LabelsWire(all) == [|ls[0]| as byte] + ls[0] + LabelsWire(t + [l]);
    }
  }

  lemma NonEmptyStep(ps: seq<seq<byte>>, i: nat)
    requires i < |ps| && ShortPieces(ps[..i]) && |ps[i]| < 256
    ensures ShortPieces(ps[..i + 1])
    ensures ValidLabels(NonEmpty(ps[..i]))
    ensures ps[i] == [] ==> NonEmpty(ps[..i + 1]) == NonEmpty(ps[..i])
    ensures ps[i] != [] ==> NonEmpty(ps[..i + 1]) == NonEmpty(ps[..i]) + [ps[i]]
  {
    assert ps[..i + 1][..i] == ps[..i];
    assert NonEmpty(ps[..i]) + [] == NonEmpty(ps[..i]);
  }

  /** One piece more: an empty piece adds nothing to the wire form, any
      other adds its length octet and its octets. */
  lemma WireStep(ps: seq<seq<byte>>, i: nat)
    requires i < |ps| && ShortPieces(ps[..i]) && |ps[i]| < 256
    ensures ShortPieces(ps[..i + 1])
    ensures ValidLabels(NonEmpty(ps[..i])) && ValidLabels(NonEmpty(ps[..i + 1]))
    ensures ps[i] == [] ==> LabelsWire(NonEmpty(ps[..i + 1])) == LabelsWire(NonEmpty(ps[..i]))
    ensures ps[i] != [] ==>
              LabelsWire(NonEmpty(ps[..i + 1])) == LabelsWire(NonEmpty(ps[..i])) + [|ps[i]| as byte] + ps[i]
  {
    NonEmptyStep(ps, i);
    if ps[i] != [] {
      LabelsWireAppend(NonEmpty(ps[..i]), ps[i]);
    }
  }

  /** The loop of `strAsDname` over the pieces: each non-empty piece is
      written with its length octet, a piece longer than 255 octets is
      refused, and the zero octet closes the name. */
  method EncodePieces(pieces: seq<seq<byte>>) returns (r: Result<seq<byte>, DnameError>)
    ensures !ShortPieces(pieces) ==> r == Err(LabelTooLong)
    ensures ShortPieces(pieces) ==> ValidLabels(NonEmpty(pieces)) && r == Ok(EncodeName(NonEmpty(pieces)))
  {
    var out: seq<byte> := [];
    var i := 0;
    while i < |pieces|
      invariant 0 <= i <= |pieces|
      invariant ShortPieces(pieces[..i])
      invariant out == LabelsWire(NonEmpty(pieces[..i]))
    {
      var piece := pieces[i];
      if |piece| > 255 {
        assert pieces[i] == piece;
        return Err(LabelTooLong);
      }
      WireStep(pieces, i);
      if |piece| > 0 {
        out := out + [|piece| as byte] + piece;
      }
      i := i + 1;
    }
    assert pieces[..i] == pieces;
    out := out + [0];
    return Ok(out);
  }

  /** `strAsDname(s)`: encodes the ASCII text `s`; the empty pieces produced by
      leading, trailing or doubled dots are skipped. */
  method StrAsDname(s: string) returns (r: Result<seq<byte>, DnameError>)
    ensures !IsAscii(s) ==> r == Err(NotAscii)
    ensures IsAscii(s) && !ShortPieces(Pieces(s)) ==> r == Err(LabelTooLong)
    ensures IsAscii(s) && ShortPieces(Pieces(s)) ==>
              ValidLabels(TextLabels(s)) && r == Ok(EncodeName(TextLabels(s)))
  {
    if !IsAscii(s) {
      return Err(NotAscii);
    }
    r := EncodePieces(Pieces(s));
  }
}
