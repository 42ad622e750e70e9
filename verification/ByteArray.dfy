/** A finite sequence read as an unbounded byte array that is zero beyond its end: the storage
    file of a slave, and the flat device the client believes in. */
module ByteArray {
  import opened Base

  function At(f: bytes, i: nat): byte {
    if i < |f| then f[i] else 0
  }

  function ReadBack(f: bytes, offset: nat, len: nat): (r: bytes)
    ensures |r| == len
  {
    seq<byte>(len, i requires 0 <= i < len => At(f, offset + i))
  }

  /** The file after writing data at offset; a gap before offset becomes a hole of zeros. */
  function Overlay(f: bytes, offset: nat, data: bytes): bytes {
    if data == [] then f
    else
      var padded := if |f| < offset then Resize(f, offset) else f;
      padded[..offset] + data + padded[Min(offset + |data|, |padded|)..]
  }

  /** A write changes exactly its own range. */
  lemma OverlayAt(f: bytes, offset: nat, data: bytes, i: nat)
    ensures At(Overlay(f, offset, data), i)
         == if offset <= i < offset + |data| then data[i - offset] else At(f, i)
  {
    if data != [] {
      var padded := if |f| < offset then Resize(f, offset) else f;
      assert At(padded, i) == At(f, i);
    }
  }

  lemma OverlayLength(f: bytes, offset: nat, data: bytes)
    ensures |Overlay(f, offset, data)| == if data == [] || offset + |data| < |f| then |f| else offset + |data|
  {
  }

  /** Two writes laid end to end are one write of the joined data. */
  lemma OverlayJoin(f: bytes, offset: nat, a: bytes, b: bytes)
    ensures Overlay(Overlay(f, offset, a), offset + |a|, b) == Overlay(f, offset, a + b)
  {
    var one, two := Overlay(f, offset, a + b), Overlay(Overlay(f, offset, a), offset + |a|, b);
    if a == [] {
      assert a + b == b;
    } else if b == [] {
      assert a + b == a;
    } else {
      OverlayLength(f, offset, a);
      OverlayLength(f, offset, a + b);
      OverlayLength(Overlay(f, offset, a), offset + |a|, b);
      forall i | 0 <= i < |one|
        ensures one[i] == two[i]
      {
        OverlayAt(f, offset, a, i);
        OverlayAt(f, offset, a + b, i);
        OverlayAt(Overlay(f, offset, a), offset + |a|, b, i);
      }
    }
  }

  lemma OverlayNothing(f: bytes, offset: nat)
    ensures Overlay(f, offset, []) == f
  {
  }

  lemma ReadBackJoin(f: bytes, offset: nat, a: nat, b: nat)
    ensures ReadBack(f, offset, a) + ReadBack(f, offset + a, b) == ReadBack(f, offset, a + b)
  {
  }

  /** What was just written is what is read back. */
  lemma ReadBackOwnWrite(f: bytes, offset: nat, data: bytes)
    ensures ReadBack(Overlay(f, offset, data), offset, |data|) == data
  {
    forall i | 0 <= i < |data|
      ensures At(Overlay(f, offset, data), offset + i) == data[i]
    {
      OverlayAt(f, offset, data, offset + i);
    }
  }
}
