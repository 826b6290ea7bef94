/**
 * The performance bitmap ("musicbar"): each decoded byte holds four 2-bit
 * markers, least-significant pair first. Base64 decoding is done before
 * this module: it receives the decoded bytes.
 */
module Bitmap {

  const MB_GREY := 1
  const MB_BLUE := 2
  const MB_YELLOW := 3

  /** A decoded byte, as `ord` gives it. */
  type Byte = x: int | 0 <= x < 256

  /**
   * The four markers of one byte, in the order the source appends them:
   * `b & 3`, `(b >> 2) & 3`, `(b >> 4) & 3`, `(b >> 6) & 3`. On a
   * non-negative integer `b >> 2k` is `b / 4^k` and `& 3` is `% 4`.
   */
  function MarkersOf(b: Byte): (q: seq<int>)
    ensures |q| == 4
  {
    [b % 4, (b / 4) % 4, (b / 16) % 4, (b / 64) % 4]
  }

  /** Marker `k` (0..3) of byte `b`. */
  function MarkerAt(b: Byte, k: nat): (m: int)
    requires k < 4
    ensures 0 <= m < 4
  {
    MarkersOf(b)[k]
  }

  /** The markers of a byte sequence: each byte's four, concatenated in input order. */
  function Unpack(bs: seq<Byte>): (ms: seq<int>)
    ensures |ms| == 4 * |bs|
    ensures AreMarkers(ms)
  {
    if bs == [] then [] else Unpack(bs[..|bs| - 1]) + MarkersOf(bs[|bs| - 1])
  }

  predicate AreMarkers(ms: seq<int>)
  {
    forall j :: 0 <= j < |ms| ==> 0 <= ms[j] < 4
  }

  /** One byte back from its four markers: the sum of `q[k] << 2k`. */
  function ByteOf(q: seq<int>): (b: Byte)
    requires |q| == 4 && AreMarkers(q)
  {
    q[0] + 4 * q[1] + 16 * q[2] + 64 * q[3]
  }

  /** The inverse packing: every four markers become one byte. */
  function Pack(ms: seq<int>): (bs: seq<Byte>)
    requires |ms| % 4 == 0 && AreMarkers(ms)
    ensures 4 * |bs| == |ms|
  {
    if ms == [] then []
    else
      var n := |ms|;
      assert AreMarkers(ms[n - 4..]);
      Pack(ms[..n - 4]) + [ByteOf(ms[n - 4..])]
  }

  lemma ByteRoundTrip(b: Byte)
    ensures ByteOf(MarkersOf(b)) == b
  {
    var b1, b2, b3 := b / 4, b / 16, b / 64;
    assert b == b % 4 + 4 * b1;
    assert b1 == b1 % 4 + 4 * b2 by { assert b2 == b1 / 4; }
    assert b2 == b2 % 4 + 4 * b3 by { assert b3 == b2 / 4; }
    assert b3 % 4 == b3;
  }

  lemma MarkersRoundTrip(q: seq<int>)
    requires |q| == 4 && AreMarkers(q)
    ensures MarkersOf(ByteOf(q)) == q
  {
    assert 0 <= q[0] < 4 && 0 <= q[1] < 4 && 0 <= q[2] < 4 && 0 <= q[3] < 4;
    var b := ByteOf(q);
    var hi1, hi2 := q[1] + 4 * q[2] + 16 * q[3], q[2] + 4 * q[3];
    assert b == q[0] + 4 * hi1;
    assert b / 4 == hi1;
    assert b == (q[0] + 4 * q[1]) + 16 * hi2;
    assert b / 16 == hi2;
    assert b == (q[0] + 4 * q[1] + 16 * q[2]) + 64 * q[3];
    assert b / 64 == q[3];
  }

  /** Element 4i+k of the markers is marker k of byte i. */
  lemma {:induction false} UnpackAt(bs: seq<Byte>)
    ensures forall i, k :: 0 <= i < |bs| && 0 <= k < 4 ==> Unpack(bs)[4 * i + k] == MarkerAt(bs[i], k)
  {
    if bs != [] {
      var n := |bs|;
      var front := bs[..n - 1];
      UnpackAt(front);
      forall i, k | 0 <= i < n && 0 <= k < 4
        ensures Unpack(bs)[4 * i + k] == MarkerAt(bs[i], k)
      {
        if i < n - 1 {
          assert Unpack(bs)[4 * i + k] == Unpack(front)[4 * i + k];
          assert bs[i] == front[i];
        }
      }
    }
  }

  /** Repacking the decoded markers gives back the bytes. */
  lemma {:induction false} PackUnpack(bs: seq<Byte>)
    ensures Pack(Unpack(bs)) == bs
  {
    if bs != [] {
      var n := |bs|;
      var front := bs[..n - 1];
      var last := bs[n - 1];
      PackLastByte(Unpack(front), MarkersOf(last));
      PackUnpack(front);
      ByteRoundTrip(last);
      assert bs == front + [last];
    }
  }

  lemma PackLastByte(front: seq<int>, q: seq<int>)
    requires |front| % 4 == 0 && AreMarkers(front)
    requires |q| == 4 && AreMarkers(q)
    ensures AreMarkers(front + q) && Pack(front + q) == Pack(front) + [ByteOf(q)]
  {
    var ms := front + q;
    assert ms[..|ms| - 4] == front;
    assert ms[|ms| - 4..] == q;
  }

  lemma UnpackLastByte(bs: seq<Byte>, b: Byte)
    ensures Unpack(bs + [b]) == Unpack(bs) + MarkersOf(b)
  {
    assert (bs + [b])[..|bs|] == bs;
  }

  /** Decoding a packing gives back the markers, for any number of markers divisible by four. */
  lemma {:induction false} UnpackPack(ms: seq<int>)
    requires |ms| % 4 == 0 && AreMarkers(ms)
    ensures Unpack(Pack(ms)) == ms
  {
    if ms != [] {
      var n := |ms|;
      var front := ms[..n - 4];
      var q := ms[n - 4..];
      assert ms == front + q;
      assert AreMarkers(front) && AreMarkers(q);
      PackLastByte(front, q);
      UnpackLastByte(Pack(front), ByteOf(q));
      UnpackPack(front);
      MarkersRoundTrip(q);
    }
  }

  /**
   * The decoding loop of the source: for each byte, four markers are
   * appended, least-significant pair first.
   */
  method ConvertMb(mb: seq<Byte>) returns (l: seq<int>)
    ensures l == Unpack(mb)
  {
    l := [];
    for i := 0 to |mb|
      invariant l == Unpack(mb[..i])
    {
      var b := mb[i];
      l := l + [b % 4];
      l := l + [(b / 4) % 4];
      l := l + [(b / 16) % 4];
      l := l + [(b / 64) % 4];
      assert mb[..i + 1][..i] == mb[..i];
    }
    assert mb[..|mb|] == mb;
  }

  /** `ng`: no grey marker occurs. */
  function NoGrey(mb: seq<int>): (b: bool)
    ensures b <==> forall j :: 0 <= j < |mb| ==> mb[j] != MB_GREY
  {
    MB_GREY !in mb
  }

  /** `ay`: neither a grey nor a blue marker occurs. */
  function AllYellow(mb: seq<int>): (b: bool)
    ensures b <==> forall j :: 0 <= j < |mb| ==> mb[j] != MB_GREY && mb[j] != MB_BLUE
    ensures b ==> NoGrey(mb)
  {
    MB_GREY !in mb && MB_BLUE !in mb
  }

  /** All-yellow is the stronger of the two flags. */
  lemma AllYellowImpliesNoGrey(mb: seq<int>)
    ensures AllYellow(mb) ==> NoGrey(mb)
  {
  }

  /** Both flags hold of an empty bitmap: nothing grey or blue occurs in it. */
  lemma EmptyBitmapFlags()
    ensures NoGrey([]) && AllYellow([])
  {
  }

  /**
   * Over markers, all-yellow means every marker is yellow or null: a null
   * marker neither empties the bitmap nor clears the flag.
   */
  lemma AllYellowMeansYellowOrNull(mb: seq<int>)
    requires AreMarkers(mb)
    ensures AllYellow(mb) <==> forall j :: 0 <= j < |mb| ==> mb[j] == 0 || mb[j] == MB_YELLOW
  {
    if !AllYellow(mb) {
      var j :| 0 <= j < |mb| && (mb[j] == MB_GREY || mb[j] == MB_BLUE);
    }
  }

  /** The no-grey flag of decoded bytes, stated on the bytes: no 2-bit pair of any byte is 01. */
  lemma NoGreyOfBytes(bs: seq<Byte>)
    ensures NoGrey(Unpack(bs)) <==>
      forall i, k :: 0 <= i < |bs| && 0 <= k < 4 ==> MarkerAt(bs[i], k) != MB_GREY
  {
    var ms := Unpack(bs);
    if NoGrey(ms) {
      forall i, k | 0 <= i < |bs| && 0 <= k < 4
        ensures MarkerAt(bs[i], k) != MB_GREY
      {
        UnpackAtPoint(bs, i, k);
        assert ms[4 * i + k] in ms;
      }
    } else {
      var j :| 0 <= j < |ms| && ms[j] == MB_GREY;
      var i, k := j / 4, j % 4;
      assert j == 4 * i + k;
      UnpackAtPoint(bs, i, k);
    }
  }

  /** One instance of UnpackAt. */
  lemma UnpackAtPoint(bs: seq<Byte>, i: nat, k: nat)
    requires i < |bs| && k < 4
    ensures 4 * i + k < |Unpack(bs)| && Unpack(bs)[4 * i + k] == MarkerAt(bs[i], k)
  {
    UnpackAt(bs);
  }

  /** Bytes 255 decode to yellow markers only, so both flags hold. */
  lemma AllFfIsAllYellow(bs: seq<Byte>)
    requires forall i :: 0 <= i < |bs| ==> bs[i] == 255
    ensures forall j :: 0 <= j < |Unpack(bs)| ==> Unpack(bs)[j] == MB_YELLOW
    ensures AllYellow(Unpack(bs)) && NoGrey(Unpack(bs))
  {
    UnpackAt(bs);
    var ms := Unpack(bs);
    forall j | 0 <= j < |ms|
      ensures ms[j] == MB_YELLOW
    {
      var i, k := j / 4, j % 4;
      assert j == 4 * i + k;
      UnpackAtPoint(bs, i, k);
      assert MarkersOf(255) == [3, 3, 3, 3];
    }
  }
}
