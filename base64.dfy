/** Standard padded base64 (section 4 of RFC 4648), as encoding/base64's
    StdEncoding writes it: every 3 input bytes become 4 alphabet characters, and a
    final group of 1 or 2 bytes becomes 2 or 3 characters followed by "=" padding
    up to 4. */
module Base64 {
  import opened Types

  /** The padding character '='. */
  const Pad: byte := 61

  /** The character of the base64 alphabet for a 6-bit value:
      'A'-'Z', 'a'-'z', '0'-'9', '+', '/'. */
  function Digit(v: byte): (c: byte)
    requires v < 64
    ensures c != Pad
  {
    if v < 26 then 65 + v
    else if v < 52 then 97 + (v - 26)
    else if v < 62 then 48 + (v - 52)
    else if v == 62 then 43
    else 47
  }

  /** StdEncoding.EncodedLen: the length of the padded encoding of n bytes. */
  function EncodedLen(n: nat): (r: nat)
    ensures r % 4 == 0
    // r / 4 is the number of 3-byte groups needed to hold n bytes, ceil(n / 3)
    ensures 3 * (r / 4) >= n
    ensures r > 0 ==> 3 * (r / 4 - 1) < n
  {
    (n + 2) / 3 * 4
  }

  /** The 6-bit value that output character j of the group g encodes; a byte
      missing from a short group counts as zero. */
  function Sextet(g: seq<byte>, j: nat): (v: byte)
    requires 1 <= |g| <= 3 && j < 4
    ensures v < 64
  {
    var b0 := g[0];
    var b1 := if |g| > 1 then g[1] else 0;
    var b2 := if |g| > 2 then g[2] else 0;
    if j == 0 then b0 >> 2
    else if j == 1 then ((b0 & 3) << 4) | (b1 >> 4)
    else if j == 2 then ((b1 & 15) << 2) | (b2 >> 6)
    else b2 & 63
  }

  /** Output character j of the group g: one digit for every 6 bits the group
      holds, then padding. */
  function QuantumChar(g: seq<byte>, j: nat): byte
    requires 1 <= |g| <= 3 && j < 4
  {
    if j <= |g| then Digit(Sextet(g, j)) else Pad
  }

  /** The four output characters of one group of 1 to 3 input bytes. */
  function Quantum(g: seq<byte>): (q: seq<byte>)
    requires 1 <= |g| <= 3
    ensures |q| == 4
    ensures q[0] != Pad && q[1] != Pad
    ensures (q[2] == Pad) <==> |g| == 1
    ensures (q[3] == Pad) <==> |g| < 3
  {
    seq(4, j requires 0 <= j < 4 => QuantumChar(g, j))
  }

  /** The padded encoding of s, group by group from the front. */
  function Encode(s: seq<byte>): seq<byte>
    decreases |s|
  {
    if |s| == 0 then []
    else if |s| < 3 then Quantum(s)
    else Quantum(s[..3]) + Encode(s[3..])
  }

  /** The encoding has exactly the length EncodedLen promises, 4 * ceil(n / 3). */
  lemma {:induction false} EncodeLength(s: seq<byte>)
    ensures |Encode(s)| == EncodedLen(|s|)
    decreases |s|
  {
    if |s| >= 3 {
      EncodeLength(s[3..]);
      EncodedLenStep(|s|);
    } else if |s| > 0 {
      assert EncodedLen(|s|) == 4;
    }
  }

  /** One more group of input adds one group of output. */
  lemma EncodedLenStep(n: nat)
    requires n >= 3
    ensures EncodedLen(n) == EncodedLen(n - 3) + 4
  {
    assert (n + 2) / 3 == (n - 1) / 3 + 1;
  }

  /** Padding appears only in the last group, and only when the input length is
      not a multiple of 3. */
  lemma {:induction false} PaddingOnlyAtEnd(s: seq<byte>, k: nat)
    requires k < |Encode(s)|
    ensures Encode(s)[k] == Pad ==> k >= |Encode(s)| - 2 && |s| % 3 != 0
    decreases |s|
  {
    if |s| >= 3 {
      var head, tail := Quantum(s[..3]), Encode(s[3..]);
      assert Encode(s) == head + tail;
      if k < 4 {
        assert Encode(s)[k] == head[k];
      } else {
        assert Encode(s)[k] == tail[k - 4];
        PaddingOnlyAtEnd(s[3..], k - 4);
        assert |s[3..]| == |s| - 3;
      }
    }
  }

  /** Encoding a whole number of groups and then one more group. */
  lemma {:induction false} EncodeAppend(a: seq<byte>, g: seq<byte>)
    requires |a| % 3 == 0 && 1 <= |g| <= 3
    ensures Encode(a + g) == Encode(a) + Quantum(g)
    decreases |a|
  {
    if |a| == 0 {
      assert a + g == g;
      if |g| == 3 {
        assert g[..3] == g && g[3..] == [];
      }
    } else {
      assert (a + g)[..3] == a[..3];
      assert (a + g)[3..] == a[3..] + g;
      EncodeAppend(a[3..], g);
    }
  }

  /** Writes the four characters q of one group at dst[at..at + 4]. */
  method PutQuantum(dst: array<byte>, at: nat, q: seq<byte>)
    requires |q| == 4 && at + 4 <= dst.Length
    modifies dst
    ensures dst[..at + 4] == old(dst[..at]) + q
  {
    dst[at], dst[at + 1], dst[at + 2], dst[at + 3] := q[0], q[1], q[2], q[3];
    assert dst[..at + 4] == dst[..at] + q;
  }

  /** The encoding of a prefix of whole groups grows by one group at a time,
      and ends with the encoding of the last, possibly partial, group; it never
      outgrows the encoding of the whole input. */
  lemma {:induction false} EncodePrefixStep(src: seq<byte>, si: nat)
    requires si % 3 == 0 && si < |src|
    ensures var next := if si + 3 <= |src| then si + 3 else |src|;
            && Encode(src[..next]) == Encode(src[..si]) + Quantum(src[si..next])
            && |Encode(src[..next])| <= |Encode(src)|
  {
    var next := if si + 3 <= |src| then si + 3 else |src|;
    assert src[..next] == src[..si] + src[si..next];
    EncodeAppend(src[..si], src[si..next]);
    EncodeLength(src[..next]);
    EncodeLength(src);
    assert (next + 2) / 3 <= (|src| + 2) / 3;
  }

  /** Encodes the group of src that starts at si into dst at di, extending an
      encoded prefix by one group. */
  method PutGroup(dst: array<byte>, src: seq<byte>, si: nat, di: nat) returns (next: nat)
    requires si % 3 == 0 && si < |src| && dst.Length == |Encode(src)|
    requires di <= dst.Length && dst[..di] == Encode(src[..si])
    modifies dst
    ensures next == (if si + 3 <= |src| then si + 3 else |src|)
    ensures next % 3 == 0 || next == |src|
    ensures di + 4 <= dst.Length && dst[..di + 4] == Encode(src[..next])
  {
    next := if si + 3 <= |src| then si + 3 else |src|;
    assert (si + 3) % 3 == 0;
    EncodePrefixStep(src, si);
    PutQuantum(dst, di, Quantum(src[si..next]));
  }

  /** StdEncoding.Encode(dst, src): fills dst, which the caller sized with
      EncodedLen, with the encoding of src. */
  method EncodeInto(dst: array<byte>, src: seq<byte>)
    requires dst.Length == EncodedLen(|src|)
    modifies dst
    ensures dst[..] == Encode(src)
  {
    EncodeLength(src);
    var si, di := 0, 0;
    while si < |src|
      invariant si <= |src| && (si % 3 == 0 || si == |src|)
      invariant di <= dst.Length && dst[..di] == Encode(src[..si])
    {
      si := PutGroup(dst, src, si, di);
      di := di + 4;
    }
    assert src[..si] == src;
    assert dst[..] == dst[..di];
  }
}
