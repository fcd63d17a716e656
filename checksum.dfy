/** The Internet checksum of RFC 1071: the one's complement of the one's
    complement sum of the 16-bit big-endian words of a byte string.  It is
    what the IPv4 header checksum field of RFC 791 section 3.1 holds. */
module InternetChecksum {
  import opened Bytes

  /** The plain sum of the 16-bit words of `s`; an odd last byte is
      padded with a zero byte (RFC 1071 section 4.1). */
  function WordSum(s: seq<u8>): nat
    decreases |s|
  {
    if |s| == 0 then 0
    else if |s| == 1 then s[0] as int * 0x100
    else s[0] as int * 0x100 + s[1] as int + WordSum(s[2..])
  }

  /** Folds the carries of a word sum back into 16 bits ("end-around
      carry"). */
  function Fold(x: nat): u16
    decreases x
  {
    if x < TWO_16 then x else Fold(x / TWO_16 + x % TWO_16)
  }

  /** Folding keeps the residue modulo 0xFFFF and never turns a non-zero
      sum into zero. */
  lemma {:induction false} FoldResidue(x: nat)
    ensures Fold(x) % 0xFFFF == x % 0xFFFF
    ensures Fold(x) == 0 <==> x == 0
    decreases x
  {
    if x >= TWO_16 {
      var q, m := x / TWO_16, x % TWO_16;
      assert x == q * TWO_16 + m && q >= 1;
      assert x == (q + m) + q * 0xFFFF;
      ModFFFFAddMultiple(q + m, q);
      FoldResidue(q + m);
    }
  }

  /** Adding a multiple of 0xFFFF does not change the residue. */
  lemma {:induction false} ModFFFFAddMultiple(x: nat, q: nat)
    ensures (x + q * 0xFFFF) % 0xFFFF == x % 0xFFFF
  {
    if q > 0 {
      ModFFFFAddMultiple(x, q - 1);
      assert x + q * 0xFFFF == (x + (q - 1) * 0xFFFF) + 0xFFFF;
    }
  }

  /** The 16-bit one's complement sum of `s`. */
  function OnesComplementSum(s: seq<u8>): u16
  {
    Fold(WordSum(s))
  }

  /** The checksum to store in a header whose checksum field is zero. */
  function Checksum(s: seq<u8>): u16
  {
    0xFFFF - OnesComplementSum(s)
  }

  /** Word sums add up over a split at an even offset. */
  lemma {:induction false} WordSumAppend(a: seq<u8>, b: seq<u8>)
    requires |a| % 2 == 0
    ensures WordSum(a + b) == WordSum(a) + WordSum(b)
    decreases |a|
  {
    if |a| > 0 {
      assert (a + b)[2..] == a[2..] + b;
      WordSumAppend(a[2..], b);
    } else {
      assert a + b == b;
    }
  }

  /** The word sum of a string with one 16-bit word spliced in at an even
      offset is the sum of the three parts. */
  lemma WordSumSplice(prefix: seq<u8>, w: seq<u8>, suffix: seq<u8>)
    requires |prefix| % 2 == 0 && |w| == 2
    ensures WordSum(prefix + w + suffix) == WordSum(prefix) + ReadBe16(w, 0) + WordSum(suffix)
  {
    assert prefix + w + suffix == prefix + (w + suffix);
    WordSumAppend(prefix, w + suffix);
    assert (w + suffix)[2..] == suffix;
  }

  /** A non-zero sum plus the complement of its fold folds to 0xFFFF. */
  lemma FoldComplement(sum: nat)
    ensures Fold(sum + (0xFFFF - Fold(sum))) == 0xFFFF
  {
    FoldResidue(sum);
    var f := Fold(sum);
    var t := sum + (0xFFFF - f);
    ComplementResidue(sum, f);
    assert t > 0;
    FoldResidue(t);
    FullWord(Fold(t));
  }

  /** Adding the complement of a number with the same residue gives a
      multiple of 0xFFFF. */
  lemma ComplementResidue(x: nat, f: u16)
    requires x % 0xFFFF == f % 0xFFFF
    ensures (x + (0xFFFF - f)) % 0xFFFF == 0
  {
    var r := x % 0xFFFF;
    assert x == (x / 0xFFFF) * 0xFFFF + r;
    assert f == (f / 0xFFFF) * 0xFFFF + r;
    assert x + (0xFFFF - f) == (x / 0xFFFF - f / 0xFFFF + 1) * 0xFFFF;
  }

  /** The only non-zero 16-bit multiple of 0xFFFF is 0xFFFF. */
  lemma FullWord(g: u16)
    requires g % 0xFFFF == 0 && g != 0
    ensures g == 0xFFFF
  {
  }

  /** Storing the checksum of a header (computed with its checksum word at
      zero) into that word makes the checksum of the whole header zero:
      the receiver's validation of RFC 1071 section 1 succeeds. */
  lemma ChecksumValidates(prefix: seq<u8>, suffix: seq<u8>)
    requires |prefix| % 2 == 0
    ensures Checksum(prefix + Be16(Checksum(prefix + [0, 0] + suffix)) + suffix) == 0
  {
    var c := Checksum(prefix + [0, 0] + suffix);
    WordSumSplice(prefix, [0, 0], suffix);
    WordSumSplice(prefix, Be16(c), suffix);
    FoldComplement(WordSum(prefix) + WordSum(suffix));
  }
}
