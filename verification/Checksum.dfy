/** The Internet checksum of ping requests (sections 1 and 4.1 of RFC 1071). */
module Checksum {
  import opened Domain

  /** A 16-bit word as the machine loads it from two neighbouring bytes. */
  function Word(bigEndian: bool, b0: Byte, b1: Byte): int {
    if bigEndian then 0x100 * b0 + b1 else b0 + 0x100 * b1
  }

  function WordCount(len: nat): nat {
    (len + 1) / 2
  }

  /** Word `k` of a buffer; a missing last byte counts as zero. */
  function WordAt(bigEndian: bool, buf: seq<Byte>, k: nat): (w: int)
    requires 2 * k < |buf|
    ensures 0 <= w < 0x1_0000
  {
    Word(bigEndian, buf[2 * k], if 2 * k + 1 < |buf| then buf[2 * k + 1] else 0)
  }

  // ----- the sum as RFC 1071 defines it -----------------------------------------------------

  /** Addition with end-around carry. */
  function OnesAdd(a: int, b: int): (r: int)
    requires 0 <= a < 0x1_0000 && 0 <= b < 0x1_0000
    ensures 0 <= r < 0x1_0000
  {
    if a + b < 0x1_0000 then a + b else a + b - 0xFFFF
  }

  /** The one's complement sum of the first `n` words. */
  function OnesSum(bigEndian: bool, buf: seq<Byte>, n: nat): (r: int)
    requires n <= WordCount(|buf|)
    ensures 0 <= r < 0x1_0000
  {
    if n == 0 then 0 else OnesAdd(OnesSum(bigEndian, buf, n - 1), WordAt(bigEndian, buf, n - 1))
  }

  // ----- the sum as the program computes it -------------------------------------------------

  function PlainSum(bigEndian: bool, buf: seq<Byte>, n: nat): (r: int)
    requires n <= WordCount(|buf|)
    ensures 0 <= r <= 0xFFFF * n
  {
    if n == 0 then 0 else PlainSum(bigEndian, buf, n - 1) + WordAt(bigEndian, buf, n - 1)
  }

  /** Both folds and the cut to 16 bits. */
  function Folded(sum: int): int
    requires 0 <= sum
  {
    var once := sum / 0x1_0000 + sum % 0x1_0000;
    (once + once / 0x1_0000) % 0x1_0000
  }

  /** The number between 1 and 65535 congruent to a positive `sum` modulo 65535. */
  function Residue(sum: int): int
    requires 0 <= sum
  {
    if sum == 0 then 0 else (sum - 1) % 0xFFFF + 1
  }

  lemma FoldedIsResidue(sum: int)
    requires 0 <= sum < 0x8000_0000
    ensures Folded(sum) == Residue(sum)
  {
    var hi, lo := sum / 0x1_0000, sum % 0x1_0000;
    assert sum == 0xFFFF * hi + (hi + lo);
    var once := hi + lo;
    assert once < 0x1_8000;
    ResidueAt(sum, hi, once);
  }

  /** Taking multiples of 65535 out of a sum leaves its residue. */
  lemma ResidueAt(sum: int, q: int, rest: int)
    requires 0 <= q && 0 <= rest <= 0x1_FFFE && sum == 0xFFFF * q + rest
    ensures rest == 0 ==> Residue(sum) == if q == 0 then 0 else 0xFFFF
    ensures 0 < rest <= 0xFFFF ==> Residue(sum) == rest
    ensures 0xFFFF < rest ==> Residue(sum) == rest - 0xFFFF
  {
    if rest == 0 {
      if q > 0 { assert sum - 1 == 0xFFFF * (q - 1) + 0xFFFE; }
    } else if rest <= 0xFFFF {
      assert sum - 1 == 0xFFFF * q + (rest - 1);
    } else {
      assert sum - 1 == 0xFFFF * (q + 1) + (rest - 0xFFFF - 1);
    }
  }

  lemma ResidueStep(sum: int, w: int)
    requires 0 <= sum && 0 <= w < 0x1_0000
    ensures Residue(sum + w) == OnesAdd(Residue(sum), w)
  {
    if sum > 0 {
      var q, r := (sum - 1) / 0xFFFF, (sum - 1) % 0xFFFF + 1;
      ResidueAt(sum + w, q, r + w);
    } else if w > 0 {
      ResidueAt(w, 0, w);
    }
  }

  /** Adding without carries and folding at the end is adding with end-around carries. */
  lemma {:induction false} SumsAgree(bigEndian: bool, buf: seq<Byte>, n: nat)
    requires n <= WordCount(|buf|)
    ensures Residue(PlainSum(bigEndian, buf, n)) == OnesSum(bigEndian, buf, n)
  {
    if n > 0 {
      SumsAgree(bigEndian, buf, n - 1);
      ResidueStep(PlainSum(bigEndian, buf, n - 1), WordAt(bigEndian, buf, n - 1));
    }
  }

  /** The loop of in_cksum and its odd byte: the accumulator stays within a signed 32-bit integer. */
  method AddWords(bigEndian: bool, buf: array<Byte>) returns (sum: int)
    requires buf.Length <= 0x1_0000
    ensures sum == PlainSum(bigEndian, buf[..], WordCount(buf.Length)) && 0 <= sum < 0x8000_0000
  {
    ghost var b := buf[..];
    var nleft, w := buf.Length, 0;
    sum := 0;
    while nleft > 1
      invariant 0 <= nleft && 2 * w + nleft == buf.Length
      invariant sum == PlainSum(bigEndian, b, w)
    {
      sum := sum + Word(bigEndian, buf[2 * w], buf[2 * w + 1]);
      w := w + 1;
      nleft := nleft - 2;
    }
    if nleft == 1 {
      sum := sum + Word(bigEndian, buf[2 * w], 0);
    }
  }

  /** The end of in_cksum: fold twice, complement, cut to 16 bits. */
  method FoldAndComplement(total: int) returns (answer: int)
    requires 0 <= total
    ensures answer == 0xFFFF - Folded(total)
  {
    var sum := total / 0x1_0000 + total % 0x1_0000;
    sum := sum + sum / 0x1_0000;
    answer := 0xFFFF - sum % 0x1_0000;
  }

  /** in_cksum: for every buffer of up to 65536 bytes, of even or odd length and on machines of
      either byte order, the result is the complement of the one's complement sum. */
  method InCksum(bigEndian: bool, buf: array<Byte>) returns (answer: int)
    requires buf.Length <= 0x1_0000
    ensures answer == 0xFFFF - OnesSum(bigEndian, buf[..], WordCount(buf.Length))
  {
    var sum := AddWords(bigEndian, buf);
    answer := FoldAndComplement(sum);
    FoldedIsResidue(sum);
    SumsAgree(bigEndian, buf[..], WordCount(buf.Length));
  }

  // ----- what the sum does not depend on --------------------------------------------------------

  /** A buffer of odd length counts as if a zero byte followed. */
  lemma {:induction false} OddLength(bigEndian: bool, buf: seq<Byte>, n: nat)
    requires |buf| % 2 == 1 && n <= WordCount(|buf|)
    ensures OnesSum(bigEndian, buf, n) == OnesSum(bigEndian, buf + [0], n)
  {
    if n > 0 {
      OddLength(bigEndian, buf, n - 1);
    }
  }

  /** A 16-bit value with its bytes exchanged. */
  function Swapped(x: int): (r: int)
    requires 0 <= x < 0x1_0000
    ensures 0 <= r < 0x1_0000
  {
    0x100 * (x % 0x100) + x / 0x100
  }

  /** Exchanging the bytes is multiplying by 256 modulo 65535. */
  lemma SwappedIs(x: int)
    requires 0 <= x < 0x1_0000
    ensures Swapped(x) + 0xFFFF * (x / 0x100) == 0x100 * x && (Swapped(x) == 0 <==> x == 0)
  {
  }

  lemma SwappedAdd(a: int, b: int)
    requires 0 <= a < 0x1_0000 && 0 <= b < 0x1_0000
    ensures Swapped(OnesAdd(a, b)) == OnesAdd(Swapped(a), Swapped(b))
  {
    hide Swapped;
    SwappedIs(a);
    SwappedIs(b);
    SwappedIs(OnesAdd(a, b));
    var carry := if a + b < 0x1_0000 then 0 else 1;
    var k := a / 0x100 + b / 0x100 - OnesAdd(a, b) / 0x100 - 0x100 * carry;
    assert Swapped(OnesAdd(a, b)) == Swapped(a) + Swapped(b) + 0xFFFF * k;
    var again := if Swapped(a) + Swapped(b) < 0x1_0000 then 0 else 1;
    SameModulo(Swapped(OnesAdd(a, b)), OnesAdd(Swapped(a), Swapped(b)), k + again);
  }

  lemma SameModulo(x: int, y: int, k: int)
    requires 0 <= x < 0x1_0000 && 0 <= y < 0x1_0000 && x == y + 0xFFFF * k && (x == 0 <==> y == 0)
    ensures x == y
  {
  }

  lemma WordSwapped(buf: seq<Byte>, k: nat)
    requires 2 * k < |buf|
    ensures WordAt(false, buf, k) == Swapped(WordAt(true, buf, k))
  {
  }

  /** Byte-order independence: a machine of the other byte order gets the same bytes. */
  lemma {:induction false} EitherOrder(buf: seq<Byte>, n: nat)
    requires n <= WordCount(|buf|)
    ensures OnesSum(false, buf, n) == Swapped(OnesSum(true, buf, n))
  {
    hide Swapped, OnesAdd, WordAt;
    if n > 0 {
      EitherOrder(buf, n - 1);
      WordSwapped(buf, n - 1);
      SwappedAdd(OnesSum(true, buf, n - 1), WordAt(true, buf, n - 1));
    } else {
      SwappedIs(0);
    }
  }

  // ----- checking a packet that carries its checksum -------------------------------------------

  /** `buf` with the 16-bit value `v` stored as word `j`. */
  function Stored(bigEndian: bool, buf: seq<Byte>, j: nat, v: int): (r: seq<Byte>)
    requires 2 * j + 1 < |buf| && 0 <= v < 0x1_0000
    ensures |r| == |buf|
    ensures WordAt(bigEndian, r, j) == v
    ensures forall k | 0 <= k < |buf| && k != 2 * j && k != 2 * j + 1 :: r[k] == buf[k]
  {
    if bigEndian then buf[2 * j := v / 0x100][2 * j + 1 := v % 0x100]
    else buf[2 * j := v % 0x100][2 * j + 1 := v / 0x100]
  }

  lemma {:induction false} StoredSum(bigEndian: bool, buf: seq<Byte>, j: nat, v: int, n: nat)
    requires 2 * j + 1 < |buf| && 0 <= v < 0x1_0000 && n <= WordCount(|buf|)
    requires WordAt(bigEndian, buf, j) == 0
    ensures PlainSum(bigEndian, Stored(bigEndian, buf, j, v), n)
        == PlainSum(bigEndian, buf, n) + (if j < n then v else 0)
  {
    if n > 0 {
      StoredSum(bigEndian, buf, j, v, n - 1);
      var r := Stored(bigEndian, buf, j, v);
      if n - 1 != j {
        assert WordAt(bigEndian, r, n - 1) == WordAt(bigEndian, buf, n - 1);
      }
    }
  }

  /** For every buffer whose checksum word is zero, wherever it is: storing the checksum there makes
      the checksum of the whole come out as 0. */
  lemma Verifies(bigEndian: bool, buf: seq<Byte>, j: nat)
    requires 2 * j + 1 < |buf| && WordAt(bigEndian, buf, j) == 0
    ensures
      var n := WordCount(|buf|);
      OnesSum(bigEndian, Stored(bigEndian, buf, j, 0xFFFF - OnesSum(bigEndian, buf, n)), n) == 0xFFFF
  {
    var n := WordCount(|buf|);
    var v := 0xFFFF - OnesSum(bigEndian, buf, n);
    var r := Stored(bigEndian, buf, j, v);
    SumsAgree(bigEndian, buf, n);
    SumsAgree(bigEndian, r, n);
    StoredSum(bigEndian, buf, j, v, n);
    var sum := PlainSum(bigEndian, buf, n);
    if sum == 0 {
      ResidueAt(v, 0, v);
    } else {
      var q := (sum - 1) / 0xFFFF;
      ResidueAt(sum + v, q + 1, 0);
    }
  }
}
