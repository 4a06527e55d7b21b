/**
 * The Internet checksum (section 1 of RFC 1071): the one's complement of the one's complement sum of
 * a packet's sixteen-bit words, an odd last byte counting as the high half of a word.
 */
module Checksum {
  import opened Bytes

  const U32: nat := 0x1_0000_0000

  /** The longest packet, in words, whose plain sum always fits 32 bits. */
  const MAX_WORDS: nat := 65_537

  function Words(bytes: seq<Byte>): seq<Word> {
    if |bytes| == 0 then []
    else if |bytes| == 1 then [WordOf(bytes[0], 0)]
    else [WordOf(bytes[0], bytes[1])] + Words(bytes[2..])
  }

  function Sum(words: seq<Word>): nat {
    if words == [] then 0 else words[0] + Sum(words[1..])
  }

  /**
   * The one's complement sum of words adding up to `total`: the residue modulo 2^16 - 1, where a
   * non-zero total is never represented by 0.
   */
  function OnesComplement(total: nat): (w: Word)
    ensures w == 0 <==> total == 0
  {
    if total == 0 then 0 else (total - 1) % 0xFFFF + 1
  }

  function RfcChecksum(bytes: seq<Byte>): Word {
    0xFFFF - OnesComplement(Sum(Words(bytes)))
  }

  // ---------------------------------------------------------------------- the program

  lemma SumTail(bytes: seq<Byte>, i: nat)
    requires i + 1 < |bytes|
    ensures Sum(Words(bytes[i..])) == WordOf(bytes[i], bytes[i + 1]) + Sum(Words(bytes[i + 2..]))
  {
    SumSecond(bytes[i..]);
    assert bytes[i..][2..] == bytes[i + 2..];
  }

  lemma WrapAdd(a: nat, b: nat)
    ensures (a % U32 + b) % U32 == (a + b) % U32
  {
    var q := a / U32;
    assert a + b == U32 * q + (a % U32 + b);
  }

  /** Folding the carries back in keeps the one's complement sum. */
  lemma FoldStep(v: nat)
    requires v >= 0x1_0000
    ensures v % 0x1_0000 + v / 0x1_0000 < v
    ensures OnesComplement(v % 0x1_0000 + v / 0x1_0000) == OnesComplement(v)
  {
    var h, l := v / 0x1_0000, v % 0x1_0000;
    assert v - 1 == 0xFFFF * h + (l + h - 1);
    ModShift(h, l + h - 1);
  }

  lemma ModShift(q: nat, r: nat)
    ensures (0xFFFF * q + r) % 0xFFFF == r % 0xFFFF
  {
  }

  /** Add up the words in a 32-bit accumulator that wraps. */
  method Accumulate(bytes: seq<Byte>) returns (sum: nat)
    ensures sum == Sum(Words(bytes)) % U32
  {
    ghost var unwrapped: nat := 0;
    sum := 0;
    var i := 0;
    assert bytes[0..] == bytes;
    while i + 1 < |bytes|
      invariant 0 <= i <= |bytes|
      invariant sum == unwrapped % U32
      invariant unwrapped + Sum(Words(bytes[i..])) == Sum(Words(bytes))
    {
      var w := WordOf(bytes[i], bytes[i + 1]);
      SumTail(bytes, i);
      WrapAdd(unwrapped, w);
      sum := (sum + w) % U32;
      unwrapped := unwrapped + w;
      i := i + 2;
    }
    if i < |bytes| {
      assert Words(bytes[i..]) == [WordOf(bytes[i], 0)];
      WrapAdd(unwrapped, WordOf(bytes[i], 0));
      sum := (sum + WordOf(bytes[i], 0)) % U32;
    }
  }

  /** Fold the carries back in until sixteen bits are left. */
  method Fold(sum: nat) returns (folded: Word)
    ensures folded == OnesComplement(sum)
  {
    var rest := sum;
    while rest / 0x1_0000 != 0
      invariant OnesComplement(rest) == OnesComplement(sum)
      decreases rest
    {
      FoldStep(rest);
      rest := rest % 0x1_0000 + rest / 0x1_0000;
    }
    folded := rest;
  }

  /** The checksum as computed, in 32-bit arithmetic that wraps. */
  method InternetChecksum(bytes: seq<Byte>) returns (checksum: Word)
    ensures checksum == 0xFFFF - OnesComplement(Sum(Words(bytes)) % U32)
    ensures |Words(bytes)| <= MAX_WORDS ==> checksum == RfcChecksum(bytes)
  {
    var sum := Accumulate(bytes);
    var folded := Fold(sum);
    checksum := 0xFFFF - folded;
    SumIsSmall(Words(bytes));
  }

  // ---------------------------------------------------------------------- no overflow

  lemma {:induction false} SumBound(words: seq<Word>)
    ensures Sum(words) <= 0xFFFF * |words|
  {
    if words != [] {
      SumBound(words[1..]);
    }
  }

  lemma SumIsSmall(words: seq<Word>)
    ensures |words| <= MAX_WORDS ==> Sum(words) < U32 && Sum(words) % U32 == Sum(words)
  {
    SumBound(words);
  }

  lemma {:induction false} SumOfLargest(n: nat) returns (words: seq<Word>)
    ensures |words| == n && Sum(words) == 0xFFFF * n
  {
    words := [];
    if n > 0 {
      var rest := SumOfLargest(n - 1);
      words := [0xFFFF] + rest;
      assert words[1..] == rest;
    }
  }

  /** No packet of `n` words overflows the 32-bit accumulator exactly up to 65537 words. */
  lemma NoOverflowIff(n: nat)
    ensures (forall words: seq<Word> :: |words| == n ==> Sum(words) < U32) <==> n <= MAX_WORDS
  {
    if n <= MAX_WORDS {
      forall words: seq<Word> | |words| == n ensures Sum(words) < U32 {
        SumBound(words);
      }
    } else {
      var words := SumOfLargest(n);
      assert Sum(words) >= U32;
    }
  }

  // ---------------------------------------------------------------------- the self-check

  function WithField(bytes: seq<Byte>, k: nat, high: Byte, low: Byte): (r: seq<Byte>)
    requires k + 1 < |bytes|
    ensures |r| == |bytes|
  {
    bytes[k := high][k + 1 := low]
  }

  /** Overwrite the field at byte `k` with the word `w`, in network order. */
  function Stored(bytes: seq<Byte>, k: nat, w: Word): (r: seq<Byte>)
    requires k + 1 < |bytes|
    ensures |r| == |bytes|
  {
    WithField(bytes, k, BigEndian(w)[0], BigEndian(w)[1])
  }

  lemma {:induction false} FieldSum(bytes: seq<Byte>, j: nat, high: Byte, low: Byte)
    requires 2 * j + 1 < |bytes| && bytes[2 * j] == 0 == bytes[2 * j + 1]
    ensures Sum(Words(WithField(bytes, 2 * j, high, low))) == Sum(Words(bytes)) + WordOf(high, low)
    ensures |Words(WithField(bytes, 2 * j, high, low))| == |Words(bytes)|
    decreases j
  {
    var stored := WithField(bytes, 2 * j, high, low);
    SumSecond(bytes);
    SumSecond(stored);
    if j == 0 {
      assert stored[2..] == bytes[2..];
    } else {
      FieldSum(bytes[2..], j - 1, high, low);
      assert stored[2..] == WithField(bytes[2..], 2 * (j - 1), high, low);
    }
  }

  lemma StoredSum(bytes: seq<Byte>, k: nat, w: Word)
    requires k % 2 == 0 && k + 1 < |bytes| && bytes[k] == 0 == bytes[k + 1]
    ensures Sum(Words(Stored(bytes, k, w))) == Sum(Words(bytes)) + w
    ensures |Words(Stored(bytes, k, w))| == |Words(bytes)|
  {
    FieldSum(bytes, k / 2, BigEndian(w)[0], BigEndian(w)[1]);
  }

  lemma SumSecond(bytes: seq<Byte>)
    requires |bytes| >= 2
    ensures Sum(Words(bytes)) == WordOf(bytes[0], bytes[1]) + Sum(Words(bytes[2..]))
    ensures |Words(bytes)| == 1 + |Words(bytes[2..])|
  {
    assert Words(bytes)[1..] == Words(bytes[2..]);
  }

  lemma SelfSum(total: nat)
    ensures OnesComplement(total + (0xFFFF - OnesComplement(total))) == 0xFFFF
  {
    if total > 0 {
      var q := (total - 1) / 0xFFFF;
      assert total + 0xFFFF - OnesComplement(total) == 0xFFFF * (q + 1);
      assert 0xFFFF * (q + 1) - 1 == 0xFFFF * q + 0xFFFE;
      ModShift(q, 0xFFFE);
    }
  }

  /** Storing the checksum of a packet in its zeroed field makes the packet's checksum zero. */
  lemma StoredChecksumIsZero(bytes: seq<Byte>, k: nat)
    requires k % 2 == 0 && k + 1 < |bytes| && bytes[k] == 0 == bytes[k + 1]
    ensures RfcChecksum(Stored(bytes, k, RfcChecksum(bytes))) == 0
    ensures |Words(Stored(bytes, k, RfcChecksum(bytes)))| == |Words(bytes)|
  {
    var total, checksum := Sum(Words(bytes)), RfcChecksum(bytes);
    StoredSum(bytes, k, checksum);
    SelfSum(total);
    assert Sum(Words(Stored(bytes, k, checksum))) == total + (0xFFFF - OnesComplement(total));
  }

  /** A receiver that runs the program over a packet sealed by the program sees 0. */
  method SealAndCheck(bytes: seq<Byte>, k: nat) returns (sealed: seq<Byte>, check: Word)
    requires k % 2 == 0 && k + 1 < |bytes| && bytes[k] == 0 == bytes[k + 1]
    requires |Words(bytes)| <= MAX_WORDS
    ensures sealed == Stored(bytes, k, RfcChecksum(bytes)) && check == 0
  {
    var checksum := InternetChecksum(bytes);
    sealed := Stored(bytes, k, checksum);
    StoredChecksumIsZero(bytes, k);
    check := InternetChecksum(sealed);
  }

  // ---------------------------------------------------------------------- word order

  lemma {:induction false} SumSplit(words: seq<Word>, i: nat)
    requires i < |words|
    ensures Sum(words) == words[i] + Sum(words[..i] + words[i + 1..])
  {
    if i == 0 {
      assert words[..0] + words[1..] == words[1..];
    } else {
      SumSplit(words[1..], i - 1);
      var without := words[..i] + words[i + 1..];
      assert without[1..] == words[1..][..i - 1] + words[1..][i..];
    }
  }

  lemma WithoutOne(words: seq<Word>, i: nat)
    requires i < |words|
    ensures multiset(words[..i] + words[i + 1..]) == multiset(words) - multiset{words[i]}
  {
    assert words == words[..i] + [words[i]] + words[i + 1..];
  }

  lemma IndexIn(words: seq<Word>, w: Word) returns (i: nat)
    requires multiset(words)[w] > 0
    ensures i < |words| && words[i] == w
  {
    assert w in words;
    i :| 0 <= i < |words| && words[i] == w;
  }

  /** The sum does not depend on the order of the words. */
  lemma {:induction false} SumOfPermutation(a: seq<Word>, b: seq<Word>)
    requires multiset(a) == multiset(b)
    ensures Sum(a) == Sum(b)
    decreases |a|
  {
    if a == [] {
      assert |multiset(b)| == 0;
    } else {
      assert multiset(a)[a[0]] > 0;
      var i := IndexIn(b, a[0]);
      var rest := b[..i] + b[i + 1..];
      SumSplit(b, i);
      WithoutOne(b, i);
      WithoutOne(a, 0);
      assert a[..0] + a[1..] == a[1..];
      SumOfPermutation(a[1..], rest);
    }
  }

  lemma ChecksumIgnoresWordOrder(a: seq<Byte>, b: seq<Byte>)
    requires multiset(Words(a)) == multiset(Words(b))
    ensures RfcChecksum(a) == RfcChecksum(b)
  {
    SumOfPermutation(Words(a), Words(b));
  }

  // ---------------------------------------------------------------------- the echo request

  /** An ICMP echo request with no payload (RFC 792), its checksum in place. */
  method BuildEchoPacket(identifier: Word, sequence: Word) returns (packet: array<Byte>)
    ensures fresh(packet) && packet.Length == 8
    ensures packet[0] == 8 && packet[1] == 0
    ensures WordOf(packet[4], packet[5]) == identifier && WordOf(packet[6], packet[7]) == sequence
    ensures RfcChecksum(packet[..]) == 0
  {
    packet := new Byte[8](_ => 0);
    packet[0] := 8;
    packet[1] := 0;
    packet[4], packet[5] := BigEndian(identifier)[0], BigEndian(identifier)[1];
    packet[6], packet[7] := BigEndian(sequence)[0], BigEndian(sequence)[1];
    ghost var unsealed := packet[..];
    var checksum := InternetChecksum(packet[..]);
    assert |Words(unsealed)| <= MAX_WORDS by { WordCount(unsealed); }
    packet[2], packet[3] := BigEndian(checksum)[0], BigEndian(checksum)[1];
    assert packet[..] == Stored(unsealed, 2, checksum);
    StoredChecksumIsZero(unsealed, 2);
  }

  lemma {:induction false} WordCount(bytes: seq<Byte>)
    ensures |Words(bytes)| == (|bytes| + 1) / 2
  {
    if |bytes| > 1 {
      WordCount(bytes[2..]);
    }
  }

  /** A packet of odd length is summed as if a zero byte followed (section 1 of RFC 1071). */
  lemma {:induction false} OddIsPadded(bytes: seq<Byte>)
    requires |bytes| % 2 == 1
    ensures RfcChecksum(bytes) == RfcChecksum(bytes + [0])
  {
    PaddedWords(bytes);
  }

  lemma {:induction false} PaddedWords(bytes: seq<Byte>)
    requires |bytes| % 2 == 1
    ensures Words(bytes) == Words(bytes + [0])
  {
    if |bytes| > 1 {
      PaddedWords(bytes[2..]);
      assert (bytes + [0])[2..] == bytes[2..] + [0];
    } else {
      assert (bytes + [0])[2..] == [];
    }
  }

  /** Each word is two bytes of the packet, the first the more significant. */
  lemma {:induction false} WordsAreBytePairs(bytes: seq<Byte>, i: nat)
    requires 2 * i + 1 < |bytes|
    ensures i < |Words(bytes)| && Words(bytes)[i] as int == 256 * (bytes[2 * i] as int) + bytes[2 * i + 1] as int
  {
    if i > 0 {
      WordsAreBytePairs(bytes[2..], i - 1);
    }
  }
}
