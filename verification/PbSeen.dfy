/** The fields_seen bitset of pb_decode_noinit: two 32-bit words, one bit for each of the
    first 64 required fields. */
module PbSeen {
  import opened Bits
  import opened PbWire
  import opened PbSchema

  /** The set the two words stand for. */
  ghost function SeenSet(words: seq<nat>): set<nat>
    requires |words| == 2
  {
    set k: nat | 0 <= k < 64 && Bit(words[k / 32], k % 32)
  }

  /** No word uses a bit above 31. */
  ghost predicate WordsOk(words: seq<nat>)
  {
    |words| == 2 && forall k: nat :: k >= 32 ==> !Bit(words[0], k) && !Bit(words[1], k)
  }

  lemma NoneSeen()
    ensures WordsOk([0, 0]) && SeenSet([0, 0]) == {}
  {
    forall k: nat ensures !Bit(0, k) { ZeroBits(k); }
  }

  lemma SetBit(words: seq<nat>, index: nat)
    requires WordsOk(words) && index < 64
    ensures var words' := words[index / 32 := BitOr(words[index / 32], Pow2(index % 32))];
      WordsOk(words') && SeenSet(words') == SeenSet(words) + {index}
  {
    hide BitOr, Pow2, Bit;
    var i, n := index / 32, index % 32;
    var words' := words[i := BitOr(words[i], Pow2(n))];
    forall k: nat ensures Bit(words'[i], k) <==> Bit(words[i], k) || k == n {
      BitOfOr(words[i], Pow2(n), k);
      BitOfPow2(n, k);
    }
    forall k: nat | 0 <= k < 64 ensures k in SeenSet(words') <==> k in SeenSet(words) || k == index {
      if k / 32 == i { assert k == index <==> k % 32 == n; }
    }
  }

  /** `fields_seen[index >> 5] |= 1 << (index & 31)`. */
  method MarkSeen(words: array<nat>, index: nat)
    requires words.Length == 2 && WordsOk(words[..]) && index < 64
    modifies words
    ensures WordsOk(words[..]) && SeenSet(words[..]) == old(SeenSet(words[..])) + {index}
  {
    hide WordsOk, SeenSet, BitOr, Pow2;
    SetBit(words[..], index);
    ghost var was := words[..];
    words[index / 32] := BitOr(words[index / 32], Pow2(index % 32));
    assert words[..] == was[index / 32 := words[index / 32]];
  }

  const ALL_BITS: nat := 0xFFFF_FFFF

  lemma AllBits()
    ensures ALL_BITS == Pow2(32) - 1
  {
    assert Pow2(8) == 256 * Pow2(0);
    assert Pow2(16) == 256 * Pow2(8);
    assert Pow2(24) == 256 * Pow2(16);
    assert Pow2(32) == 256 * Pow2(24);
  }

  lemma SeenAt(words: seq<nat>, i: nat, b: nat)
    requires |words| == 2 && i < 2 && b < 32
    ensures 32 * i + b in SeenSet(words) <==> Bit(words[i], b)
  {
    hide Bit;
    assert (32 * i + b) / 32 == i && (32 * i + b) % 32 == b;
  }

  /** All bits of word `i` below `n` are set just when those indices have been seen. */
  lemma WordSeen(words: seq<nat>, i: nat, n: nat)
    requires |words| == 2 && i < 2 && n <= 32
    ensures LowBits(words[i], n) <==> forall k: nat :: 32 * i <= k < 32 * i + n ==> k in SeenSet(words)
  {
    hide Bit, SeenSet;
    forall b: nat | b < n ensures 32 * i + b in SeenSet(words) <==> Bit(words[i], b) {
      SeenAt(words, i, b);
    }
    if LowBits(words[i], n) {
      forall k: nat | 32 * i <= k < 32 * i + n ensures k in SeenSet(words) {
        var b := k - 32 * i;
        assert Bit(words[i], b);
        SeenAt(words, i, b);
      }
    }
  }

  /** The check of all words against the number of required fields. */
  method CheckSeen(words: array<nat>, count: nat) returns (ok: bool)
    requires words.Length == 2 && WordsOk(words[..]) && count <= 64
    requires forall k :: k in SeenSet(words[..]) ==> k < count
    ensures ok <==> forall k: nat :: k < count ==> k in SeenSet(words[..])
  {
    hide Pow2, Bit, SeenSet, LowBits;
    ghost var ws := words[..];
    for i := 0 to count / 32
      invariant forall k: nat :: k < 32 * i ==> k in SeenSet(ws)
    {
      AllBits();
      LowBitsWord(ws[i], 32);
      WordSeen(ws, i, 32);
      assert 32 * i + 32 <= count;
      if words[i] != ALL_BITS {
        ghost var k: nat :| 32 * i <= k < 32 * i + 32 && k !in SeenSet(ws);
        assert k < count && k !in SeenSet(words[..]);
        return false;
      }
    }
    if count % 32 != 0 {
      ok := CheckPartialWord(words, count);
    } else {
      ok := true;
    }
  }

  method CheckPartialWord(words: array<nat>, count: nat) returns (ok: bool)
    requires words.Length == 2 && WordsOk(words[..]) && count < 64 && count % 32 != 0
    requires forall k :: k in SeenSet(words[..]) ==> k < count
    requires forall k: nat :: k < 32 * (count / 32) ==> k in SeenSet(words[..])
    ensures ok <==> forall k: nat :: k < count ==> k in SeenSet(words[..])
  {
    hide Pow2, Bit, SeenSet, LowBits;
    ghost var ws := words[..];
    var i, n := count / 32, count % 32;
    AllBits();
    ShiftOnes(32, 32 - n);
    ok := words[i] == ALL_BITS / Pow2(32 - n);
    forall k: nat | k >= n ensures !Bit(ws[i], k) {
      if k < 32 { SeenAt(ws, i, k); }
    }
    LowBitsWord(ws[i], n);
    WordSeen(ws, i, n);
  }
}
