/**
 What varints, zigzag numbers and two's complement are, in digits: which bytes read
 as a varint and to what, and which bytes a number is written as.
 */
module WireFormat {
  import opened Results
  import opened Wire

  function Pow128(n: nat): nat {
    if n == 0 then 1 else 128 * Pow128(n - 1)
  }

  /** The number the low seven bits of the first `n` bytes spell, least significant group first. */
  function Spelled(s: Bytes, n: nat): nat
    requires n <= |s|
  {
    if n == 0 then 0 else Spelled(s, n - 1) + s[n - 1] % 128 * Pow128(n - 1)
  }

  /** The first byte without a continuation bit is at `k`, among the first ten, and the tenth holds one bit at most. */
  predicate EndsAt(s: Bytes, k: nat) {
    && k < |s| && k < 10 && s[k] < 128
    && (forall i | 0 <= i < k :: s[i] >= 128)
    && (k == 9 ==> s[9] < 2)
  }

  lemma {:induction false} SpelledShift(s: Bytes, n: nat)
    requires 1 <= n <= |s|
    ensures Spelled(s, n) == s[0] % 128 + 128 * Spelled(s[1..], n - 1)
  {
    if n == 1 {
      assert Spelled(s, 0) == 0 && Pow128(0) == 1;
    } else {
      SpelledShift(s, n - 1);
      assert s[1..][n - 2] == s[n - 1];
      assert Pow128(n - 1) == 128 * Pow128(n - 2);
      Swap(s[n - 1] % 128, Pow128(n - 2));
    }
  }

  lemma Swap(a: nat, b: nat)
    ensures a * (128 * b) == 128 * (a * b)
  {
  }

  lemma {:induction false} GroupsMean(s: Bytes, idx: nat, k: nat)
    requires idx + k < 10 && k < |s| && s[k] < 128 && (idx + k == 9 ==> s[k] < 2)
    requires forall i | 0 <= i < k :: s[i] >= 128
    ensures ReadGroups(s, idx) == Ok((Spelled(s, k + 1), s[k + 1..]))
    decreases k
  {
    SpelledShift(s, k + 1);
    if k == 0 {
      assert Spelled(s[1..], 0) == 0;
    } else {
      GroupsMean(s[1..], idx + 1, k - 1);
      assert s[1..][k..] == s[k + 1..];
    }
  }

  lemma {:induction false} GroupsEnd(s: Bytes, idx: nat) returns (k: nat)
    requires idx <= 9 && ReadGroups(s, idx).Ok?
    ensures idx + k < 10 && k < |s| && s[k] < 128 && (idx + k == 9 ==> s[k] < 2)
    ensures forall i | 0 <= i < k :: s[i] >= 128
    decreases 10 - idx
  {
    if s[0] < 128 {
      k := 0;
    } else {
      var j := GroupsEnd(s[1..], idx + 1);
      k := j + 1;
      assert s[k] == s[1..][j];
      forall i | 0 <= i < k ensures s[i] >= 128 {
        if i > 0 {
          assert s[i] == s[1..][i - 1];
        }
      }
    }
  }

  /** Bytes read as a varint if and only if they end in time, and then to the number they spell, whether or not it
      could be spelled shorter, leaving what follows. */
  lemma VarintReadsIff(s: Bytes)
    ensures ReadVarint(s).Ok? <==> exists k: nat :: EndsAt(s, k)
    ensures forall k: nat | EndsAt(s, k) :: ReadVarint(s) == Ok((Spelled(s, k + 1), s[k + 1..]))
  {
    hide ReadGroups, Spelled;
    forall k: nat | EndsAt(s, k) ensures ReadVarint(s) == Ok((Spelled(s, k + 1), s[k + 1..])) {
      GroupsMean(s, 0, k);
    }
    if ReadVarint(s).Ok? {
      var k := GroupsEnd(s, 0);
      assert EndsAt(s, k);
    }
  }

  /** A number is written in as few bytes as it can be: all but the last continue, they spell the number, and the last
      is not zero unless it is the only one. */
  lemma {:induction false} VarintIsMinimal(v: nat)
    ensures var (s, n) := (Varint(v), |Varint(v)|);
            && Spelled(s, n) == v && s[n - 1] < 128
            && (forall i | 0 <= i < n - 1 :: s[i] >= 128)
            && (n > 1 ==> s[n - 1] != 0)
  {
    var s, n := Varint(v), |Varint(v)|;
    if v < 128 {
      assert Spelled(s, 0) == 0 && Pow128(0) == 1;
    } else {
      var rest := Varint(v / 128);
      VarintIsMinimal(v / 128);
      assert s == [v % 128 + 128] + rest;
      assert s[1..] == rest;
      SpelledShift(s, n);
      assert rest[n - 2] == s[n - 1];
      forall i | 0 <= i < n - 1 ensures s[i] >= 128 {
        if i > 0 {
          assert s[i] == rest[i - 1];
        }
      }
      assert v / 128 >= 1;
      if n == 2 {
        assert rest[0] == Spelled(rest, 0) + rest[0] % 128 * Pow128(0);
      }
    }
  }

  /** Zigzag numbers are twice the distance from zero, less one for a negative number; a negative number's 64 bits are
      those of 2^64 more. */
  lemma SignedNumbers(v: i64)
    ensures (Zigzag(v) + 1) / 2 == (if v >= 0 then v as int else -(v as int))
    ensures Zigzag(v) % 2 == 1 <==> v < 0
    ensures AsU64(v) == v % 0x1_0000_0000_0000_0000
  {
  }
}
