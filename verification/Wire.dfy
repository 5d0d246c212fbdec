/**
 Byte-level primitives shared by the codec and the segment container: machine
 integers as subset types, base-128 varints, the zigzag map and little-endian
 words.
 */
module Wire {
  import opened Results

  const TWO_7 := 0x80
  const TWO_32 := 0x1_0000_0000
  const TWO_63 := 0x8000_0000_0000_0000
  const TWO_64 := 0x1_0000_0000_0000_0000

  type byte = x: int | 0 <= x < 256
  type u32 = x: int | 0 <= x < TWO_32
  type u64 = x: int | 0 <= x < TWO_64
  type i64 = x: int | -TWO_63 <= x < TWO_63

  type Bytes = seq<byte>

  /** A Rust `Vec`: its length is a `usize`, 64 bits wide. */
  type Vec<T> = s: seq<T> | |s| < TWO_64 witness []

  // ---- varints ----

  /** Base-128 varint, least significant group first, minimal length. */
  function Varint(v: nat): (s: Bytes)
    ensures |s| >= 1
  {
    if v < TWO_7 then [v] else [v % TWO_7 + TWO_7] + Varint(v / TWO_7)
  }

  /** Value and remaining bytes of a varint whose first byte is the `idx`-th group. */
  function ReadGroups(s: Bytes, idx: nat): (r: Result<(nat, Bytes)>)
    requires idx <= 9
    ensures r.Ok? ==> |r.value.1| < |s|
    decreases 10 - idx
  {
    if |s| == 0 then Err
    else if idx == 9 && s[0] >= 2 then Err
    else if s[0] < TWO_7 then Ok((s[0], s[1..]))
    else
      var tail :- ReadGroups(s[1..], idx + 1);
      Ok((s[0] - TWO_7 + TWO_7 * tail.0, tail.1))
  }

  function ReadVarint(s: Bytes): (r: Result<(nat, Bytes)>)
    ensures r.Ok? ==> |r.value.1| < |s|
  {
    ReadGroups(s, 0)
  }

  /** Exclusive bound of what groups `idx..9` can hold: `2 ^ (64 - 7 * idx)`. */
  function GroupBound(idx: nat): (b: nat)
    requires idx <= 9
    ensures b >= 2
    decreases 9 - idx
  {
    if idx == 9 then 2 else TWO_7 * GroupBound(idx + 1)
  }

  lemma GroupBoundZero()
    ensures GroupBound(0) == TWO_64
  {
    assert GroupBound(5) == TWO_7 * TWO_7 * TWO_7 * TWO_7 * 2 by {
      assert GroupBound(8) == 256;
      assert GroupBound(7) == 32768;
      assert GroupBound(6) == 4194304;
    }
    assert GroupBound(4) == 68719476736;
    assert GroupBound(3) == 8796093022208;
    assert GroupBound(2) == 1125899906842624;
    assert GroupBound(1) == 144115188075855872;
  }

  lemma {:induction false} ReadGroupsBound(s: Bytes, idx: nat)
    requires idx <= 9
    ensures ReadGroups(s, idx).Ok? ==> 0 <= ReadGroups(s, idx).value.0 < GroupBound(idx)
    decreases 10 - idx
  {
    if idx < 9 {
      assert GroupBound(idx) == TWO_7 * GroupBound(idx + 1);
      if |s| > 0 && s[0] >= TWO_7 {
        ReadGroupsBound(s[1..], idx + 1);
      }
    }
  }

  lemma {:induction false} ReadGroupsVarint(v: nat, rest: Bytes, idx: nat)
    requires idx <= 9 && v < GroupBound(idx)
    ensures ReadGroups(Varint(v) + rest, idx) == Ok((v, rest))
    decreases 10 - idx
  {
    var s := Varint(v) + rest;
    if v < TWO_7 {
      assert s[1..] == rest;
    } else {
      assert s[1..] == Varint(v / TWO_7) + rest;
      ReadGroupsVarint(v / TWO_7, rest, idx + 1);
    }
  }

  /** Every 64-bit value reads back, leaving exactly what followed it. */
  lemma VarintRoundTrip(v: u64, rest: Bytes)
    ensures ReadVarint(Varint(v) + rest) == Ok((v, rest))
  {
    GroupBoundZero();
    ReadGroupsVarint(v, rest, 0);
  }

  lemma ReadVarintBound(s: Bytes)
    ensures ReadVarint(s).Ok? ==> 0 <= ReadVarint(s).value.0 < TWO_64
  {
    GroupBoundZero();
    ReadGroupsBound(s, 0);
  }

  lemma {:induction false} ReadGroupsSuffix(s: Bytes, idx: nat)
    requires idx <= 9
    ensures ReadGroups(s, idx).Ok? ==>
              var rest := ReadGroups(s, idx).value.1;
              rest == s[|s| - |rest|..]
    decreases 10 - idx
  {
    if idx < 9 && |s| > 0 && s[0] >= TWO_7 {
      ReadGroupsSuffix(s[1..], idx + 1);
    }
  }

  // ---- zigzag and deltas ----

  function Zigzag(v: i64): u64 {
    if v >= 0 then 2 * v else -2 * v - 1
  }

  function Unzigzag(u: u64): i64 {
    if u % 2 == 0 then u / 2 else -(u / 2) - 1
  }

  lemma ZigzagInverse(v: i64, u: u64)
    ensures Unzigzag(Zigzag(v)) == v
    ensures Zigzag(Unzigzag(u)) == u
  {
  }

  /** Two's-complement reinterpretation used by protobuf `int64` fields. */
  function AsU64(v: i64): u64 {
    if v >= 0 then v else v + TWO_64
  }

  predicate FitsI64(d: int) {
    -TWO_63 <= d < TWO_63
  }

  // ---- little-endian words ----

  function Le(v: nat, width: nat): (s: Bytes)
    ensures |s| == width
    decreases width
  {
    if width == 0 then [] else [v % 256] + Le(v / 256, width - 1)
  }

  function UnLe(s: Bytes): (v: nat)
    decreases |s|
  {
    if |s| == 0 then 0 else s[0] + 256 * UnLe(s[1..])
  }

  function Pow256(n: nat): (p: nat)
    ensures p >= 1
  {
    if n == 0 then 1 else 256 * Pow256(n - 1)
  }

  lemma {:induction false} LeRoundTrip(v: nat, width: nat)
    requires v < Pow256(width)
    ensures UnLe(Le(v, width)) == v
    decreases width
  {
    if width > 0 {
      LeRoundTrip(v / 256, width - 1);
      assert Le(v, width)[1..] == Le(v / 256, width - 1);
    }
  }

  lemma {:induction false} UnLeRoundTrip(s: Bytes)
    ensures UnLe(s) < Pow256(|s|)
    ensures Le(UnLe(s), |s|) == s
  {
    if |s| > 0 {
      UnLeRoundTrip(s[1..]);
      assert UnLe(s) / 256 == UnLe(s[1..]);
      assert s == [s[0]] + s[1..];
    }
  }
}
