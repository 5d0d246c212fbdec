/**
 Column streams. A block is a family of independent byte streams. The encoder is
 described by the list of writes it performs; a stream holds the writes addressed
 to it, in order, so writes to different streams commute.
 */
module Columns {
  import opened Results
  import opened Wire

  /** One of the 50 fixed streams, or a dynamic per-stat / per-rune-slot stream. */
  datatype ColId = Fixed(i: nat) | Stat(i: nat) | Rune(i: nat)

  /** A list of appends, first to last: a varint or raw bytes to a stream, then the rest. */
  datatype Ops = Nil | Val(col: ColId, v: u64, rest: Ops) | Raw(col: ColId, bytes: Bytes, rest: Ops)

  /** The bytes the writes `ops` leave in stream `c`. */
  function ColOf(ops: Ops, c: ColId): Bytes {
    match ops
    case Nil => []
    case Val(d, v, rest) => if c == d then Varint(v) + ColOf(rest, c) else ColOf(rest, c)
    case Raw(d, bytes, rest) => if c == d then bytes + ColOf(rest, c) else ColOf(rest, c)
  }

  /** Unread bytes per stream. */
  datatype Fam = Fam(cols: map<ColId, Bytes>)

  /** The family over the streams `keys` that the writes `ops` fill. */
  function FamOf(keys: set<ColId>, ops: Ops): (f: Fam)
    ensures f.cols.Keys == keys
  {
    Fam(map c | c in keys :: ColOf(ops, c))
  }

  // ---- reading ----

  /** The outcome of a read: a value and what is left unread. */
  datatype Step<+T> = Fail | Got(value: T, rest: Fam)

  /** A varint below `max` from stream `c`. */
  function ReadVal(f: Fam, c: ColId, max: nat): (r: Step<nat>)
    ensures r.Got? ==> r.value < max && Consumed(f, r.rest)
  {
    if c !in f.cols then Fail
    else
      match ReadVarint(f.cols[c]) case Err => Fail case Ok((v, rest)) =>
      if v < max then
        ShorterColumn(f, c, rest);
        Got(v, f.(cols := f.cols[c := rest]))
      else Fail
  }

  /** `len` raw bytes from stream `c`. */
  function ReadRaw(f: Fam, c: ColId, len: nat): (r: Step<Bytes>)
    ensures r.Got? ==> |r.value| == len && ConsumedOrSame(f, r.rest)
  {
    if c !in f.cols || len > |f.cols[c]| then Fail
    else
      ShorterColumn(f, c, f.cols[c][len..]);
      Got(f.cols[c][..len], f.(cols := f.cols[c := f.cols[c][len..]]))
  }

  /** Which stream the i-th value of a list goes to. */
  datatype Plan = Same(c: ColId) | FixedFrom(lo: nat) | RuneSlots | StatSlots {
    function At(i: nat): ColId {
      match this
      case Same(c) => c
      case FixedFrom(lo) => Fixed(lo + i)
      case RuneSlots => Rune(i)
      case StatSlots => Stat(i)
    }
  }

  /** `n` varints along `plan`; the ones before them were `acc`. */
  function ReadAll(f: Fam, plan: Plan, n: nat, max: nat, acc: seq<nat>): (r: Step<seq<nat>>)
    ensures r.Got? ==> |r.value| == |acc| + n && ConsumedOrSame(f, r.rest) && Size(r.rest) + n <= Size(f)
    decreases n
  {
    if n == 0 then Got(acc, f)
    else
      match ReadVal(f, plan.At(|acc|), max) case Fail => Fail case Got(v, g) =>
      ReadAll(g, plan, n - 1, max, acc + [v])
  }

  // ---- consumption ----

  /** Total number of unread bytes. */
  ghost function SizeOver(keys: set<ColId>, f: Fam): nat
    requires keys <= f.cols.Keys
  {
    if keys == {} then 0
    else
      var c :| c in keys;
      |f.cols[c]| + SizeOver(keys - {c}, f)
  }

  ghost function Size(f: Fam): nat {
    SizeOver(f.cols.Keys, f)
  }

  /** Some stream shrank and no stream appeared or vanished. */
  ghost predicate Consumed(f: Fam, g: Fam) {
    f.cols.Keys == g.cols.Keys && Size(g) < Size(f)
  }

  ghost predicate ConsumedOrSame(f: Fam, g: Fam) {
    f.cols.Keys == g.cols.Keys && Size(g) <= Size(f)
  }

  lemma {:induction false} SizeOverSplit(keys: set<ColId>, f: Fam, c: ColId)
    requires keys <= f.cols.Keys && c in keys
    ensures SizeOver(keys, f) == |f.cols[c]| + SizeOver(keys - {c}, f)
    decreases |keys|
  {
    var d :| d in keys && SizeOver(keys, f) == |f.cols[d]| + SizeOver(keys - {d}, f);
    if d != c {
      SizeOverSplit(keys - {d}, f, c);
      SizeOverSplit(keys - {c}, f, d);
      assert keys - {d} - {c} == keys - {c} - {d};
    }
  }

  lemma {:induction false} SizeOverFrame(keys: set<ColId>, f: Fam, g: Fam)
    requires keys <= f.cols.Keys && keys <= g.cols.Keys
    requires forall c | c in keys :: f.cols[c] == g.cols[c]
    ensures SizeOver(keys, f) == SizeOver(keys, g)
    decreases |keys|
  {
    if keys != {} {
      var d :| d in keys && SizeOver(keys, f) == |f.cols[d]| + SizeOver(keys - {d}, f);
      SizeOverFrame(keys - {d}, f, g);
      SizeOverSplit(keys, g, d);
    }
  }

  lemma ShorterColumn(f: Fam, c: ColId, rest: Bytes)
    requires c in f.cols && |rest| <= |f.cols[c]|
    ensures f.(cols := f.cols[c := rest]).cols.Keys == f.cols.Keys
    ensures Size(f.(cols := f.cols[c := rest])) == Size(f) - |f.cols[c]| + |rest|
  {
    var g := f.(cols := f.cols[c := rest]);
    assert g.cols.Keys == f.cols.Keys;
    SizeOverSplit(f.cols.Keys, f, c);
    SizeOverSplit(f.cols.Keys, g, c);
    SizeOverFrame(f.cols.Keys - {c}, f, g);
  }

  // ---- reading what was written ----

  lemma ReadValOf(keys: set<ColId>, c: ColId, v: u64, k: Ops, max: nat)
    requires c in keys && v < max
    ensures ReadVal(FamOf(keys, Val(c, v, k)), c, max) == Got(v, FamOf(keys, k))
  {
    var f := FamOf(keys, Val(c, v, k));
    assert f.cols[c] == Varint(v) + ColOf(k, c);
    VarintRoundTrip(v, ColOf(k, c));
    assert f.(cols := f.cols[c := ColOf(k, c)]) == FamOf(keys, k);
  }

  lemma ReadRawOf(keys: set<ColId>, c: ColId, bytes: Bytes, k: Ops)
    requires c in keys
    ensures ReadRaw(FamOf(keys, Raw(c, bytes, k)), c, |bytes|) == Got(bytes, FamOf(keys, k))
  {
    var f := FamOf(keys, Raw(c, bytes, k));
    assert f.cols[c] == bytes + ColOf(k, c);
    assert f.cols[c][|bytes|..] == ColOf(k, c);
    assert f.(cols := f.cols[c := ColOf(k, c)]) == FamOf(keys, k);
  }

  /** The values `vs[i..]` along `plan`, then `k`. */
  function ListOps(plan: Plan, vs: seq<u64>, i: nat, k: Ops): Ops
    requires i <= |vs|
    decreases |vs| - i
  {
    if i == |vs| then k else Val(plan.At(i), vs[i], ListOps(plan, vs, i + 1, k))
  }

  lemma {:induction false} ReadAllOf(keys: set<ColId>, plan: Plan, vs: seq<u64>, i: nat, max: nat, k: Ops)
    requires i <= |vs|
    requires forall j | 0 <= j < |vs| :: plan.At(j) in keys && vs[j] < max
    ensures ReadAll(FamOf(keys, ListOps(plan, vs, i, k)), plan, |vs| - i, max, vs[..i]) == Got(vs, FamOf(keys, k))
    decreases |vs| - i
  {
    hide ReadVal, FamOf, ColOf;
    if i == |vs| {
      assert vs[..i] == vs;
    } else {
      ReadValOf(keys, plan.At(i), vs[i], ListOps(plan, vs, i + 1, k), max);
      assert vs[..i] + [vs[i]] == vs[..i + 1];
      ReadAllOf(keys, plan, vs, i + 1, max, k);
    }
  }
}
