// Where a token's latent lives on a shard: the formula of the kernel that writes it and
// that of the plan that reads it back, and how many positions a shard has.
module Slots {
  import opened Basics

  /** paged_memcpy: local position first, then page and offset. */
  function WriterSlot(row: seq<nat>, pos: nat, pageSize: nat, count: nat): nat
    requires pageSize > 0 && count > 0 && 0 <= pos / count / pageSize < |row|
  {
    row[pos / count / pageSize] * pageSize + pos / count % pageSize
  }

  /** MlaPrefill.prepare: position in the flattened pages, then divided among the shards. */
  function ReaderSlot(row: seq<nat>, pos: nat, blockLen: nat, count: nat): nat
    requires blockLen > 0 && count > 0 && blockLen * count > 0 && 0 <= pos / (blockLen * count) < |row|
  {
    (row[pos / (blockLen * count)] * (blockLen * count) + pos % (blockLen * count)) / count
  }

  lemma Regroup(a: nat, b: nat, c: nat)
    ensures a * b * c == a * (b * c)
  {
  }

  lemma Distribute(a: nat, b: nat, c: nat)
    ensures (a + b) * c == a * c + b * c
  {
  }

  lemma TwoLevels(q: nat, s: nat, r: nat, c: nat, d: nat)
    requires s < d && r < c
    ensures (q * d + s) * c + r == q * (d * c) + (s * c + r) && s * c + r < d * c
  {
    Distribute(q * d, s, c); Regroup(q, d, c);
    MulMono(s + 1, d, c); Distribute(s, 1, c);
  }

  lemma Split(x: nat, d: nat) returns (q: nat, r: nat)
    requires d > 0
    ensures q == x / d && r == x % d && x == q * d + r && r < d
  {
    q, r := x / d, x % d;
  }

  lemma Nested(x: nat, y: nat, r: nat, q: nat, s: nat, c: nat, d: nat)
    requires x == y * c + r && y == q * d + s && s < d && r < c
    ensures x == q * (d * c) + (s * c + r) && s * c + r < d * c
  {
    TwoLevels(q, s, r, c, d);
    SameProduct(y, q * d + s, c);
  }

  lemma SameProduct(a: nat, b: nat, c: nat)
    requires a == b
    ensures a * c == b * c
  {
  }

  /** Dividing twice is dividing by the product, with the remainders to match. */
  lemma DivTwice(x: nat, c: nat, d: nat)
    requires c > 0 && d > 0
    ensures d * c > 0 && x / (d * c) == x / c / d && x % (d * c) == x / c % d * c + x % c
  {
    var y, r := Split(x, c);
    var q, s := Split(y, d);
    Nested(x, y, r, q, s, c, d);
    DivUnique(x, d * c, q, s * c + r);
  }

  /** The reader looks where the writer wrote. */
  lemma SameSlot(row: seq<nat>, pos: nat, blockLen: nat, count: nat)
    requires blockLen > 0 && count > 0 && 0 <= pos / count / blockLen < |row|
    ensures blockLen * count > 0 && 0 <= pos / (blockLen * count) < |row|
    ensures ReaderSlot(row, pos, blockLen, count) == WriterSlot(row, pos, blockLen, count)
  {
    DivTwice(pos, count, blockLen);
    var b, s, r := row[pos / count / blockLen], pos / count % blockLen, pos % count;
    Regroup(b, blockLen, count); Distribute(b * blockLen, s, count);
    DivUnique(b * (blockLen * count) + (s * count + r), count, b * blockLen + s, r);
  }

  /** The positions below n that belong to shard i of count. */
  function Share(n: nat, i: nat, count: nat): nat
    requires count > 0
  {
    if n == 0 then 0 else Share(n - 1, i, count) + if (n - 1) % count == i then 1 else 0
  }

  lemma RoundUp(x: nat, q: nat, r: nat, i: nat, count: nat)
    requires i < count && r <= count && x == q * count + r
    ensures (x + count - 1 - i) / count == q + if r > i then 1 else 0
  {
    Distribute(q, 1, count);
    if r > i {
      DivUnique(x + count - 1 - i, count, q + 1, r - 1 - i);
    } else {
      DivUnique(x + count - 1 - i, count, q, r + count - 1 - i);
    }
  }

  /** One more position lengthens the share of the shard it belongs to. */
  lemma LocalStep(n: nat, i: nat, count: nat)
    requires i < count && n > 0
    ensures (n + count - 1 - i) / count == (n - 1 + count - 1 - i) / count + if (n - 1) % count == i then 1 else 0
  {
    var q, r := Split(n - 1, count);
    RoundUp(n - 1, q, r, i, count);
    RoundUp(n, q, r + 1, i, count);
  }

  /** `(cache_len + cnt - 1 - idx) // cnt` counts the shard's own positions. */
  lemma {:induction false} LocalLength(n: nat, i: nat, count: nat)
    requires i < count
    ensures (n + count - 1 - i) / count == Share(n, i, count)
    decreases n
  {
    if n == 0 {
      RoundUp(0, 0, 0, i, count);
    } else {
      LocalLength(n - 1, i, count);
      LocalStep(n, i, count);
    }
  }

  /** The shards share every position out. */
  lemma {:induction false} SharesAddUp(n: nat, count: nat) returns (total: seq<nat>)
    requires count > 0
    ensures |total| == count && (forall i :: 0 <= i < count ==> total[i] == (n + count - 1 - i) / count)
      && Total(total) == n
    decreases n
  {
    if n == 0 {
      total := seq(count, _ => 0);
      ZeroTotal(count);
      forall i | 0 <= i < count ensures total[i] == (n + count - 1 - i) / count { LocalLength(0, i, count); }
    } else {
      var before := SharesAddUp(n - 1, count);
      var k := (n - 1) % count;
      total := before[k := before[k] + 1];
      TotalBump(before, k);
      forall i | 0 <= i < count ensures total[i] == (n + count - 1 - i) / count {
        LocalLength(n, i, count); LocalLength(n - 1, i, count);
      }
    }
  }

  function Total(s: seq<nat>): nat {
    if s == [] then 0 else s[0] + Total(s[1..])
  }

  lemma {:induction false} ZeroTotal(k: nat)
    ensures Total(seq(k, _ => 0)) == 0
  {
    if k > 0 {
      ZeroTotal(k - 1);
      assert seq<nat>(k, _ => 0)[1..] == seq<nat>(k - 1, _ => 0);
    }
  }

  lemma {:induction false} TotalBump(s: seq<nat>, k: nat)
    requires k < |s|
    ensures Total(s[k := s[k] + 1]) == Total(s) + 1
    decreases |s|
  {
    if k > 0 {
      TotalBump(s[1..], k - 1);
      assert s[k := s[k] + 1][1..] == s[1..][k - 1 := s[1..][k - 1] + 1];
    } else {
      assert s[0 := s[0] + 1][1..] == s[1..];
    }
  }
}
