/** What a range of strings is: the order of strings byte by byte, and how ranges divide a set. */
module Ordering {
  import opened StringSets

  /** `a` comes before `b`: they agree up to some position, where `a` ends and `b` does not, or
      where `a` has the smaller byte. */
  ghost predicate Before(a: Key, b: Key) {
    exists i :: 0 <= i <= |a| && i < |b| && a[..i] == b[..i] && (i < |a| ==> a[i] < b[i])
  }

  lemma {:induction false} LessIsBefore(a: Key, b: Key)
    ensures Less(a, b) <==> Before(a, b)
    decreases |b|
  {
    if b == [] {
    } else if a == [] {
      assert a[..0] == b[..0];
    } else {
      LessIsBefore(a[1..], b[1..]);
      if a[0] == b[0] {
        if Before(a[1..], b[1..]) {
          var i :| 0 <= i <= |a[1..]| && i < |b[1..]| && a[1..][..i] == b[1..][..i]
                   && (i < |a[1..]| ==> a[1..][i] < b[1..][i]);
          assert a[..i + 1] == [a[0]] + a[1..][..i] && b[..i + 1] == [b[0]] + b[1..][..i];
        }
        if i :| 0 <= i <= |a| && i < |b| && a[..i] == b[..i] && (i < |a| ==> a[i] < b[i]) {
          assert i > 0;
          assert a[1..][..i - 1] == a[..i][1..] && b[1..][..i - 1] == b[..i][1..];
        }
      } else {
        assert a[..0] == b[..0];
        if i :| 0 <= i <= |a| && i < |b| && a[..i] == b[..i] && (i < |a| ==> a[i] < b[i]) {
          SameHead(a, b, i);
        }
      }
    }
  }

  lemma SameHead(a: Key, b: Key, i: nat)
    requires i <= |a| && i <= |b| && a[..i] == b[..i]
    ensures i > 0 ==> a[0] == b[0]
  {
    if i > 0 {
      assert a[..i][0] == b[..i][0];
    }
  }

  /** The order is total: of two strings exactly one comes first, or they are equal. */
  lemma {:induction false} OneFirst(a: Key, b: Key)
    ensures !(Less(a, b) && Less(b, a)) && !Less(a, a)
    ensures a != b ==> Less(a, b) || Less(b, a)
    decreases |a|
  {
    if a != [] {
      OneFirst(a[1..], if b == [] then [] else b[1..]);
      if b != [] && a[0] == b[0] && a != b {
        assert a == [a[0]] + a[1..] && b == [b[0]] + b[1..];
      }
    }
  }

  lemma {:induction false} Transitive(a: Key, b: Key, c: Key)
    requires Less(a, b) && Less(b, c)
    ensures Less(a, c)
    decreases |a|
  {
    if a != [] && a[0] == b[0] == c[0] {
      Transitive(a[1..], b[1..], c[1..]);
    }
  }

  /** What PredRange lists of a set: the matching keys that are the begin or come after it and that
      come before the end. The end itself is never listed. */
  lemma RangeMeans(results: seq<Key>, r: Range, keys: set<Key>, k: Key)
    requires Lists(results, r, keys)
    ensures k in results <==>
              k in keys && r.matches(k) && (k == r.begin || Before(r.begin, k)) && Before(k, r.end)
    ensures r.end !in results
    ensures r.begin in results <==> r.begin in keys && r.matches(r.begin) && Before(r.begin, r.end)
  {
    hide Less, Before;
    OneFirst(k, r.begin);
    OneFirst(r.end, r.end);
    OneFirst(r.begin, r.begin);
    LessIsBefore(r.begin, k);
    LessIsBefore(k, r.end);
    LessIsBefore(r.begin, r.end);
  }

  /** Neighbouring ranges have no key in common and list together what the whole range lists. */
  lemma RangesJoin(a: Key, b: Key, c: Key, matches: Key -> bool, keys: set<Key>,
                   left: seq<Key>, right: seq<Key>, whole: seq<Key>)
    requires !Less(b, a) && !Less(c, b)
    requires Lists(left, Range(a, b, matches), keys) && Lists(right, Range(b, c, matches), keys)
    requires Lists(whole, Range(a, c, matches), keys)
    ensures forall k :: !(k in left && k in right)
    ensures forall k :: k in whole <==> k in left || k in right
    ensures Lists(left + right, Range(a, c, matches), keys)
  {
    hide Less;
    forall k ensures k in whole <==> k in left || k in right {
      if k in left { NotAfter(k, b, c); }
      if k in right { NotBefore(a, b, k); }
    }
    forall i, j | 0 <= i < j < |left + right| ensures (left + right)[i] != (left + right)[j] {
      if i < |left| <= j {
        assert left[i] in left && right[j - |left|] in right;
      }
    }
  }

  lemma NotAfter(k: Key, b: Key, c: Key)
    requires Less(k, b) && !Less(c, b)
    ensures Less(k, c)
  {
    OneFirst(b, c);
    if b != c { Transitive(k, b, c); }
  }

  lemma NotBefore(a: Key, b: Key, k: Key)
    requires !Less(b, a) && !Less(k, b)
    ensures !Less(k, a)
  {
    OneFirst(a, b);
    if Less(k, a) {
      if a != b { Transitive(k, a, b); }
    }
  }

  // ---------- the hash ----------

  /** A byte more is one multiplication and one exclusive-or more. */
  lemma LastRound(k: Key, a: bv8)
    ensures Fnv32(k + [a]) == FnvStep(Fnv32(k), a)
  {
    hide FnvStep;
    assert (k + [a])[..|k|] == k;
  }

  /** Two rounds that begin alike differ in exactly the bits in which their bytes differ, and a zero
      byte leaves the product by the prime. */
  lemma RoundsDiffer(h: bv32, a: bv8, b: bv8)
    ensures FnvStep(h, a) ^ FnvStep(h, b) == (a as bv32) ^ (b as bv32)
    ensures FnvStep(h, 0) == h * 16777619
  {
    XorCancels(h * 16777619, a as bv32, b as bv32);
  }

  lemma Differ(x: bv32, y: bv32, h: bv32, a: bv8, b: bv8)
    requires x == FnvStep(h, a) && y == FnvStep(h, b)
    ensures x ^ y == (a as bv32) ^ (b as bv32)
  {
    hide FnvStep;
    RoundsDiffer(h, a, b);
  }

  /** Keys that differ in their last byte alone have hashes that differ in the same bits alone. */
  lemma LastByte(k: Key, a: bv8, b: bv8)
    ensures Fnv32(k + [a]) ^ Fnv32(k + [b]) == (a as bv32) ^ (b as bv32)
  {
    hide Fnv32, FnvStep;
    LastRound(k, a);
    LastRound(k, b);
    Differ(Fnv32(k + [a]), Fnv32(k + [b]), Fnv32(k), a, b);
  }

  lemma XorCancels(h: bv32, a: bv32, b: bv32)
    ensures (h ^ a) ^ (h ^ b) == a ^ b && h ^ 0 == h
  {
  }

  /** Known values of the 32-bit FNV-1 hash: of the empty string, of one byte, and of "foobar". */
  lemma KnownHashes(b: bv8)
    ensures Fnv32([]) == 0x811c9dc5 && Fnv32([b]) == 0x050c5d1f ^ (b as bv32)
    ensures Fnv32([0x66, 0x6f, 0x6f, 0x62, 0x61, 0x72]) == 0x31f0b262
  {
    assert [b][..0] == [];
    var k: Key := [0x66, 0x6f, 0x6f, 0x62, 0x61, 0x72];
    assert k[..1] == [0x66] && k[..0] == [];
    assert k[..1][..0] == [] && k[..2][..1] == k[..1] && k[..3][..2] == k[..2];
    assert k[..4][..3] == k[..3] && k[..5][..4] == k[..4] && k[..6][..5] == k[..5] && k[..6] == k;
    assert Fnv32(k[..1]) == FnvStep(2166136261, 0x66);
    assert Fnv32(k[..2]) == FnvStep(Fnv32(k[..1]), 0x6f);
    assert Fnv32(k[..3]) == FnvStep(Fnv32(k[..2]), 0x6f);
    assert Fnv32(k[..4]) == FnvStep(Fnv32(k[..3]), 0x62);
    assert Fnv32(k[..5]) == FnvStep(Fnv32(k[..4]), 0x61);
    assert Fnv32(k[..6]) == FnvStep(Fnv32(k[..5]), 0x72);
  }

  /** The stripe of a key is the remainder of its hash by the number of stripes, as long as that
      fits 32 bits. */
  lemma StripeIsRemainder(key: Key, n: nat)
    requires 0 < n < 0x1_0000_0000
    ensures ValidCount(n) && exists d: nat :: Fnv32(key) as nat == d * n + StripeOf(key, n)
  {
    hide Fnv32;
    Remainder(Fnv32(key) as nat, n);
  }

  lemma Remainder(h: nat, n: nat)
    requires 0 < n < 0x1_0000_0000
    ensures exists d: nat :: h == d * n + h % (n % 0x1_0000_0000)
  {
    assert n % 0x1_0000_0000 == n;
    assert h == (h / n) * n + h % n;
  }

  /** A counter that has wrapped differs from the number by a multiple of 2^32, and fits. */
  lemma WrapMeans(x: int)
    ensures -0x8000_0000 <= Wrap32(x) < 0x8000_0000
    ensures exists d: int :: Wrap32(x) == x + d * 0x1_0000_0000
  {
    var m := x + 0x8000_0000;
    var d := -(m / 0x1_0000_0000);
    assert Wrap32(x) == x + d * 0x1_0000_0000;
  }
}
