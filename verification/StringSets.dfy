/** The two string sets as sequential programs: one map behind one lock, and one map
    per stripe. Both are proved against the same set of keys. */
module StringSets {

  /** A Go string: a sequence of bytes. */
  type Key = seq<bv8>

  // ---------- keys ----------

  /** One round of the hash: multiply by the prime, then mix in a byte. */
  function FnvStep(hash: bv32, b: bv8): bv32 {
    (hash * 16777619) ^ (b as bv32)
  }

  /** The hash that the stripes are chosen by. */
  function Fnv32(key: Key): bv32 {
    if key == [] then 2166136261 else FnvStep(Fnv32(key[..|key| - 1]), key[|key| - 1])
  }

  method ComputeFnv32(key: Key) returns (hash: bv32)
    ensures hash == Fnv32(key)
  {
    hide FnvStep;
    hash := 2166136261;
    for i := 0 to |key|
      invariant hash == Fnv32(key[..i])
    {
      assert key[..i + 1][..i] == key[..i];
      hash := FnvStep(hash, key[i]);
    }
    assert key[..|key|] == key;
  }

  /** Stripe counts for which `% uint32(stripeCount)` does not divide by zero. */
  predicate ValidCount(n: nat) { n % 0x1_0000_0000 != 0 }

  function StripeOf(key: Key, n: nat): (i: nat)
    requires ValidCount(n)
    ensures i < n
  {
    (Fnv32(key) as nat) % (n % 0x1_0000_0000)
  }

  predicate Less(a: Key, b: Key) {
    b != [] && (a == [] || a[0] < b[0] || (a[0] == b[0] && Less(a[1..], b[1..])))
  }

  /** What PredRange asks for; `matches` stands for the regular expression. */
  datatype Range = Range(begin: Key, end: Key, matches: Key -> bool)

  predicate Wanted(r: Range, key: Key) {
    r.matches(key) && !Less(key, r.begin) && Less(key, r.end)
  }

  ghost predicate Distinct(keys: seq<Key>) {
    forall i, j :: 0 <= i < j < |keys| ==> keys[i] != keys[j]
  }

  /** The result lists exactly the wanted keys of a set, each once. */
  ghost predicate Lists(results: seq<Key>, r: Range, keys: set<Key>) {
    && Distinct(results) && (forall k :: k in results <==> k in keys && Wanted(r, k))
  }

  // ---------- counters ----------

  /** Conversion to a signed 32-bit integer. */
  function Wrap32(x: int): int {
    (x + 0x8000_0000) % 0x1_0000_0000 - 0x8000_0000
  }

  lemma WrapStep(c: int, x: int)
    requires c == Wrap32(x)
    ensures Wrap32(c + 1) == Wrap32(x + 1)
  {
  }

  /** The counter is exact until it reaches 2^31. */
  lemma WrapExact(x: nat)
    ensures Wrap32(x) == x <==> x < 0x8000_0000
  {
  }

  /** Lists the wanted keys of a map, in any order. */
  method ListMap(m: map<Key, bool>, r: Range) returns (results: seq<Key>)
    ensures Lists(results, r, m.Keys)
  {
    results := [];
    var left := m.Keys;
    while left != {}
      invariant left <= m.Keys && Lists(results, r, m.Keys - left)
      decreases left
    {
      var key :| key in left;
      left := left - {key};
      if Wanted(r, key) {
        ghost var was := results;
        results := results + [key];
        assert forall k :: k in results <==> k in was || k == key;
      }
    }
    assert m.Keys - left == m.Keys;
  }

  // ---------- the flat set ----------

  class LockedStringSet {
    var members: map<Key, bool>
    var count: int

    ghost predicate Valid()
      reads this
    {
      count == Wrap32(|members.Keys|)
    }

    constructor ()
      ensures Valid() && members.Keys == {}
    {
      members, count := map[], 0;
    }

    method Add(key: Key) returns (added: bool)
      requires Valid()
      modifies this
      ensures Valid() && added == (key !in old(members.Keys)) && members.Keys == old(members.Keys) + {key}
    {
      if key in members { return false; }
      ghost var was := members.Keys;
      members := members[key := true];
      assert members.Keys == was + {key};
      WrapStep(count, |was|);
      count := Wrap32(count + 1);
      added := true;
    }

    method Count() returns (c: int)
      requires Valid()
      ensures c == Wrap32(|members.Keys|)
    {
      c := count;
    }

    method PredRange(r: Range) returns (results: seq<Key>)
      ensures Lists(results, r, members.Keys)
    {
      results := ListMap(members, r);
    }
  }

  // ---------- the striped set ----------

  /** All keys of a sequence of stripes. */
  function AllKeys(stripes: seq<set<Key>>): set<Key> {
    set i, k | 0 <= i < |stripes| && k in stripes[i] :: k
  }

  /** The hash of the key chooses stripe `i` of `n`. */
  predicate Belongs(k: Key, i: nat, n: nat) {
    ValidCount(n) && StripeOf(k, n) == i
  }

  /** Every key is in the stripe its hash says, and where no hash says one there are no keys. */
  ghost predicate InPlace(stripes: seq<set<Key>>) {
    forall i, k :: 0 <= i < |stripes| && k in stripes[i] ==> Belongs(k, i, |stripes|)
  }

  /** A key is in one stripe only. */
  lemma OnePlace(stripes: seq<set<Key>>, k: Key, i: nat, j: nat)
    requires InPlace(stripes) && i < |stripes| && j < |stripes| && k in stripes[i] && k in stripes[j]
    ensures i == j
  {
    assert Belongs(k, i, |stripes|) && Belongs(k, j, |stripes|);
  }

  function TotalSize(stripes: seq<set<Key>>): nat {
    if stripes == [] then 0 else TotalSize(stripes[..|stripes| - 1]) + |stripes[|stripes| - 1]|
  }

  lemma SplitKeys(stripes: seq<set<Key>>, i: nat)
    requires i < |stripes|
    ensures AllKeys(stripes[..i + 1]) == AllKeys(stripes[..i]) + stripes[i]
  {
    var a, b := stripes[..i], stripes[..i + 1];
    forall k | k in AllKeys(a) + stripes[i] ensures k in AllKeys(b) {
      if k in stripes[i] {
        assert k in b[i];
      } else {
        var j :| 0 <= j < i && k in a[j];
        assert k in b[j];
      }
    }
    forall k | k in AllKeys(b) ensures k in AllKeys(a) + stripes[i] {
      var j :| 0 <= j < i + 1 && k in b[j];
      assert j < i ==> k in a[j];
    }
  }

  lemma JointSize(a: set<Key>, b: set<Key>)
    requires a !! b
    ensures |a + b| == |a| + |b|
  {
  }

  lemma PrefixInPlace(stripes: seq<set<Key>>, z: nat)
    requires InPlace(stripes) && z < |stripes|
    ensures AllKeys(stripes[..z]) !! stripes[z]
  {
    forall k | k in AllKeys(stripes[..z]) ensures k !in stripes[z] {
      var i :| 0 <= i < z && k in stripes[..z][i];
      assert stripes[..z][i] == stripes[i] && Belongs(k, i, |stripes|);
    }
  }

  /** With every key in its place the sizes of the stripes add up to the number of keys. */
  lemma {:induction false} SizesAddUp(stripes: seq<set<Key>>, z: nat)
    requires InPlace(stripes) && z <= |stripes|
    ensures TotalSize(stripes[..z]) == |AllKeys(stripes[..z])|
    decreases z
  {
    hide InPlace, AllKeys;
    if z == 0 {
      assert stripes[..0] == [];
      NoKeys();
    } else {
      var y := z - 1;
      SizesAddUp(stripes, y);
      SplitKeys(stripes, y);
      PrefixInPlace(stripes, y);
      JointSize(AllKeys(stripes[..y]), stripes[y]);
      assert stripes[..z][..y] == stripes[..y];
    }
  }

  lemma NoKeys()
    ensures AllKeys([]) == {}
  {
  }

  lemma AddInPlace(stripes: seq<set<Key>>, key: Key)
    requires InPlace(stripes) && ValidCount(|stripes|)
    ensures var i := StripeOf(key, |stripes|);
            var stripes2 := stripes[i := stripes[i] + {key}];
            && InPlace(stripes2) && AllKeys(stripes2) == AllKeys(stripes) + {key}
    ensures key in AllKeys(stripes) <==> key in stripes[StripeOf(key, |stripes|)]
  {
    var n := |stripes|;
    var i := StripeOf(key, n);
    var stripes2 := stripes[i := stripes[i] + {key}];
    assert key in stripes2[i];
    forall k | k in AllKeys(stripes) ensures k in AllKeys(stripes2) {
      var j :| 0 <= j < n && k in stripes[j];
      assert k in stripes2[j];
    }
    forall k | k in AllKeys(stripes2) ensures k in AllKeys(stripes) + {key} {
      var j :| 0 <= j < n && k in stripes2[j];
      assert k in stripes[j] || k == key;
    }
  }

  lemma AddCount(stripes: seq<set<Key>>, key: Key)
    requires InPlace(stripes) && ValidCount(|stripes|)
    ensures var i := StripeOf(key, |stripes|);
            var stripes2 := stripes[i := stripes[i] + {key}];
            && |AllKeys(stripes2)| == |AllKeys(stripes)| + (if key in AllKeys(stripes) then 0 else 1)
            && (key in AllKeys(stripes) ==> stripes2 == stripes)
  {
    hide AllKeys, StripeOf, InPlace;
    AddInPlace(stripes, key);
    var i := StripeOf(key, |stripes|);
    var stripes2 := stripes[i := stripes[i] + {key}];
    if key in AllKeys(stripes) {
      assert stripes[i] + {key} == stripes[i];
      assert stripes2 == stripes;
    } else {
      assert |AllKeys(stripes) + {key}| == |AllKeys(stripes)| + 1;
    }
  }

  class StripedStringSet {
    const stripes: array<map<Key, bool>>
    var count: int

    ghost function Sets(): seq<set<Key>>
      reads stripes
    {
      seq(stripes.Length, i requires 0 <= i < stripes.Length reads stripes => stripes[i].Keys)
    }

    ghost predicate Valid()
      reads this, stripes
    {
      InPlace(Sets()) && count == Wrap32(|AllKeys(Sets())|)
    }

    constructor (stripeCount: nat)
      ensures Valid() && fresh(stripes) && stripes.Length == stripeCount && AllKeys(Sets()) == {}
    {
      stripes := new map<Key, bool>[stripeCount](_ => map[]);
      count := 0;
    }

    method Index(key: Key) returns (index: nat)
      requires ValidCount(stripes.Length)
      ensures index == StripeOf(key, stripes.Length)
    {
      hide Fnv32;
      var hash := ComputeFnv32(key);
      index := (hash as nat) % (stripes.Length % 0x1_0000_0000);
    }

    /** The atomic increment of the counter. */
    method Increment(ghost total: int)
      requires count == Wrap32(total)
      modifies this`count
      ensures count == Wrap32(total + 1)
    {
      WrapStep(count, total);
      count := Wrap32(count + 1);
    }

    method Insert(index: nat, key: Key)
      requires index < stripes.Length
      modifies stripes
      ensures count == old(count) && Sets() == old(Sets())[index := old(Sets())[index] + {key}]
    {
      ghost var was := Sets();
      stripes[index] := stripes[index][key := true];
      assert stripes[index].Keys == was[index] + {key};
      assert forall i :: 0 <= i < stripes.Length && i != index ==> Sets()[i] == was[i];
    }

    /** Without a valid stripe count the source divides by zero here. */
    method Add(key: Key) returns (added: bool)
      requires Valid() && ValidCount(stripes.Length)
      modifies this, stripes
      ensures Valid() && added == (key !in old(AllKeys(Sets()))) && AllKeys(Sets()) == old(AllKeys(Sets())) + {key}
    {
      hide InPlace, AllKeys, Wrap32, StripeOf, ValidCount;
      ghost var was := Sets();
      AddInPlace(was, key);
      AddCount(was, key);
      var index := Index(key);
      if key in stripes[index] {
        assert key in was[index];
        return false;
      }
      Insert(index, key);
      Increment(|AllKeys(was)|);
      added := true;
    }

    method Count() returns (c: int)
      requires Valid()
      ensures c == Wrap32(|AllKeys(Sets())|)
    {
      c := count;
    }

    /** The stripes are scanned independently; here one after the other. */
    method PredRange(r: Range) returns (results: seq<Key>)
      requires Valid()
      ensures Lists(results, r, AllKeys(Sets()))
    {
      results := [];
      ghost var sets := Sets();
      for i := 0 to stripes.Length
        invariant Lists(results, r, AllKeys(sets[..i]))
      {
        var part := ListMap(stripes[i], r);
        Combine(results, part, r, sets, i);
        results := results + part;
      }
      assert sets[..stripes.Length] == sets;
    }
  }

  lemma Combine(results: seq<Key>, part: seq<Key>, r: Range, sets: seq<set<Key>>, i: nat)
    requires InPlace(sets) && i < |sets|
    requires Lists(results, r, AllKeys(sets[..i])) && Lists(part, r, sets[i])
    ensures Lists(results + part, r, AllKeys(sets[..i + 1]))
  {
    hide InPlace, AllKeys;
    SplitKeys(sets, i);
    PrefixInPlace(sets, i);
    forall k | k in results ensures k !in part {
      assert k in AllKeys(sets[..i]);
    }
    forall x, y | 0 <= x < y < |results + part| ensures (results + part)[x] != (results + part)[y] {
      if x < |results| <= y {
        assert results[x] in results && part[y - |results|] in part;
      }
    }
  }
}
