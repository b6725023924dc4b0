/** Facts about sequences and sets, each small enough for one look-up. */
module Seqs {
  lemma TakeAll<T>(s: seq<T>)
    ensures s[..|s|] == s
  {
  }

  /** A nonempty sequence is its front and its last element, and back again. */
  lemma FrontLast<T>(s: seq<T>)
    requires s != []
    ensures s == s[..|s| - 1] + [s[|s| - 1]]
  {
  }

  lemma Snoc<T>(s: seq<T>, x: T)
    ensures (s + [x])[..|s|] == s && (s + [x])[|s|] == x && |s + [x]| == |s| + 1
  {
  }

  lemma SliceSplit<T>(s: seq<T>, x: nat, m: nat, y: nat)
    requires x <= m <= y <= |s|
    ensures s[x..y][..m - x] == s[x..m] && s[x..y][m - x..] == s[m..y]
    ensures s[..x] + s[x..m] == s[..m]
  {
  }

  /** A slice that starts where the first part ends lies in the second. */
  lemma SliceRight<T>(s: seq<T>, t: seq<T>, y: nat)
    requires |s| <= y <= |s| + |t|
    ensures (s + t)[|s|..y] == t[..y - |s|]
  {
  }

  lemma TakeLeft<T>(s: seq<T>, t: seq<T>, x: nat)
    requires x <= |s|
    ensures (s + t)[..x] == s[..x]
  {
  }

  predicate IsLeast(keys: set<int>, k: int) {
    k in keys && forall j | j in keys :: k <= j
  }

  lemma HasLeast(keys: set<int>, some: int)
    requires some in keys
    ensures exists k :: IsLeast(keys, k)
    decreases keys
  {
    if IsLeast(keys, some) {
      assert IsLeast(keys, some);
    } else {
      var j :| j in keys && j < some;
      HasLeast(keys - {some}, j);
      var k :| IsLeast(keys - {some}, k);
      assert k <= j;
      assert forall i | i in keys :: i == some || i in keys - {some};
      assert IsLeast(keys, k);
    }
  }

  /** The key that iteration over a std::map visits first. */
  ghost function Least(keys: set<int>): (k: int)
    requires exists k :: k in keys
    ensures IsLeast(keys, k)
  {
    var some :| some in keys;
    HasLeast(keys, some);
    var k :| IsLeast(keys, k);
    k
  }
}
