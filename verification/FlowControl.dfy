/** Packet identifiers and the send quota, shared by a transmitter and a receiver that run side by side. */
module FlowControl {
  import opened Wire

  type Id = uint16

  const IdCount: nat := 0x1_0000
  const CounterRange: nat := 0x1_0000_0000_0000_0000

  // ---------------------------------------------------------------- the search for a free identifier

  /** The identifier tried at the k-th step of a search that starts behind `c`. */
  function Probe(c: nat, k: nat): Id {
    (c + k) % IdCount
  }

  /** A search of 65536 steps meets every identifier exactly once, also where the counter wraps. */
  lemma EachIdOnce(c: nat, id: Id) returns (k: nat)
    ensures 1 <= k <= IdCount && Probe(c, k) == id
    ensures forall j | 1 <= j <= IdCount && Probe(c, j) == id :: j == k
  {
    k := (id - c - 1) % IdCount + 1;
    assert Probe(c, k) == id by { Residue(c, id); }
    forall j | 1 <= j <= IdCount && Probe(c, j) == id ensures j == k {
      SameResidue(c, j, k);
    }
  }

  lemma Residue(c: nat, id: Id)
    ensures (c + ((id - c - 1) % IdCount + 1)) % IdCount == id
  {
    var q := (id - c - 1) / IdCount;
    assert id - c - 1 == q * IdCount + (id - c - 1) % IdCount;
    assert c + ((id - c - 1) % IdCount + 1) == id - q * IdCount;
  }

  lemma SameResidue(c: nat, j: nat, k: nat)
    requires 1 <= j <= IdCount && 1 <= k <= IdCount && Probe(c, j) == Probe(c, k)
    ensures j == k
  {
    var a, b := (c + j) / IdCount, (c + k) / IdCount;
    assert c + j == a * IdCount + Probe(c, j) && c + k == b * IdCount + Probe(c, k);
    assert j - k == (a - b) * IdCount;
    assert a > b ==> (a - b) * IdCount >= IdCount;
    assert b > a ==> (b - a) * IdCount >= IdCount;
  }

  /** The first step from `k` on that meets an identifier that is not in use, the last step if there is none. */
  function FirstFree(c: nat, inUse: set<Id>, k: nat): (r: nat)
    requires 1 <= k <= IdCount
    ensures k <= r <= IdCount
    ensures forall j | k <= j < r :: Probe(c, j) in inUse
    ensures r < IdCount ==> Probe(c, r) !in inUse
    decreases IdCount - k
  {
    if k == IdCount || Probe(c, k) !in inUse then k else FirstFree(c, inUse, k + 1)
  }

  /** The identifiers below `n`. */
  ghost function IdsBelow(n: nat): (ids: set<Id>)
    requires n <= IdCount
    ensures |ids| == n && forall id: Id :: id in ids <==> id < n
  {
    if n == 0 then {} else IdsBelow(n - 1) + {n - 1}
  }

  lemma SomeIdFree(inUse: set<Id>) returns (id: Id)
    requires |inUse| < IdCount
    ensures id !in inUse
  {
    var all := IdsBelow(IdCount);
    if all <= inUse {
      SubsetSize(all, inUse);
      assert false;
    }
    id :| id in all && id !in inUse;
  }

  lemma {:induction false} SubsetSize<T>(a: set<T>, b: set<T>)
    requires a <= b
    ensures |a| <= |b|
  {
    if a != {} {
      var x :| x in a;
      SubsetSize(a - {x}, b - {x});
    }
  }

  /** As long as not all identifiers are in use, the search finds one that is free. */
  lemma FreeIdFound(c: nat, inUse: set<Id>)
    requires |inUse| < IdCount
    ensures Probe(c, FirstFree(c, inUse, 1)) !in inUse
  {
    var id := SomeIdFree(inUse);
    var k := EachIdOnce(c, id);
  }

  /** With the 64-bit counter wrapping, the identifiers still come round in turn. */
  lemma CounterWraps(c: nat, k: nat)
    ensures (c + k) % CounterRange % IdCount == Probe(c, k)
  {
    var q := (c + k) / CounterRange;
    var r := (c + k) % CounterRange;
    assert c + k == q * CounterRange + r;
    assert q * CounterRange == (q * 0x1_0000_0000_0000) * IdCount;
    AddMultiple(r, q * 0x1_0000_0000_0000);
  }

  lemma AddMultiple(r: nat, m: nat)
    ensures (m * IdCount + r) % IdCount == r % IdCount
  {
    var d := r / IdCount;
    assert m * IdCount + r == (m + d) * IdCount + r % IdCount;
  }
}
