/** The index winding the builder applies while it copies the "indices" table.
    Under OpenGL the 0-based index `x` of the asset is stored at slot `x`; under
    Direct3D, whose front faces wind the other way, the second and third index
    of every triangle are exchanged. */
module Winding {
  import opened VertexFormat

  /** The slot `cMeshBuilder::ProcessMeshData` stores index `x` at under
      Direct3D, exactly as written: `x + 1` when `x % 3 == 1`, `x - 1` when
      `x % 3 == 2`, `x` otherwise. It does not look at the number of indices. */
  function SlotAsWritten(x: nat): nat
  {
    if x % 3 == 1 then x + 1
    else if x % 3 == 2 then x - 1
    else x
  }

  /** As written, an index list whose length leaves two indices after the last
      whole triangle sends its last index one past the end of the
      `new uint32_t[mIndexCount]` array. */
  lemma TrailingPairOverruns(n: nat)
    requires n % 3 == 2
    ensures n - 1 >= 0 && SlotAsWritten(n - 1) == n
  {
  }

  /** With any other length every slot stays inside the array. */
  lemma AsWrittenInBounds(n: nat, x: nat)
    requires n % 3 != 2 && x < n
    ensures SlotAsWritten(x) < n
  {
  }

  /** The slot index `x` of `n` is stored at, with the trailing pair left in
      place: a second index whose triangle has no third index is not moved. */
  function Slot(backend: Backend, x: nat, n: nat): (y: nat)
    requires x < n
    ensures y < n
  {
    if backend == GL then x
    else if x % 3 == 1 && x + 1 < n then x + 1
    else if x % 3 == 2 then x - 1
    else x
  }

  /** Where the written code stays in bounds, it and the corrected slot agree. */
  lemma SlotAgreesWithSource(n: nat, x: nat)
    requires n % 3 != 2 && x < n
    ensures Slot(D3D, x, n) == SlotAsWritten(x)
  {
  }

  /** Moving twice puts every index back: the remap is an involution, hence a
      permutation of `[0, n)`. */
  lemma SlotInvolution(backend: Backend, x: nat, n: nat)
    requires x < n
    ensures Slot(backend, Slot(backend, x, n), n) == x
  {
  }

  /** Two indices never share a slot. */
  lemma SlotInjective(backend: Backend, x: nat, x': nat, n: nat)
    requires x < n && x' < n && Slot(backend, x, n) == Slot(backend, x', n)
    ensures x == x'
  {
    SlotInvolution(backend, x, n);
    SlotInvolution(backend, x', n);
  }

  /** The index array the builder produces from the asset's index list `s`:
      slot `y` holds the index that was moved there. */
  function Rewind<T>(backend: Backend, s: seq<T>): (r: seq<T>)
    ensures |r| == |s|
  {
    seq(|s|, y requires 0 <= y < |s| => s[Slot(backend, y, |s|)])
  }

  /** Under OpenGL the indices are kept as they are. Under Direct3D every whole
      triangle `(a, b, c)` becomes `(a, c, b)`, and a trailing partial
      triangle is kept. */
  lemma RewindTriangles<T>(backend: Backend, s: seq<T>)
    ensures backend == GL ==> Rewind(backend, s) == s
    ensures backend == D3D ==> forall k :: 0 <= k && 3 * k + 2 < |s| ==>
      && Rewind(backend, s)[3 * k] == s[3 * k]
      && Rewind(backend, s)[3 * k + 1] == s[3 * k + 2]
      && Rewind(backend, s)[3 * k + 2] == s[3 * k + 1]
  {
    if backend == D3D {
      forall k | 0 <= k && 3 * k + 2 < |s|
        ensures Rewind(backend, s)[3 * k + 1] == s[3 * k + 2]
        ensures Rewind(backend, s)[3 * k + 2] == s[3 * k + 1]
      {
        assert (3 * k + 1) % 3 == 1 && (3 * k + 2) % 3 == 2;
      }
    }
  }

  /** Rewinding twice gives back the asset's order. */
  lemma RewindInvolution<T>(backend: Backend, s: seq<T>)
    ensures Rewind(backend, Rewind(backend, s)) == s
  {
    var r := Rewind(backend, s);
    forall y | 0 <= y < |s| ensures Rewind(backend, r)[y] == s[y] {
      SlotInvolution(backend, y, |s|);
    }
  }

  /** Peeling off the first triangle. */
  lemma RewindFirstTriangle<T>(s: seq<T>)
    requires |s| >= 3
    ensures Rewind(D3D, s) == [s[0], s[2], s[1]] + Rewind(D3D, s[3..])
  {
    var r, t := Rewind(D3D, s), Rewind(D3D, s[3..]);
    forall y | 3 <= y < |s| ensures r[y] == t[y - 3] {
      assert (y - 3) % 3 == y % 3;
    }
  }

  /** The rewound array holds the same indices as the asset, each as often:
      no index is lost or duplicated. */
  lemma {:induction false} RewindPermutes<T>(backend: Backend, s: seq<T>)
    ensures multiset(Rewind(backend, s)) == multiset(s)
    decreases |s|
  {
    if backend == GL {
      RewindTriangles(backend, s);
    } else if |s| < 3 {
      assert Rewind(backend, s) == s;
    } else {
      RewindFirstTriangle(s);
      RewindPermutes(backend, s[3..]);
      assert s == [s[0], s[1], s[2]] + s[3..];
    }
  }
}
