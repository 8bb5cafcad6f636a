/** Field names compared up to case: each character is replaced by the smallest
    one in its simple-folding orbit.  `next` is the orbit step of the Unicode
    tables, which cycles through the characters that fold together. */
module CaseFolding {
  type Fold = char -> char

  function Iterate(next: Fold, k: nat, c: char): char {
    if k == 0 then c else next(Iterate(next, k - 1, c))
  }

  ghost predicate Returns(next: Fold, c: char) {
    exists n: nat :: n > 0 && Iterate(next, n, c) == c
  }

  /** Every character comes back to itself. */
  ghost predicate Cyclic(next: Fold) {
    forall c :: Returns(next, c)
  }

  ghost predicate SameOrbit(next: Fold, c: char, d: char) {
    exists k: nat :: Iterate(next, k, c) == d
  }

  ghost predicate Smallest(next: Fold, c: char, m: char) {
    SameOrbit(next, c, m) && forall k: nat :: m <= Iterate(next, k, c)
  }

  lemma {:induction false} IterateAdd(next: Fold, j: nat, k: nat, c: char)
    ensures Iterate(next, j, Iterate(next, k, c)) == Iterate(next, j + k, c)
  {
    if j > 0 { IterateAdd(next, j - 1, k, c); }
  }

  /** Around a cycle of length n, every position is one of the first n. */
  lemma {:induction false} IterateCycle(next: Fold, n: nat, k: nat, c: char) returns (j: nat)
    requires n > 0 && Iterate(next, n, c) == c
    ensures j < n && Iterate(next, k, c) == Iterate(next, j, c)
    decreases k
  {
    if k < n {
      j := k;
    } else {
      IterateAdd(next, k - n, n, c);
      j := IterateCycle(next, n, k - n, c);
    }
  }

  lemma OrbitSymmetric(next: Fold, c: char, d: char)
    requires Cyclic(next) && SameOrbit(next, c, d)
    ensures SameOrbit(next, d, c)
  {
    assert Returns(next, c);
    var k: nat :| Iterate(next, k, c) == d;
    var n: nat :| n > 0 && Iterate(next, n, c) == c;
    var j := IterateCycle(next, n, k, c);
    IterateAdd(next, n - j, j, c);
  }

  lemma OrbitTransitive(next: Fold, c: char, d: char, e: char)
    requires SameOrbit(next, c, d) && SameOrbit(next, d, e)
    ensures SameOrbit(next, c, e)
  {
    var j: nat :| Iterate(next, j, c) == d;
    var k: nat :| Iterate(next, k, d) == e;
    IterateAdd(next, k, j, c);
    assert Iterate(next, k + j, c) == e;
  }

  /** Two characters have the same smallest representative exactly when they fold together. */
  lemma SmallestDecides(next: Fold, c: char, m: char, d: char, w: char)
    requires Cyclic(next) && Smallest(next, c, m) && Smallest(next, d, w)
    ensures m == w <==> SameOrbit(next, c, d)
  {
    if m == w {
      OrbitSymmetric(next, d, m);
      OrbitTransitive(next, c, m, d);
    }
    if SameOrbit(next, c, d) {
      OrbitTransitive(next, c, d, w);
      OrbitSymmetric(next, c, d);
      OrbitTransitive(next, d, c, m);
    }
  }

  /** The smallest of the first k + 1 characters of an orbit. */
  function SmallestOf(next: Fold, k: nat, c: char): char {
    if k == 0 then c
    else if Iterate(next, k, c) < SmallestOf(next, k - 1, c) then Iterate(next, k, c)
    else SmallestOf(next, k - 1, c)
  }

  lemma {:induction false} SmallestOfBelow(next: Fold, k: nat, c: char)
    ensures SameOrbit(next, c, SmallestOf(next, k, c))
    ensures forall j: nat :: j <= k ==> SmallestOf(next, k, c) <= Iterate(next, j, c)
  {
    if k == 0 {
      assert Iterate(next, 0, c) == c;
    } else {
      SmallestOfBelow(next, k - 1, c);
      assert SameOrbit(next, c, Iterate(next, k, c));
    }
  }

  lemma CycleHasSmallest(next: Fold, n: nat, c: char)
    requires n > 0 && Iterate(next, n, c) == c
    ensures Smallest(next, c, SmallestOf(next, n - 1, c))
  {
    SmallestOfBelow(next, n - 1, c);
    forall k: nat ensures SmallestOf(next, n - 1, c) <= Iterate(next, k, c) {
      var j := IterateCycle(next, n, k, c);
    }
  }

  /** The representative a character folds to. */
  ghost function Folded(next: Fold, c: char): (m: char)
    requires Cyclic(next)
    ensures Smallest(next, c, m)
  {
    assert Returns(next, c);
    var n: nat :| n > 0 && Iterate(next, n, c) == c;
    CycleHasSmallest(next, n, c);
    SmallestOf(next, n - 1, c)
  }

  lemma SmallestIsUnique(next: Fold, c: char, m: char, w: char)
    requires Smallest(next, c, m) && Smallest(next, c, w)
    ensures m == w
  {
    var j: nat :| Iterate(next, j, c) == m;
    var k: nat :| Iterate(next, k, c) == w;
  }

  ghost function FoldedName(next: Fold, name: string): string
    requires Cyclic(next)
  {
    seq(|name|, i requires 0 <= i < |name| => Folded(next, name[i]))
  }

  /** The inner loop: walk the orbit once and keep the smallest. */
  method FoldRune(next: Fold, r: char) returns (smallest: char)
    requires Cyclic(next)
    ensures Smallest(next, r, smallest)
  {
    assert Returns(next, r);
    ghost var n: nat :| n > 0 && Iterate(next, n, r) == r;
    smallest := r;
    var x := next(r);
    ghost var k, at := 1, 0;
    assert Iterate(next, 0, r) == r && Iterate(next, 1, r) == x;
    while x != r
      invariant 0 < k <= n && x == Iterate(next, k, r) && smallest == Iterate(next, at, r)
      invariant forall j: nat :: j < k ==> smallest <= Iterate(next, j, r)
      decreases n - k
    {
      if x < smallest {
        smallest := x;
        at := k;
      }
      x := next(x);
      k := k + 1;
    }
    forall j: nat ensures smallest <= Iterate(next, j, r) {
      var i := IterateCycle(next, k, j, r);
    }
  }

  /** foldJSONField: in place, rune by rune. */
  method FoldJSONField(next: Fold, name: string) returns (out: string)
    requires Cyclic(next)
    ensures |out| == |name| && forall i :: 0 <= i < |name| ==> Smallest(next, name[i], out[i])
    ensures out == FoldedName(next, name)
  {
    var runes := new char[|name|](i requires 0 <= i < |name| => name[i]);
    var i := 0;
    while i < |name|
      invariant i <= |name| && forall j :: 0 <= j < i ==> Smallest(next, name[j], runes[j])
      invariant forall j :: i <= j < |name| ==> runes[j] == name[j]
    {
      var r := FoldRune(next, runes[i]);
      runes[i] := r;
      i := i + 1;
    }
    out := runes[..];
    forall j | 0 <= j < |name| ensures out[j] == Folded(next, name[j]) {
      SmallestIsUnique(next, name[j], out[j], Folded(next, name[j]));
    }
  }

  /** Names that are equal up to the folding orbits of their characters. */
  ghost predicate SameName(next: Fold, a: string, b: string) {
    |a| == |b| && forall i :: 0 <= i < |a| ==> SameOrbit(next, a[i], b[i])
  }

  /** Folded names are equal exactly when the names have equal length and fold together throughout. */
  lemma FoldedNamesEqual(next: Fold, a: string, b: string)
    requires Cyclic(next)
    ensures FoldedName(next, a) == FoldedName(next, b) <==> SameName(next, a, b)
  {
    var fa, fb := FoldedName(next, a), FoldedName(next, b);
    if |a| == |b| {
      forall i | 0 <= i < |a| ensures fa[i] == fb[i] <==> SameOrbit(next, a[i], b[i]) {
        SmallestDecides(next, a[i], fa[i], b[i], fb[i]);
      }
    }
  }
}
