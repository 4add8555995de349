/** Values shared by every part of the model. */
module Common {

  datatype Option<+T> = None | Some(value: T)

  /** SHA-256 as a free constructor: the digest is kept, the text is not compared in
      any other way, and two digests are equal only for equal texts. */
  datatype Hash = Sha256(text: string)

  /** A clock reading in seconds. */
  type Time = real

  /** An absolute directory as its components from the root. */
  type Path = seq<string>

  /** `path == other or path in other.parents or other in path.parents`. */
  predicate Overlap(p: Path, q: Path) {
    p == q || p < q || q < p
  }

  /** `d` is the directory `root` or lies below it. */
  predicate Inside(d: Path, root: Path) {
    root <= d
  }

  /** Two directories overlap exactly when some path lies in both subtrees. */
  lemma OverlapMeansSharedSubtree(p: Path, q: Path)
    ensures Overlap(p, q) <==> exists d :: Inside(d, p) && Inside(d, q)
  {
    if Overlap(p, q) {
      var d := if p <= q then q else p;
      assert Inside(d, p) && Inside(d, q);
    }
    if d :| Inside(d, p) && Inside(d, q) {
      assert p == d[..|p|] && q == d[..|q|];
      if |p| <= |q| {
        assert p == q[..|p|];
      } else {
        assert q == p[..|q|];
      }
    }
  }

  lemma {:induction false} SubsetCardinality<T>(a: set<T>, b: set<T>)
    requires a <= b
    ensures |a| <= |b|
  {
    if a != {} {
      var x :| x in a;
      SubsetCardinality(a - {x}, b - {x});
    }
  }

  lemma OneMoreCardinality<T>(a: set<T>, b: set<T>, x: T)
    requires a <= b + {x}
    ensures |a| <= |b| + 1
  {
    SubsetCardinality(a - {x}, b);
    assert |a| <= |a - {x}| + 1;
  }

  lemma DisjointCardinality<T>(a: set<T>, b: set<T>)
    requires a !! b
    ensures |a + b| == |a| + |b|
  {
  }

  /** A set whose elements map injectively into `b` is no larger than `b`. */
  lemma {:induction false} InjectionCardinality<S, T>(a: set<S>, b: set<T>, f: map<S, T>)
    requires forall x :: x in a ==> x in f && f[x] in b
    requires forall x, y :: x in a && y in a && f[x] == f[y] ==> x == y
    ensures |a| <= |b|
  {
    if a != {} {
      var x :| x in a;
      InjectionCardinality(a - {x}, b - {f[x]}, f);
    }
  }

  /** `text[-n:]`. */
  function Tail<T>(s: seq<T>, n: nat): (r: seq<T>)
    ensures |r| <= n
    ensures |s| <= n ==> r == s
  {
    if |s| <= n then s else s[|s| - n..]
  }
}
