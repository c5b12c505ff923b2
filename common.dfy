/** Values shared by every layer of the game: identifiers, vectors, transforms,
    an abstract matrix, and the hash-map iteration orders the layers walk. */
module Common {

  datatype Option<+T> = None | Some(value: T)

  /** A 128-bit universally unique id, abstracted to a natural number; 0 is the nil id. */
  type Uuid = nat
  const NIL: Uuid := 0

  /** The transport's player identifier wraps a Uuid. */
  type PlayerId = Uuid

  /** An opaque scene handle. */
  type Entity = nat

  /** Unsigned 32-bit integers (frame numbers, canvas sizes). */
  type U32 = x: nat | x < 0x1_0000_0000

  datatype Vec2 = Vec2(x: real, y: real)
  datatype Vec3 = Vec3(x: real, y: real, z: real)

  const Zero2: Vec2 := Vec2(0.0, 0.0)
  const Zero3: Vec3 := Vec3(0.0, 0.0, 0.0)

  function Add3(a: Vec3, b: Vec3): Vec3 {
    Vec3(a.x + b.x, a.y + b.y, a.z + b.z)
  }

  /** nalgebra's `magnitude_squared() > 0.0`. Over the reals a sum of squares is
      positive exactly when some coordinate is non-zero, so the test is stated
      that way (the underflow of tiny floats to a zero square is not modelled). */
  predicate IsMoving(v: Vec3) {
    v.x != 0.0 || v.y != 0.0 || v.z != 0.0
  }

  /** Translation and Euler rotation of an entity. */
  datatype Transform = Transform(translation: Vec3, rotation: Vec3, scale: Vec3)

  /** A 4x4 world matrix, kept abstract: `Of(t)` is `t.get_transform()` and `Mul(a, b)`
      is the product `a * b`, left uninterpreted. */
  datatype Mat = Of(t: Transform) | Mul(left: Mat, right: Mat)

  /** Number of products in a matrix expression. */
  function Products(m: Mat): nat {
    match m
    case Of(_) => 0
    case Mul(a, b) => 1 + Products(a) + Products(b)
  }

  /** `order` lists every element of `keys` exactly once: the order in which
      a hash map (or the scene) happens to be iterated. */
  predicate Enumerates<K>(order: seq<K>, keys: set<K>) {
    && (forall i, j | 0 <= i < j < |order| :: order[i] != order[j])
    && (forall i | 0 <= i < |order| :: order[i] in keys)
    && (forall k | k in keys :: k in order)
  }

  function Reversed<T>(s: seq<T>): (r: seq<T>)
    ensures |r| == |s|
  {
    if s == [] then [] else Reversed(s[1..]) + [s[0]]
  }

  lemma {:induction false} ReversedAt<T>(s: seq<T>, k: nat)
    requires k < |s|
    ensures Reversed(s)[k] == s[|s| - 1 - k]
  {
    if k < |s| - 1 {
      ReversedAt(s[1..], k);
    }
  }

  /** Reversal turns appending into prepending. */
  lemma {:induction false} ReversedConcat<T>(a: seq<T>, b: seq<T>)
    ensures Reversed(a + b) == Reversed(b) + Reversed(a)
  {
    if a == [] {
      assert a + b == b;
    } else {
      assert (a + b)[1..] == a[1..] + b;
      ReversedConcat(a[1..], b);
    }
  }

  lemma {:induction false} ReversedTwice<T>(s: seq<T>)
    ensures Reversed(Reversed(s)) == s
  {
    if s != [] {
      ReversedTwice(s[1..]);
      ReversedConcat(Reversed(s[1..]), [s[0]]);
      assert Reversed([s[0]]) == [s[0]];
      assert s == [s[0]] + s[1..];
    }
  }

  /** The value left by a run of overwrites: each element either writes a value
      (`Some`) or leaves the field alone (`None`). */
  function Latest<E, T>(current: T, es: seq<E>, f: E -> Option<T>): T
    decreases |es|
  {
    if es == [] then current
    else
      var w := f(es[|es| - 1]);
      if w.Some? then w.value else Latest(current, es[..|es| - 1], f)
  }

  /** `es[k]` is the last element of `es` that writes. */
  predicate LastWriter<E, T>(es: seq<E>, f: E -> Option<T>, k: nat) {
    k < |es| && f(es[k]).Some? && forall j | k < j < |es| :: f(es[j]).None?
  }

  /** With no writing element the field keeps its value. */
  lemma {:induction false} NoWriteKeeps<E, T>(current: T, es: seq<E>, f: E -> Option<T>)
    requires forall j | 0 <= j < |es| :: f(es[j]).None?
    ensures Latest(current, es, f) == current
    decreases |es|
  {
    if es != [] {
      var front := es[..|es| - 1];
      assert forall j | 0 <= j < |front| :: front[j] == es[j];
      NoWriteKeeps(current, front, f);
    }
  }

  /** The last writing element wins, whatever came before it. */
  lemma {:induction false} LastWriteWins<E, T>(current: T, es: seq<E>, f: E -> Option<T>, k: nat)
    requires LastWriter(es, f, k)
    ensures Latest(current, es, f) == f(es[k]).value
    decreases |es|
  {
    var n := |es| - 1;
    if k < n {
      var front := es[..n];
      assert forall j | 0 <= j < n :: front[j] == es[j];
      assert f(es[n]).None?;
      LastWriteWins(current, front, f, k);
    }
  }

  /** Appending one element applies its write, if any. */
  lemma LatestSnoc<E, T>(current: T, es: seq<E>, e: E, f: E -> Option<T>)
    ensures Latest(current, es + [e], f) == (if f(e).Some? then f(e).value else Latest(current, es, f))
  {
    assert (es + [e])[..|es|] == es;
  }

  /** Some iteration order of `keys`: hash maps and the scene are walked in an
      order the program does not control, so any enumeration may be chosen. */
  method Enumerate<K(==)>(keys: set<K>) returns (order: seq<K>)
    ensures Enumerates(order, keys)
  {
    order := [];
    var rest := keys;
    while rest != {}
      invariant rest <= keys
      invariant forall i, j | 0 <= i < j < |order| :: order[i] != order[j]
      invariant forall i | 0 <= i < |order| :: order[i] in keys && order[i] !in rest
      invariant forall k | k in keys :: k in rest || k in order
      decreases |rest|
    {
      var k :| k in rest;
      order := order + [k];
      rest := rest - {k};
    }
  }

  /** An enumeration has as many elements as the set. */
  lemma {:induction false} EnumeratedSize<K>(order: seq<K>, keys: set<K>)
    requires Enumerates(order, keys)
    ensures |order| == |keys|
    decreases |order|
  {
    if order != [] {
      var last := order[|order| - 1];
      var front := order[..|order| - 1];
      assert forall i | 0 <= i < |front| :: front[i] != last;
      assert forall k | k in keys - {last} :: k in front by {
        forall k | k in keys - {last} ensures k in front {
          var i :| 0 <= i < |order| && order[i] == k;
          assert i < |front|;
        }
      }
      EnumeratedSize(front, keys - {last});
    }
  }
}
