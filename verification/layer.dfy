/**
 Layer selection: the cubelets whose grid coordinate on an axis equals a
 given value, collected in registry order as the source's `forEach` pushes
 them. The source compares with a tolerance of 0.01 against grid positions
 that are already whole numbers, which is plain equality here.
 */
module Layer {
  import opened Geometry
  import opened Registry

  /** Cubelet `c` lies on the layer `value` of `axis`. */
  predicate OnLayer(c: Cubelet, axis: Axis, value: int)
  {
    Coord(c.pos, axis) == value
  }

  /** The indices of the cubelets on the layer, in increasing order. */
  function Select(cs: seq<Cubelet>, axis: Axis, value: int): (sel: seq<int>)
    ensures forall i :: i in sel <==> 0 <= i < |cs| && OnLayer(cs[i], axis, value)
    ensures forall k, l :: 0 <= k < l < |sel| ==> sel[k] < sel[l]
    decreases |cs|
  {
    if |cs| == 0 then []
    else
      var rest := Select(cs[..|cs| - 1], axis, value);
      assert forall k :: 0 <= k < |rest| ==> rest[k] in rest;
      if OnLayer(cs[|cs| - 1], axis, value) then rest + [|cs| - 1] else rest
  }

  /** How many of the points `ps` lie on the layer `value` of `axis`. */
  function LayerCount(ps: seq<Vec>, axis: Axis, value: int): nat
    decreases |ps|
  {
    if |ps| == 0 then 0
    else LayerCount(ps[..|ps| - 1], axis, value) + (if Coord(ps[|ps| - 1], axis) == value then 1 else 0)
  }

  lemma {:induction false} LayerCountAppend(a: seq<Vec>, b: seq<Vec>, axis: Axis, value: int)
    ensures LayerCount(a + b, axis, value) == LayerCount(a, axis, value) + LayerCount(b, axis, value)
    decreases |b|
  {
    if |b| > 0 {
      assert (a + b)[..|a + b| - 1] == a + b[..|b| - 1];
      LayerCountAppend(a, b[..|b| - 1], axis, value);
    } else {
      assert a + b == a;
    }
  }

  /** Removing the point at `k` leaves its multiset minus that point. */
  lemma MultisetRemove(t: seq<Vec>, k: int)
    requires 0 <= k < |t|
    ensures multiset(t[..k] + t[k + 1..]) == multiset(t) - multiset{t[k]}
  {
    assert t == t[..k] + [t[k]] + t[k + 1..];
    assert multiset(t) == multiset(t[..k]) + multiset([t[k]]) + multiset(t[k + 1..]);
  }

  /** Removing the point at `k` lowers the count by that point's share. */
  lemma LayerCountRemove(t: seq<Vec>, k: int, axis: Axis, value: int)
    requires 0 <= k < |t|
    ensures LayerCount(t, axis, value) ==
      LayerCount(t[..k] + t[k + 1..], axis, value) + (if Coord(t[k], axis) == value then 1 else 0)
  {
    assert t == t[..k] + [t[k]] + t[k + 1..];
    LayerCountAppend(t[..k] + [t[k]], t[k + 1..], axis, value);
    LayerCountAppend(t[..k], [t[k]], axis, value);
    LayerCountAppend(t[..k], t[k + 1..], axis, value);
    assert [t[k]][..0] == [];
  }

  /** The count depends only on which points occur how often. */
  lemma {:induction false} LayerCountPermutation(s: seq<Vec>, t: seq<Vec>, axis: Axis, value: int)
    requires multiset(s) == multiset(t)
    ensures LayerCount(s, axis, value) == LayerCount(t, axis, value)
    decreases |s|
  {
    if |s| == 0 {
      assert |t| == |multiset(t)| == 0;
    } else {
      var init, last := s[..|s| - 1], s[|s| - 1];
      assert s == init + [last];
      assert last in multiset(t);
      var k :| 0 <= k < |t| && t[k] == last;
      var rest := t[..k] + t[k + 1..];
      MultisetRemove(s, |s| - 1);
      MultisetRemove(t, k);
      assert s[..|s| - 1] + s[|s|..] == init;
      assert multiset(init) == multiset(rest);
      LayerCountPermutation(init, rest, axis, value);
      LayerCountRemove(t, k, axis, value);
    }
  }

  /** The selection holds one index per cubelet on the layer. */
  lemma {:induction false} SelectCount(cs: seq<Cubelet>, axis: Axis, value: int)
    ensures |Select(cs, axis, value)| == LayerCount(Positions(cs), axis, value)
    decreases |cs|
  {
    if |cs| > 0 {
      assert Positions(cs)[..|cs| - 1] == Positions(cs[..|cs| - 1]);
      SelectCount(cs[..|cs| - 1], axis, value);
    }
  }

  lemma RowCount(x: int, y: int, axis: Axis, value: int)
    ensures LayerCount(Row(x, y), axis, value) ==
      match axis
      case X => if x == value then 3 else 0
      case Y => if y == value then 3 else 0
      case Z => if IsCoord(value) then 1 else 0
  {
    var r := Row(x, y);
    var hit := (v: Vec) => if Coord(v, axis) == value then 1 else 0;
    assert r[..2] == [Vec(x, y, -1), Vec(x, y, 0)];
    assert r[..2][..1] == [Vec(x, y, -1)];
    assert r[..2][..1][..0] == [];
    assert LayerCount(r[..2][..1], axis, value) == hit(Vec(x, y, -1));
    assert LayerCount(r[..2], axis, value) == hit(Vec(x, y, -1)) + hit(Vec(x, y, 0));
    assert LayerCount(r, axis, value) == hit(Vec(x, y, -1)) + hit(Vec(x, y, 0)) + hit(Vec(x, y, 1));
  }

  lemma SlabCount(x: int, axis: Axis, value: int)
    ensures LayerCount(Slab(x), axis, value) ==
      match axis
      case X => if x == value then 9 else 0
      case _ => if IsCoord(value) then 3 else 0
  {
    LayerCountAppend(Row(x, -1) + Row(x, 0), Row(x, 1), axis, value);
    LayerCountAppend(Row(x, -1), Row(x, 0), axis, value);
    RowCount(x, -1, axis, value);
    RowCount(x, 0, axis, value);
    RowCount(x, 1, axis, value);
  }

  /** Every layer of the solved grid has nine cells; other values have none. */
  lemma GridLayerCount(axis: Axis, value: int)
    ensures LayerCount(GridSeq(), axis, value) == if IsCoord(value) then 9 else 0
  {
    GridSlabs();
    LayerCountAppend(Slab(-1) + Slab(0), Slab(1), axis, value);
    LayerCountAppend(Slab(-1), Slab(0), axis, value);
    SlabCount(-1, axis, value);
    SlabCount(0, axis, value);
    SlabCount(1, axis, value);
  }

  /**
   While the positions occupy every cell once, selecting a layer -1, 0 or 1
   yields exactly nine cubelets, and any other value yields none.
   */
  lemma LayerSize(cs: seq<Cubelet>, axis: Axis, value: int)
    requires IsGridPermutation(Positions(cs))
    ensures |Select(cs, axis, value)| == if IsCoord(value) then 9 else 0
  {
    SelectCount(cs, axis, value);
    GridPermutationMultiset(Positions(cs));
    LayerCountPermutation(Positions(cs), GridSeq(), axis, value);
    GridLayerCount(axis, value);
  }
}
