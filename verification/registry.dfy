/**
 The cubelet registry: the 27 cubelets generated by the x-then-y-then-z
 loop, their face colours, and the predicate saying that the current grid
 positions are a permutation of the 27 cells of {-1,0,1}^3.

 A cubelet's identity is its index in the registry, which never changes;
 the snapshot taken at generation time is the home cell `Home(i)`.
 */
module Registry {
  import opened Geometry

  /** The colours a face of a cubelet can have. */
  datatype Color = Red | Orange | White | Yellow | Blue | Green | Black

  /** The six faces of a cubelet, in the order of the box's material array. */
  datatype Face = PX | NX | PY | NY | PZ | NZ

  /** The outward normal of face `f` in the cubelet's own frame. */
  function FaceDir(f: Face): Dir
  {
    match f
    case PX => Dir(X, Plus)
    case NX => Dir(X, Minus)
    case PY => Dir(Y, Plus)
    case NY => Dir(Y, Minus)
    case PZ => Dir(Z, Plus)
    case NZ => Dir(Z, Minus)
  }

  /** The palette: which colour belongs to which outer face of the cube. */
  function Palette(f: Face): Color
  {
    match f
    case PX => Red
    case NX => Orange
    case PY => White
    case NY => Yellow
    case PZ => Blue
    case NZ => Green
  }

  /**
   The colour given to face `f` of the cubelet generated at `home`: the
   palette colour when the cubelet sits on that outer face of the cube,
   black otherwise.
   */
  function FaceColor(home: Vec, f: Face): (c: Color)
    ensures c != Black <==> Along(home, FaceDir(f)) == 1
    ensures c == Black || c == Palette(f)
  {
    match f
    case PX => if home.x == 1 then Red else Black
    case NX => if home.x == -1 then Orange else Black
    case PY => if home.y == 1 then White else Black
    case NY => if home.y == -1 then Yellow else Black
    case PZ => if home.z == 1 then Blue else Black
    case NZ => if home.z == -1 then Green else Black
  }

  function FaceIndex(f: Face): (k: nat)
    ensures k < 6
  {
    match f
    case PX => 0
    case NX => 1
    case PY => 2
    case NY => 3
    case PZ => 4
    case NZ => 5
  }

  /** The six materials of the cubelet generated at `home`, in face order. */
  function Materials(home: Vec): (ms: seq<Color>)
    ensures |ms| == 6
    ensures forall f: Face :: ms[FaceIndex(f)] == FaceColor(home, f)
  {
    [FaceColor(home, PX), FaceColor(home, NX), FaceColor(home, PY),
     FaceColor(home, NY), FaceColor(home, PZ), FaceColor(home, NZ)]
  }

  /**
   A cubelet: its current grid cell, its accumulated orientation, and the
   colours of its six faces (fixed at generation).
   */
  datatype Cubelet = Cubelet(pos: Vec, orient: Frame, materials: seq<Color>)

  /** The cubelet the generation loop creates at cell `p`. */
  function NewCubelet(p: Vec): Cubelet
  {
    Cubelet(p, Identity, Materials(p))
  }

  /** The number of cubelets. */
  const Count: nat := 27

  /**
   The cell the generation loop visits at iteration `i`: x varies slowest,
   z fastest, each from -1 up to 1.
   */
  function Home(i: int): Vec
  {
    Vec(i / 9 - 1, (i / 3) % 3 - 1, i % 3 - 1)
  }

  /** The loop iteration at which cell `p` is visited. */
  function Index(p: Vec): int
  {
    9 * (p.x + 1) + 3 * (p.y + 1) + (p.z + 1)
  }

  lemma HomeOfIndex(p: Vec)
    requires InGrid(p)
    ensures 0 <= Index(p) < Count
    ensures Home(Index(p)) == p
  {
  }

  lemma IndexOfHome(i: int)
    requires 0 <= i < Count
    ensures InGrid(Home(i))
    ensures Index(Home(i)) == i
  {
  }

  /** `u` comes strictly before `v` in x-then-y-then-z order. */
  predicate LexLess(u: Vec, v: Vec)
  {
    || u.x < v.x
    || (u.x == v.x && u.y < v.y)
    || (u.x == v.x && u.y == v.y && u.z < v.z)
  }

  /** The generation loop visits the cells in strictly increasing x-y-z order. */
  lemma HomeOrdered(i: int, j: int)
    requires 0 <= i < j < Count
    ensures LexLess(Home(i), Home(j))
  {
    IndexOfHome(i);
    IndexOfHome(j);
  }

  /** The registry as generated: cubelet `i` at its home cell, unrotated. */
  function InitialCubes(): (cs: seq<Cubelet>)
    ensures |cs| == Count
    ensures forall i :: 0 <= i < Count ==> cs[i] == NewCubelet(Home(i))
  {
    seq(Count, i => NewCubelet(Home(i)))
  }

  /** Appending the cubelet for the next cell keeps the prefix in loop order. */
  lemma AppendNext(cs: seq<Cubelet>, p: Vec)
    requires InGrid(p) && |cs| == Index(p)
    requires forall i :: 0 <= i < |cs| ==> cs[i] == NewCubelet(Home(i))
    ensures forall i :: 0 <= i < |cs| + 1 ==> (cs + [NewCubelet(p)])[i] == NewCubelet(Home(i))
  {
    HomeOfIndex(p);
    var next := cs + [NewCubelet(p)];
    forall i | 0 <= i < |next|
      ensures next[i] == NewCubelet(Home(i))
    {
      if i < |cs| {
        assert next[i] == cs[i];
      } else {
        assert i == Index(p);
      }
    }
  }

  /**
   The generation loop: three nested loops over x, y, z from -1 to 1,
   appending one new cubelet per cell.
   */
  method Generate() returns (cs: seq<Cubelet>)
    ensures |cs| == Count
    ensures forall i :: 0 <= i < |cs| ==> cs[i].pos == Home(i)
    ensures forall i :: 0 <= i < |cs| ==> cs[i].orient == Identity
    ensures forall i :: 0 <= i < |cs| ==> cs[i].materials == Materials(Home(i))
  {
    cs := [];
    var x := -1;
    while x <= 1
      invariant -1 <= x <= 2
      invariant |cs| == 9 * (x + 1)
      invariant forall i :: 0 <= i < |cs| ==> cs[i] == NewCubelet(Home(i))
    {
      var y := -1;
      while y <= 1
        invariant -1 <= y <= 2
        invariant |cs| == 9 * (x + 1) + 3 * (y + 1)
        invariant forall i :: 0 <= i < |cs| ==> cs[i] == NewCubelet(Home(i))
      {
        var z := -1;
        while z <= 1
          invariant -1 <= z <= 2
          invariant |cs| == 9 * (x + 1) + 3 * (y + 1) + (z + 1)
          invariant forall i :: 0 <= i < |cs| ==> cs[i] == NewCubelet(Home(i))
        {
          AppendNext(cs, Vec(x, y, z));
          cs := cs + [NewCubelet(Vec(x, y, z))];
          z := z + 1;
        }
        y := y + 1;
      }
      x := x + 1;
    }
  }

  /** The grid positions of all cubelets, in registry order. */
  function Positions(cs: seq<Cubelet>): (ps: seq<Vec>)
    ensures |ps| == |cs|
    ensures forall i :: 0 <= i < |cs| ==> ps[i] == cs[i].pos
  {
    seq(|cs|, i requires 0 <= i < |cs| => cs[i].pos)
  }

  predicate Distinct(ps: seq<Vec>)
  {
    forall i, j :: 0 <= i < j < |ps| ==> ps[i] != ps[j]
  }

  /**
   The registry invariant: the positions are exactly the 27 cells of the
   grid, each occupied by exactly one cubelet.
   */
  ghost predicate IsGridPermutation(ps: seq<Vec>)
  {
    && |ps| == Count
    && Distinct(ps)
    && (forall i :: 0 <= i < |ps| ==> InGrid(ps[i]))
    && (forall p :: InGrid(p) ==> p in ps)
  }

  /** The 27 cells in generation order. */
  function GridSeq(): (g: seq<Vec>)
    ensures |g| == Count
    ensures forall i :: 0 <= i < Count ==> g[i] == Home(i)
  {
    seq(Count, i => Home(i))
  }

  /** The generated registry occupies every cell exactly once. */
  lemma InitialIsGridPermutation()
    ensures IsGridPermutation(Positions(InitialCubes()))
    ensures Positions(InitialCubes()) == GridSeq()
  {
    var ps := Positions(InitialCubes());
    forall i, j | 0 <= i < j < |ps|
      ensures ps[i] != ps[j]
    {
      IndexOfHome(i);
      IndexOfHome(j);
    }
    forall i | 0 <= i < |ps|
      ensures InGrid(ps[i])
    {
      IndexOfHome(i);
    }
    forall p | InGrid(p)
      ensures p in ps
    {
      HomeOfIndex(p);
      assert ps[Index(p)] == p;
    }
  }

  /** A distinct sequence holds each of its elements exactly once. */
  lemma {:induction false} DistinctMultiplicity(ps: seq<Vec>, v: Vec)
    requires Distinct(ps)
    ensures multiset(ps)[v] == if v in ps then 1 else 0
    decreases |ps|
  {
    if |ps| > 0 {
      var init := ps[..|ps| - 1];
      assert ps == init + [ps[|ps| - 1]];
      assert Distinct(init);
      DistinctMultiplicity(init, v);
      if v == ps[|ps| - 1] {
        assert v !in init;
      }
    }
  }

  /** Two equal elements at different places count twice. */
  lemma RepeatedMultiplicity(ps: seq<Vec>, i: int, j: int)
    requires 0 <= i < j < |ps| && ps[i] == ps[j]
    ensures multiset(ps)[ps[i]] >= 2
  {
    assert ps == ps[..j] + [ps[j]] + ps[j + 1..];
    assert ps[i] in ps[..j];
  }

  /**
   The registry invariant says exactly that the positions are a
   rearrangement of the 27 cells.
   */
  lemma GridPermutationMultiset(ps: seq<Vec>)
    ensures IsGridPermutation(ps) <==> multiset(ps) == multiset(GridSeq())
  {
    var g := GridSeq();
    InitialIsGridPermutation();
    assert IsGridPermutation(g);
    if IsGridPermutation(ps) {
      forall v
        ensures multiset(ps)[v] == multiset(g)[v]
      {
        DistinctMultiplicity(ps, v);
        DistinctMultiplicity(g, v);
      }
      assert multiset(ps) == multiset(g);
    }
    if multiset(ps) == multiset(g) {
      assert |ps| == |multiset(ps)| == |multiset(g)| == Count;
      forall i, j | 0 <= i < j < |ps|
        ensures ps[i] != ps[j]
      {
        if ps[i] == ps[j] {
          RepeatedMultiplicity(ps, i, j);
          DistinctMultiplicity(g, ps[i]);
        }
      }
      forall i | 0 <= i < |ps|
        ensures InGrid(ps[i])
      {
        assert ps[i] in multiset(ps);
        assert ps[i] in multiset(g);
      }
      forall p | InGrid(p)
        ensures p in ps
      {
        assert p in multiset(g);
        assert p in multiset(ps);
      }
    }
  }

  /** One row of the generation loop: fixed x and y, z from -1 to 1. */
  function Row(x: int, y: int): seq<Vec>
  {
    [Vec(x, y, -1), Vec(x, y, 0), Vec(x, y, 1)]
  }

  /** One slab of the generation loop: fixed x, y from -1 to 1. */
  function Slab(x: int): seq<Vec>
  {
    Row(x, -1) + Row(x, 0) + Row(x, 1)
  }

  lemma RowHome(x: int, y: int, k: int)
    requires IsCoord(x) && IsCoord(y) && 0 <= k < 3
    ensures Row(x, y)[k] == Home(9 * (x + 1) + 3 * (y + 1) + k)
  {
    HomeOfIndex(Vec(x, y, k - 1));
  }

  lemma SlabHome(x: int, k: int)
    requires IsCoord(x) && 0 <= k < 9
    ensures |Slab(x)| == 9 && Slab(x)[k] == Home(9 * (x + 1) + k)
  {
    if k < 3 {
      RowHome(x, -1, k);
    } else if k < 6 {
      RowHome(x, 0, k - 3);
    } else {
      RowHome(x, 1, k - 6);
    }
  }

  /** The cells in generation order are the three slabs, one after another. */
  lemma GridSlabs()
    ensures GridSeq() == Slab(-1) + Slab(0) + Slab(1)
  {
    var g := Slab(-1) + Slab(0) + Slab(1);
    forall i | 0 <= i < Count
      ensures g[i] == Home(i)
    {
      if i < 9 {
        SlabHome(-1, i);
      } else if i < 18 {
        SlabHome(0, i - 9);
      } else {
        SlabHome(1, i - 18);
      }
    }
  }
}
