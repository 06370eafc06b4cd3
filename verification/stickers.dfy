/**
 Orientation tracking. The source keeps each cubelet's orientation inside
 its mesh transform; here it is the rotation matrix `orient`, and a cubelet
 is tracked consistently when that matrix carries its home cell onto its
 current cell. Under that invariant the coloured faces are exactly the
 faces that point out of the cube, whatever turns were made.
 */
module Stickers {
  import opened Geometry
  import opened Registry
  import opened Layer
  import opened Turn

  /**
   Cubelet `c`, generated at `home`, is where its orientation says it is:
   measured along the columns of its orientation (its own axes as they now
   lie in the world) its cell reads back as its home cell. Its orientation
   is a rotation matrix (never a mirror image) and its colours are the ones it was
   generated with.
   */
  ghost predicate Tracked(c: Cubelet, home: Vec)
  {
    && Along(c.pos, c.orient.fx) == home.x
    && Along(c.pos, c.orient.fy) == home.y
    && Along(c.pos, c.orient.fz) == home.z
    && IsRotation(c.orient)
    && c.materials == Materials(home)
  }

  /** The invariant of every registry the engine can reach. */
  ghost predicate Consistent(cs: seq<Cubelet>)
  {
    && |cs| == Count
    && IsGridPermutation(Positions(cs))
    && (forall i :: 0 <= i < |cs| ==> Tracked(cs[i], Home(i)))
  }

  /** The generated registry is consistent. */
  lemma InitialConsistent()
    ensures Consistent(InitialCubes())
  {
    var cs := InitialCubes();
    InitialIsGridPermutation();
    forall i | 0 <= i < |cs|
      ensures Tracked(cs[i], Home(i))
    {
      NewCubeletTracked(Home(i));
    }
  }

  /** A freshly generated cubelet is tracked. */
  lemma NewCubeletTracked(home: Vec)
    ensures Tracked(NewCubelet(home), home)
  {
  }

  /** A cubelet that turns stays tracked. */
  lemma TurnTracked(c: Cubelet, home: Vec, axis: Axis, angle: Angle)
    requires Tracked(c, home)
    ensures Tracked(TurnCubelet(c, axis, angle), home)
  {
    RotateAlong(axis, angle, c.pos, c.orient.fx);
    RotateAlong(axis, angle, c.pos, c.orient.fy);
    RotateAlong(axis, angle, c.pos, c.orient.fz);
    ComposeRotation(axis, angle, c.orient);
  }

  /** An instant turn keeps the registry consistent. */
  lemma RotateLayerConsistent(cs: seq<Cubelet>, axis: Axis, value: int, angle: Angle)
    requires Consistent(cs)
    ensures Consistent(RotateLayer(cs, axis, value, angle))
  {
    var r := RotateLayer(cs, axis, value, angle);
    RotateLayerPreservesGrid(cs, axis, value, angle);
    forall i | 0 <= i < |r|
      ensures Tracked(r[i], Home(i))
    {
      if OnLayer(cs[i], axis, value) {
        TurnTracked(cs[i], Home(i), axis, angle);
        assert r[i] == TurnCubelet(cs[i], axis, angle);
      }
    }
  }

  /**
   The direction face `f` of cubelet `c` points to in the world: the image
   of the face's own normal under the cubelet's orientation.
   */
  function FaceNormal(c: Cubelet, f: Face): Dir
  {
    var col := Column(c.orient, FaceDir(f).axis);
    if FaceDir(f).sign == Plus then col else Dir(col.axis, Flip(col.sign))
  }

  /**
   Face `f` of `c` is on the surface of the cube: it points away from the
   centre along an axis on which the cubelet is outermost.
   */
  predicate FacesOutward(c: Cubelet, f: Face)
  {
    Along(c.pos, FaceNormal(c, f)) == 1
  }

  /** A tracked cubelet shows colour on exactly its outward faces. */
  lemma TrackedColouredIffOutward(c: Cubelet, home: Vec, f: Face)
    requires Tracked(c, home)
    ensures c.materials[FaceIndex(f)] != Black <==> FacesOutward(c, f)
  {
  }

  /**
   In a consistent registry, a face of a cubelet is coloured exactly when
   it faces outward: the stickers always stay on the outside of the cube.
   */
  lemma ColouredIffOutward(cs: seq<Cubelet>, i: int, f: Face)
    requires Consistent(cs)
    requires 0 <= i < |cs|
    ensures cs[i].materials[FaceIndex(f)] != Black <==> FacesOutward(cs[i], f)
  {
    TrackedColouredIffOutward(cs[i], Home(i), f);
  }
}
