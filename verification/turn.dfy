/**
 The instant quarter turn of one layer (`rotateLayerInstant`): select the
 layer, apply the rotation matrix to every selected cubelet's position and
 orientation, and snap the position back to the grid.
 */
module Turn {
  import opened Geometry
  import opened Registry
  import opened Layer

  /** One cubelet after the rotation is applied to it. */
  function TurnCubelet(c: Cubelet, axis: Axis, angle: Angle): Cubelet
  {
    c.(pos := Rotate(axis, angle, c.pos), orient := Compose(axis, angle, c.orient))
  }

  /**
   Applies the rotation to the cubelets whose indices are in `sel`, the group
   captured by a selection; all other cubelets keep their state.
   */
  function TurnAt(cs: seq<Cubelet>, sel: seq<int>, axis: Axis, angle: Angle): (r: seq<Cubelet>)
    ensures |r| == |cs|
    ensures forall i :: 0 <= i < |cs| && i in sel ==> r[i] == TurnCubelet(cs[i], axis, angle)
    ensures forall i :: 0 <= i < |cs| && i !in sel ==> r[i] == cs[i]
  {
    seq(|cs|, i requires 0 <= i < |cs| => if i in sel then TurnCubelet(cs[i], axis, angle) else cs[i])
  }

  /** `rotateLayerInstant(axis, value, angle)` on the registry `cs`. */
  function RotateLayer(cs: seq<Cubelet>, axis: Axis, value: int, angle: Angle): (r: seq<Cubelet>)
    ensures |r| == |cs|
    ensures forall i :: 0 <= i < |cs| && !OnLayer(cs[i], axis, value) ==> r[i] == cs[i]
    ensures forall i :: 0 <= i < |cs| && OnLayer(cs[i], axis, value) ==>
      && r[i].pos == Rotate(axis, angle, cs[i].pos)
      && r[i].orient == Compose(axis, angle, cs[i].orient)
      && r[i].materials == cs[i].materials
    ensures forall i :: 0 <= i < |cs| ==> (OnLayer(r[i], axis, value) <==> OnLayer(cs[i], axis, value))
  {
    var sel := Select(cs, axis, value);
    var r := TurnAt(cs, sel, axis, angle);
    assert forall i :: 0 <= i < |cs| ==> Coord(r[i].pos, axis) == Coord(cs[i].pos, axis) by {
      forall i | 0 <= i < |cs|
        ensures Coord(r[i].pos, axis) == Coord(cs[i].pos, axis)
      {
        RotateKeepsAxis(axis, angle, cs[i].pos);
      }
    }
    r
  }

  /** The position a turn moves a cell to: turned if on the layer, kept otherwise. */
  function Moved(p: Vec, axis: Axis, value: int, angle: Angle): Vec
  {
    if Coord(p, axis) == value then Rotate(axis, angle, p) else p
  }

  lemma RotateLayerPositions(cs: seq<Cubelet>, axis: Axis, value: int, angle: Angle)
    ensures forall i :: 0 <= i < |cs| ==>
      Positions(RotateLayer(cs, axis, value, angle))[i] == Moved(Positions(cs)[i], axis, value, angle)
  {
  }

  /** `Moved` is one-to-one. */
  lemma MovedInjective(p: Vec, q: Vec, axis: Axis, value: int, angle: Angle)
    requires p != q
    ensures Moved(p, axis, value, angle) != Moved(q, axis, value, angle)
  {
    RotateInjective(axis, angle, p, q);
    RotateKeepsAxis(axis, angle, p);
    RotateKeepsAxis(axis, angle, q);
  }

  /** `Moved` maps the grid onto the grid. */
  lemma MovedOnto(p: Vec, axis: Axis, value: int, angle: Angle)
    requires InGrid(p)
    ensures InGrid(Moved(p, axis, value, angle))
    ensures Moved(Moved(p, axis, value, Opposite(angle)), axis, value, angle) == p
  {
    RotateInGrid(axis, angle, p);
    RotateKeepsAxis(axis, Opposite(angle), p);
    RotateInverse(axis, Opposite(angle), p);
    assert Opposite(Opposite(angle)) == angle;
  }

  /**
   A turn keeps the registry invariant: if the positions occupied every cell
   exactly once before, they do afterwards.
   */
  lemma RotateLayerPreservesGrid(cs: seq<Cubelet>, axis: Axis, value: int, angle: Angle)
    requires IsGridPermutation(Positions(cs))
    ensures IsGridPermutation(Positions(RotateLayer(cs, axis, value, angle)))
  {
    var ps, qs := Positions(cs), Positions(RotateLayer(cs, axis, value, angle));
    RotateLayerPositions(cs, axis, value, angle);
    forall i, j | 0 <= i < j < |qs|
      ensures qs[i] != qs[j]
    {
      MovedInjective(ps[i], ps[j], axis, value, angle);
    }
    forall i | 0 <= i < |qs|
      ensures InGrid(qs[i])
    {
      MovedOnto(ps[i], axis, value, angle);
    }
    forall p | InGrid(p)
      ensures p in qs
    {
      var q := Moved(p, axis, value, Opposite(angle));
      MovedOnto(p, axis, value, angle);
      MovedOnto(p, axis, value, Opposite(angle));
      var i :| 0 <= i < |ps| && ps[i] == q;
      assert qs[i] == p;
    }
  }

  /** Turning a layer and then turning it back by the opposite angle restores every cubelet. */
  lemma RotateLayerInverse(cs: seq<Cubelet>, axis: Axis, value: int, angle: Angle)
    ensures RotateLayer(RotateLayer(cs, axis, value, angle), axis, value, Opposite(angle)) == cs
  {
    var r := RotateLayer(cs, axis, value, angle);
    var back := RotateLayer(r, axis, value, Opposite(angle));
    forall i | 0 <= i < |cs|
      ensures back[i] == cs[i]
    {
      if OnLayer(cs[i], axis, value) {
        RotateInverse(axis, angle, cs[i].pos);
        ComposeInverse(axis, angle, cs[i].orient);
      }
    }
  }

  /** Four identical turns of a layer restore every cubelet. */
  lemma RotateLayerPeriod(cs: seq<Cubelet>, axis: Axis, value: int, angle: Angle)
    ensures
      var r1 := RotateLayer(cs, axis, value, angle);
      var r2 := RotateLayer(r1, axis, value, angle);
      var r3 := RotateLayer(r2, axis, value, angle);
      RotateLayer(r3, axis, value, angle) == cs
  {
    var r1 := RotateLayer(cs, axis, value, angle);
    var r2 := RotateLayer(r1, axis, value, angle);
    var r3 := RotateLayer(r2, axis, value, angle);
    var r4 := RotateLayer(r3, axis, value, angle);
    forall i | 0 <= i < |cs|
      ensures r4[i] == cs[i]
    {
      if OnLayer(cs[i], axis, value) {
        RotatePeriod(axis, angle, cs[i].pos);
        ComposePeriod(axis, angle, cs[i].orient);
      }
    }
  }
}
