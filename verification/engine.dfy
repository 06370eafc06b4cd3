/**
 The rotation scheduler and the shuffle/reset operations: the `isRotating`
 busy flag, the two steps of an animated turn, the instant turn, the shuffle
 driven by a stream of random draws, and the reset to the generated state.

 An animated turn is modelled by its first call (`StartRotation`), which
 checks and raises the flag and captures the layer, and by its last frame
 (`FinishRotation`), which applies the whole quarter turn to the captured
 group, lowers the flag and fires the completion callback. The frames in
 between only move the picture. The captured data live in a `Pending`
 value outside the engine, as they live in the source's closure.
 */
module Engine {
  import opened Geometry
  import opened Registry
  import opened Layer
  import opened Turn
  import opened Stickers

  datatype Option<T> = None | Some(value: T)

  /** Names the completion callback an animated turn was started with. */
  type CallbackId = nat

  /** The callback an animated turn gets when the caller passes none. */
  const NoCallback: CallbackId := 0

  /**
   The engine: the registry, the `isRotating` flag, and the completion
   callbacks fired so far, oldest first.
   */
  datatype Engine = Engine(cubes: seq<Cubelet>, isRotating: bool, fired: seq<CallbackId>)

  /** The engine right after start-up: the generated registry, idle. */
  function InitialEngine(): Engine
  {
    Engine(InitialCubes(), false, [])
  }

  /** One turn: an axis, a layer value and an angle. */
  datatype Command = Command(axis: Axis, value: int, angle: Angle)

  /** A turn the system may perform: its layer is -1, 0 or 1. */
  predicate ValidCommand(c: Command)
  {
    IsCoord(c.value)
  }

  /**
   What an animated turn holds from its first call to its last frame: its
   arguments and the group of cubelets it captured.
   */
  datatype Pending = Pending(cmd: Command, selected: seq<int>, callback: CallbackId)

  /** The captured group is still exactly the layer the turn was asked for. */
  predicate CaptureIsCurrent(e: Engine, p: Pending)
  {
    p.selected == Select(e.cubes, p.cmd.axis, p.cmd.value)
  }

  /** `rotateLayerInstant`: the flag and the callbacks are not touched. */
  function RotateLayerInstant(e: Engine, cmd: Command): (r: Engine)
    ensures r.isRotating == e.isRotating && r.fired == e.fired
  {
    e.(cubes := RotateLayer(e.cubes, cmd.axis, cmd.value, cmd.angle))
  }

  /**
   The first call of `rotateLayerAnimated`: refused while a turn is in
   flight; otherwise it raises the flag and captures the layer, leaving the
   registry as it is until the last frame.
   */
  function StartRotation(e: Engine, cmd: Command, callback: CallbackId): (r: (Engine, Option<Pending>))
    ensures r.1.Some? <==> !e.isRotating
    ensures r.0.isRotating
    ensures r.0.cubes == e.cubes && r.0.fired == e.fired
    ensures r.1.Some? ==> r.1.value.cmd == cmd && r.1.value.callback == callback
    ensures r.1.Some? ==> forall i :: i in r.1.value.selected <==>
      0 <= i < |e.cubes| && OnLayer(e.cubes[i], cmd.axis, cmd.value)
  {
    if e.isRotating then (e, None)
    else (e.(isRotating := true), Some(Pending(cmd, Select(e.cubes, cmd.axis, cmd.value), callback)))
  }

  /**
   The last frame of an animated turn: the full quarter turn is applied to
   the captured group, whatever the registry looks like by then, the flag
   is lowered and the callback fires once.
   */
  function FinishRotation(e: Engine, p: Pending): (r: Engine)
    ensures !r.isRotating
    ensures r.fired == e.fired + [p.callback]
    ensures |r.cubes| == |e.cubes|
    ensures forall i :: 0 <= i < |e.cubes| && i !in p.selected ==> r.cubes[i] == e.cubes[i]
    ensures forall i :: 0 <= i < |e.cubes| && i in p.selected ==>
      r.cubes[i] == TurnCubelet(e.cubes[i], p.cmd.axis, p.cmd.angle)
  {
    Engine(TurnAt(e.cubes, p.selected, p.cmd.axis, p.cmd.angle), false, e.fired + [p.callback])
  }

  /** While a turn is in flight a second request changes nothing and captures nothing. */
  lemma BusyRejection(e: Engine, cmd: Command, callback: CallbackId)
    requires e.isRotating
    ensures StartRotation(e, cmd, callback) == (e, None)
  {
  }

  /** When the capture is current, the last frame does exactly what an instant turn does. */
  lemma FinishIsInstant(e: Engine, p: Pending)
    requires CaptureIsCurrent(e, p)
    ensures FinishRotation(e, p).cubes == RotateLayerInstant(e, p.cmd).cubes
  {
  }

  /**
   From an idle engine, an animated turn that runs to its last frame ends
   in the state the instant turn reaches, idle, with its callback fired once.
   */
  lemma AnimatedMatchesInstant(e: Engine, cmd: Command, callback: CallbackId)
    requires !e.isRotating
    ensures
      var (started, p) := StartRotation(e, cmd, callback);
      && p.Some?
      && FinishRotation(started, p.value) == RotateLayerInstant(e, cmd).(fired := e.fired + [callback])
  {
    var (started, p) := StartRotation(e, cmd, callback);
    FinishIsInstant(started, p.value);
  }

  /**
   A second request made before the first turn's last frame has no effect:
   the final state is that of the first turn alone, with one callback fired.
   */
  lemma SecondRequestIgnored(e: Engine, first: Command, second: Command, cb1: CallbackId, cb2: CallbackId)
    requires !e.isRotating
    ensures
      var (s1, p1) := StartRotation(e, first, cb1);
      var (s2, p2) := StartRotation(s1, second, cb2);
      && p2.None?
      && FinishRotation(s2, p1.value) == RotateLayerInstant(e, first).(fired := e.fired + [cb1])
  {
    AnimatedMatchesInstant(e, first, cb1);
  }

  /**
   The last frame keeps the registry consistent provided the captured group
   is still the layer it was taken from.
   */
  lemma FinishPreservesConsistent(e: Engine, p: Pending)
    requires Consistent(e.cubes)
    requires CaptureIsCurrent(e, p)
    ensures Consistent(FinishRotation(e, p).cubes)
  {
    FinishIsInstant(e, p);
    RotateLayerConsistent(e.cubes, p.cmd.axis, p.cmd.value, p.cmd.angle);
  }

  /**
   `resetCube`: every cubelet goes back to its generated cell with the
   identity orientation, and the flag is lowered. No callback fires and
   turns in flight are not cancelled.
   */
  function ResetCube(e: Engine): (r: Engine)
    ensures |r.cubes| == |e.cubes|
    ensures forall i :: 0 <= i < |e.cubes| ==>
      r.cubes[i].pos == Home(i) && r.cubes[i].orient == Identity && r.cubes[i].materials == e.cubes[i].materials
    ensures !r.isRotating && r.fired == e.fired
  {
    Engine(seq(|e.cubes|, i requires 0 <= i < |e.cubes| => e.cubes[i].(pos := Home(i), orient := Identity)),
           false, e.fired)
  }

  /** Resetting twice is resetting once. */
  lemma ResetIdempotent(e: Engine)
    ensures ResetCube(ResetCube(e)) == ResetCube(e)
  {
  }

  /**
   Every cubelet still carries the six colours it was generated with. No
   call changes a cubelet's materials, so this holds even where the
   positions no longer form a permutation of the grid.
   */
  ghost predicate GeneratedColours(cs: seq<Cubelet>)
  {
    |cs| == Count && forall i :: 0 <= i < Count ==> cs[i].materials == Materials(Home(i))
  }

  /**
   Resetting an engine whose cubelets keep their generated colours restores
   the generated registry exactly, whatever the positions were.
   */
  lemma ResetRestoresInitial(e: Engine)
    requires GeneratedColours(e.cubes)
    ensures ResetCube(e).cubes == InitialCubes()
    ensures ResetCube(e) == InitialEngine().(fired := e.fired)
  {
    var r := ResetCube(e);
    forall i | 0 <= i < Count
      ensures r.cubes[i] == InitialCubes()[i]
    {
    }
  }

  /** The registry invariant includes the generated colours. */
  lemma ConsistentColours(cs: seq<Cubelet>)
    requires Consistent(cs)
    ensures GeneratedColours(cs)
  {
    forall i | 0 <= i < Count
      ensures cs[i].materials == Materials(Home(i))
    {
      assert Tracked(cs[i], Home(i));
    }
  }

  /** Instant turns, last frames and resets never change a cubelet's colours. */
  lemma RotateInstantColours(e: Engine, cmd: Command)
    requires GeneratedColours(e.cubes)
    ensures GeneratedColours(RotateLayerInstant(e, cmd).cubes)
  {
  }

  lemma FinishColours(e: Engine, p: Pending)
    requires GeneratedColours(e.cubes)
    ensures GeneratedColours(FinishRotation(e, p).cubes)
  {
  }

  lemma ResetColours(e: Engine)
    requires GeneratedColours(e.cubes)
    ensures GeneratedColours(ResetCube(e).cubes)
  {
  }

  /** Indices into the three-entry and two-entry tables, as `Math.floor(Math.random() * n)` draws them. */
  type Index3 = i: int | 0 <= i < 3
  type Index2 = i: int | 0 <= i < 2

  /** One iteration's three random draws: indices into the axes, values and angles tables. */
  datatype Draw = Draw(axisIndex: Index3, valueIndex: Index3, angleIndex: Index2)

  const Axes: seq<Axis> := [X, Y, Z]
  const Values: seq<int> := [-1, 0, 1]
  const Angles: seq<Angle> := [MinusQuarter, PlusQuarter]

  /** The turn one iteration of the shuffle loop performs. */
  function DrawCommand(d: Draw): (c: Command)
    ensures ValidCommand(c)
  {
    Command(Axes[d.axisIndex], Values[d.valueIndex], Angles[d.angleIndex])
  }

  /** Every valid turn can be drawn, by exactly one draw. */
  lemma DrawBijective(c: Command)
    requires ValidCommand(c)
    ensures exists d :: DrawCommand(d) == c
    ensures forall d, d' :: DrawCommand(d) == c && DrawCommand(d') == c ==> d == d'
  {
    var ai: Index3 := match c.axis case X => 0 case Y => 1 case Z => 2;
    var ni: Index2 := if c.angle == MinusQuarter then 0 else 1;
    assert DrawCommand(Draw(ai, c.value + 1, ni)) == c;
  }

  /** The draw that produces a valid turn: the inverse of `DrawCommand`. */
  function DrawOf(c: Command): (d: Draw)
    requires ValidCommand(c)
    ensures DrawCommand(d) == c
  {
    Draw(match c.axis case X => 0 case Y => 1 case Z => 2, c.value + 1, if c.angle == MinusQuarter then 0 else 1)
  }

  /** The turns a sequence of draws produces, one per draw, in order. */
  function DrawCommands(ds: seq<Draw>): (cs: seq<Command>)
    ensures |cs| == |ds|
    ensures forall i :: 0 <= i < |ds| ==> cs[i] == DrawCommand(ds[i])
    ensures forall i :: 0 <= i < |cs| ==> ValidCommand(cs[i])
  {
    seq(|ds|, i requires 0 <= i < |ds| => DrawCommand(ds[i]))
  }

  /**
   Every sequence of valid turns is what exactly one sequence of draws
   produces: a shuffle can perform any sequence of valid turns, and each in
   one way only.
   */
  lemma DrawCommandsBijective(cmds: seq<Command>)
    requires forall i :: 0 <= i < |cmds| ==> ValidCommand(cmds[i])
    ensures exists ds :: DrawCommands(ds) == cmds
    ensures forall ds, ds' :: DrawCommands(ds) == cmds && DrawCommands(ds') == cmds ==> ds == ds'
  {
    var ds := seq(|cmds|, i requires 0 <= i < |cmds| => DrawOf(cmds[i]));
    assert DrawCommands(ds) == cmds;
    forall ds, ds' | DrawCommands(ds) == cmds && DrawCommands(ds') == cmds
      ensures ds == ds'
    {
      forall i | 0 <= i < |ds|
        ensures ds[i] == ds'[i]
      {
        DrawBijective(cmds[i]);
      }
    }
  }

  /** Instant turns applied one after another, in order. */
  function Replay(e: Engine, cmds: seq<Command>): (r: Engine)
    ensures |r.cubes| == |e.cubes|
    ensures r.isRotating == e.isRotating && r.fired == e.fired
    decreases |cmds|
  {
    if |cmds| == 0 then e
    else RotateLayerInstant(Replay(e, cmds[..|cmds| - 1]), cmds[|cmds| - 1])
  }

  /** Replaying instant turns keeps the registry consistent and never touches the flag. */
  lemma {:induction false} ReplayKeeps(e: Engine, cmds: seq<Command>)
    ensures Replay(e, cmds).isRotating == e.isRotating
    ensures Replay(e, cmds).fired == e.fired
    ensures Consistent(e.cubes) ==> Consistent(Replay(e, cmds).cubes)
    decreases |cmds|
  {
    if |cmds| > 0 {
      var before := Replay(e, cmds[..|cmds| - 1]);
      ReplayKeeps(e, cmds[..|cmds| - 1]);
      var c := cmds[|cmds| - 1];
      if Consistent(before.cubes) {
        RotateLayerConsistent(before.cubes, c.axis, c.value, c.angle);
      }
    }
  }

  /** Replaying instant turns never changes a cubelet's colours. */
  lemma {:induction false} ReplayColours(e: Engine, cmds: seq<Command>)
    requires GeneratedColours(e.cubes)
    ensures GeneratedColours(Replay(e, cmds).cubes)
    decreases |cmds|
  {
    if |cmds| > 0 {
      ReplayColours(e, cmds[..|cmds| - 1]);
      RotateInstantColours(Replay(e, cmds[..|cmds| - 1]), cmds[|cmds| - 1]);
    }
  }

  /** Replaying a concatenation replays the parts in order. */
  lemma {:induction false} ReplayAppend(e: Engine, a: seq<Command>, b: seq<Command>)
    ensures Replay(e, a + b) == Replay(Replay(e, a), b)
    decreases |b|
  {
    if |b| == 0 {
      assert a + b == a;
    } else {
      var init, last := b[..|b| - 1], b[|b| - 1];
      assert (a + b)[..|a + b| - 1] == a + init;
      assert (a + b)[|a + b| - 1] == last;
      ReplayAppend(e, a, init);
      assert Replay(e, a + b) == RotateLayerInstant(Replay(e, a + init), last);
    }
  }

  /**
   `shuffleCube(moves)`, with the random source given as the draws it
   produces: `moves` instant turns, one per draw, in order.
   */
  method ShuffleCube(e: Engine, moves: nat, rng: seq<Draw>) returns (r: Engine)
    requires moves <= |rng|
    ensures r == Replay(e, DrawCommands(rng[..moves]))
    ensures r.isRotating == e.isRotating && r.fired == e.fired
    ensures Consistent(e.cubes) ==> Consistent(r.cubes)
  {
    r := e;
    var i := 0;
    while i < moves
      invariant 0 <= i <= moves
      invariant r == Replay(e, DrawCommands(rng[..i]))
    {
      var draw := rng[i];
      var axis := Axes[draw.axisIndex];
      var value := Values[draw.valueIndex];
      var angle := Angles[draw.angleIndex];
      ReplayNextDraw(e, rng, i);
      r := RotateLayerInstant(r, Command(axis, value, angle));
      i := i + 1;
    }
    ReplayKeeps(e, DrawCommands(rng[..moves]));
  }

  /** One more draw of the shuffle loop is one more instant turn. */
  lemma ReplayNextDraw(e: Engine, rng: seq<Draw>, i: nat)
    requires i < |rng|
    ensures Replay(e, DrawCommands(rng[..i + 1])) ==
      RotateLayerInstant(Replay(e, DrawCommands(rng[..i])), DrawCommand(rng[i]))
  {
    var next := DrawCommands(rng[..i + 1]);
    assert next[..i] == DrawCommands(rng[..i]);
    assert next[i] == DrawCommand(rng[i]);
  }

  /** The number of turns the shuffle button asks for. */
  const DefaultMoves: nat := 20

  /** ASCII upper-case letters to lower case, as `toLowerCase` does for them. */
  function Lower(s: string): (r: string)
    ensures |r| == |s|
    ensures forall i :: 0 <= i < |s| ==> ('A' <= s[i] <= 'Z' ==> r[i] as int == s[i] as int + 32)
    ensures forall i :: 0 <= i < |s| ==> (!('A' <= s[i] <= 'Z') ==> r[i] == s[i])
    ensures forall i :: 0 <= i < |r| ==> !('A' <= r[i] <= 'Z')
  {
    seq(|s|, i requires 0 <= i < |s| => if 'A' <= s[i] <= 'Z' then (s[i] as int + 32) as char else s[i])
  }

  /** Lower-casing twice is lower-casing once. */
  lemma LowerIdempotent(s: string)
    ensures Lower(Lower(s)) == Lower(s)
  {
  }

  /**
   After lower-casing, a key turns a layer exactly when it is one of the
   six letters in either case.
   */
  lemma KeyEitherCase(key: string)
    ensures KeyCommand(Lower(key)).Some? <==>
      key in ["u", "U", "d", "D", "r", "R", "l", "L", "f", "F", "b", "B"]
  {
    var k := Lower(key);
    if KeyCommand(k).Some? {
      assert |k| == 1 && |key| == 1;
      assert key == [key[0]];
    }
  }

  /** The command turns the outer layer on the side of face `f`. */
  predicate TurnsFace(c: Command, f: Face)
  {
    c.axis == FaceDir(f).axis && c.value == Coord(DirVec(FaceDir(f)), c.axis)
  }

  /** The layer turn a face counted clockwise as seen from outside that face. */
  predicate ClockwiseFromOutside(c: Command)
  {
    (c.value == 1 && c.angle == MinusQuarter) || (c.value == -1 && c.angle == PlusQuarter)
  }

  /**
   The table's angles are clockwise seen from outside in the geometric
   sense: on the layer a key turns, every direction across the face normal
   `n` goes to its cross product with `n`, as a clockwise quarter turn
   about the outward normal does.
   */
  lemma ClockwiseIsCross(c: Command, f: Face, d: Dir)
    requires TurnsFace(c, f) && d.axis != FaceDir(f).axis
    ensures ClockwiseFromOutside(c) <==> RotateDir(c.axis, c.angle, d) == Cross(d, FaceDir(f))
  {
  }

  /**
   The keyboard table: u, d, r, l, f and b turn the up, down, right, left,
   front and back faces.
   */
  function KeyCommand(key: string): (r: Option<Command>)
    ensures r.Some? <==> key in ["u", "d", "r", "l", "f", "b"]
    ensures r.Some? ==> ValidCommand(r.value) && ClockwiseFromOutside(r.value)
    ensures key == "u" ==> r.Some? && TurnsFace(r.value, PY)
    ensures key == "d" ==> r.Some? && TurnsFace(r.value, NY)
    ensures key == "r" ==> r.Some? && TurnsFace(r.value, PX)
    ensures key == "l" ==> r.Some? && TurnsFace(r.value, NX)
    ensures key == "f" ==> r.Some? && TurnsFace(r.value, PZ)
    ensures key == "b" ==> r.Some? && TurnsFace(r.value, NZ)
  {
    if key == "u" then Some(Command(Y, 1, MinusQuarter))
    else if key == "d" then Some(Command(Y, -1, PlusQuarter))
    else if key == "r" then Some(Command(X, 1, MinusQuarter))
    else if key == "l" then Some(Command(X, -1, PlusQuarter))
    else if key == "f" then Some(Command(Z, 1, MinusQuarter))
    else if key == "b" then Some(Command(Z, -1, PlusQuarter))
    else None
  }

  /**
   Pressing `u` on the solved cube and letting the turn finish moves each
   cubelet of the top layer from (x, 1, z) to (-z, 1, x) and leaves the
   other eighteen where they were.
   */
  lemma UpKeyScenario(i: int)
    requires 0 <= i < Count
    ensures
      var cmd := KeyCommand(Lower("U")).value;
      var (started, p) := StartRotation(InitialEngine(), cmd, NoCallback);
      var done := FinishRotation(started, p.value);
      var h := Home(i);
      && (h.y == 1 ==> done.cubes[i].pos == Vec(-h.z, 1, h.x))
      && (h.y != 1 ==> done.cubes[i].pos == h)
      && !done.isRotating
  {
    assert Lower("U") == "u";
    AnimatedMatchesInstant(InitialEngine(), Command(Y, 1, MinusQuarter), NoCallback);
  }
}
