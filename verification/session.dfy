/**
 Whole sessions: the calls the single thread makes into the engine, in
 order, together with the animated turns still waiting for their last
 frame. Nothing stops `resetCube` or `shuffleCube` from running while an
 animated turn is in flight, and that turn's last frame then turns a group
 captured from a registry that no longer exists. This module shows that
 the registry invariant holds for sessions that keep those calls apart,
 exhibits a session where it breaks, and proves it for every session once
 a reset invalidates the turns in flight and the last frame re-checks its
 capture.
 */
module Session {
  import opened Geometry
  import opened Registry
  import opened Layer
  import opened Turn
  import opened Stickers
  import opened Engine

  /** One call into the engine. */
  datatype Event =
    | Animate(cmd: Command, callback: CallbackId)  // a call of rotateLayerAnimated
    | LastFrame(k: nat)                            // the last frame of the k-th turn in flight
    | Instant(cmd: Command)                        // a call of rotateLayerInstant
    | Shuffle(draws: seq<Draw>)                    // a call of shuffleCube, one draw per move
    | Reset                                        // a call of resetCube

  /** The engine and the animated turns whose last frame is still to come, oldest first. */
  datatype Session = Session(engine: Engine, inflight: seq<Pending>)

  function InitialSession(): Session
  {
    Session(InitialEngine(), [])
  }

  /** The event changes the registry without consulting the busy flag. */
  predicate Bypasses(ev: Event)
  {
    ev.Instant? || ev.Shuffle? || ev.Reset?
  }

  /**
   One event, as the source handles it. A start is accepted exactly when
   the flag is down and then adds one turn in flight; a last frame retires
   its turn, lowers the flag and fires its callback; the other calls leave
   the turns in flight alone; callbacks, once fired, stay fired.
   */
  function Step(s: Session, ev: Event): (r: Session)
    ensures |r.engine.cubes| == |s.engine.cubes|
    ensures ev.Animate? && s.engine.isRotating ==> r == s
    ensures ev.Animate? && !s.engine.isRotating ==>
      && r.engine.isRotating && r.engine.cubes == s.engine.cubes && r.engine.fired == s.engine.fired
      && r.inflight == s.inflight + [Pending(ev.cmd, Select(s.engine.cubes, ev.cmd.axis, ev.cmd.value), ev.callback)]
    ensures ev.LastFrame? && ev.k < |s.inflight| ==>
      && r.engine == FinishRotation(s.engine, s.inflight[ev.k])
      && r.inflight == s.inflight[..ev.k] + s.inflight[ev.k + 1..]
      && !r.engine.isRotating
      && r.engine.fired == s.engine.fired + [s.inflight[ev.k].callback]
    ensures ev.LastFrame? && ev.k >= |s.inflight| ==> r == s
    ensures Bypasses(ev) ==> r.inflight == s.inflight && r.engine.fired == s.engine.fired
    ensures ev.Instant? ==> r.engine == RotateLayerInstant(s.engine, ev.cmd)
    ensures ev.Shuffle? ==> r.engine == Replay(s.engine, DrawCommands(ev.draws))
    ensures ev.Reset? ==> r.engine == ResetCube(s.engine) && !r.engine.isRotating
    ensures s.engine.fired <= r.engine.fired
    ensures |r.engine.fired| <= |s.engine.fired| + 1
  {
    match ev
    case Animate(cmd, callback) =>
      var (e, p) := StartRotation(s.engine, cmd, callback);
      Session(e, if p.Some? then s.inflight + [p.value] else s.inflight)
    case LastFrame(k) =>
      if k < |s.inflight| then
        Session(FinishRotation(s.engine, s.inflight[k]), s.inflight[..k] + s.inflight[k + 1..])
      else s
    case Instant(cmd) => Session(RotateLayerInstant(s.engine, cmd), s.inflight)
    case Shuffle(draws) => Session(Replay(s.engine, DrawCommands(draws)), s.inflight)
    case Reset => Session(ResetCube(s.engine), s.inflight)
  }

  /**
   A sequence of events, as the source handles them: the registry keeps its
   size, and every callback fired before is still in the log, in order.
   */
  function Run(s: Session, evs: seq<Event>): (r: Session)
    ensures |r.engine.cubes| == |s.engine.cubes|
    ensures s.engine.fired <= r.engine.fired
    ensures |r.engine.fired| <= |s.engine.fired| + |evs|
    decreases |evs|
  {
    if |evs| == 0 then s else Step(Run(s, evs[..|evs| - 1]), evs[|evs| - 1])
  }

  /** No call changes a cubelet's colours. */
  lemma StepColours(s: Session, ev: Event)
    requires GeneratedColours(s.engine.cubes)
    ensures GeneratedColours(Step(s, ev).engine.cubes)
  {
    match ev
    case Animate(cmd, callback) =>
    case LastFrame(k) =>
      if k < |s.inflight| {
        FinishColours(s.engine, s.inflight[k]);
      }
    case Instant(cmd) => RotateInstantColours(s.engine, cmd);
    case Shuffle(draws) => ReplayColours(s.engine, DrawCommands(draws));
    case Reset => ResetColours(s.engine);
  }

  /**
   Whatever calls came before, in whatever order, a reset restores the
   generated registry: even after a session that broke the permutation of
   the grid, every cubelet still carries its generated colours.
   */
  lemma {:induction false} ResetAlwaysRestores(evs: seq<Event>)
    ensures GeneratedColours(Run(InitialSession(), evs).engine.cubes)
    ensures Step(Run(InitialSession(), evs), Reset).engine.cubes == InitialCubes()
    decreases |evs|
  {
    if |evs| == 0 {
      InitialConsistent();
      ConsistentColours(InitialCubes());
    } else {
      ResetAlwaysRestores(evs[..|evs| - 1]);
      StepColours(Run(InitialSession(), evs[..|evs| - 1]), evs[|evs| - 1]);
    }
    ResetRestoresInitial(Run(InitialSession(), evs).engine);
  }

  /**
   No event that bypasses the busy flag happens while an animated turn is
   in flight.
   */
  ghost predicate Serial(s: Session, evs: seq<Event>)
  {
    forall j :: 0 <= j < |evs| && Bypasses(evs[j]) ==> |Run(s, evs[..j]).inflight| == 0
  }

  /**
   What holds between events of a serial session: the registry is
   consistent, and a turn is in flight exactly when the flag is up, with a
   capture that is still current.
   */
  ghost predicate SerialInvariant(s: Session)
  {
    && Consistent(s.engine.cubes)
    && |s.inflight| <= 1
    && (s.engine.isRotating <==> |s.inflight| == 1)
    && (|s.inflight| == 1 ==> CaptureIsCurrent(s.engine, s.inflight[0]))
  }

  lemma StepSerial(s: Session, ev: Event)
    requires SerialInvariant(s)
    requires Bypasses(ev) ==> |s.inflight| == 0
    ensures SerialInvariant(Step(s, ev))
  {
    match ev
    case Animate(cmd, callback) =>
    case LastFrame(k) => LastFrameSerial(s, k);
    case Instant(cmd) =>
      var e := RotateLayerInstant(s.engine, cmd);
      assert Step(s, ev) == Session(e, s.inflight);
      RotateLayerConsistent(s.engine.cubes, cmd.axis, cmd.value, cmd.angle);
    case Shuffle(draws) =>
      var e := Replay(s.engine, DrawCommands(draws));
      assert Step(s, ev) == Session(e, s.inflight);
      ReplayKeeps(s.engine, DrawCommands(draws));
    case Reset =>
      var e := ResetCube(s.engine);
      assert Step(s, ev) == Session(e, s.inflight);
      ResetRestoresInitial(s.engine);
      InitialConsistent();
      assert Consistent(e.cubes);
  }

  /** The last frame of the one turn in flight, whose capture is current, keeps the serial invariant. */
  lemma LastFrameSerial(s: Session, k: nat)
    requires SerialInvariant(s)
    ensures SerialInvariant(Step(s, LastFrame(k)))
  {
    if k < |s.inflight| {
      var e := FinishRotation(s.engine, s.inflight[k]);
      assert Step(s, LastFrame(k)) == Session(e, s.inflight[..k] + s.inflight[k + 1..]);
      FinishPreservesConsistent(s.engine, s.inflight[k]);
    }
  }

  /**
   As written, the registry stays a permutation of the grid, with
   consistent orientations, in every session that does not reset, shuffle
   or turn instantly while an animated turn is in flight.
   */
  lemma {:induction false} SerialRunConsistent(evs: seq<Event>)
    requires Serial(InitialSession(), evs)
    ensures SerialInvariant(Run(InitialSession(), evs))
    ensures IsGridPermutation(Positions(Run(InitialSession(), evs).engine.cubes))
    decreases |evs|
  {
    if |evs| == 0 {
      InitialConsistent();
    } else {
      var init := evs[..|evs| - 1];
      SerialPrefix(InitialSession(), evs);
      SerialRunConsistent(init);
      assert evs[..|evs| - 1] == init;
      StepSerial(Run(InitialSession(), init), evs[|evs| - 1]);
    }
  }

  /** A prefix of a serial session is serial. */
  lemma SerialPrefix(s: Session, evs: seq<Event>)
    requires Serial(s, evs) && |evs| > 0
    ensures Serial(s, evs[..|evs| - 1])
  {
    var init := evs[..|evs| - 1];
    forall j | 0 <= j < |init| && Bypasses(init[j])
      ensures |Run(s, init[..j]).inflight| == 0
    {
      assert init[..j] == evs[..j];
    }
  }

  /**
   The session of the finding: turn the right layer instantly, start an
   animated turn of the top layer, reset, and let the animation reach its
   last frame.
   */
  function StaleSession(): seq<Event>
  {
    [Instant(Command(X, 1, PlusQuarter)), Animate(Command(Y, 1, MinusQuarter), NoCallback), Reset, LastFrame(0)]
  }

  /**
   As written, that session, started from the solved cube with nothing in
   flight, ends with two cubelets in the same cell: the cubelet generated at
   (1, 0, -1) was captured on the top layer, was put back by the reset, and
   is then turned onto (1, 0, 1), where the cubelet generated there already
   sits.
   */
  lemma StaleFinishBreaksGrid(s0: Session)
    requires s0.engine.cubes == InitialCubes() && !s0.engine.isRotating && s0.inflight == []
    ensures
      var end := Run(s0, StaleSession()).engine.cubes;
      && |end| == Count
      && end[21].pos == Vec(1, 0, 1) && end[23].pos == Vec(1, 0, 1)
      && !IsGridPermutation(Positions(end))
  {
    var evs := StaleSession();
    RunFour(s0, evs[0], evs[1], evs[2], evs[3]);
    assert [evs[0], evs[1], evs[2], evs[3]] == evs;
    var s1 := Step(s0, evs[0]);
    StaleInstant(s0);
    var s2 := Step(s1, evs[1]);
    StaleCapture(s1);
    var s3 := Step(s2, evs[2]);
    StaleReset(s2);
    var s4 := Step(s3, evs[3]);
    StaleLastFrame(s3);
    var ps := Positions(s4.engine.cubes);
    assert ps[21] == ps[23];
  }

  /** The instant turn of the right layer lifts cubelet 21 onto the top layer and drops cubelet 23. */
  lemma StaleInstant(s0: Session)
    requires s0.engine.cubes == InitialCubes() && !s0.engine.isRotating && s0.inflight == []
    ensures
      var s1 := Step(s0, StaleSession()[0]);
      && |s1.engine.cubes| == Count && !s1.engine.isRotating && s1.inflight == []
      && s1.engine.cubes[21].pos == Vec(1, 1, 0) && s1.engine.cubes[23].pos == Vec(1, -1, 0)
  {
    assert s0.engine.cubes[21].pos == Home(21) == Vec(1, 0, -1);
    assert s0.engine.cubes[23].pos == Home(23) == Vec(1, 0, 1);
  }

  /** The animated turn of the top layer captures cubelet 21 but not cubelet 23. */
  lemma StaleCapture(s1: Session)
    requires |s1.engine.cubes| == Count && !s1.engine.isRotating && s1.inflight == []
    requires s1.engine.cubes[21].pos == Vec(1, 1, 0) && s1.engine.cubes[23].pos == Vec(1, -1, 0)
    ensures
      var s2 := Step(s1, StaleSession()[1]);
      && |s2.engine.cubes| == Count && |s2.inflight| == 1
      && s2.inflight[0].cmd == Command(Y, 1, MinusQuarter)
      && 21 in s2.inflight[0].selected && 23 !in s2.inflight[0].selected
  {
  }

  /** The reset puts both cubelets home and leaves the capture in flight. */
  lemma StaleReset(s2: Session)
    requires |s2.engine.cubes| == Count && |s2.inflight| == 1
    ensures
      var s3 := Step(s2, StaleSession()[2]);
      && |s3.engine.cubes| == Count && s3.inflight == s2.inflight
      && s3.engine.cubes[21].pos == Vec(1, 0, -1) && s3.engine.cubes[23].pos == Vec(1, 0, 1)
  {
    assert Home(21) == Vec(1, 0, -1) && Home(23) == Vec(1, 0, 1);
  }

  /** The last frame turns cubelet 21 onto the cell of cubelet 23. */
  lemma StaleLastFrame(s3: Session)
    requires |s3.engine.cubes| == Count && |s3.inflight| == 1
    requires s3.inflight[0].cmd == Command(Y, 1, MinusQuarter)
    requires 21 in s3.inflight[0].selected && 23 !in s3.inflight[0].selected
    requires s3.engine.cubes[21].pos == Vec(1, 0, -1) && s3.engine.cubes[23].pos == Vec(1, 0, 1)
    ensures
      var s4 := Step(s3, StaleSession()[3]);
      && |s4.engine.cubes| == Count
      && s4.engine.cubes[21].pos == Vec(1, 0, 1) && s4.engine.cubes[23].pos == Vec(1, 0, 1)
  {
  }

  /** Running one more event is one more step. */
  lemma RunSnoc(s: Session, evs: seq<Event>, ev: Event)
    ensures Run(s, evs + [ev]) == Step(Run(s, evs), ev)
  {
    assert (evs + [ev])[..|evs|] == evs;
  }

  /** Four events, one at a time. */
  lemma RunFour(s0: Session, a: Event, b: Event, c: Event, d: Event)
    ensures Run(s0, [a, b, c, d]) == Step(Step(Step(Step(s0, a), b), c), d)
  {
    var e1: seq<Event> := [a];
    var e2 := e1 + [b];
    var e3 := e2 + [c];
    var e4 := e3 + [d];
    assert e4 == [a, b, c, d];
    assert Run(s0, e1) == Step(s0, a) by { RunSnoc(s0, [], a); assert [] + [a] == e1; }
    RunSnoc(s0, e1, b);
    RunSnoc(s0, e2, c);
    RunSnoc(s0, e3, d);
  }

  /** A turn in flight, tagged with the reset epoch in which it started. */
  datatype Tagged = Tagged(pending: Pending, epoch: nat)

  /**
   A session under the corrected engine: every reset starts a new epoch,
   and the turns in flight remember the epoch they started in.
   */
  datatype CheckedSession = CheckedSession(engine: Engine, inflight: seq<Tagged>, epoch: nat)

  function InitialChecked(): CheckedSession
  {
    CheckedSession(InitialEngine(), [], 0)
  }

  /** The captures of the turns in flight, without their tags. */
  function Pendings(ts: seq<Tagged>): (ps: seq<Pending>)
    ensures |ps| == |ts|
    ensures forall i :: 0 <= i < |ts| ==> ps[i] == ts[i].pending
  {
    seq(|ts|, i requires 0 <= i < |ts| => ts[i].pending)
  }

  /** The corrected session seen as a plain one: the tags and the epoch forgotten. */
  function Erase(c: CheckedSession): Session
  {
    Session(c.engine, Pendings(c.inflight))
  }

  /**
   The corrected last frame. A turn started before the latest reset was
   abandoned by it: its frame changes nothing, fires nothing and leaves the
   flag to whatever turn holds it now. A turn of the current epoch holds the
   flag and lowers it; it turns its group only if the group is still its
   layer (an instant turn or a shuffle may have moved it), and otherwise is
   dropped without firing its callback.
   */
  function FinishChecked(e: Engine, p: Pending, live: bool): (r: Engine)
    ensures !live ==> r == e
    ensures live && CaptureIsCurrent(e, p) ==> r == FinishRotation(e, p)
    ensures live && !CaptureIsCurrent(e, p) ==> r.cubes == e.cubes && r.fired == e.fired && !r.isRotating
  {
    if !live then e
    else if CaptureIsCurrent(e, p) then FinishRotation(e, p)
    else e.(isRotating := false)
  }

  /** The corrected last frame keeps any consistent registry consistent. */
  lemma FinishCheckedConsistent(e: Engine, p: Pending, live: bool)
    requires Consistent(e.cubes)
    ensures Consistent(FinishChecked(e, p, live).cubes)
  {
    if live && CaptureIsCurrent(e, p) {
      FinishPreservesConsistent(e, p);
    }
  }

  /** One event under the corrected engine. */
  function StepChecked(c: CheckedSession, ev: Event): (r: CheckedSession)
    ensures ev.LastFrame? && ev.k < |c.inflight| && c.inflight[ev.k].epoch != c.epoch ==>
      r.engine == c.engine
    ensures ev.Reset? ==> r.epoch == c.epoch + 1
    ensures !ev.Reset? ==> r.epoch == c.epoch
  {
    match ev
    case Animate(cmd, callback) =>
      var (e, p) := StartRotation(c.engine, cmd, callback);
      CheckedSession(e, if p.Some? then c.inflight + [Tagged(p.value, c.epoch)] else c.inflight, c.epoch)
    case LastFrame(k) =>
      if k < |c.inflight| then
        var t := c.inflight[k];
        CheckedSession(FinishChecked(c.engine, t.pending, t.epoch == c.epoch),
                       c.inflight[..k] + c.inflight[k + 1..], c.epoch)
      else c
    case Instant(cmd) => CheckedSession(RotateLayerInstant(c.engine, cmd), c.inflight, c.epoch)
    case Shuffle(draws) => CheckedSession(Replay(c.engine, DrawCommands(draws)), c.inflight, c.epoch)
    case Reset => CheckedSession(ResetCube(c.engine), c.inflight, c.epoch + 1)
  }

  /**
   A reset abandons every turn in flight: the last frame of any of them
   afterwards leaves the engine exactly as the reset left it, fires no
   callback and does not touch the flag.
   */
  lemma ResetAbandonsTurns(c: CheckedSession, k: nat)
    requires k < |c.inflight| && c.inflight[k].epoch <= c.epoch
    ensures
      var r := StepChecked(c, Reset);
      StepChecked(r, LastFrame(k)).engine == r.engine
  {
    var r := StepChecked(c, Reset);
    assert r.inflight == c.inflight && r.epoch == c.epoch + 1;
    assert r.inflight[k].epoch != r.epoch;
  }

  function RunChecked(c: CheckedSession, evs: seq<Event>): CheckedSession
    decreases |evs|
  {
    if |evs| == 0 then c else StepChecked(RunChecked(c, evs[..|evs| - 1]), evs[|evs| - 1])
  }

  /** How many of the turns in flight started in epoch `epoch`. */
  function LiveCount(ts: seq<Tagged>, epoch: nat): nat
    decreases |ts|
  {
    if |ts| == 0 then 0
    else LiveCount(ts[..|ts| - 1], epoch) + (if ts[|ts| - 1].epoch == epoch then 1 else 0)
  }

  lemma {:induction false} LiveCountAppend(a: seq<Tagged>, b: seq<Tagged>, epoch: nat)
    ensures LiveCount(a + b, epoch) == LiveCount(a, epoch) + LiveCount(b, epoch)
    decreases |b|
  {
    if |b| > 0 {
      assert (a + b)[..|a + b| - 1] == a + b[..|b| - 1];
      LiveCountAppend(a, b[..|b| - 1], epoch);
    } else {
      assert a + b == a;
    }
  }

  /** Retiring the turn at `k` lowers the count by that turn's share. */
  lemma LiveCountRemove(ts: seq<Tagged>, k: int, epoch: nat)
    requires 0 <= k < |ts|
    ensures LiveCount(ts, epoch) ==
      LiveCount(ts[..k] + ts[k + 1..], epoch) + (if ts[k].epoch == epoch then 1 else 0)
  {
    assert ts == ts[..k] + [ts[k]] + ts[k + 1..];
    LiveCountAppend(ts[..k] + [ts[k]], ts[k + 1..], epoch);
    LiveCountAppend(ts[..k], [ts[k]], epoch);
    LiveCountAppend(ts[..k], ts[k + 1..], epoch);
    assert [ts[k]][..0] == [];
  }

  /** Turns that all started in earlier epochs leave none live. */
  lemma {:induction false} LiveCountOld(ts: seq<Tagged>, epoch: nat)
    requires forall i :: 0 <= i < |ts| ==> ts[i].epoch < epoch
    ensures LiveCount(ts, epoch) == 0
    decreases |ts|
  {
    if |ts| > 0 {
      LiveCountOld(ts[..|ts| - 1], epoch);
    }
  }

  /**
   What every corrected session keeps: the registry is consistent, no turn
   claims a future epoch, and the flag is up exactly when one turn of the
   current epoch is in flight, never more than one.
   */
  ghost predicate CheckedInvariant(c: CheckedSession)
  {
    && Consistent(c.engine.cubes)
    && (forall i :: 0 <= i < |c.inflight| ==> c.inflight[i].epoch <= c.epoch)
    && LiveCount(c.inflight, c.epoch) <= 1
    && (c.engine.isRotating <==> LiveCount(c.inflight, c.epoch) == 1)
  }

  lemma StepCheckedInvariant(c: CheckedSession, ev: Event)
    requires CheckedInvariant(c)
    ensures CheckedInvariant(StepChecked(c, ev))
  {
    match ev
    case Animate(cmd, callback) => AnimateChecked(c, cmd, callback);
    case LastFrame(k) => LastFrameChecked(c, k);
    case Instant(cmd) => InstantChecked(c, cmd);
    case Shuffle(draws) => ShuffleChecked(c, draws);
    case Reset => ResetChecked(c);
  }

  /** A start adds a live turn only when the flag was down, and raises it. */
  lemma AnimateChecked(c: CheckedSession, cmd: Command, callback: CallbackId)
    requires CheckedInvariant(c)
    ensures CheckedInvariant(StepChecked(c, Animate(cmd, callback)))
  {
    if !c.engine.isRotating {
      var (e, p) := StartRotation(c.engine, cmd, callback);
      LiveCountAppend(c.inflight, [Tagged(p.value, c.epoch)], c.epoch);
      assert [Tagged(p.value, c.epoch)][..0] == [];
    }
  }

  /** A last frame retires its turn; a live one takes the flag down with it. */
  lemma LastFrameChecked(c: CheckedSession, k: nat)
    requires CheckedInvariant(c)
    ensures CheckedInvariant(StepChecked(c, LastFrame(k)))
  {
    if k < |c.inflight| {
      var t := c.inflight[k];
      var rest := c.inflight[..k] + c.inflight[k + 1..];
      LiveCountRemove(c.inflight, k, c.epoch);
      FinishCheckedConsistent(c.engine, t.pending, t.epoch == c.epoch);
      assert StepChecked(c, LastFrame(k)) ==
        CheckedSession(FinishChecked(c.engine, t.pending, t.epoch == c.epoch), rest, c.epoch);
      assert forall i :: 0 <= i < |rest| ==> rest[i] in c.inflight;
    }
  }

  /** A call that keeps the turns in flight, the epoch and the flag keeps the invariant if it keeps the registry consistent. */
  lemma CheckedFrame(c: CheckedSession, e: Engine)
    requires CheckedInvariant(c)
    requires Consistent(e.cubes) && e.isRotating == c.engine.isRotating
    ensures CheckedInvariant(CheckedSession(e, c.inflight, c.epoch))
  {
  }

  lemma InstantChecked(c: CheckedSession, cmd: Command)
    requires CheckedInvariant(c)
    ensures CheckedInvariant(StepChecked(c, Instant(cmd)))
  {
    var e := RotateLayerInstant(c.engine, cmd);
    assert StepChecked(c, Instant(cmd)) == CheckedSession(e, c.inflight, c.epoch);
    RotateLayerConsistent(c.engine.cubes, cmd.axis, cmd.value, cmd.angle);
    CheckedFrame(c, e);
  }

  lemma ShuffleChecked(c: CheckedSession, draws: seq<Draw>)
    requires CheckedInvariant(c)
    ensures CheckedInvariant(StepChecked(c, Shuffle(draws)))
  {
    var e := Replay(c.engine, DrawCommands(draws));
    assert StepChecked(c, Shuffle(draws)) == CheckedSession(e, c.inflight, c.epoch);
    ReplayKeeps(c.engine, DrawCommands(draws));
    CheckedFrame(c, e);
  }

  /** A reset starts an epoch in which no turn in flight is live, and lowers the flag. */
  lemma ResetChecked(c: CheckedSession)
    requires CheckedInvariant(c)
    ensures CheckedInvariant(StepChecked(c, Reset))
  {
    var e := ResetCube(c.engine);
    assert StepChecked(c, Reset) == CheckedSession(e, c.inflight, c.epoch + 1);
    ResetRestoresInitial(c.engine);
    InitialConsistent();
    assert Consistent(e.cubes);
    LiveCountOld(c.inflight, c.epoch + 1);
  }

  /**
   Under the corrected engine, every session whatsoever keeps the registry
   a permutation of the grid with consistent orientations, and the busy
   flag is up exactly when one live turn is in flight.
   */
  lemma {:induction false} RunCheckedConsistent(evs: seq<Event>)
    ensures CheckedInvariant(RunChecked(InitialChecked(), evs))
    ensures IsGridPermutation(Positions(RunChecked(InitialChecked(), evs).engine.cubes))
    decreases |evs|
  {
    if |evs| == 0 {
      InitialConsistent();
    } else {
      RunCheckedConsistent(evs[..|evs| - 1]);
      StepCheckedInvariant(RunChecked(InitialChecked(), evs[..|evs| - 1]), evs[|evs| - 1]);
    }
  }

  /**
   The correction changes nothing in a serial session: no reset happens
   with a turn in flight, so every turn is live, and every last frame finds
   its capture current.
   */
  lemma {:induction false} CheckedAgreesWhenSerial(evs: seq<Event>)
    requires Serial(InitialSession(), evs)
    ensures Erase(RunChecked(InitialChecked(), evs)) == Run(InitialSession(), evs)
    ensures
      var c := RunChecked(InitialChecked(), evs);
      forall i :: 0 <= i < |c.inflight| ==> c.inflight[i].epoch == c.epoch
    decreases |evs|
  {
    if |evs| > 0 {
      var init := evs[..|evs| - 1];
      SerialPrefix(InitialSession(), evs);
      CheckedAgreesWhenSerial(init);
      SerialRunConsistent(init);
      StepCheckedAgrees(RunChecked(InitialChecked(), init), evs[|evs| - 1]);
    }
  }

  /**
   One serial step: when every turn in flight is live, at most one is in
   flight with a current capture, and no bypassing call comes while one is,
   the corrected step does what the as-written step does.
   */
  lemma StepCheckedAgrees(c: CheckedSession, ev: Event)
    requires SerialInvariant(Erase(c))
    requires forall i :: 0 <= i < |c.inflight| ==> c.inflight[i].epoch == c.epoch
    requires Bypasses(ev) ==> |c.inflight| == 0
    ensures Erase(StepChecked(c, ev)) == Step(Erase(c), ev)
    ensures
      var r := StepChecked(c, ev);
      forall i :: 0 <= i < |r.inflight| ==> r.inflight[i].epoch == r.epoch
  {
    var s := Erase(c);
    match ev
    case Animate(cmd, callback) =>
      var (e, p) := StartRotation(c.engine, cmd, callback);
      if p.Some? {
        assert Pendings(c.inflight + [Tagged(p.value, c.epoch)]) == s.inflight + [p.value];
      }
    case LastFrame(k) =>
      if k < |c.inflight| {
        assert k == 0;
        assert Pendings(c.inflight[..k] + c.inflight[k + 1..]) == s.inflight[..k] + s.inflight[k + 1..];
      }
    case Instant(cmd) =>
    case Shuffle(draws) =>
    case Reset =>
  }
}
