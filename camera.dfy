/**
 * The keyboard-driven camera of main.cpp: the global camera position, the
 * fixed axis vectors and speed, and `key_callback`, which moves the
 * position by one step per arrow-key event.
 *
 * `Delta` is the reference definition: the displacement one event causes,
 * written as a table over (key, action, mods). `FreeCamera.HandleKey` is the
 * callback itself, six independent `if` blocks run in order, proved to add
 * exactly `Delta` to the position. `Replay` folds a sequence of events.
 */
module Camera {
  import opened Geometry
  import opened Glfw

  // The camera globals. None of them is ever written after start-up, so
  // they are constants here; only the position is state.
  const InitialPos := Vec3(0.0, 0.0, 3.0)
  const CameraFront := Vec3(0.0, 0.0, 1.0)
  const CameraBack := Vec3(0.0, 0.0, -1.0)
  const CameraUp := Vec3(0.0, 1.0, 0.0)
  const CameraDown := Vec3(0.0, -1.0, 0.0)
  const CameraLeft := Vec3(-1.0, 0.0, 0.0)
  const CameraRight := Vec3(1.0, 0.0, 0.0)
  const CameraSpeed: real := 0.1

  /** One key event as the windowing library reports it to the callback. */
  datatype KeyEvent = KeyEvent(key: int, scancode: int, action: int, mods: int)

  /** A displacement of exactly `CameraSpeed` along exactly one world axis. */
  predicate IsAxisStep(d: Vec3)
  {
    || (Abs(d.x) == CameraSpeed && d.y == 0.0 && d.z == 0.0)
    || (d.x == 0.0 && Abs(d.y) == CameraSpeed && d.z == 0.0)
    || (d.x == 0.0 && d.y == 0.0 && Abs(d.z) == CameraSpeed)
  }

  /**
   * The displacement of the camera caused by one event. The modifier test
   * is exact equality with Shift; Shift+Left and Shift+Right only announce
   * a rotation; Shift+Up and Shift+Down move along the z axis.
   */
  function Delta(key: int, action: int, mods: int): Vec3
  {
    if action == RELEASE then Origin
    else if key == KEY_RIGHT then
      (if mods == MOD_SHIFT then Origin else Vec3(CameraSpeed, 0.0, 0.0))
    else if key == KEY_LEFT then
      (if mods == MOD_SHIFT then Origin else Vec3(-CameraSpeed, 0.0, 0.0))
    else if key == KEY_UP then
      (if mods == MOD_SHIFT then Vec3(0.0, 0.0, -CameraSpeed) else Vec3(0.0, CameraSpeed, 0.0))
    else if key == KEY_DOWN then
      (if mods == MOD_SHIFT then Vec3(0.0, 0.0, CameraSpeed) else Vec3(0.0, -CameraSpeed, 0.0))
    else Origin
  }

  /**
   * Every event moves the camera by nothing or by one step of `cameraSpeed`
   * along one world axis: x for Left/Right, y for unshifted Up/Down, z for
   * Shift+Up/Down.
   */
  lemma DeltaIsAxisStep(key: int, action: int, mods: int)
    ensures var d := Delta(key, action, mods);
      && (d == Origin || IsAxisStep(d))
      && Manhattan(d) <= CameraSpeed
      && (d.x != 0.0 ==> key == KEY_LEFT || key == KEY_RIGHT)
      && (d.y != 0.0 ==> (key == KEY_UP || key == KEY_DOWN) && mods != MOD_SHIFT)
      && (d.z != 0.0 ==> (key == KEY_UP || key == KEY_DOWN) && mods == MOD_SHIFT)
  {
  }

  /** Each `cameraSpeed * axis` product the callback adds is one axis step. */
  lemma SpeedTimesAxis()
    ensures Scale(CameraSpeed, CameraRight) == Vec3(CameraSpeed, 0.0, 0.0)
    ensures Scale(CameraSpeed, CameraLeft) == Vec3(-CameraSpeed, 0.0, 0.0)
    ensures Scale(CameraSpeed, CameraUp) == Vec3(0.0, CameraSpeed, 0.0)
    ensures Scale(CameraSpeed, CameraDown) == Vec3(0.0, -CameraSpeed, 0.0)
    ensures Scale(CameraSpeed, CameraFront) == Vec3(0.0, 0.0, CameraSpeed)
    ensures Scale(CameraSpeed, CameraBack) == Vec3(0.0, 0.0, -CameraSpeed)
  {
  }

  /** The centre `glm::lookAt` is given each frame: one unit along `cameraBack`. */
  function LookAtCenter(eye: Vec3): (c: Vec3)
    ensures Sub(c, eye) == CameraBack
    ensures c.x == eye.x && c.y == eye.y && c.z == eye.z - 1.0
  {
    Add(eye, CameraBack)
  }

  /** The position after the events are handled one by one, in order. */
  function Replay(p: Vec3, events: seq<KeyEvent>): Vec3
    decreases events
  {
    if events == [] then p
    else Replay(Add(p, Delta(events[0].key, events[0].action, events[0].mods)), events[1..])
  }

  /** The sum of the displacements of the events. */
  function NetDelta(events: seq<KeyEvent>): Vec3
  {
    if events == [] then Origin
    else Add(Delta(events[0].key, events[0].action, events[0].mods), NetDelta(events[1..]))
  }

  /** The camera state `key_callback` updates in place. */
  class FreeCamera {
    var pos: Vec3

    constructor ()
      ensures pos == InitialPos
    {
      pos := InitialPos;
    }

    /**
     * `key_callback`: six independent blocks, in the order of the source.
     * The Shift branches of the first four only print (the Left/Right ones
     * also recompute `Gaze`, and Shift+Left's move is commented out); the last two move only under Shift. The
     * scancode is ignored.
     */
    method HandleKey(key: int, scancode: int, action: int, mods: int)
      modifies this`pos
      ensures pos == Add(old(pos), Delta(key, action, mods))
    {
      SpeedTimesAxis();
      if key == KEY_RIGHT && action != RELEASE {
        if mods == MOD_SHIFT {
          // rotation announced, nothing moves
        } else {
          pos := Add(pos, Scale(CameraSpeed, CameraRight));
        }
      }
      if key == KEY_LEFT && action != RELEASE {
        if mods == MOD_SHIFT {
          // rotation announced, nothing moves
        } else {
          pos := Add(pos, Scale(CameraSpeed, CameraLeft));
        }
      }
      if key == KEY_UP && action != RELEASE {
        if mods == MOD_SHIFT {
          // rotation announced, nothing moves
        } else {
          pos := Add(pos, Scale(CameraSpeed, CameraUp));
        }
      }
      if key == KEY_DOWN && action != RELEASE {
        if mods == MOD_SHIFT {
          // rotation announced, nothing moves
        } else {
          pos := Add(pos, Scale(CameraSpeed, CameraDown));
        }
      }
      if key == KEY_DOWN && action != RELEASE {
        if mods == MOD_SHIFT {
          pos := Add(pos, Scale(CameraSpeed, CameraFront));
        }
      }
      if key == KEY_UP && action != RELEASE {
        if mods == MOD_SHIFT {
          pos := Add(pos, Scale(CameraSpeed, CameraBack));
        }
      }
    }

    /** The event pump: every pending key event goes to the callback, in order. */
    method PollEvents(events: seq<KeyEvent>)
      modifies this`pos
      ensures pos == Replay(old(pos), events)
      ensures pos == Add(old(pos), NetDelta(events))
    {
      var i := 0;
      while i < |events|
        invariant 0 <= i <= |events|
        invariant Replay(old(pos), events) == Replay(pos, events[i..])
      {
        var e := events[i];
        assert events[i..][1..] == events[i + 1..];
        HandleKey(e.key, e.scancode, e.action, e.mods);
        i := i + 1;
      }
      assert events[i..] == [];
      ReplayIsNetDelta(old(pos), events);
    }
  }

  // ---------------------------------------------------------------------
  // One event

  /** A release changes nothing, whatever the key and modifiers. */
  lemma ReleaseLeavesPosition(key: int, mods: int)
    ensures Delta(key, RELEASE, mods) == Origin
  {
  }

  /** Press and repeat have the same effect. */
  lemma RepeatActsAsPress(key: int, mods: int)
    ensures Delta(key, REPEAT, mods) == Delta(key, PRESS, mods)
  {
  }

  /** Without exactly Shift, each arrow key moves one step along its own axis. */
  lemma ArrowKeysMove(action: int, mods: int)
    requires action != RELEASE && mods != MOD_SHIFT
    ensures Delta(KEY_RIGHT, action, mods) == Vec3(0.1, 0.0, 0.0)
    ensures Delta(KEY_LEFT, action, mods) == Vec3(-0.1, 0.0, 0.0)
    ensures Delta(KEY_UP, action, mods) == Vec3(0.0, 0.1, 0.0)
    ensures Delta(KEY_DOWN, action, mods) == Vec3(0.0, -0.1, 0.0)
  {
  }

  /** Shift+Right and Shift+Left never move the camera. */
  lemma ShiftLeftRightStayPut(action: int)
    ensures Delta(KEY_RIGHT, action, MOD_SHIFT) == Origin
    ensures Delta(KEY_LEFT, action, MOD_SHIFT) == Origin
  {
  }

  /** Shift+Up moves along `cameraBack`, Shift+Down along `cameraFront`. */
  lemma ShiftUpDownMoveAlongZ(action: int)
    requires action != RELEASE
    ensures Delta(KEY_UP, action, MOD_SHIFT) == Scale(CameraSpeed, CameraBack)
    ensures Delta(KEY_UP, action, MOD_SHIFT) == Vec3(0.0, 0.0, -0.1)
    ensures Delta(KEY_DOWN, action, MOD_SHIFT) == Scale(CameraSpeed, CameraFront)
    ensures Delta(KEY_DOWN, action, MOD_SHIFT) == Vec3(0.0, 0.0, 0.1)
  {
    SpeedTimesAxis();
  }

  /**
   * Any modifier value other than exactly Shift behaves like no modifier,
   * Shift held together with Control included.
   */
  lemma ShiftTestIsExact(key: int, action: int, mods: int)
    requires mods != MOD_SHIFT
    ensures Delta(key, action, mods) == Delta(key, action, 0)
    ensures action != RELEASE ==> Delta(KEY_UP, action, MOD_SHIFT_CONTROL) == Vec3(0.0, 0.1, 0.0)
    ensures action != RELEASE ==> Delta(KEY_DOWN, action, MOD_SHIFT_CONTROL) == Vec3(0.0, -0.1, 0.0)
  {
  }

  /** Keys other than the four arrows change nothing. */
  lemma OtherKeysIgnored(key: int, action: int, mods: int)
    requires !IsArrowKey(key)
    ensures Delta(key, action, mods) == Origin
  {
  }

  /** Exactly which events move the camera. */
  lemma MovesIff(key: int, action: int, mods: int)
    ensures Delta(key, action, mods) != Origin <==>
      action != RELEASE && (key == KEY_UP || key == KEY_DOWN || (IsArrowKey(key) && mods != MOD_SHIFT))
  {
  }

  /**
   * The view looks along `cameraBack`, so Shift+Up (announced as "Back")
   * moves the camera towards what it looks at, and Shift+Down (announced as
   * "Forward") moves it away.
   */
  lemma ShiftDollyAgainstLabels(p: Vec3, action: int)
    requires action != RELEASE
    ensures Delta(KEY_UP, action, MOD_SHIFT) == Scale(CameraSpeed, Sub(LookAtCenter(p), p))
    ensures Delta(KEY_DOWN, action, MOD_SHIFT) == Scale(-CameraSpeed, Sub(LookAtCenter(p), p))
  {
    assert Sub(LookAtCenter(p), p) == CameraBack;
    SpeedTimesAxis();
  }

  // ---------------------------------------------------------------------
  // Sequences of events

  /** Handling events one by one adds up their displacements. */
  lemma {:induction false} ReplayIsNetDelta(p: Vec3, events: seq<KeyEvent>)
    ensures Replay(p, events) == Add(p, NetDelta(events))
    decreases events
  {
    if events != [] {
      var e := events[0];
      ReplayIsNetDelta(Add(p, Delta(e.key, e.action, e.mods)), events[1..]);
    }
  }

  /** Handling `a` then `b` is handling `a + b`. */
  lemma {:induction false} ReplayAppend(p: Vec3, a: seq<KeyEvent>, b: seq<KeyEvent>)
    ensures Replay(p, a + b) == Replay(Replay(p, a), b)
    decreases a
  {
    if a != [] {
      var e := a[0];
      assert (a + b)[1..] == a[1..] + b;
      ReplayAppend(Add(p, Delta(e.key, e.action, e.mods)), a[1..], b);
    } else {
      assert a + b == b;
    }
  }

  lemma {:induction false} NetDeltaAppend(a: seq<KeyEvent>, b: seq<KeyEvent>)
    ensures NetDelta(a + b) == Add(NetDelta(a), NetDelta(b))
  {
    if a != [] {
      assert (a + b)[1..] == a[1..] + b;
      NetDeltaAppend(a[1..], b);
    } else {
      assert a + b == b;
    }
  }

  /** Taking one event out of a sequence takes out its displacement. */
  lemma NetDeltaSplit(b: seq<KeyEvent>, i: nat)
    requires i < |b|
    ensures NetDelta(b) == Add(Delta(b[i].key, b[i].action, b[i].mods), NetDelta(b[..i] + b[i + 1..]))
  {
    var e := b[i];
    assert b == b[..i] + ([e] + b[i + 1..]);
    NetDeltaAppend(b[..i], [e] + b[i + 1..]);
    assert ([e] + b[i + 1..])[1..] == b[i + 1..];
    NetDeltaAppend(b[..i], b[i + 1..]);
  }

  /** The net displacement depends only on which events occur, not their order. */
  lemma {:induction false} NetDeltaPermutation(a: seq<KeyEvent>, b: seq<KeyEvent>)
    requires multiset(a) == multiset(b)
    ensures NetDelta(a) == NetDelta(b)
    decreases |a|
  {
    if a == [] {
      assert |b| == |multiset(b)| == 0;
    } else {
      var e := a[0];
      assert e in multiset(b);
      var i :| 0 <= i < |b| && b[i] == e;
      var rest := b[..i] + b[i + 1..];
      assert a == [e] + a[1..];
      assert b == b[..i] + [e] + b[i + 1..];
      assert multiset(a[1..]) == multiset(b) - multiset{e} == multiset(rest);
      NetDeltaPermutation(a[1..], rest);
      NetDeltaSplit(b, i);
    }
  }

  /** The order in which events arrive does not matter. */
  lemma OrderDoesNotMatter(p: Vec3, a: seq<KeyEvent>, b: seq<KeyEvent>)
    requires multiset(a) == multiset(b)
    ensures Replay(p, a) == Replay(p, b)
  {
    ReplayIsNetDelta(p, a);
    ReplayIsNetDelta(p, b);
    NetDeltaPermutation(a, b);
  }

  /** A sequence of releases leaves the camera where it was. */
  lemma {:induction false} ReleasesLeavePosition(p: Vec3, events: seq<KeyEvent>)
    requires forall i :: 0 <= i < |events| ==> events[i].action == RELEASE
    ensures Replay(p, events) == p
  {
    if events != [] {
      ReleasesLeavePosition(p, events[1..]);
    }
  }

  /** After n events the camera is at most n steps (in L1 distance) from where it was. */
  lemma {:induction false} DisplacementBound(p: Vec3, events: seq<KeyEvent>)
    ensures Manhattan(Sub(Replay(p, events), p)) <= CameraSpeed * (|events| as real)
  {
    ReplayIsNetDelta(p, events);
    NetDeltaBound(events);
    assert Sub(Replay(p, events), p) == NetDelta(events);
  }

  lemma {:induction false} NetDeltaBound(events: seq<KeyEvent>)
    ensures Manhattan(NetDelta(events)) <= CameraSpeed * (|events| as real)
  {
    if events != [] {
      var e := events[0];
      DeltaIsAxisStep(e.key, e.action, e.mods);
      NetDeltaBound(events[1..]);
    }
  }

  /** One Left press from the initial position, then its release. */
  lemma LeftPressThenRelease()
    ensures Replay(InitialPos, [KeyEvent(KEY_LEFT, 0, PRESS, 0)]) == Vec3(-0.1, 0.0, 3.0)
    ensures Replay(InitialPos, [KeyEvent(KEY_LEFT, 0, PRESS, 0), KeyEvent(KEY_LEFT, 0, RELEASE, 0)]) == Vec3(-0.1, 0.0, 3.0)
  {
    var press, release := KeyEvent(KEY_LEFT, 0, PRESS, 0), KeyEvent(KEY_LEFT, 0, RELEASE, 0);
    var moved := Vec3(-0.1, 0.0, 3.0);
    assert Delta(press.key, press.action, press.mods) == Vec3(-0.1, 0.0, 0.0);
    assert Add(InitialPos, Delta(press.key, press.action, press.mods)) == moved;
    assert [press][1..] == [];
    assert [press, release][1..] == [release];
    assert Delta(release.key, release.action, release.mods) == Origin;
    assert Replay(moved, [release]) == moved by {
      assert Add(moved, Origin) == moved;
      assert [release][1..] == [];
    }
  }
}
