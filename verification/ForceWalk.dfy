/** Movement under force (sources/core/objects/PhysicsEngine.cpp:22-83, objects/movable/Movable.cpp:47-97): each tick an
    object steps in the main direction of its force or the secondary one, as an error term decides.
 */
module ForceWalk {
  import opened Arithmetic
  import opened CppInt
  import opened KvGlobals

  const FORCE_UNIT := 100
  const ERROR_SCALE := 2048

  // ----- the physics engine's two functions

  /** Force, the two directions it has been split into, and the error term. */
  datatype Push = Push(force: Vector, main: Dir, secondary: Dir, error: int, errorPerMain: int)

  /** ApplyForce: the directions and the slope of the new force; the error survives unless the secondary direction changes. */
  function Pushed(p: Push, addition: Vector): Push {
    var force := Plus(p.force, addition);
    var h, v := if force.x > 0 then EAST else WEST, if force.y > 0 then SOUTH else NORTH;
    var main, secondary := if Abs(force.x) < Abs(force.y) then v else h, if Abs(force.x) < Abs(force.y) then h else v;
    var low, high := if Abs(force.x) < Abs(force.y) then Abs(force.x) else Abs(force.y), if Abs(force.x) < Abs(force.y) then Abs(force.y) else Abs(force.x);
    Push(force, main, secondary, if p.secondary != secondary then 0 else p.error, low * ERROR_SCALE / (if high < 1 then 1 else high))
  }

  datatype Step = Step(dir: Dir) | Stay

  /** ProcessForceTick: the step of this tick, and the error after it. */
  function ForceTick(p: Push): (Step, int) {
    var swap := p.error >= ERROR_SCALE / 2;
    var wanted, other := if swap then p.secondary else p.main, if swap then p.main else p.secondary;
    if ProjectionToDir(p.force, wanted) >= FORCE_UNIT then (Step(wanted), if swap then p.error - ERROR_SCALE else p.error + p.errorPerMain)
    else if ProjectionToDir(p.force, other) >= FORCE_UNIT then (Step(other), 0)
    else (Stay, 0)
  }

  method ProcessForceTick(force: Vector, main: Dir, secondary: Dir, error: int, errorPerMain: int) returns (step: Step, newError: int)
    ensures (step, newError) == ForceTick(Push(force, main, secondary, error, errorPerMain))
  {
    var retval, other := main, secondary;
    newError := error;
    if newError >= ERROR_SCALE / 2 {
      retval, other := other, retval;
      newError := newError - ERROR_SCALE;
    } else {
      newError := newError + errorPerMain;
    }
    if ProjectionToDir(force, retval) < FORCE_UNIT {
      newError := 0;
      if ProjectionToDir(force, other) >= FORCE_UNIT {
        retval, other := other, retval;
      } else {
        return Stay, newError;
      }
    }
    return Step(retval), newError;
  }

  // ----- the object

  /** What trying to move gave. */
  datatype Outcome = Moved | Failed

  class Movable {
    var force: Vector
    var mainForceDirection: Dir
    var secondaryForceDirection: Dir
    var forceError: int
    var forceErrorPerMain: int
    var direction: Dir
    var position: Vector
    /** Whether the physics engine has been told. */
    var added: bool

    ghost function View(): Push
      reads this
    {
      Push(force, mainForceDirection, secondaryForceDirection, forceError, forceErrorPerMain)
    }

    constructor (at: Vector)
      ensures View() == Push(ZERO, SOUTH, SOUTH, 0, 0) && position == at && direction == SOUTH && !added
    {
      force := ZERO;
      mainForceDirection, secondaryForceDirection := SOUTH, SOUTH;
      forceError, forceErrorPerMain := 0, 0;
      direction := SOUTH;
      position := at;
      added := false;
    }

    method ApplyForce(addition: Vector)
      modifies this
      ensures position == old(position) && direction == old(direction)
      ensures View() == if addition == ZERO then old(View()) else Pushed(old(View()), addition)
      ensures added == (old(added) || (addition != ZERO && old(force) == ZERO))
    {
      if addition == ZERO { return; }
      if force == ZERO { added := true; }
      force := Plus(force, addition);
      var oldSecondary := secondaryForceDirection;
      mainForceDirection := if force.x > 0 then EAST else WEST;
      secondaryForceDirection := if force.y > 0 then SOUTH else NORTH;
      if Abs(force.x) < Abs(force.y) {
        mainForceDirection, secondaryForceDirection := secondaryForceDirection, mainForceDirection;
      }
      if oldSecondary != secondaryForceDirection { forceError := 0; }
      var x, y := Abs(force.x), Abs(force.y);
      var low, high := if x < y then x else y, if x < y then y else x;
      forceErrorPerMain := low * ERROR_SCALE / (if high < 1 then 1 else high);
    }

    /** One tick under force. Whether the step succeeds, and whether there is friction, is up to the world. */
    method ProcessForce(outcome: Outcome, friction: bool)
      modifies this
      ensures var n := Next(old(View()), outcome, friction);
        View() == n.0 && position == Plus(old(position), n.1)
    {
      if force == ZERO { return; }
      var step, error := ProcessForceTick(force, mainForceDirection, secondaryForceDirection, forceError, forceErrorPerMain);
      forceError := error;
      if step.Stay? { return; }
      direction := step.dir;
      if outcome.Failed? {
        forceError := 0;
        force := ZERO;
        return;
      }
      position := Plus(position, DirToVDir(step.dir));
      if friction {
        force := Minus(force, Times(DirToVDir(step.dir), FORCE_UNIT));
      }
    }
  }

  /** A tick: the push after it, and the move made. */
  function Next(p: Push, outcome: Outcome, friction: bool): (Push, Vector) {
    if p.force == ZERO then (p, ZERO)
    else
      var t := ForceTick(p);
      if t.0.Stay? then (p.(error := t.1), ZERO)
      else if outcome.Failed? then (p.(force := ZERO, error := 0), ZERO)
      else
        var v := DirToVDir(t.0.dir);
        (p.(force := if friction then Minus(p.force, Times(v, FORCE_UNIT)) else p.force, error := t.1), v)
  }

  // ----- where a push ends

  /** The directions are those of the force: one along each axis, against neither. */
  predicate Aligned(p: Push) {
    && ((p.main in {EAST, WEST} && p.secondary in {SOUTH, NORTH}) || (p.main in {SOUTH, NORTH} && p.secondary in {EAST, WEST}))
    && ProjectionToDir(p.force, p.main) >= 0 && ProjectionToDir(p.force, p.secondary) >= 0
  }

  lemma ApplyAligns(p: Push, addition: Vector)
    ensures Aligned(Pushed(p, addition))
    ensures var a := Pushed(p, addition);
      && a.force == Vector(p.force.x + addition.x, p.force.y + addition.y, p.force.z + addition.z)
      && ProjectionToDir(a.force, a.main) >= ProjectionToDir(a.force, a.secondary) && 0 <= a.errorPerMain <= ERROR_SCALE
  {
    var f := Plus(p.force, addition);
    var x, y := Abs(f.x), Abs(f.y);
    var low, high := if x < y then x else y, if x < y then y else x;
    if high > 0 { AtMost(low, high); }
  }

  lemma AtMost(low: nat, high: nat)
    requires low <= high && high > 0
    ensures low * ERROR_SCALE / high <= ERROR_SCALE
  {
    var q := low * ERROR_SCALE / high;
    assert q * high <= low * ERROR_SCALE <= high * ERROR_SCALE;
    assert q >= ERROR_SCALE + 1 ==> q * high >= (ERROR_SCALE + 1) * high;
  }

  /** The moves still in a force. */
  function MovesLeft(v: Vector): nat {
    Abs(v.x) / FORCE_UNIT + Abs(v.y) / FORCE_UNIT
  }

  /** Where they lead. */
  function Whole(v: Vector): Vector {
    Vector(Div(v.x, FORCE_UNIT), Div(v.y, FORCE_UNIT), 0)
  }

  /** After `n` ticks with friction in which every step succeeds: the push, and the way made. */
  function Walk(p: Push, n: nat): (Push, Vector) {
    if n == 0 then (p, ZERO)
    else
      var w := Walk(p, n - 1);
      var t := Next(w.0, Moved, true);
      (t.0, Plus(w.1, t.1))
  }

  /** A tick makes one of the moves that are left, or there are none. */
  lemma TickMoves(p: Push)
    requires Aligned(p)
    ensures var t := Next(p, Moved, true);
      && Aligned(t.0)
      && (if MovesLeft(p.force) > 0
          then MovesLeft(t.0.force) == MovesLeft(p.force) - 1 && Plus(t.1, Whole(t.0.force)) == Whole(p.force)
            && t.1 in {DirToVDir(p.main), DirToVDir(p.secondary)}
          else t.0.force == p.force && t.1 == ZERO)
  {
    var t := ForceTick(p).0;
    if t.Step? {
      assert t.dir in {p.main, p.secondary} && ProjectionToDir(p.force, t.dir) >= FORCE_UNIT;
      OneUnit(p.force, t.dir);
    } else {
      NoUnit(p);
    }
  }

  /** A step that fails makes no move and ends the push: no later tick moves either, until somebody pushes again. A push
      without a move left does not try. */
  lemma BlockedStops(p: Push, friction: bool, later: Outcome, slippery: bool)
    requires Aligned(p)
    ensures var t := Next(p, Failed, friction);
      && t.1 == ZERO
      && (if MovesLeft(p.force) > 0 then t.0.force == ZERO && t.0.error == 0 && Next(t.0, later, slippery) == (t.0, ZERO)
          else t.0.force == p.force)
  {
    var t := ForceTick(p).0;
    if t.Step? {
      OneUnit(p.force, t.dir);
    } else {
      NoUnit(p);
    }
  }

  /** One unit less along a direction is one move less that way. */
  lemma OneUnit(f: Vector, d: Dir)
    requires d in {WEST, EAST, NORTH, SOUTH} && ProjectionToDir(f, d) >= FORCE_UNIT
    ensures var g := Minus(f, Times(DirToVDir(d), FORCE_UNIT));
      && MovesLeft(f) > 0 && MovesLeft(g) == MovesLeft(f) - 1 && Plus(DirToVDir(d), Whole(g)) == Whole(f)
      && ProjectionToDir(g, d) >= 0
      && (forall e :: e in {WEST, EAST, NORTH, SOUTH} && e != d && e != RevertDir(d) ==> ProjectionToDir(g, e) == ProjectionToDir(f, e))
  {
    LessUnit(if d in {WEST, EAST} then f.x else f.y);
    hide Div;
  }

  lemma LessUnit(a: int)
    ensures a >= FORCE_UNIT ==> a / FORCE_UNIT == (a - FORCE_UNIT) / FORCE_UNIT + 1 && Div(a, FORCE_UNIT) == Div(a - FORCE_UNIT, FORCE_UNIT) + 1
    ensures a <= -FORCE_UNIT ==> -a / FORCE_UNIT == (-a - FORCE_UNIT) / FORCE_UNIT + 1 && Div(a, FORCE_UNIT) == Div(a + FORCE_UNIT, FORCE_UNIT) - 1
  {}

  lemma NoUnit(p: Push)
    requires Aligned(p) && ProjectionToDir(p.force, p.main) < FORCE_UNIT && ProjectionToDir(p.force, p.secondary) < FORCE_UNIT
    ensures MovesLeft(p.force) == 0
  {
    assert Abs(p.force.x) < FORCE_UNIT && Abs(p.force.y) < FORCE_UNIT;
  }

  lemma {:induction false} WalkGoes(p: Push, n: nat)
    requires Aligned(p)
    ensures var w := Walk(p, n);
      && Aligned(w.0) && Plus(w.1, Whole(w.0.force)) == Whole(p.force)
      && MovesLeft(w.0.force) == (if n < MovesLeft(p.force) then MovesLeft(p.force) - n else 0)
  {
    if n == 0 {
      assert Plus(ZERO, Whole(p.force)) == Whole(p.force);
    } else {
      WalkGoes(p, n - 1);
      var w := Walk(p, n - 1);
      TickMoves(w.0);
      hide Next, MovesLeft, Aligned, Whole;
      var t := Next(w.0, Moved, true);
      assert Plus(Plus(w.1, t.1), Whole(t.0.force)) == Plus(w.1, Plus(t.1, Whole(t.0.force)));
    }
  }

  /** A push, whatever error term and whatever directions came before, makes exactly |x| / 100 + |y| / 100 moves, one in
      each of its first ticks and none later, and ends (x / 100, y / 100) away. */
  lemma WalkEnds(p: Push, addition: Vector, n: nat)
    ensures var a := Pushed(p, addition);
      && (n < MovesLeft(a.force) ==> Next(Walk(a, n).0, Moved, true).1 in {DirToVDir(a.main), DirToVDir(a.secondary)})
      && (n >= MovesLeft(a.force) ==> Walk(a, n).1 == Whole(a.force) && Next(Walk(a, n).0, Moved, true).1 == ZERO)
  {
    var a := Pushed(p, addition);
    ApplyAligns(p, addition);
    WalkGoes(a, n);
    WalkKeepsDirections(a, n);
    var w := Walk(a, n);
    TickMoves(w.0);
    hide Pushed, Next, Walk, Aligned;
    if n >= MovesLeft(a.force) {
      NothingLeft(w.0.force);
    }
  }

  lemma NothingLeft(f: Vector)
    requires MovesLeft(f) == 0
    ensures Whole(f) == ZERO
  {
    assert Abs(f.x) < FORCE_UNIT && Abs(f.y) < FORCE_UNIT;
  }

  lemma {:induction false} WalkKeepsDirections(p: Push, n: nat)
    ensures Walk(p, n).0.main == p.main && Walk(p, n).0.secondary == p.secondary
  {
    hide ForceTick;
    if n > 0 { WalkKeepsDirections(p, n - 1); }
  }

  // ----- the route without friction

  /** After `n` ticks without friction in which every step succeeds: the push, and the steps in the main and in the
      secondary direction. */
  function Glide(p: Push, n: nat): (Push, nat, nat) {
    if n == 0 then (p, 0, 0)
    else
      var g := Glide(p, n - 1);
      var t := ForceTick(g.0);
      (Next(g.0, Moved, false).0, if t.0 == Step(p.main) then g.1 + 1 else g.1, if t.0 == Step(p.secondary) then g.2 + 1 else g.2)
  }

  /** The error term is what the steps so far owe to the slope, and stays within one and a half steps. */
  lemma {:induction false} ErrorBounds(p: Push, n: nat)
    requires Aligned(p) && p.error == 0 && 0 <= p.errorPerMain <= ERROR_SCALE
    requires ProjectionToDir(p.force, p.main) >= FORCE_UNIT && ProjectionToDir(p.force, p.secondary) >= FORCE_UNIT
    ensures var g := Glide(p, n);
      && g.0 == p.(error := g.0.error) && g.1 + g.2 == n
      && g.0.error == g.1 * p.errorPerMain - ERROR_SCALE * g.2
      && -ERROR_SCALE / 2 <= g.0.error <= ERROR_SCALE / 2 - 1 + ERROR_SCALE
  {
    hide ForceTick, Aligned, ProjectionToDir, Next;
    if n > 0 {
      ErrorBounds(p, n - 1);
      var g := Glide(p, n - 1);
      GlideStep(p, g.0);
      assert (g.1 + 1) * p.errorPerMain == g.1 * p.errorPerMain + p.errorPerMain;
    }
  }

  lemma GlideStep(p: Push, q: Push)
    requires Aligned(p) && q == p.(error := q.error)
    requires ProjectionToDir(p.force, p.main) >= FORCE_UNIT && ProjectionToDir(p.force, p.secondary) >= FORCE_UNIT
    ensures p.main != p.secondary && Next(q, Moved, false).0 == p.(error := ForceTick(q).1)
    ensures ForceTick(q) == if q.error >= ERROR_SCALE / 2 then (Step(p.secondary), q.error - ERROR_SCALE) else (Step(p.main), q.error + p.errorPerMain)
  {}

  /** The route follows the force: the secondary steps are the main ones times the slope, to within one and a half
      steps and the rounding of the slope. */
  lemma RouteFollowsForce(q: Push, addition: Vector, n: nat)
    requires var a := Pushed(q, addition);
      a.error == 0 && ProjectionToDir(a.force, a.secondary) >= FORCE_UNIT
    ensures var a := Pushed(q, addition);
      var g, low, high := Glide(a, n), ProjectionToDir(a.force, a.secondary), ProjectionToDir(a.force, a.main);
      && ERROR_SCALE * (g.2 * high) <= ERROR_SCALE * (g.1 * low) + ERROR_SCALE / 2 * high
      && ERROR_SCALE * (g.1 * low) <= ERROR_SCALE * (g.2 * high) + (3 * ERROR_SCALE / 2 - 1) * high + g.1 * high
  {
    var a := Pushed(q, addition);
    ApplyAligns(q, addition);
    ErrorBounds(a, n);
    var g, low, high := Glide(a, n), ProjectionToDir(a.force, a.secondary), ProjectionToDir(a.force, a.main);
    assert a.errorPerMain == low * ERROR_SCALE / high;
    hide Glide, Pushed, Aligned, ProjectionToDir;
    SlopeBounds(g.1, g.2, low, high, a.errorPerMain, g.0.error);
  }

  lemma SlopeBounds(m: nat, s: nat, low: nat, high: nat, slope: nat, error: int)
    requires high > 0 && slope == low * ERROR_SCALE / high && error == m * slope - ERROR_SCALE * s
    requires -ERROR_SCALE / 2 <= error <= 3 * ERROR_SCALE / 2 - 1
    ensures ERROR_SCALE * (s * high) <= ERROR_SCALE * (m * low) + ERROR_SCALE / 2 * high
    ensures ERROR_SCALE * (m * low) <= ERROR_SCALE * (s * high) + (3 * ERROR_SCALE / 2 - 1) * high + m * high
  {
    var r := low * ERROR_SCALE - slope * high;
    Remains(low * ERROR_SCALE, high);
    Owed(m, s, slope, high, error);
    Sloped(m, low, slope, high, r);
    Grows(0, r, m);
    Grows(r, high, m);
    Grows(-ERROR_SCALE / 2, error, high);
    Grows(error, 3 * ERROR_SCALE / 2 - 1, high);
    Commutes(m, high);
    Commutes(m, r);
    Combine(error * high, m * (slope * high), m * low, s * high, m * r, m * high, high);
  }

  lemma Remains(n: nat, d: nat)
    requires d > 0
    ensures 0 <= n - n / d * d < d
  {
    assert n == n / d * d + n % d;
  }

  lemma Owed(m: int, s: int, slope: int, high: int, error: int)
    requires error == m * slope - ERROR_SCALE * s
    ensures error * high == m * (slope * high) - ERROR_SCALE * (s * high)
  {
    Distribute(m * slope, ERROR_SCALE * s, high);
    Associates(m, slope, high);
    Associates(ERROR_SCALE, s, high);
  }

  lemma Sloped(m: int, low: int, slope: int, high: int, r: int)
    requires slope * high == low * ERROR_SCALE - r
    ensures m * (slope * high) == ERROR_SCALE * (m * low) - m * r
  {
    Distribute(low * ERROR_SCALE, r, m);
    Commutes(m, slope * high);
    Commutes(m, r);
    Associates(low, ERROR_SCALE, m);
    Commutes(m, low);
    Associates(ERROR_SCALE, low, m);
    Commutes(low, ERROR_SCALE);
  }

  lemma Combine(eh: int, msh: int, ml: int, sh: int, mr: int, mh: int, high: nat)
    requires eh == msh - ERROR_SCALE * sh && msh == ERROR_SCALE * ml - mr && 0 <= mr <= mh
    requires -ERROR_SCALE / 2 * high <= eh <= (3 * ERROR_SCALE / 2 - 1) * high
    ensures ERROR_SCALE * sh <= ERROR_SCALE * ml + ERROR_SCALE / 2 * high
    ensures ERROR_SCALE * ml <= ERROR_SCALE * sh + (3 * ERROR_SCALE / 2 - 1) * high + mh
  {}
}
