/** Projectiles (sources/core/objects/movable/Projectiles.cpp:62-203): a target becomes a list of steps that is walked
    over and over; and the gun that turns its shooter first (items/Gun.cpp:33-82).
 */
module Projectiles {
  import opened Arithmetic
  import opened CppInt
  import opened KvGlobals

  // ----- the pattern

  /** A zigzag: the two directions in turn, and the first one again and again when the second is used up. */
  function Zigzag(n1: nat, n2: nat, d1: Dir, d2: Dir): seq<Dir> {
    seq(n1 + n2, i => if i % 2 == 0 || i >= 2 * n2 then d1 else d2)
  }

  /** Which zigzag a target and a facing ask for. */
  function Pattern(target: Vector, facing: Dir): seq<Dir> {
    var h, v := if target.x > 0 then EAST else WEST, if target.y < 0 then NORTH else SOUTH;
    var ax, ay := Abs(target.x), Abs(target.y);
    if ax > ay || (ax == ay && facing in {WEST, EAST}) then Zigzag(ax, ay, h, v) else Zigzag(ay, ax, v, h)
  }

  /** Where a list of steps leads. */
  function Sum(steps: seq<Dir>): Vector {
    if steps == [] then ZERO else Plus(Sum(steps[..|steps| - 1]), DirToVDir(steps[|steps| - 1]))
  }

  /** After `i` steps of a zigzag the first direction has been taken at least as often as the second. */
  function Seconds(n2: nat, i: nat): nat {
    if i >= 2 * n2 then n2 else i / 2
  }

  lemma {:induction false} ZigzagSums(n1: nat, n2: nat, d1: Dir, d2: Dir, i: nat)
    requires i <= n1 + n2
    ensures Sum(Zigzag(n1, n2, d1, d2)[..i]) ==
      Plus(Times(DirToVDir(d1), i - Seconds(n2, i)), Times(DirToVDir(d2), Seconds(n2, i)))
  {
    hide Zigzag, Seconds, DirToVDir, Plus, Times, Sum;
    ZigzagStart(n1, n2, d1, d2);
    if i > 0 {
      ZigzagSums(n1, n2, d1, d2, i - 1);
      ZigzagStep(n1, n2, d1, d2, i);
      SumNext(Zigzag(n1, n2, d1, d2), i);
      AddOne(DirToVDir(d1), DirToVDir(d2), i - 1 - Seconds(n2, i - 1), Seconds(n2, i - 1));
    }
  }

  lemma SumNext(s: seq<Dir>, i: nat)
    requires 0 < i <= |s|
    ensures Sum(s[..i]) == Plus(Sum(s[..i - 1]), DirToVDir(s[i - 1]))
  {
    assert s[..i][..i - 1] == s[..i - 1];
  }

  lemma ZigzagSize(n1: nat, n2: nat, d1: Dir, d2: Dir)
    ensures |Zigzag(n1, n2, d1, d2)| == n1 + n2
  {}

  lemma ZigzagStart(n1: nat, n2: nat, d1: Dir, d2: Dir)
    ensures |Zigzag(n1, n2, d1, d2)| == n1 + n2
    ensures Sum(Zigzag(n1, n2, d1, d2)[..0]) == Plus(Times(DirToVDir(d1), 0), Times(DirToVDir(d2), 0)) && Seconds(n2, 0) == 0
  {
    hide Zigzag, Sum, DirToVDir, Times, Plus, Seconds;
    ZigzagSize(n1, n2, d1, d2);
    NoTimes(DirToVDir(d1), DirToVDir(d2));
    NoSeconds(n2);
    NoSteps(Zigzag(n1, n2, d1, d2)[..0]);
  }

  lemma NoTimes(a: Vector, b: Vector)
    ensures Plus(Times(a, 0), Times(b, 0)) == ZERO
  {}

  lemma NoSeconds(n2: nat)
    ensures Seconds(n2, 0) == 0
  {}

  lemma NoSteps(s: seq<Dir>)
    requires s == []
    ensures Sum(s) == ZERO
  {}

  lemma ZigzagStep(n1: nat, n2: nat, d1: Dir, d2: Dir, i: nat)
    requires 0 < i <= n1 + n2
    ensures |Zigzag(n1, n2, d1, d2)| == n1 + n2
    ensures var second := i % 2 == 0 && i <= 2 * n2;
      && Zigzag(n1, n2, d1, d2)[i - 1] == (if second then d2 else d1)
      && Seconds(n2, i) == Seconds(n2, i - 1) + (if second then 1 else 0)
  {}

  lemma AddOne(a: Vector, b: Vector, p: int, q: int)
    ensures Plus(Plus(Times(a, p), Times(b, q)), a) == Plus(Times(a, p + 1), Times(b, q))
    ensures Plus(Plus(Times(a, p), Times(b, q)), b) == Plus(Times(a, p), Times(b, q + 1))
  {
    TimesNext(a, p + 1);
    TimesNext(b, q + 1);
    hide Times;
  }

  /** Every target's list has |x| + |y| steps and leads to the target in the plane. */
  lemma PatternReaches(target: Vector, facing: Dir)
    ensures |Pattern(target, facing)| == Abs(target.x) + Abs(target.y)
    ensures Sum(Pattern(target, facing)) == target.(z := 0)
  {
    hide Zigzag, Sum, Seconds;
    var h, v := if target.x > 0 then EAST else WEST, if target.y < 0 then NORTH else SOUTH;
    var ax, ay := Abs(target.x), Abs(target.y);
    if ax > ay || (ax == ay && facing in {WEST, EAST}) {
      WholeZigzag(ax, ay, h, v);
    } else {
      WholeZigzag(ay, ax, v, h);
    }
  }

  lemma WholeZigzag(n1: nat, n2: nat, d1: Dir, d2: Dir)
    requires n2 <= n1
    ensures |Zigzag(n1, n2, d1, d2)| == n1 + n2
    ensures Sum(Zigzag(n1, n2, d1, d2)) == Plus(Times(DirToVDir(d1), n1), Times(DirToVDir(d2), n2))
  {
    hide Zigzag, Sum, DirToVDir, Times, Plus;
    ZigzagSize(n1, n2, d1, d2);
    ZigzagSums(n1, n2, d1, d2, n1 + n2);
    assert Zigzag(n1, n2, d1, d2)[..n1 + n2] == Zigzag(n1, n2, d1, d2);
  }

  /** `a` lies between 0 and `b`. */
  predicate Within(a: int, b: int) {
    0 <= a <= b || b <= a <= 0
  }

  lemma SecondsBounds(n1: nat, n2: nat, i: nat)
    requires n2 <= n1 && i <= n1 + n2
    ensures Seconds(n2, i) <= n2 && 0 <= i - Seconds(n2, i) <= n1
  {}

  /** No part of the way strays: after `i` steps of a pattern both coordinates are between the start and the target. */
  lemma PatternStays(target: Vector, facing: Dir, i: nat)
    requires i <= |Pattern(target, facing)|
    ensures var p := Sum(Pattern(target, facing)[..i]);
      Within(p.x, target.x) && Within(p.y, target.y) && Abs(p.x) + Abs(p.y) == i && p.z == 0
  {
    PatternReaches(target, facing);
    var h, v := if target.x > 0 then EAST else WEST, if target.y < 0 then NORTH else SOUTH;
    var ax, ay := Abs(target.x), Abs(target.y);
    hide Zigzag, Seconds, Sum;
    if ax > ay || (ax == ay && facing in {WEST, EAST}) {
      ZigzagSums(ax, ay, h, v, i);
      SecondsBounds(ax, ay, i);
    } else {
      ZigzagSums(ay, ax, v, h, i);
      SecondsBounds(ay, ax, i);
    }
  }

  // ----- the walk

  /** The first `n` steps of walking the list over and over. */
  function Cycled(steps: seq<Dir>, n: nat): Vector
    requires steps != []
  {
    if n == 0 then ZERO else Plus(Cycled(steps, n - 1), DirToVDir(steps[(n - 1) % |steps|]))
  }

  lemma {:induction false} CycledPart(steps: seq<Dir>, k: nat, i: nat)
    requires steps != [] && i <= |steps|
    ensures Cycled(steps, k * |steps| + i) == Plus(Cycled(steps, k * |steps|), Sum(steps[..i]))
    decreases i
  {
    hide Cycled, Sum, DirToVDir, Plus;
    if i > 0 {
      CycledPart(steps, k, i - 1);
      SumNext(steps, i);
      InCycle(k, |steps|, i - 1);
      CycledNext(steps, k * |steps| + i);
      PlusAssociates(Cycled(steps, k * |steps|), Sum(steps[..i - 1]), DirToVDir(steps[i - 1]));
    } else {
      NoSum(Cycled(steps, k * |steps|), steps);
    }
  }

  lemma PlusAssociates(a: Vector, b: Vector, c: Vector)
    ensures Plus(Plus(a, b), c) == Plus(a, Plus(b, c))
  {}

  lemma NoSum(v: Vector, s: seq<Dir>)
    ensures Plus(v, Sum(s[..0])) == v
  {}

  lemma CycledNext(steps: seq<Dir>, n: nat)
    requires steps != [] && n > 0
    ensures Cycled(steps, n) == Plus(Cycled(steps, n - 1), DirToVDir(steps[(n - 1) % |steps|]))
  {}

  lemma InCycle(k: nat, m: nat, i: nat)
    requires i < m
    ensures (k * m + i) % m == i
  {
    Commutes(k, m);
    DivModIs(k * m + i, m, k, i);
  }

  /** `k` whole cycles lead `k` times as far as the list. */
  lemma {:induction false} CyclesAdd(steps: seq<Dir>, k: nat)
    requires steps != []
    ensures Cycled(steps, k * |steps|) == Times(Sum(steps), k)
  {
    if k > 0 {
      CyclesAdd(steps, k - 1);
      CycledPart(steps, k - 1, |steps|);
      assert steps[..|steps|] == steps;
      assert (k - 1) * |steps| + |steps| == k * |steps|;
      TimesNext(Sum(steps), k);
      hide Cycled, Sum;
    } else {
      assert k * |steps| == 0;
      assert Times(Sum(steps), 0) == ZERO;
    }
  }

  lemma TimesNext(v: Vector, k: int)
    ensures Times(v, k) == Plus(Times(v, k - 1), v)
  {
    assert v.x * k == v.x * (k - 1) + v.x && v.y * k == v.y * (k - 1) + v.y && v.z * k == v.z * (k - 1) + v.z;
  }

  /** A shot that nothing stops is at every multiple of the target after so many cycles. */
  lemma ShotReaches(target: Vector, facing: Dir, k: nat)
    requires target.x != 0 || target.y != 0
    ensures Pattern(target, facing) != []
    ensures Cycled(Pattern(target, facing), k * (Abs(target.x) + Abs(target.y))) == Times(target.(z := 0), k)
  {
    PatternReaches(target, facing);
    CyclesAdd(Pattern(target, facing), k);
  }

  // ----- the code

  class Projectile {
    var movement: seq<Dir>
    var currentStep: nat
    var direction: Dir
    var position: Vector
    /** Not yet able to hurt: nothing has been passed. */
    var harmless: bool
    /** Steps made so far, where from, and how many of them were against the border of the map. */
    ghost var made: nat
    ghost var start: Vector
    ghost var stuck: nat

    ghost predicate Valid()
      reads `movement, `currentStep, `position, `made, `start, `stuck
    {
      && (movement == [] ==> made == 0 && currentStep == 0)
      && (movement != [] ==> currentStep == made % |movement|)
      && (movement != [] && stuck == 0 ==> position == Plus(start, Cycled(movement, made)))
    }

    constructor (at: Vector)
      ensures Valid() && movement == [] && position == at && start == at && stuck == 0 && harmless
    {
      movement := [];
      currentStep := 0;
      direction := SOUTH;
      position := at;
      harmless := true;
      made := 0;
      start := at;
      stuck := 0;
    }

    method MakeMovementLoops(d1Number: nat, d2Number: nat, d1: Dir, d2: Dir)
      modifies this`movement
      ensures movement == old(movement) + Zigzag(d1Number, d2Number, d1, d2)
    {
      var shuffle := 1;
      var z := 2 * d2Number - 1;
      ghost var was, all := movement, Zigzag(d1Number, d2Number, d1, d2);
      for i := 0 to d2Number + d1Number
        invariant movement == was + all[..i]
        invariant shuffle == (if i >= 2 * d2Number then (if i == 2 * d2Number then 1 else 0) else 1 - i % 2)
      {
        assert all[..i + 1] == all[..i] + [all[i]];
        if shuffle == 1 || z < i {
          movement := movement + [d1];
          shuffle := 0;
        } else if shuffle == 0 {
          movement := movement + [d2];
          shuffle := 1;
        }
      }
    }

    method MakeMovementPattern(target: Vector, facing: Dir)
      modifies this`movement
      ensures movement == old(movement) + Pattern(target, facing)
    {
      var x, y := target.x, target.y;
      var absX, absY := Abs(x), Abs(y);
      hide Zigzag;
      if absX == absY {
        if y < 0 {
          if facing == WEST || facing == EAST {
            if x > 0 { MakeMovementLoops(absY, absX, EAST, NORTH); } else { MakeMovementLoops(absY, absX, WEST, NORTH); }
          } else {
            if x > 0 { MakeMovementLoops(absY, absX, NORTH, EAST); } else { MakeMovementLoops(absY, absX, NORTH, WEST); }
          }
        } else {
          if facing == WEST || facing == EAST {
            if x > 0 { MakeMovementLoops(absY, absX, EAST, SOUTH); } else { MakeMovementLoops(absY, absX, WEST, SOUTH); }
          } else {
            if x > 0 { MakeMovementLoops(absY, absX, SOUTH, EAST); } else { MakeMovementLoops(absY, absX, SOUTH, WEST); }
          }
        }
      } else if x >= 0 && y >= 0 {
        if y > x { OneWay(absY, absX, SOUTH, EAST, WEST); MakeMovementLoops(absY, absX, SOUTH, EAST); }
        else if x > y { MakeMovementLoops(absX, absY, EAST, SOUTH); }
      } else if x <= 0 && y <= 0 {
        if absY > absX { MakeMovementLoops(absY, absX, NORTH, WEST); }
        else if absX > absY { OneWay(absX, absY, WEST, NORTH, SOUTH); MakeMovementLoops(absX, absY, WEST, NORTH); }
      } else if x < 0 && y > 0 {
        if y > absX { MakeMovementLoops(absY, absX, SOUTH, WEST); }
        else if absX > absY { MakeMovementLoops(absX, absY, WEST, SOUTH); }
      } else {
        if absY > x { MakeMovementLoops(absY, absX, NORTH, EAST); }
        else if x > absY { MakeMovementLoops(absX, absY, EAST, NORTH); }
      }
    }

    /** One step, if the way is free. At the border of the map the step counts although the projectile stays. */
    method ProcessMovement(free: bool, inside: bool) returns (moved: bool)
      requires Valid() && movement != []
      modifies this
      ensures Valid() && moved == free && movement == old(movement) && start == old(start) && harmless == old(harmless)
      ensures made == old(made) + (if free then 1 else 0) && direction == movement[old(currentStep)]
      ensures stuck == old(stuck) + (if free && !inside then 1 else 0)
      ensures position == Displaced(old(position), movement[old(currentStep)], free && inside)
    {
      var step := movement[currentStep];
      direction := step;
      if !free { return false; }
      NextInCycle(made, |movement|);
      currentStep := (currentStep + 1) % |movement|;
      if inside {
        position := Plus(position, DirToVDir(step));
      } else {
        stuck := stuck + 1;
      }
      made := made + 1;
      return true;
    }

    /** A tick: one step, and a second one at every turn. */
    method Process(free: bool, inside: bool, freeAgain: bool, insideAgain: bool)
      requires Valid() && movement != []
      modifies this
      ensures Valid() && movement == old(movement) && start == old(start)
      ensures var turn := free && movement[old(currentStep)] != old(direction) && freeAgain;
        && made == old(made) + (if free then 1 else 0) + (if turn then 1 else 0)
        && stuck == old(stuck) + (if free && !inside then 1 else 0) + (if turn && !insideAgain then 1 else 0)
        && position == Displaced(Displaced(old(position), movement[old(currentStep)], free && inside),
                                 movement[(old(currentStep) + 1) % |movement|], turn && insideAgain)
      ensures harmless == (old(harmless) && !free)
    {
      AtStep();
      hide Valid, Cycled, Displaced;
      var oldDir := direction;
      var moved := ProcessMovement(free, inside);
      if !moved { return; }
      harmless := false;
      NextInCycle(old(made), |movement|);
      AtStep();
      if direction != oldDir {
        var again := ProcessMovement(freeAgain, insideAgain);
      }
    }

    lemma AtStep()
      requires Valid() && movement != []
      ensures currentStep == made % |movement|
    {}
  }

  /** Where a step leads that is made or not. */
  function Displaced(at: Vector, step: Dir, on: bool): Vector {
    if on then Plus(at, DirToVDir(step)) else at
  }

  lemma NextInCycle(n: nat, m: nat)
    requires m > 0
    ensures (n + 1) % m == (n % m + 1) % m
  {
    var q, r := n / m, n % m + 1;
    assert n == m * q + n % m;
    if r < m {
      DivModIs(n + 1, m, q, r);
      DivModIs(r, m, 0, r);
    } else {
      assert m * (q + 1) == m * q + m;
      DivModIs(n + 1, m, q + 1, 0);
      DivModIs(r, m, 1, 0);
    }
  }

  /** With no step in the second direction it does not matter which one it is. */
  lemma OneWay(n1: nat, n2: nat, d1: Dir, d2: Dir, other: Dir)
    ensures n2 == 0 ==> Zigzag(n1, n2, d1, d2) == Zigzag(n1, n2, d1, other)
  {}

  // ----- the gun

  method ShootingDirection(target: Vector, facing: Dir) returns (shootingDirection: Dir)
    ensures shootingDirection == Facing(target, facing)
  {
    var x, y := target.x, target.y;
    if Abs(y) != Abs(x) {
      shootingDirection := VDirToDir(target);
    } else if y < 0 {
      if facing == WEST || facing == EAST {
        shootingDirection := if x > 0 then EAST else WEST;
      } else {
        shootingDirection := NORTH;
      }
    } else {
      if facing == WEST || facing == EAST {
        shootingDirection := if x > 0 then EAST else WEST;
      } else {
        shootingDirection := SOUTH;
      }
    }
  }

  /** The way the shooter is turned. */
  function Facing(target: Vector, facing: Dir): Dir {
    if Abs(target.x) != Abs(target.y) then VDirToDir(target)
    else if facing in {WEST, EAST} then (if target.x > 0 then EAST else WEST)
    else if target.y < 0 then NORTH else SOUTH
  }

  /** The shooter is turned the way of the first step, exactly when the target is not more above or below than it is
      away, or it is diagonal. */
  lemma FacesFirstStep(target: Vector, facing: Dir)
    requires target.x != 0 || target.y != 0
    ensures Pattern(target, facing) != []
    ensures Facing(target, facing) == Pattern(target, facing)[0] <==>
      var ax, ay, az := Abs(target.x), Abs(target.y), Abs(target.z);
      ax == ay || (ax > ay && ax > az) || (ay > ax && ay >= az)
  {
    PatternReaches(target, facing);
    var h, v := if target.x > 0 then EAST else WEST, if target.y < 0 then NORTH else SOUTH;
    var ax, ay := Abs(target.x), Abs(target.y);
    assert Pattern(target, facing)[0] == if ax > ay || (ax == ay && facing in {WEST, EAST}) then h else v;
  }

  /** A target one step east and five levels up: the shot goes east and the shooter does not turn that way. */
  lemma FacesElsewhere(facing: Dir)
    ensures Pattern(Vector(1, 0, 5), facing) == [EAST] && Facing(Vector(1, 0, 5), facing) != EAST
  {}
}
