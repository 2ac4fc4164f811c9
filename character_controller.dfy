/**
 * The discrete input logic of the player controller (characterController.ts):
 * the pressed-key map, the WASD direction, the grounded gate on jumping, the
 * cool-down gate on XR shooting, and the reset after a fall. The rigid body is
 * optional (`rb?.`); a jump's impulse is recorded in `impulses` and a shot in
 * `shots` (GunControls.shootBullet is not part of this model). The 800 ms and
 * 100 ms `setTimeout` callbacks are event methods.
 */
module PlayerInput {
  import opened Common

  const JumpForce: real := 1.0
  const MovementSpeed: real := 5.0
  /** The fall check compares squared distance with 30 * 30, which needs no square root. */
  const FallDistanceSq: real := 900.0

  /** `toLowerCase` on ASCII letters; other characters are left as they are. */
  function LowerChar(c: char): char {
    if 'A' <= c <= 'Z' then (c as int + 32) as char else c
  }

  /**
   * No ASCII capital is left, and a character changes only when it is a
   * capital, into the letter 32 code points above it.
   */
  function Lower(s: string): (r: string)
    ensures |r| == |s|
    ensures forall i | 0 <= i < |r| :: !('A' <= r[i] <= 'Z')
    ensures forall i | 0 <= i < |s| && r[i] != s[i] :: 'A' <= s[i] <= 'Z' && r[i] as int == s[i] as int + 32
  {
    seq(|s|, i requires 0 <= i < |s| => LowerChar(s[i]))
  }

  /** A key whose entry is missing is not pressed (`undefined` is falsy). */
  predicate Held(keys: map<string, bool>, key: string) {
    key in keys && keys[key]
  }

  function Bit(b: bool): int {
    if b then 1 else 0
  }

  class Controller {
    var keysPressed: map<string, bool>
    var isGrounded: bool
    var coolDown: bool
    var position: Vec3
    var spawnPosition: Vec3
    var velocity: Vec3
    var angularVelocity: Vec3
    /** Impulses applied to the rigid body, oldest first. */
    var impulses: seq<Vec3>
    /** Calls of triggerShootingFromPosition. */
    var shots: nat
    /** Scheduled callbacks that have not fired: "grounded again" (800 ms) and "cool-down over" (100 ms). */
    var pendingGrounded: nat
    var pendingCoolDown: nat
    /** Whether the `rb` reference is set. */
    const hasBody: bool

    /** The jump gate is closed exactly while its re-open timer is pending, and the same for the shoot gate. */
    ghost predicate Valid()
      reads this
    {
      (isGrounded <==> pendingGrounded == 0) && pendingGrounded <= 1 &&
      (coolDown <==> pendingCoolDown == 1) && pendingCoolDown <= 1
    }

    /** The component as onEnable leaves it: the spawn position is the current position. */
    constructor (position: Vec3, hasBody: bool)
      ensures Valid() && this.position == position && spawnPosition == position && this.hasBody == hasBody
      ensures keysPressed == map[] && isGrounded && !coolDown && impulses == [] && shots == 0
      ensures velocity == Origin && angularVelocity == Origin
    {
      keysPressed := map[];
      isGrounded := true;
      coolDown := false;
      this.position := position;
      spawnPosition := position;
      velocity := Origin;
      angularVelocity := Origin;
      impulses := [];
      shots := 0;
      pendingGrounded := 0;
      pendingCoolDown := 0;
      this.hasBody := hasBody;
    }

    /** onKeyDown: mark the lower-cased key pressed; space jumps and `k` shoots. */
    method OnKeyDown(key: string)
      requires Valid()
      modifies this`keysPressed, this`isGrounded, this`impulses, this`pendingGrounded, this`shots
      ensures Valid()
      ensures keysPressed == old(keysPressed)[Lower(key) := true]
      ensures Lower(key) == " " ==> JumpedFrom(old(isGrounded), old(impulses), old(pendingGrounded))
      ensures Lower(key) != " " ==>
        isGrounded == old(isGrounded) && impulses == old(impulses) && pendingGrounded == old(pendingGrounded)
      ensures shots == old(shots) + (if Lower(key) == "k" then 1 else 0)
      ensures coolDown == old(coolDown) && pendingCoolDown == old(pendingCoolDown)
      ensures position == old(position) && velocity == old(velocity) && angularVelocity == old(angularVelocity)
    {
      var k := Lower(key);
      keysPressed := keysPressed[k := true];
      if k == " " {
        Jump();
      }
      if k == "k" {
        shots := shots + 1;
      }
    }

    /** onKeyUp: mark the lower-cased key released. */
    method OnKeyUp(key: string)
      modifies this`keysPressed
      ensures keysPressed == old(keysPressed)[Lower(key) := false]
    {
      keysPressed := keysPressed[Lower(key) := false];
    }

    /** What `jump` leaves, given the gate, the impulses and the timers before it. */
    ghost predicate JumpedFrom(wasGrounded: bool, impulsesBefore: seq<Vec3>, pendingBefore: nat)
      reads this
    {
      if !wasGrounded then
        isGrounded == wasGrounded && impulses == impulsesBefore && pendingGrounded == pendingBefore
      else
        !isGrounded && pendingGrounded == pendingBefore + 1 &&
        impulses == impulsesBefore + (if hasBody then [Vec3(0.0, JumpForce, 0.0)] else [])
    }

    /** jump: nothing unless grounded; then one upward impulse and the gate closes until the timer fires. */
    method Jump()
      requires Valid()
      modifies this`isGrounded, this`impulses, this`pendingGrounded
      ensures Valid()
      ensures JumpedFrom(old(isGrounded), old(impulses), old(pendingGrounded))
    {
      if !isGrounded {
        return;
      }
      if hasBody {
        impulses := impulses + [Vec3(0.0, JumpForce, 0.0)];
      }
      isGrounded := false;
      pendingGrounded := pendingGrounded + 1;
    }

    method GroundedTimerFired()
      requires Valid() && pendingGrounded > 0
      modifies this`isGrounded, this`pendingGrounded
      ensures Valid() && isGrounded && pendingGrounded == old(pendingGrounded) - 1
    {
      pendingGrounded := pendingGrounded - 1;
      isGrounded := true;
    }

    /** handleXRShoot: fires only with the trigger pressed and no cool-down, then starts the cool-down. */
    method HandleXRShoot(triggerPressed: bool)
      requires Valid()
      modifies this`shots, this`coolDown, this`pendingCoolDown
      ensures Valid()
      ensures var fired := triggerPressed && !old(coolDown);
        shots == old(shots) + (if fired then 1 else 0) &&
        (fired ==> coolDown && pendingCoolDown == 1) &&
        (!fired ==> coolDown == old(coolDown) && pendingCoolDown == old(pendingCoolDown))
    {
      if !triggerPressed || coolDown {
        return;
      }
      shots := shots + 1;
      coolDown := true;
      pendingCoolDown := pendingCoolDown + 1;
    }

    method CoolDownTimerFired()
      requires Valid() && pendingCoolDown > 0
      modifies this`coolDown, this`pendingCoolDown
      ensures Valid() && !coolDown && pendingCoolDown == 0
    {
      pendingCoolDown := pendingCoolDown - 1;
      coolDown := false;
    }

    /**
     * The direction applyDesktopControls builds before normalising it:
     * z from w/s, x from a/d, y always 0. Each component is -1, 0 or 1, and
     * opposite keys cancel.
     */
    method DesktopDirection() returns (x: int, y: int, z: int)
      ensures z == Bit(Held(keysPressed, "w")) - Bit(Held(keysPressed, "s"))
      ensures x == Bit(Held(keysPressed, "a")) - Bit(Held(keysPressed, "d"))
      ensures y == 0 && -1 <= x <= 1 && -1 <= z <= 1
      ensures (x == 0 && z == 0) <==>
        (Held(keysPressed, "w") == Held(keysPressed, "s") && Held(keysPressed, "a") == Held(keysPressed, "d"))
    {
      x, y, z := 0, 0, 0;
      if "w" in keysPressed && keysPressed["w"] {
        z := z + 1;
      }
      if "s" in keysPressed && keysPressed["s"] {
        z := z - 1;
      }
      if "a" in keysPressed && keysPressed["a"] {
        x := x + 1;
      }
      if "d" in keysPressed && keysPressed["d"] {
        x := x - 1;
      }
    }

    /**
     * applyDesktopControls: with a non-zero direction, move by the normalised
     * direction scaled by speed and tick time (`normalize` is the supplied
     * unit-vector function); with a zero direction nothing changes.
     */
    method ApplyDesktopControls(deltaTime: real, normalize: Vec3 -> Vec3) returns (moved: bool)
      modifies this`position
      ensures var x, z := Bit(Held(keysPressed, "a")) - Bit(Held(keysPressed, "d")),
                          Bit(Held(keysPressed, "w")) - Bit(Held(keysPressed, "s"));
        moved == (x != 0 || z != 0) &&
        position == if moved
                    then Add(old(position), Scale(normalize(Vec3(x as real, 0.0, z as real)), MovementSpeed * deltaTime))
                    else old(position)
    {
      var x, y, z := DesktopDirection();
      moved := x * x + y * y + z * z > 0;
      if moved {
        var unit := normalize(Vec3(x as real, y as real, z as real));
        position := Add(position, Scale(unit, MovementSpeed * deltaTime));
      }
    }

    /** checkForPlayerFellDown: more than 30 units from the spawn point puts the player back and stops the body. */
    method CheckForPlayerFellDown() returns (reset: bool)
      modifies this`position, this`velocity, this`angularVelocity
      ensures reset == (SqDist(old(position), spawnPosition) > FallDistanceSq)
      ensures reset ==> position == spawnPosition
      ensures !reset ==> position == old(position)
      ensures velocity == (if reset && hasBody then Origin else old(velocity))
      ensures angularVelocity == (if reset && hasBody then Origin else old(angularVelocity))
    {
      reset := SqDist(position, spawnPosition) > FallDistanceSq;
      if reset {
        position := spawnPosition;
        if hasBody {
          velocity := Origin;
          angularVelocity := Origin;
        }
      }
    }
  }

  /** Lower-casing is idempotent, so a key pressed as "W" and released as "w" is the same entry. */
  lemma LowerIdempotent(s: string)
    ensures Lower(Lower(s)) == Lower(s)
  {
  }

  /** A key down then up leaves that entry false and every other entry as it was. */
  lemma KeyDownUp(keys: map<string, bool>, key: string, other: string)
    requires other != Lower(key)
    ensures var after := keys[Lower(key) := true][Lower(key) := false];
      Lower(key) in after && !after[Lower(key)] &&
      (other in after <==> other in keys) && (other in keys ==> after[other] == keys[other])
  {
  }

  /** For a non-negative distance d, comparing d * d with 900 is comparing d with 30. */
  lemma FallThreshold(d: real)
    requires d >= 0.0
    ensures d * d > FallDistanceSq <==> d > 30.0
  {
    if d > 30.0 {
      assert d * d > 30.0 * d;
    } else {
      assert d * d <= 30.0 * d;
    }
  }
}
