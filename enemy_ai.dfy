/**
 * The enemy component itself (enemyAiBehaviour.ts, class AiEnemyBehaviour):
 * its fields, updated in place by the lifecycle hooks, by the collision
 * handler and by the callbacks it schedules. Every method is proved to move
 * `State()` exactly as the matching function of EnemyAiSpec says and to keep
 * the invariant `Valid()`; what those functions guarantee is proved in
 * EnemyAiProperties.
 */
module EnemyAi {
  import opened Common
  import opened SceneTree
  import opened EnemyAiSpec
  import opened EnemyAiProperties

  class Agent {
    /** The pathfinder with its zone; absent until onEnable has loaded the mesh. */
    var nav: Option<Navigation>
    /** `gameObject.position`. */
    var position: Vec3
    var initialPosition: Vec3
    var targetPosition: Vec3
    var path: seq<Vec3>
    var currentWayPointIndex: nat
    var isActive: bool
    var wasHitByBullet: bool
    var deathEffect: Option<DeathEffect>
    /** The agent's object and its descendants, with their renderer and collider flags. */
    var body: Node
    /** Scheduled callbacks that have not fired: respawn (3000 ms), settle (100 ms), death-effect promise. */
    var pendingRespawns: nat
    var pendingSettles: nat
    var pendingEffects: nat
    /** Euclidean distance between two points (`Vector3.distanceTo`, `length()` of a difference). */
    const distance: (Vec3, Vec3) -> real

    function State(): AgentState
      reads this
    {
      AgentState(nav, position, initialPosition, targetPosition, path, currentWayPointIndex,
                 isActive, wasHitByBullet, deathEffect, body, pendingRespawns, pendingSettles, pendingEffects)
    }

    ghost predicate Valid()
      reads this
    {
      Inv(State())
    }

    constructor (position: Vec3, body: Node, distance: (Vec3, Vec3) -> real)
      ensures Valid() && State() == Initial(position, body) && this.distance == distance
    {
      nav := None;
      this.position := position;
      initialPosition := Origin;
      targetPosition := Origin;
      path := [];
      currentWayPointIndex := 0;
      isActive := true;
      wasHitByBullet := false;
      deathEffect := None;
      this.body := body;
      pendingRespawns, pendingSettles, pendingEffects := 0, 0, 0;
      this.distance := distance;
    }

    /** onEnable after its asset load has completed. */
    method OnEnable(asset: NavAsset, draw: nat -> nat)
      requires Valid()
      modifies this
      ensures Valid() && State() == Enable(old(State()), asset, distance, draw)
    {
      EnableKeepsInv(State(), asset, distance, draw);
      if asset.Unassigned? {
        return;
      }
      initialPosition := position;
      if !asset.Loaded? {
        return;
      }
      nav := Some(asset.zone);
      SnapToNavMesh();
      PickNewTarget(draw);
    }

    method SnapToNavMesh()
      modifies this`position
      ensures State() == Snap(old(State()))
    {
      if nav.None? {
        return;
      }
      var zone := nav.value;
      var group := zone.groupOf(position).GetOr(0);
      var closest := zone.closestNode(position, group);
      if closest.Some? {
        position := closest.value;
      }
    }

    method OnCollisionEnter(layer: int)
      requires Valid()
      modifies this
      ensures Valid() && State() == Hit(old(State()), layer)
    {
      HitKeepsInv(State(), layer);
      if !isActive || layer != BulletLayer || wasHitByBullet {
        return;
      }
      wasHitByBullet := true;
      body := HideAll(body);
      isActive := false;
      path := [];
      pendingEffects := pendingEffects + 1;
      pendingRespawns := pendingRespawns + 1;
    }

    method Respawn()
      requires Valid()
      modifies this
      ensures Valid() && State() == Respawned(old(State()))
    {
      RespawnKeepsInv(State());
      if nav.None? {
        return;
      }
      position := initialPosition;
      SnapToNavMesh();
      body := ShowAll(body);
      wasHitByBullet := false;
      isActive := true;
      deathEffect := None;
      pendingSettles := pendingSettles + 1;
    }

    method Update(deltaTime: real, draw: nat -> nat)
      requires Valid()
      modifies this
      ensures Valid() && State() == Tick(old(State()), distance, deltaTime, draw)
    {
      TickKeepsInv(State(), distance, deltaTime, draw);
      if nav.None? || wasHitByBullet || !isActive {
        return;
      }
      if |path| > 0 {
        var waypoint := path[currentWayPointIndex];
        var d := distance(waypoint, position);
        if d > TargetThreshold {
          // the waypoint direction scaled by min(movementSpeed, d / 0.5) * deltaTime
          var newPosition := NextPosition(State(), distance, deltaTime);
          var newGroup := nav.value.groupOf(newPosition);
          if newGroup.Some? {
            position := newPosition;
          }
        } else {
          currentWayPointIndex := currentWayPointIndex + 1;
          if currentWayPointIndex >= |path| {
            PickNewTarget(draw);
          }
        }
      } else {
        PickNewTarget(draw);
      }
    }

    /**
     * The sampling loop of pickNewTarget: at most MaxAttempts iterations, each
     * of which counts an attempt, breaks or returns. It gives how the loop ends
     * and the last target it set (`lastTarget` when it set none).
     */
    method SampleTarget(zone: Navigation, from: Vec3, group: int, draw: nat -> nat, lastTarget: Vec3)
      returns (end: SearchEnd, target: Vec3)
      ensures var r := Search(zone, distance, from, group, draw, 0, lastTarget, []);
        end == r.end && target == r.target
    {
      ghost var spec := Search(zone, distance, from, group, draw, 0, lastTarget, []);
      var attempts: nat := 0;
      target := lastTarget;
      ghost var probes: seq<Vec3> := [];
      while attempts < MaxAttempts
        invariant attempts <= MaxAttempts
        invariant Search(zone, distance, from, group, draw, attempts, target, probes) == spec
        decreases MaxAttempts - attempts
      {
        if |zone.vertices| == 0 {
          break;
        }
        var randomIndex := draw(attempts) % |zone.vertices|;
        var candidate := zone.vertices[randomIndex];
        var d := distance(candidate, from);
        if d < MinDistance || d > MaxDistance {
          attempts := attempts + 1;
          continue;
        }
        var targetGroup := zone.groupOf(candidate).GetOr(0);
        var targetNode := zone.closestNode(candidate, targetGroup);
        if targetNode.None? {
          attempts := attempts + 1;
          continue;
        }
        target := targetNode.value;
        probes := probes + [candidate];
        var reply := zone.findPath(from, target, group);
        if reply.Thrown? {
          return Threw, target;
        }
        var found := if reply.Waypoints? then reply.points else [];
        if |found| > 0 {
          return Found(found), target;
        }
        attempts := attempts + 1;
      }
      end := Exhausted;
    }

    /** The group pickNewTarget plans in: the position's group, or, when it has none, the group after a snap (0 when still none). */
    method ResolveGroup() returns (group: int)
      requires nav.Some?
      modifies this`position
      ensures State() == PickStart(old(State())) && group == PickGroup(old(State()))
    {
      var found := nav.value.groupOf(position);
      if found.Some? {
        return found.value;
      }
      SnapToNavMesh();
      group := nav.value.groupOf(position).GetOr(0);
    }

    method PickNewTarget(draw: nat -> nat)
      requires isActive == !wasHitByBullet
      requires nav.None? ==> Valid()
      modifies this
      ensures Valid() && State() == Pick(old(State()), distance, draw)
    {
      PickKeepsInv(State(), distance, draw);
      if nav.None? {
        return;
      }
      var zone := nav.value;
      ghost var s0 := State();
      var group := ResolveGroup();
      var end, target := SampleTarget(zone, position, group, draw, targetPosition);
      PickByEnd(s0, distance, draw);
      targetPosition := target;
      ghost var s1 := State();
      match end {
        case Found(w) =>
          path := w;
          currentWayPointIndex := 0;
          assert State() == s1.(path := w, cursor := 0);
        case Threw =>
          // the catch block
          path := [];
          assert State() == s1.(path := []);
        case Exhausted =>
          path := [];
          assert State() == s1.(path := []);
          Respawn();
      }
    }

    /** The 3000 ms callback scheduled by a processed hit. */
    method RespawnTimerFired()
      requires Valid() && pendingRespawns > 0
      modifies this
      ensures Valid() && State() == RespawnFired(old(State()))
    {
      pendingRespawns := pendingRespawns - 1;
      Respawn();
    }

    /** The 100 ms callback scheduled by respawn. */
    method SettleTimerFired(draw: nat -> nat)
      requires Valid() && pendingSettles > 0
      modifies this
      ensures Valid() && State() == SettleFired(old(State()), distance, draw)
    {
      pendingSettles := pendingSettles - 1;
      if nav.Some? {
        PickNewTarget(draw);
      }
    }

    /** The continuation of `GameObject.instantiate(onDeathEffect)`, with the object it resolved to, if any. */
    method DeathEffectSpawned(handle: Option<nat>)
      requires Valid() && pendingEffects > 0
      modifies this
      ensures Valid() && State() == EffectSpawned(old(State()), handle)
    {
      pendingEffects := pendingEffects - 1;
      if handle.Some? {
        deathEffect := Some(DeathEffect(handle.value, Add(position, EffectOffset)));
      }
    }
  }
}
