/**
 * What the enemy agent's operations guarantee, proved about the functions of
 * EnemyAiSpec: the guards of update and onCollisionEnter, the flag pair, the
 * cursor bound, the attempt budget and distance band of pickNewTarget with its
 * three outcomes, and what respawn restores.
 */
module EnemyAiProperties {
  import opened Common
  import opened SceneTree
  import opened EnemyAiSpec

  /**
   * Loop iterations one run of the sampling loop takes: each one counts an
   * attempt or ends the call. Only a loop whose condition fails ends without
   * a final iteration; an empty vertex pool ends in one that breaks.
   */
  function Iterations(r: SearchResult): nat {
    if r.end.Exhausted? && r.attempts >= MaxAttempts then r.attempts else r.attempts + 1
  }

  /**
   * The sampling loop is bounded by the attempt budget, only candidates in the
   * distance band reach `findPath`, a found path is non-empty, and the loop
   * gives up only when the budget is spent or the vertex pool is empty.
   */
  lemma {:induction false} SearchBounded(zone: Navigation, distance: (Vec3, Vec3) -> real, from: Vec3, group: int,
                                         draw: nat -> nat, attempts: nat, target: Vec3, probes: seq<Vec3>)
    requires attempts <= MaxAttempts && |probes| <= attempts
    requires forall c | c in probes :: InBand(distance(c, from))
    ensures var r := Search(zone, distance, from, group, draw, attempts, target, probes);
      attempts <= r.attempts && Iterations(r) <= MaxAttempts && |r.probes| <= Iterations(r) &&
      (forall c | c in r.probes :: InBand(distance(c, from))) &&
      (r.end.Found? ==> |r.end.path| > 0) &&
      (r.end.Exhausted? ==> r.attempts == MaxAttempts || |zone.vertices| == 0)
    decreases MaxAttempts - attempts
  {
    if attempts < MaxAttempts && |zone.vertices| > 0 {
      var candidate := zone.vertices[draw(attempts) % |zone.vertices|];
      if !InBand(distance(candidate, from)) {
        SearchBounded(zone, distance, from, group, draw, attempts + 1, target, probes);
      } else {
        match zone.closestNode(candidate, zone.groupOf(candidate).GetOr(0))
        case None =>
          SearchBounded(zone, distance, from, group, draw, attempts + 1, target, probes);
        case Some(centroid) =>
          SearchBounded(zone, distance, from, group, draw, attempts + 1, centroid, probes + [candidate]);
      }
    }
  }

  /** The same for a whole call of pickNewTarget: at most 20 iterations, and every probed candidate lies in [3, 8]. */
  lemma PickSearchBounded(s: AgentState, distance: (Vec3, Vec3) -> real, draw: nat -> nat)
    requires s.nav.Some?
    ensures var r := PickSearch(s, distance, draw);
      Iterations(r) <= MaxAttempts &&
      (forall c | c in r.probes :: MinDistance <= distance(c, PickStart(s).position) <= MaxDistance) &&
      (r.end.Found? ==> |r.end.path| > 0)
  {
    var s1 := PickStart(s);
    SearchBounded(s.nav.value, distance, s1.position, PickGroup(s), draw, 0, s1.targetPosition, []);
  }

  /**
   * pickNewTarget has exactly three outcomes: a plan (non-empty path, cursor 0,
   * no respawn); budget exhaustion or an empty vertex pool (empty path and a
   * forced respawn); an exception from the planner (empty path, no respawn).
   * Before sampling, the agent is snapped only when its position has no group.
   */
  lemma PickOutcomes(s: AgentState, distance: (Vec3, Vec3) -> real, draw: nat -> nat)
    requires s.nav.Some?
    ensures var r, p, s1 := PickSearch(s, distance, draw), Pick(s, distance, draw), PickStart(s);
      (s.nav.value.groupOf(s.position).Some? ==> s1 == s) &&
      (s.nav.value.groupOf(s.position).None? ==> s1 == s.(position := Snapped(s.nav.value, s.position))) &&
      (r.end.Found? ==>
        p.path != [] && p.cursor == 0 && p.targetPosition == r.target && p.position == s1.position &&
        p.isActive == s.isActive && p.wasHit == s.wasHit && p.pendingSettles == s.pendingSettles) &&
      (r.end.Threw? ==>
        p.path == [] && p.targetPosition == r.target && p.position == s1.position &&
        p.isActive == s.isActive && p.wasHit == s.wasHit && p.pendingSettles == s.pendingSettles) &&
      (r.end.Exhausted? ==>
        p.path == [] && p.targetPosition == r.target &&
        p.position == Snapped(s.nav.value, s.initialPosition) &&
        p.isActive && !p.wasHit && p.deathEffect.None? && p.pendingSettles == s.pendingSettles + 1)
  {
    PickSearchBounded(s, distance, draw);
  }

  /** pickNewTarget per ending of the sampling loop, from the state that has the loop's last target. */
  lemma PickByEnd(s: AgentState, distance: (Vec3, Vec3) -> real, draw: nat -> nat)
    requires s.nav.Some?
    ensures var r := PickSearch(s, distance, draw);
      var s1 := PickStart(s).(targetPosition := r.target);
      (r.end.Found? ==> Pick(s, distance, draw) == s1.(path := r.end.path, cursor := 0)) &&
      (r.end.Threw? ==> Pick(s, distance, draw) == s1.(path := [])) &&
      (r.end.Exhausted? ==> Pick(s, distance, draw) == Respawned(s1.(path := [])))
  {
  }

  // ---------------------------------------------------------------------------
  // onCollisionEnter

  /** A collision changes the state exactly when the agent is active, not yet hit, and the collider is on layer 3. */
  lemma HitFilter(s: AgentState, layer: int)
    ensures Hit(s, layer) == s <==> !(s.isActive && layer == BulletLayer && !s.wasHit)
  {
  }

  /**
   * A processed hit disables the agent (both flags flip), clears the path,
   * hides the body, and schedules one death effect and one respawn; the
   * position and the cursor stay.
   */
  lemma HitEffect(s: AgentState, layer: int)
    requires HitCounts(s, layer)
    ensures var h := Hit(s, layer);
      h.wasHit && !h.isActive && h.path == [] && h.body == HideAll(s.body) &&
      h.pendingRespawns == s.pendingRespawns + 1 && h.pendingEffects == s.pendingEffects + 1 &&
      h.pendingSettles == s.pendingSettles && h.position == s.position && h.cursor == s.cursor &&
      h.deathEffect == s.deathEffect
  {
  }

  /** A second hit before the respawn changes nothing and schedules no second respawn. */
  lemma SecondHitIgnored(s: AgentState, first: int, second: int)
    requires HitCounts(s, first)
    ensures Hit(Hit(s, first), second) == Hit(s, first)
  {
  }

  // ---------------------------------------------------------------------------
  // respawn

  /**
   * With a pathfinder, respawn puts the agent on the snapped initial position,
   * shows the body, flips both flags back, drops the death effect and
   * schedules the settle timer; the path and cursor stay. Without one it does nothing.
   */
  lemma RespawnRestores(s: AgentState)
    ensures s.nav.None? ==> Respawned(s) == s
    ensures s.nav.Some? ==>
      var r := Respawned(s);
      r.position == Snapped(s.nav.value, s.initialPosition) && r.body == ShowAll(s.body) &&
      r.isActive && !r.wasHit && r.deathEffect.None? &&
      r.pendingSettles == s.pendingSettles + 1 && r.pendingRespawns == s.pendingRespawns &&
      r.path == s.path && r.cursor == s.cursor
  {
  }

  /** Respawning an agent that has just respawned changes nothing but scheduling one more settle timer. */
  lemma RespawnIdempotent(s: AgentState)
    requires s.nav.Some?
    ensures Respawned(Respawned(s)) == Respawned(s).(pendingSettles := s.pendingSettles + 2)
  {
    ShowAllIdempotent(s.body);
  }

  /**
   * A hit followed by the 3000 ms timer: the agent stands on the snapped
   * initial position, active, with its body shown as if it had never been
   * hidden, no death effect, an empty path and the settle timer scheduled.
   */
  lemma HitThenRespawn(s: AgentState, layer: int)
    requires HitCounts(s, layer) && s.nav.Some?
    ensures var r := RespawnFired(Hit(s, layer));
      r.position == Snapped(s.nav.value, s.initialPosition) && r.isActive && !r.wasHit &&
      r.body == ShowAll(s.body) && r.deathEffect.None? && r.path == [] &&
      r.pendingRespawns == s.pendingRespawns && r.pendingSettles == s.pendingSettles + 1
  {
    ShowAfterHide(s.body);
  }

  // ---------------------------------------------------------------------------
  // update

  /** update does nothing without a pathfinder, after a hit, or while inactive. */
  lemma TickGuard(s: AgentState, distance: (Vec3, Vec3) -> real, dt: real, draw: nat -> nat)
    requires s.path != [] ==> s.cursor < |s.path|
    requires s.nav.None? || s.wasHit || !s.isActive
    ensures Tick(s, distance, dt, draw) == s
  {
  }

  /**
   * Far from the current waypoint, update keeps the path and the cursor and
   * changes nothing but the position; the position moves, to the stepped
   * point, only when that point has a group. The speed never exceeds movementSpeed.
   */
  lemma TickFar(s: AgentState, distance: (Vec3, Vec3) -> real, dt: real, draw: nat -> nat)
    requires s.path != [] ==> s.cursor < |s.path|
    requires !TickSkipped(s) && s.path != [] && distance(s.path[s.cursor], s.position) > TargetThreshold
    ensures var t, next := Tick(s, distance, dt, draw), NextPosition(s, distance, dt);
      t == s.(position := t.position) &&
      (t.position == next <== s.nav.value.groupOf(next).Some?) &&
      (t.position == s.position <== s.nav.value.groupOf(next).None?) &&
      SmoothSpeed(distance(s.path[s.cursor], s.position)) <= MovementSpeed
  {
  }

  /**
   * When the distance oracle is Euclidean, the step moves the agent exactly
   * `step` units (so at most movementSpeed * deltaTime per tick).
   */
  lemma StepLength(from: Vec3, to: Vec3, d: real, step: real)
    requires d > 0.0 && d * d == SqDist(to, from)
    ensures SqDist(StepToward(from, to, d, step), from) == step * step
  {
    var k := step / d;
    var v := Sub(to, from);
    assert Sub(StepToward(from, to, d, step), from) == Scale(v, k);
    calc {
      SqDist(StepToward(from, to, d, step), from);
      (k * v.x) * (k * v.x) + (k * v.y) * (k * v.y) + (k * v.z) * (k * v.z);
      k * k * (v.x * v.x + v.y * v.y + v.z * v.z);
      k * k * (d * d);
      { assert k * d == step; }
      step * step;
    }
  }

  /**
   * Within the threshold of the current waypoint, update advances the cursor
   * by exactly one, and picks a new target when that runs past the path's end.
   */
  lemma TickNear(s: AgentState, distance: (Vec3, Vec3) -> real, dt: real, draw: nat -> nat)
    requires s.path != [] ==> s.cursor < |s.path|
    requires !TickSkipped(s) && s.path != [] && distance(s.path[s.cursor], s.position) <= TargetThreshold
    ensures var t := Tick(s, distance, dt, draw);
      (s.cursor + 1 < |s.path| ==> t == s.(cursor := s.cursor + 1)) &&
      (s.cursor + 1 == |s.path| ==> t == Pick(s.(cursor := |s.path|), distance, draw))
  {
  }

  /** With an empty path, update picks a new target at once. */
  lemma TickEmpty(s: AgentState, distance: (Vec3, Vec3) -> real, dt: real, draw: nat -> nat)
    requires !TickSkipped(s) && s.path == []
    ensures Tick(s, distance, dt, draw) == Pick(s, distance, draw)
  {
  }

  // ---------------------------------------------------------------------------
  // The invariant

  lemma HitKeepsInv(s: AgentState, layer: int)
    requires Inv(s)
    ensures Inv(Hit(s, layer))
  {
  }

  lemma RespawnKeepsInv(s: AgentState)
    requires Inv(s)
    ensures Inv(Respawned(s))
  {
  }

  /**
   * After pickNewTarget the flags still agree, and a non-empty path starts at
   * cursor 0, whatever the cursor was before (with a pathfinder; without one
   * pickNewTarget does nothing).
   */
  lemma PickKeepsInv(s: AgentState, distance: (Vec3, Vec3) -> real, draw: nat -> nat)
    requires s.isActive == !s.wasHit
    requires s.nav.None? ==> Inv(s)
    ensures Inv(Pick(s, distance, draw))
  {
    if s.nav.Some? {
      PickOutcomes(s, distance, draw);
    }
  }

  /** After update the flags still agree, and a non-empty path has its cursor inside it. */
  lemma TickKeepsInv(s: AgentState, distance: (Vec3, Vec3) -> real, dt: real, draw: nat -> nat)
    requires Inv(s)
    ensures Inv(Tick(s, distance, dt, draw))
  {
    if !TickSkipped(s) {
      if s.path == [] {
        PickKeepsInv(s, distance, draw);
      } else if distance(s.path[s.cursor], s.position) <= TargetThreshold && s.cursor + 1 >= |s.path| {
        PickKeepsInv(s.(cursor := s.cursor + 1), distance, draw);
      }
    }
  }

  lemma EnableKeepsInv(s: AgentState, asset: NavAsset, distance: (Vec3, Vec3) -> real, draw: nat -> nat)
    requires Inv(s)
    ensures Inv(Enable(s, asset, distance, draw))
  {
    if asset.Loaded? {
      PickKeepsInv(Snap(s.(initialPosition := s.position, nav := Some(asset.zone))), distance, draw);
    }
  }

  lemma TimersKeepInv(s: AgentState, distance: (Vec3, Vec3) -> real, draw: nat -> nat, handle: Option<nat>)
    requires Inv(s)
    ensures s.pendingRespawns > 0 ==> Inv(RespawnFired(s))
    ensures s.pendingSettles > 0 ==> Inv(SettleFired(s, distance, draw))
    ensures s.pendingEffects > 0 ==> Inv(EffectSpawned(s, handle))
  {
    if s.pendingSettles > 0 {
      PickKeepsInv(s.(pendingSettles := s.pendingSettles - 1), distance, draw);
    }
  }

  /**
   * The 100 ms settle callback replans even when a hit came after the respawn
   * that scheduled it. If that replanning exhausts its budget, the forced
   * respawn revives the hit agent at once, while the respawn timer of the hit
   * is still pending and will respawn it a second time.
   */
  lemma SettleRevivesHitAgent(s: AgentState, distance: (Vec3, Vec3) -> real, draw: nat -> nat)
    requires s.wasHit && s.pendingSettles > 0 && s.pendingRespawns > 0 && s.nav.Some?
    requires PickSearch(s.(pendingSettles := s.pendingSettles - 1), distance, draw).end.Exhausted?
    ensures var t := SettleFired(s, distance, draw);
      t.isActive && !t.wasHit && t.body == ShowAll(s.body) && t.pendingRespawns == s.pendingRespawns &&
      t.pendingSettles == s.pendingSettles
  {
    PickOutcomes(s.(pendingSettles := s.pendingSettles - 1), distance, draw);
  }

  /** A fresh component satisfies the invariant. */
  lemma InitialInv(position: Vec3, body: Node)
    ensures Inv(Initial(position, body))
  {
  }

  // ---------------------------------------------------------------------------
  // onEnable

  /**
   * onEnable does nothing without an asset reference; otherwise it captures the
   * initial position, and only a loaded zone installs the pathfinder.
   */
  lemma EnableCaptures(s: AgentState, asset: NavAsset, distance: (Vec3, Vec3) -> real, draw: nat -> nat)
    ensures var e := Enable(s, asset, distance, draw);
      (asset.Unassigned? ==> e == s) &&
      (asset.LoadFailed? || asset.NoGeometry? ==> e == s.(initialPosition := s.position)) &&
      (asset.Loaded? ==> e.nav == Some(asset.zone) && e.initialPosition == s.position)
  {
    if asset.Loaded? {
      var s1 := Snap(s.(initialPosition := s.position, nav := Some(asset.zone)));
      PickOutcomes(s1, distance, draw);
    }
  }
}
