/**
 * The enemy agent (enemyAiBehaviour.ts, class AiEnemyBehaviour): a patrol
 * state machine over a baked navigation mesh that follows waypoints, picks
 * new targets by bounded rejection sampling, reacts to bullet hits and
 * respawns on a timer.
 *
 * The three-pathfinding library is an oracle (`Navigation`); Math.random is
 * an index stream `draw` (attempt number to a raw index); Euclidean distance
 * is the oracle `distance`; the `setTimeout` callbacks and the death-effect
 * promise are event methods that the host calls when a pending one fires.
 *
 * Each operation is specified by a function on `AgentState` (the agent's
 * fields as a value); the class `Agent` holds the same fields and each of its
 * methods is proved to move `State()` as that function says.
 */
module EnemyAiSpec {
  import opened Common
  import opened SceneTree

  /** Policy constants of pickNewTarget, update and onCollisionEnter. */
  const MaxAttempts: nat := 20
  const MinDistance: real := 3.0
  const MaxDistance: real := 8.0
  const MovementSpeed: real := 0.5
  const TargetThreshold: real := 0.5
  const BulletLayer: int := 3
  /** The effect is placed one unit above the agent. */
  const EffectOffset := Vec3(0.0, 1.0, 0.0)

  /** What `findPath` gives back: an array, `null`/`undefined`, or an exception. */
  datatype PathReply = Waypoints(points: seq<Vec3>) | NullPath | Thrown

  /**
   * The pathfinder and its zone "level1": the zone's vertex pool, `getGroup`,
   * `getClosestNode` (the centroid of the node it finds) and `findPath`.
   */
  datatype Navigation = Navigation(
    vertices: seq<Vec3>,
    groupOf: Vec3 -> Option<int>,
    closestNode: (Vec3, int) -> Option<Vec3>,
    findPath: (Vec3, Vec3, int) -> PathReply)

  /** How onEnable's asset loading ends: the zone built from the geometry, or why there is none. */
  datatype NavAsset = Unassigned | LoadFailed | NoGeometry | Loaded(zone: Navigation)

  /** The spawned death-effect object: a handle and where it was placed. */
  datatype DeathEffect = DeathEffect(handle: nat, position: Vec3)

  /** The agent's fields, plus the callbacks the agent has scheduled and that have not fired yet. */
  datatype AgentState = AgentState(
    nav: Option<Navigation>,
    position: Vec3,
    initialPosition: Vec3,
    targetPosition: Vec3,
    path: seq<Vec3>,
    cursor: nat,
    isActive: bool,
    wasHit: bool,
    deathEffect: Option<DeathEffect>,
    body: Node,
    pendingRespawns: nat,
    pendingSettles: nat,
    pendingEffects: nat)

  /**
   * The flags always flip together, and a non-empty path always has its
   * cursor on one of its waypoints.
   */
  ghost predicate Inv(s: AgentState) {
    s.isActive == !s.wasHit && (s.path != [] ==> s.cursor < |s.path|)
  }

  /** The field values of a freshly constructed component. */
  function Initial(position: Vec3, body: Node): AgentState {
    AgentState(None, position, Origin, Origin, [], 0, true, false, None, body, 0, 0, 0)
  }

  // ---------------------------------------------------------------------------
  // snapToNavMesh

  /** The closest node's centroid in the point's group (group 0 when it has none), or the point itself. */
  function Snapped(zone: Navigation, p: Vec3): Vec3 {
    match zone.closestNode(p, zone.groupOf(p).GetOr(0))
    case Some(centroid) => centroid
    case None => p
  }

  function Snap(s: AgentState): AgentState {
    if s.nav.None? then s else s.(position := Snapped(s.nav.value, s.position))
  }

  // ---------------------------------------------------------------------------
  // onCollisionEnter

  predicate HitCounts(s: AgentState, layer: int) {
    s.isActive && layer == BulletLayer && !s.wasHit
  }

  function Hit(s: AgentState, layer: int): AgentState {
    if !HitCounts(s, layer) then s
    else s.(wasHit := true, body := HideAll(s.body), isActive := false, path := [],
            pendingEffects := s.pendingEffects + 1, pendingRespawns := s.pendingRespawns + 1)
  }

  // ---------------------------------------------------------------------------
  // respawn

  function Respawned(s: AgentState): AgentState {
    if s.nav.None? then s
    else s.(position := Snapped(s.nav.value, s.initialPosition), body := ShowAll(s.body),
            wasHit := false, isActive := true, deathEffect := None,
            pendingSettles := s.pendingSettles + 1)
  }

  // ---------------------------------------------------------------------------
  // pickNewTarget

  predicate InBand(d: real) {
    MinDistance <= d <= MaxDistance
  }

  datatype SearchEnd = Found(path: seq<Vec3>) | Exhausted | Threw

  /**
   * How the sampling loop ends, the last target it set, the attempt counter
   * at that point and the candidate vertices whose node reached `findPath`.
   */
  datatype SearchResult = SearchResult(end: SearchEnd, target: Vec3, attempts: nat, probes: seq<Vec3>)

  /** The sampling loop of pickNewTarget from attempt `attempts` on, with accumulators `target` and `probes`. */
  function Search(zone: Navigation, distance: (Vec3, Vec3) -> real, from: Vec3, group: int,
                  draw: nat -> nat, attempts: nat, target: Vec3, probes: seq<Vec3>): SearchResult
    decreases MaxAttempts - attempts
  {
    if attempts >= MaxAttempts || |zone.vertices| == 0 then SearchResult(Exhausted, target, attempts, probes)
    else
      var candidate := zone.vertices[draw(attempts) % |zone.vertices|];
      if !InBand(distance(candidate, from)) then
        Search(zone, distance, from, group, draw, attempts + 1, target, probes)
      else
        match zone.closestNode(candidate, zone.groupOf(candidate).GetOr(0))
        case None => Search(zone, distance, from, group, draw, attempts + 1, target, probes)
        case Some(centroid) =>
          match zone.findPath(from, centroid, group)
          case Thrown => SearchResult(Threw, centroid, attempts, probes + [candidate])
          case NullPath => Search(zone, distance, from, group, draw, attempts + 1, centroid, probes + [candidate])
          case Waypoints(w) =>
            if |w| > 0 then SearchResult(Found(w), centroid, attempts, probes + [candidate])
            else Search(zone, distance, from, group, draw, attempts + 1, centroid, probes + [candidate])
  }

  /** The state once pickNewTarget has a group: snapped first when the position had none. */
  function PickStart(s: AgentState): AgentState
    requires s.nav.Some?
  {
    if s.nav.value.groupOf(s.position).None? then Snap(s) else s
  }

  /** The group used for planning; after a snap a missing group becomes 0. */
  function PickGroup(s: AgentState): int
    requires s.nav.Some?
  {
    match s.nav.value.groupOf(s.position)
    case Some(g) => g
    case None => s.nav.value.groupOf(PickStart(s).position).GetOr(0)
  }

  function PickSearch(s: AgentState, distance: (Vec3, Vec3) -> real, draw: nat -> nat): SearchResult
    requires s.nav.Some?
  {
    var s1 := PickStart(s);
    Search(s.nav.value, distance, s1.position, PickGroup(s), draw, 0, s1.targetPosition, [])
  }

  function Pick(s: AgentState, distance: (Vec3, Vec3) -> real, draw: nat -> nat): AgentState {
    if s.nav.None? then s
    else
      var s1 := PickStart(s);
      var r := PickSearch(s, distance, draw);
      match r.end
      case Found(w) => s1.(path := w, cursor := 0, targetPosition := r.target)
      case Threw => s1.(path := [], targetPosition := r.target)
      case Exhausted => Respawned(s1.(path := [], targetPosition := r.target))
  }

  // ---------------------------------------------------------------------------
  // update

  /** Math.min(movementSpeed, distance / 0.5). */
  function SmoothSpeed(d: real): (speed: real)
    ensures speed <= MovementSpeed && speed <= d / 0.5
    ensures speed == MovementSpeed || speed == d / 0.5
  {
    if MovementSpeed <= d / 0.5 then MovementSpeed else d / 0.5
  }

  /** `from` moved by `step` along the unit direction toward `to`, whose distance from `from` is `d`. */
  function StepToward(from: Vec3, to: Vec3, d: real, step: real): Vec3
    requires d != 0.0
  {
    Add(from, Scale(Sub(to, from), step / d))
  }

  /** Where a far-away waypoint pulls the agent this tick. */
  function NextPosition(s: AgentState, distance: (Vec3, Vec3) -> real, dt: real): Vec3
    requires s.cursor < |s.path|
    requires distance(s.path[s.cursor], s.position) > TargetThreshold
  {
    var d := distance(s.path[s.cursor], s.position);
    StepToward(s.position, s.path[s.cursor], d, SmoothSpeed(d) * dt)
  }

  predicate TickSkipped(s: AgentState) {
    s.nav.None? || s.wasHit || !s.isActive
  }

  function Tick(s: AgentState, distance: (Vec3, Vec3) -> real, dt: real, draw: nat -> nat): AgentState
    requires s.path != [] ==> s.cursor < |s.path|
  {
    if TickSkipped(s) then s
    else if |s.path| > 0 then
      if distance(s.path[s.cursor], s.position) > TargetThreshold then
        var next := NextPosition(s, distance, dt);
        if s.nav.value.groupOf(next).Some? then s.(position := next) else s
      else
        var s1 := s.(cursor := s.cursor + 1);
        if s1.cursor >= |s.path| then Pick(s1, distance, draw) else s1
    else Pick(s, distance, draw)
  }

  // ---------------------------------------------------------------------------
  // onEnable, timer callbacks and the death-effect promise

  function Enable(s: AgentState, asset: NavAsset, distance: (Vec3, Vec3) -> real, draw: nat -> nat): AgentState {
    match asset
    case Unassigned => s
    case LoadFailed => s.(initialPosition := s.position)
    case NoGeometry => s.(initialPosition := s.position)
    case Loaded(zone) => Pick(Snap(s.(initialPosition := s.position, nav := Some(zone))), distance, draw)
  }

  function RespawnFired(s: AgentState): AgentState
    requires s.pendingRespawns > 0
  {
    Respawned(s.(pendingRespawns := s.pendingRespawns - 1))
  }

  function SettleFired(s: AgentState, distance: (Vec3, Vec3) -> real, draw: nat -> nat): AgentState
    requires s.pendingSettles > 0
  {
    var s1 := s.(pendingSettles := s.pendingSettles - 1);
    if s1.nav.Some? then Pick(s1, distance, draw) else s1
  }

  function EffectSpawned(s: AgentState, handle: Option<nat>): AgentState
    requires s.pendingEffects > 0
  {
    var s1 := s.(pendingEffects := s.pendingEffects - 1);
    match handle
    case None => s1
    case Some(h) => s1.(deathEffect := Some(DeathEffect(h, Add(s.position, EffectOffset))))
  }
}
