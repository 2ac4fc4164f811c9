/**
 * The agent's scene-graph subtree and the two walks that hide it on a hit and
 * show it again on respawn (enemyAiBehaviour.ts, hideAllMeshesAndColliders and
 * showAllMeshesAndColliders).  `Object3D.traverse` visits the root and every
 * descendant; on each node the walk sets `visible` when the node is a Mesh and
 * `userData.enabled` when `userData.isCollider` is set.  Afterwards the root's
 * own `visible` is set as a fallback.
 */
module SceneTree {
  import opened Common

  datatype Node = Node(isMesh: bool, isCollider: bool, visible: bool, enabled: bool, children: seq<Node>)

  /** The node reached from `n` by following child indices `p`, if any. */
  function At(n: Node, p: seq<nat>): Option<Node>
    decreases |p|
  {
    if p == [] then Some(n)
    else if p[0] < |n.children| then At(n.children[p[0]], p[1..])
    else None
  }

  /** The callback of `traverse`, applied to every node of the subtree. */
  function Walk(n: Node, on: bool): Node
    decreases n
  {
    Node(n.isMesh, n.isCollider,
         if n.isMesh then on else n.visible,
         if n.isCollider then on else n.enabled,
         seq(|n.children|, i requires 0 <= i < |n.children| => Walk(n.children[i], on)))
  }

  function SetRootVisible(n: Node, v: bool): Node {
    n.(visible := v)
  }

  /** hideAllMeshesAndColliders: the walk with `false`, then the root hidden. */
  function HideAll(n: Node): Node {
    SetRootVisible(Walk(n, false), false)
  }

  /** showAllMeshesAndColliders: the walk with `true`, then the root shown. */
  function ShowAll(n: Node): Node {
    SetRootVisible(Walk(n, true), true)
  }

  /** What a walk with flag `on` leaves at one node whose old state was `m`. */
  ghost predicate WalkedFrom(m': Node, m: Node, on: bool) {
    m'.isMesh == m.isMesh && m'.isCollider == m.isCollider &&
    |m'.children| == |m.children| &&
    m'.visible == (if m.isMesh then on else m.visible) &&
    m'.enabled == (if m.isCollider then on else m.enabled)
  }

  /**
   * The walk reaches every node of the tree: the same paths exist before and
   * after, every Mesh node's `visible` and every collider's `enabled` becomes
   * `on`, and nothing else changes.
   */
  lemma {:induction false} WalkAt(n: Node, on: bool, p: seq<nat>)
    ensures At(Walk(n, on), p).Some? <==> At(n, p).Some?
    ensures At(n, p).Some? ==> WalkedFrom(At(Walk(n, on), p).value, At(n, p).value, on)
    decreases |p|
  {
    if p != [] && p[0] < |n.children| {
      WalkAt(n.children[p[0]], on, p[1..]);
    }
  }

  /** Hiding: every Mesh node and the root become invisible, every collider disabled, nothing else changes. */
  lemma HideAllAt(n: Node, p: seq<nat>)
    ensures At(HideAll(n), p).Some? <==> At(n, p).Some?
    ensures At(n, p).Some? ==>
      var m, m' := At(n, p).value, At(HideAll(n), p).value;
      m'.isMesh == m.isMesh && m'.isCollider == m.isCollider && |m'.children| == |m.children| &&
      m'.visible == (if m.isMesh || p == [] then false else m.visible) &&
      m'.enabled == (if m.isCollider then false else m.enabled)
  {
    WalkAt(n, false, p);
    if p != [] && p[0] < |n.children| {
      assert HideAll(n).children == Walk(n, false).children;
    }
  }

  /** Showing: every Mesh node and the root become visible, every collider enabled, nothing else changes. */
  lemma ShowAllAt(n: Node, p: seq<nat>)
    ensures At(ShowAll(n), p).Some? <==> At(n, p).Some?
    ensures At(n, p).Some? ==>
      var m, m' := At(n, p).value, At(ShowAll(n), p).value;
      m'.isMesh == m.isMesh && m'.isCollider == m.isCollider && |m'.children| == |m.children| &&
      m'.visible == (if m.isMesh || p == [] then true else m.visible) &&
      m'.enabled == (if m.isCollider then true else m.enabled)
  {
    WalkAt(n, true, p);
    if p != [] && p[0] < |n.children| {
      assert ShowAll(n).children == Walk(n, true).children;
    }
  }

  /** A second walk with the same flag changes nothing more. */
  lemma {:induction false} WalkIdempotent(n: Node, on: bool)
    ensures Walk(Walk(n, on), on) == Walk(n, on)
    decreases n
  {
    var w := Walk(n, on);
    forall i | 0 <= i < |n.children|
      ensures Walk(w, on).children[i] == w.children[i]
    {
      WalkIdempotent(n.children[i], on);
    }
  }

  /** A walk with `on` after a walk with `!on` is the same as the first walk never having happened. */
  lemma {:induction false} WalkOverrides(n: Node, on: bool, before: bool)
    ensures Walk(Walk(n, before), on) == Walk(n, on)
    decreases n
  {
    forall i | 0 <= i < |n.children|
      ensures Walk(Walk(n, before), on).children[i] == Walk(n, on).children[i]
    {
      WalkOverrides(n.children[i], on, before);
    }
  }

  /** Once the root's `visible` is overwritten, the root's earlier `visible` leaves no trace. */
  lemma WalkThenSetRoot(n: Node, on: bool, v: bool, w: bool)
    ensures SetRootVisible(Walk(SetRootVisible(n, v), on), w) == SetRootVisible(Walk(n, on), w)
  {
  }

  /** Hiding twice is hiding once. */
  lemma HideAllIdempotent(n: Node)
    ensures HideAll(HideAll(n)) == HideAll(n)
  {
    WalkThenSetRoot(Walk(n, false), false, false, false);
    WalkIdempotent(n, false);
  }

  /** Showing twice is showing once. */
  lemma ShowAllIdempotent(n: Node)
    ensures ShowAll(ShowAll(n)) == ShowAll(n)
  {
    WalkThenSetRoot(Walk(n, true), true, true, true);
    WalkIdempotent(n, true);
  }

  /**
   * Showing after hiding gives what showing alone gives: the hide leaves no
   * trace, and the flags come back as `true`, not as they were before the hide.
   */
  lemma ShowAfterHide(n: Node)
    ensures ShowAll(HideAll(n)) == ShowAll(n)
  {
    WalkThenSetRoot(Walk(n, false), true, false, true);
    WalkOverrides(n, true, false);
  }
}
