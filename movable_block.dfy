/** A block the player can push one grid cell, if the cell beyond it is clear. */
module MovableBlockModel {
  import opened Geometry
  import opened Interaction

  class MovableBlock {
    const gridSize: real
    const moveDuration: real
    const jumpHeight: real
    /** `GetComponent<Collider>()` found a collider in `Awake`. */
    const hasCollider: bool
    /** The visual child's local position captured in `Awake`. */
    const visualStartPosition: Vec3

    var position: Vec3
    var visualLocalPosition: Vec3
    var isMoving: bool
    var startPosition: Vec3
    var targetPosition: Vec3
    var moveTimer: real

    /** A non-zero grid step, and a move in progress heads for a grid-aligned
        target at its start height. Any duration is allowed. */
    ghost predicate Valid()
      reads this
    {
      gridSize != 0.0
      && (isMoving ==> OnGrid(targetPosition, gridSize) && targetPosition.y == startPosition.y)
    }

    /** The block after `Awake`, idle at `p` with its visual at `visual`. */
    constructor (grid: real, duration: real, jump: real, collider: bool, p: Vec3, visual: Vec3)
      requires grid != 0.0
      ensures Valid() && !isMoving && moveTimer == 0.0
      ensures gridSize == grid && moveDuration == duration && jumpHeight == jump
      ensures hasCollider == collider && position == p
      ensures visualStartPosition == visual && visualLocalPosition == visual
    {
      gridSize, moveDuration, jumpHeight := grid, duration, jump;
      hasCollider := collider;
      position := p;
      visualStartPosition, visualLocalPosition := visual, visual;
      isMoving := false;
      startPosition, targetPosition := p, p;
      moveTimer := 0.0;
    }

    /** Whether the cell the block would move into is occupied; `raycastHit`
        is the physics raycast. Without a collider the cell counts as clear. */
    function CheckCollisionAtPosition(raycastHit: bool): (occupied: bool)
      ensures !hasCollider ==> !occupied
      ensures hasCollider ==> (occupied <==> raycastHit)
    {
      hasCollider && raycastHit
    }

    /** The block may move iff its destination is clear. */
    function CanBlockMoveTo(direction: Vec3, raycastHit: bool): (clear: bool)
      ensures !hasCollider ==> clear
      ensures hasCollider ==> (clear <==> !raycastHit)
    {
      !CheckCollisionAtPosition(raycastHit)
    }

    /** The block's answer when the player pushes it: yes iff its own next cell
        is clear, and in that case it starts its own move (unless one is
        already in progress, which is then left alone). */
    method CanPlayerMoveHere(interactionData: InteractionData, raycastHit: bool) returns (allowed: bool)
      requires Valid()
      modifies this
      ensures Valid()
      ensures allowed <==> !(hasCollider && raycastHit)
      ensures !hasCollider ==> allowed
      ensures allowed && !old(isMoving) ==> MoveStarted(old(position), interactionData.direction)
      ensures !allowed || old(isMoving) ==> Unchanged(old(isMoving), old(startPosition), old(targetPosition), old(moveTimer))
      ensures position == old(position) && visualLocalPosition == old(visualLocalPosition)
    {
      var canBlockMove := CanBlockMoveTo(interactionData.direction, raycastHit);
      if canBlockMove {
        StartBlockMovement(interactionData.direction);
        return true;
      }
      return false;
    }

    /** A fresh move from `from` by `direction` has just begun. */
    ghost predicate MoveStarted(from: Vec3, direction: Vec3)
      reads this
      requires gridSize != 0.0
    {
      isMoving && moveTimer == 0.0 && startPosition == from
      && targetPosition == AlignedTarget(from, direction, gridSize)
    }

    /** The movement state is as it was. */
    ghost predicate Unchanged(moving: bool, start: Vec3, target: Vec3, timer: real)
      reads this
    {
      isMoving == moving && startPosition == start && targetPosition == target && moveTimer == timer
    }

    method StartBlockMovement(direction: Vec3)
      requires Valid()
      modifies this`startPosition, this`targetPosition, this`isMoving, this`moveTimer
      ensures Valid()
      ensures !old(isMoving) ==> MoveStarted(position, direction)
      ensures old(isMoving) ==> Unchanged(old(isMoving), old(startPosition), old(targetPosition), old(moveTimer))
    {
      if isMoving {
        return;
      }
      startPosition := position;
      targetPosition := Add(startPosition, direction);
      targetPosition := Vec3(AlignToGrid(targetPosition.x, gridSize), startPosition.y,
                             AlignToGrid(targetPosition.z, gridSize));
      AlignedTargetOnGrid(startPosition, direction, gridSize);
      isMoving := true;
      moveTimer := 0.0;
    }

    /** The per-frame `Update`: advances a move in progress, nothing otherwise. */
    method Update(deltaTime: real, jumpArc: real)
      requires Valid()
      modifies this
      ensures Valid()
      ensures !old(isMoving) ==>
        Unchanged(old(isMoving), old(startPosition), old(targetPosition), old(moveTimer))
        && position == old(position) && visualLocalPosition == old(visualLocalPosition)
      ensures old(isMoving) ==>
        startPosition == old(startPosition) && targetPosition == old(targetPosition)
        && StepTaken(old(moveTimer) + deltaTime, jumpArc)
    {
      if isMoving {
        UpdateBlockMovement(deltaTime, jumpArc);
      }
    }

    /** One frame of a move has been taken, the timer now reading `timer`: at
        full progress the move is over and the block and its visual sit exactly
        at the target and the visual's rest position; before that the block is
        on the eased path and its visual is raised by the jump arc. */
    ghost predicate StepTaken(timer: real, jumpArc: real)
      reads this
    {
      var t := MoveProgress(timer, moveDuration);
      moveTimer == timer
      && isMoving == (t < 1.0)
      && (t >= 1.0 ==> position == targetPosition && visualLocalPosition == visualStartPosition)
      && (t < 1.0 ==> position == Lerp(startPosition, targetPosition, EaseInOutCubic(t))
                         && visualLocalPosition == Add(visualStartPosition, Scale(Up, jumpHeight * jumpArc)))
    }

    /** `jumpArc` is the caller's `Mathf.Sin(easedT * Mathf.PI)`. */
    method UpdateBlockMovement(deltaTime: real, jumpArc: real)
      requires Valid() && isMoving
      modifies this
      ensures Valid()
      ensures startPosition == old(startPosition) && targetPosition == old(targetPosition)
      ensures StepTaken(old(moveTimer) + deltaTime, jumpArc)
    {
      moveTimer := moveTimer + deltaTime;
      var t := MoveProgress(moveTimer, moveDuration);
      var easedT := EaseInOutCubic(t);
      position := Lerp(startPosition, targetPosition, easedT);
      visualLocalPosition := Add(visualStartPosition, Scale(Up, jumpHeight * jumpArc));
      if t >= 1.0 {
        isMoving := false;
        position := targetPosition;
        visualLocalPosition := visualStartPosition;
      }
    }
  }

  /** A block at the origin pushed one cell along +z with grid size 1 heads
      for (0, 0, 1) exactly. */
  lemma PushAlongZScenario()
    ensures AlignedTarget(Vec3(0.0, 0.0, 0.0), Vec3(0.0, 0.0, 1.0), 1.0) == Vec3(0.0, 0.0, 1.0)
  {
    assert Round(0.0) == 0;
    assert Round(1.0) == 1;
  }
}
