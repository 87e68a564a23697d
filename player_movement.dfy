/** The player's grid-step movement: input is read while idle, turned into one
    of four isometric directions, checked against the world, and animated
    over a fixed duration that ends with an exact snap to the target. */
module PlayerMovementModel {
  import opened Geometry

  /** The four isometric directions, or none. */
  datatype Heading = NoHeading | IsoRight | IsoLeft | IsoForward | IsoBack

  /** The dominant input axis picks the direction; ties go to the vertical axis. */
  function ChooseHeading(input: Vec2): (h: Heading)
    ensures h == IsoRight <==> Abs(input.x) > Abs(input.y) && input.x > 0.0
    ensures h == IsoLeft <==> Abs(input.x) > Abs(input.y) && input.x < 0.0
    ensures h == IsoForward <==> Abs(input.x) <= Abs(input.y) && input.y > 0.0
    ensures h == IsoBack <==> Abs(input.x) <= Abs(input.y) && input.y < 0.0
    ensures h == NoHeading <==> input.x == 0.0 && input.y == 0.0
  {
    if Abs(input.x) > Abs(input.y) then
      if input.x > 0.0 then IsoRight else if input.x < 0.0 then IsoLeft else NoHeading
    else
      if input.y > 0.0 then IsoForward else if input.y < 0.0 then IsoBack else NoHeading
  }

  /** `moveInput.magnitude > 0.1`, squared to stay in exact arithmetic. */
  predicate PastDeadzone(input: Vec2) {
    input.x * input.x + input.y * input.y > 0.01
  }

  /** Input past the dead zone always picks a direction. */
  lemma PastDeadzoneHasHeading(input: Vec2)
    requires PastDeadzone(input)
    ensures ChooseHeading(input) != NoHeading
  {
  }

  /** `CanMoveToPosition`: false if the obstacle box cast hits or the ground
      raycast under the target finds nothing. */
  function CanMoveToPosition(obstacleHit: bool, groundFound: bool): (free: bool)
    ensures obstacleHit ==> !free
    ensures !obstacleHit ==> (free <==> groundFound)
  {
    !obstacleHit && groundFound
  }

  class PlayerMovement {
    const gridSize: real
    const moveDuration: real
    const jumpHeight: real
    /** The normalised isometric axes, (0.5, 0, 0.5) and (0.5, 0, -0.5) normalised. */
    const isoForward: Vec3
    const isoRight: Vec3
    /** The move input action was found or created. */
    const hasMoveAction: bool

    var position: Vec3
    var isMoving: bool
    var startPosition: Vec3
    var targetPosition: Vec3
    var moveTimer: real
    var moveInput: Vec2
    var inputReceived: bool

    /** Non-zero axes, a move in progress (which needs a non-zero grid step)
        heads for a grid-aligned target at its start height, and no input is
        pending while moving. Any grid size and duration are allowed. */
    ghost predicate Valid()
      reads this
    {
      isoForward != Zero && isoRight != Zero
      && (isMoving ==> gridSize != 0.0 && OnGrid(targetPosition, gridSize) && targetPosition.y == startPosition.y)
      && (isMoving ==> !inputReceived)
    }

    constructor (grid: real, duration: real, jump: real, forward: Vec3, right: Vec3,
                 moveAction: bool, p: Vec3)
      requires forward != Zero && right != Zero
      ensures Valid() && !isMoving && !inputReceived && position == p && moveTimer == 0.0
      ensures gridSize == grid && moveDuration == duration && jumpHeight == jump
      ensures isoForward == forward && isoRight == right && hasMoveAction == moveAction
    {
      gridSize, moveDuration, jumpHeight := grid, duration, jump;
      isoForward, isoRight := forward, right;
      hasMoveAction := moveAction;
      position := p;
      isMoving := false;
      startPosition, targetPosition := p, p;
      moveTimer := 0.0;
      moveInput := Vec2(0.0, 0.0);
      inputReceived := false;
    }

    /** The world-space step of one move in the given direction: zero when
        there is no direction, and also for every direction when the grid size
        is zero. */
    function DirectionVector(h: Heading): (d: Vec3)
      requires isoForward != Zero && isoRight != Zero
      ensures d == Zero <==> h == NoHeading || gridSize == 0.0
    {
      match h
      case NoHeading => Zero
      case IsoRight => ScaleNonZero(isoRight, gridSize); Scale(isoRight, gridSize)
      case IsoLeft => ScaleNonZero(Neg(isoRight), gridSize); Scale(Neg(isoRight), gridSize)
      case IsoForward => ScaleNonZero(isoForward, gridSize); Scale(isoForward, gridSize)
      case IsoBack => ScaleNonZero(Neg(isoForward), gridSize); Scale(Neg(isoForward), gridSize)
    }

    /** A fresh move from `from` in direction `h` has just begun. */
    ghost predicate MoveStarted(from: Vec3, h: Heading)
      reads this
      requires gridSize != 0.0 && isoForward != Zero && isoRight != Zero
    {
      isMoving && moveTimer == 0.0 && startPosition == from
      && targetPosition == AlignedTarget(from, DirectionVector(h), gridSize)
    }

    /** One frame of a move has been taken, the timer now reading `timer`: at
        full progress the move is over and the player sits exactly on the
        target; before that it is on the eased path, raised by the jump arc. */
    ghost predicate StepTaken(timer: real, jumpArc: real)
      reads this
    {
      var t := MoveProgress(timer, moveDuration);
      moveTimer == timer
      && isMoving == (t < 1.0)
      && (t >= 1.0 ==> position == targetPosition)
      && (t < 1.0 ==> position == Add(Lerp(startPosition, targetPosition, EaseInOutCubic(t)),
                                      Scale(Up, jumpHeight * jumpArc)))
    }

    /** One frame. `readValue` is the move action's current value;
        `obstacleHit` and `groundFound` answer the physics queries of
        `CanMoveToPosition`; `jumpArc` is `Mathf.Sin(easedT * Mathf.PI)`. */
    method Update(readValue: Vec2, deltaTime: real, obstacleHit: bool, groundFound: bool, jumpArc: real)
      requires Valid()
      modifies this
      ensures Valid()
      ensures !inputReceived
      ensures old(isMoving) ==>
        (moveInput == old(moveInput)
         && startPosition == old(startPosition) && targetPosition == old(targetPosition)
         && StepTaken(old(moveTimer) + deltaTime, jumpArc))
      ensures !old(isMoving) ==>
        var input := if hasMoveAction then readValue else old(moveInput);
        var pending := old(inputReceived) || (hasMoveAction && PastDeadzone(readValue));
        var h := ChooseHeading(input);
        var starts := pending && h != NoHeading && gridSize != 0.0 && CanMoveToPosition(obstacleHit, groundFound);
        && moveInput == input
        && (starts ==> startPosition == old(position)
                       && targetPosition == AlignedTarget(old(position), DirectionVector(h), gridSize)
                       && StepTaken(deltaTime, jumpArc))
        && (!starts ==> !isMoving && position == old(position) && moveTimer == old(moveTimer)
                        && startPosition == old(startPosition) && targetPosition == old(targetPosition))
    {
      if hasMoveAction && !isMoving {
        moveInput := readValue;
        if PastDeadzone(moveInput) {
          inputReceived := true;
        }
      }
      if !isMoving && inputReceived {
        ProcessMovementInput(obstacleHit, groundFound);
        inputReceived := false;
      }
      if isMoving {
        UpdateMovement(deltaTime, jumpArc);
      }
    }

    /** Turns the held input into a move, if it names a direction and the
        world lets the player go there; otherwise the input is dropped. */
    method ProcessMovementInput(obstacleHit: bool, groundFound: bool)
      requires Valid() && !isMoving
      modifies this`isMoving, this`moveTimer, this`startPosition, this`targetPosition
      ensures var h := ChooseHeading(moveInput);
        var starts := h != NoHeading && gridSize != 0.0 && CanMoveToPosition(obstacleHit, groundFound);
        && (starts ==> MoveStarted(position, h))
        && (!starts ==> !isMoving && moveTimer == old(moveTimer)
                        && startPosition == old(startPosition) && targetPosition == old(targetPosition))
      ensures isMoving ==> gridSize != 0.0 && OnGrid(targetPosition, gridSize) && targetPosition.y == startPosition.y
    {
      var movementDirection := DirectionVector(ChooseHeading(moveInput));
      if movementDirection != Zero && CanMoveToPosition(obstacleHit, groundFound) {
        StartMovement(movementDirection);
      }
    }

    method StartMovement(direction: Vec3)
      requires gridSize != 0.0
      modifies this`isMoving, this`moveTimer, this`startPosition, this`targetPosition
      ensures isMoving && moveTimer == 0.0 && startPosition == position
      ensures targetPosition == AlignedTarget(position, direction, gridSize)
      ensures OnGrid(targetPosition, gridSize) && targetPosition.y == startPosition.y
    {
      isMoving := true;
      moveTimer := 0.0;
      startPosition := position;
      targetPosition := Add(startPosition, direction);
      targetPosition := Vec3(AlignToGrid(targetPosition.x, gridSize), startPosition.y,
                             AlignToGrid(targetPosition.z, gridSize));
      AlignedTargetOnGrid(startPosition, direction, gridSize);
    }

    method UpdateMovement(deltaTime: real, jumpArc: real)
      requires isMoving
      modifies this`moveTimer, this`position, this`isMoving
      ensures StepTaken(old(moveTimer) + deltaTime, jumpArc)
    {
      moveTimer := moveTimer + deltaTime;
      var t := MoveProgress(moveTimer, moveDuration);
      var easedT := EaseInOutCubic(t);
      var horizontalPos := Lerp(startPosition, targetPosition, easedT);
      var verticalOffset := Scale(Up, jumpHeight * jumpArc);
      position := Add(horizontalPos, verticalOffset);
      if t >= 1.0 {
        isMoving := false;
        position := targetPosition;
      }
    }

    /** Lets another script queue one input; ignored while a move is in progress. */
    method Move(inputDirection: Vec2)
      requires Valid()
      modifies this`moveInput, this`inputReceived
      ensures Valid()
      ensures old(isMoving) ==> moveInput == old(moveInput) && inputReceived == old(inputReceived)
      ensures !old(isMoving) ==> moveInput == inputDirection && inputReceived
    {
      if !isMoving {
        moveInput := inputDirection;
        inputReceived := true;
      }
    }
  }

  /** Diagonal input counts as vertical: up-right moves forward. */
  lemma DiagonalGoesForward()
    ensures ChooseHeading(Vec2(1.0, 1.0)) == IsoForward
    ensures ChooseHeading(Vec2(-1.0, -1.0)) == IsoBack
  {
  }

  /** A non-zero vector scales to zero exactly when the factor is zero. */
  lemma ScaleNonZero(v: Vec3, k: real)
    requires v != Zero
    ensures Scale(v, k) == Zero <==> k == 0.0
  {
    if k == 0.0 {
    } else if v.x != 0.0 {
      assert v.x * k != 0.0;
    } else if v.y != 0.0 {
      assert v.y * k != 0.0;
    } else {
      assert v.z * k != 0.0;
    }
  }
}
