// The input manager: the movement direction from the pressed keys and the
// right-button press edge. The keyboard, the mouse button and the cursor
// are read from the window; here they are arguments.

module Input {
  import opened Objects

  /** The keys the input manager asks about. */
  datatype Key = W | Up | S | Down | A | Left | D | Right | Escape | R

  /** One axis of the movement: -1 for the negative key alone, +1 for the
      positive key alone, 0 for neither or both. */
  function Axis(negative: bool, positive: bool): (v: real)
    ensures v == -1.0 || v == 0.0 || v == 1.0
    ensures v == -1.0 <==> negative && !positive
    ensures v == 1.0 <==> positive && !negative
  {
    (if negative then -1.0 else 0.0) + (if positive then 1.0 else 0.0)
  }

  /** getMovementInput: up (W or Up) and down (S or Down) on y, left (A or
      Left) and right (D or Right) on x; y grows downwards. */
  function GetMovementInput(pressed: set<Key>): (m: Vec2)
    ensures m.x == Axis(A in pressed || Left in pressed, D in pressed || Right in pressed)
    ensures m.y == Axis(W in pressed || Up in pressed, S in pressed || Down in pressed)
  {
    var m := Vec2(0.0, 0.0);
    var m := if W in pressed || Up in pressed then Vec2(m.x, m.y - 1.0) else m;
    var m := if S in pressed || Down in pressed then Vec2(m.x, m.y + 1.0) else m;
    var m := if A in pressed || Left in pressed then Vec2(m.x - 1.0, m.y) else m;
    var m := if D in pressed || Right in pressed then Vec2(m.x + 1.0, m.y) else m;
    m
  }

  /** Each component is -1, 0 or 1, and opposing keys cancel. */
  lemma MovementBounded(pressed: set<Key>)
    ensures var m := GetMovementInput(pressed);
      && (m.x == -1.0 || m.x == 0.0 || m.x == 1.0)
      && (m.y == -1.0 || m.y == 0.0 || m.y == 1.0)
    ensures (W in pressed || Up in pressed) && (S in pressed || Down in pressed) ==> GetMovementInput(pressed).y == 0.0
    ensures (A in pressed || Left in pressed) && (D in pressed || Right in pressed) ==> GetMovementInput(pressed).x == 0.0
  {
  }

  /** isExitPressed: Escape is down. */
  predicate IsExitPressed(pressed: set<Key>)
  {
    Escape in pressed
  }

  /** isRestartPressed: R is down. */
  predicate IsRestartPressed(pressed: set<Key>)
  {
    R in pressed
  }

  class InputManager {
    var rightMousePressed: bool
    var rightMouseJustPressed: bool
    var mousePosition: Vec2

    /** A just-pressed button is a pressed button. */
    predicate Valid()
      reads this
    {
      rightMouseJustPressed ==> rightMousePressed
    }

    /** InputManager(window): no button down, the cursor at the origin. */
    constructor ()
      ensures Valid()
      ensures !rightMousePressed && !rightMouseJustPressed && mousePosition == Vec2(0.0, 0.0)
    {
      rightMousePressed := false;
      rightMouseJustPressed := false;
      mousePosition := Vec2(0.0, 0.0);
    }

    /** update: the cursor position is stored; the button counts as just
        pressed exactly when it is down now and was not at the last
        update, so it is never just pressed on two updates in a row. */
    method Update(cursor: Vec2, rightDown: bool)
      requires Valid()
      modifies this
      ensures Valid()
      ensures mousePosition == cursor
      ensures rightMouseJustPressed == (rightDown && !old(rightMousePressed))
      ensures rightMousePressed == rightDown
      ensures old(rightMouseJustPressed) ==> !rightMouseJustPressed
    {
      mousePosition := cursor;
      var currentRightPressed := rightDown;
      rightMouseJustPressed := currentRightPressed && !rightMousePressed;
      rightMousePressed := currentRightPressed;
    }
  }
}
