/** The on-screen direction pad: which buttons are held, and the movement
    vector it emits for them. */
module DirectionPad {

  datatype Pressed = Pressed(up: bool, down: bool, left: bool, right: bool)

  datatype Button = Up | Down | Left | Right

  function IsDown(p: Pressed, b: Button): bool
  {
    match b
    case Up => p.up
    case Down => p.down
    case Left => p.left
    case Right => p.right
  }

  /** A touch start (`held` true) or end (`held` false) on button b. */
  function SetButton(p: Pressed, b: Button, held: bool): (r: Pressed)
    ensures IsDown(r, b) == held
    ensures forall c :: c != b ==> IsDown(r, c) == IsDown(p, c)
  {
    match b
    case Up => p.(up := held)
    case Down => p.(down := held)
    case Left => p.(left := held)
    case Right => p.(right := held)
  }

  lemma ButtonsDetermine(a: Pressed, b: Pressed)
    requires forall k :: IsDown(a, k) == IsDown(b, k)
    ensures a == b
  {
    assert IsDown(a, Up) == IsDown(b, Up);
    assert IsDown(a, Down) == IsDown(b, Down);
    assert IsDown(a, Left) == IsDown(b, Left);
    assert IsDown(a, Right) == IsDown(b, Right);
  }

  /** Pressing and releasing a button that was up leaves the pad as it was. */
  lemma PressRelease(p: Pressed, b: Button)
    requires !IsDown(p, b)
    ensures SetButton(SetButton(p, b, true), b, false) == p
  {
    var r := SetButton(SetButton(p, b, true), b, false);
    forall k ensures IsDown(r, k) == IsDown(p, k) {
    }
    ButtonsDetermine(r, p);
  }

  /** The vector for the held buttons: each axis sums its two buttons, and a
      diagonal is divided by its length, which is the square root of two and
      is passed in as `sqrtTwo`. */
  method Direction(p: Pressed, sqrtTwo: real) returns (x: real, y: real)
    requires sqrtTwo > 0.0 && sqrtTwo * sqrtTwo == 2.0
    ensures x < 0.0 <==> p.left && !p.right
    ensures x > 0.0 <==> p.right && !p.left
    ensures y < 0.0 <==> p.up && !p.down
    ensures y > 0.0 <==> p.down && !p.up
    ensures (x == 0.0 || y == 0.0) ==> (x == 0.0 || x == 1.0 || x == -1.0) && (y == 0.0 || y == 1.0 || y == -1.0)
    ensures x != 0.0 && y != 0.0 ==> x * x == y * y
    ensures x != 0.0 || y != 0.0 ==> x * x + y * y == 1.0
  {
    x := 0.0;
    y := 0.0;
    if p.left { x := x - 1.0; }
    if p.right { x := x + 1.0; }
    if p.up { y := y - 1.0; }
    if p.down { y := y + 1.0; }
    if x != 0.0 && y != 0.0 {
      ghost var x0, y0 := x, y;
      assert x0 * x0 == 1.0 && y0 * y0 == 1.0;
      x := x / sqrtTwo;
      y := y / sqrtTwo;
      assert x * x == (x0 * x0) / (sqrtTwo * sqrtTwo);
      assert y * y == (y0 * y0) / (sqrtTwo * sqrtTwo);
    }
  }
}
