/**
 * The snake of a grid arcade game: its heading, the chain of grid cells it
 * occupies (head first) and the cell it vacated on its most recent move.
 * The game loop that drives it, food, walls and drawing are outside.
 */
module Snake {

  /** The four headings the snake can take. */
  datatype Direction = Up | Down | Left | Right

  /** An optional value, as the snake's saved tail cell and a move's override heading are. */
  datatype Option<T> = None | Some(value: T)

  /** One grid cell, compared by value. Coordinates are unbounded integers. */
  datatype Block = Block(x: int, y: int)

  /** The reverse heading: Up and Down swap, Left and Right swap. */
  function Opposite(d: Direction): (r: Direction)
    ensures r != d
  {
    match d
    case Up => Down
    case Down => Up
    case Left => Right
    case Right => Left
  }

  /** Reversing twice gives the heading back. */
  lemma OppositeInvolution(d: Direction)
    ensures Opposite(Opposite(d)) == d
  {
  }

  /** Every heading is the opposite of exactly one heading. */
  lemma OppositeUnique(d: Direction, e: Direction)
    ensures Opposite(d) == Opposite(e) <==> d == e
  {
  }

  function Abs(n: int): nat
  {
    if n < 0 then -n else n
  }

  /** Two cells are neighbours: they differ by one unit in exactly one coordinate. */
  predicate Adjacent(a: Block, b: Block)
  {
    Abs(a.x - b.x) + Abs(a.y - b.y) == 1
  }

  /**
   * The unit displacement of one step in heading d, in screen coordinates
   * (y grows downwards, so Up decreases y).
   */
  function Delta(d: Direction): (v: (int, int))
    ensures Abs(v.0) + Abs(v.1) == 1
    ensures d == Up || d == Down <==> v.0 == 0
  {
    match d
    case Up => (0, -1)
    case Down => (0, 1)
    case Left => (-1, 0)
    case Right => (1, 0)
  }

  /** The cell one step from b in heading d: the reference delta rule. */
  function Step(b: Block, d: Direction): (r: Block)
    ensures Adjacent(b, r)
  {
    Block(b.x + Delta(d).0, b.y + Delta(d).1)
  }

  /** Opposite headings have opposite displacements. */
  lemma DeltaOpposite(d: Direction)
    ensures Delta(Opposite(d)) == (-Delta(d).0, -Delta(d).1)
  {
  }

  /** A step followed by a step in the opposite heading returns to the start. */
  lemma StepThenOpposite(b: Block, d: Direction)
    ensures Step(Step(b, d), Opposite(d)) == b
  {
  }

  /** The heading a move uses: the override when one is given, else the current one. */
  function Heading(current: Direction, dir: Option<Direction>): Direction
  {
    match dir
    case Some(d) => d
    case None => current
  }

  /** Consecutive cells of a body meet: they are neighbours or the same cell. */
  predicate Touching(a: Block, b: Block)
  {
    a == b || Adjacent(a, b)
  }

  /** A body is a path on the grid: each cell touches the next one. */
  ghost predicate Path(s: seq<Block>)
  {
    forall i, j :: 0 <= i < j < |s| && j == i + 1 ==> Touching(s[i], s[j])
  }

  /** The body after one move in heading d: a new head in front, the last cell gone. */
  function Advance(s: seq<Block>, d: Direction): seq<Block>
    requires |s| > 0
  {
    [Step(s[0], d)] + s[..|s| - 1]
  }

  /**
   * How many leading cells of an n-cell body the self-collision test compares:
   * all but the last, except that a one-cell body has its only cell compared.
   */
  function Compared(n: nat): nat
  {
    if n <= 1 then n else n - 1
  }

  /** The answer of the self-collision test for cell c against body s. */
  predicate Overlaps(s: seq<Block>, c: Block)
  {
    exists i :: 0 <= i < Compared(|s|) && s[i] == c
  }

  /** A move keeps the length of the body. */
  lemma AdvanceKeepsLength(s: seq<Block>, d: Direction)
    requires |s| > 0
    ensures |Advance(s, d)| == |s|
    ensures Advance(s, d)[1..] == s[..|s| - 1]
  {
  }

  /** A move keeps the body a path: the new head is a neighbour of the old one. */
  lemma AdvancePath(s: seq<Block>, d: Direction)
    requires |s| > 0 && Path(s)
    ensures Path(Advance(s, d))
  {
  }

  /**
   * Growth: a move followed by putting the vacated cell back amounts to
   * pushing the new head onto the unchanged body.
   */
  lemma AdvanceThenGrow(s: seq<Block>, d: Direction)
    requires |s| > 0
    ensures Advance(s, d) + [s[|s| - 1]] == [Step(s[0], d)] + s
  {
  }

  /**
   * Why the last cell is left out of the self-collision test: for a body of
   * two or more cells, cell c overlaps the body exactly when c is occupied by
   * the part of the body that stays in place on the next move.
   */
  lemma OverlapsBeforeMove(s: seq<Block>, c: Block, d: Direction)
    requires |s| >= 2
    ensures Overlaps(s, c) <==> c in Advance(s, d)[1..]
  {
  }

  /** A one-cell body is compared on its only cell, so its own head overlaps it. */
  lemma OverlapsSingleCell(b: Block, c: Block)
    ensures Overlaps([b], c) <==> c == b
  {
    if c == b {
      assert [b][0] == c;
    }
  }

  class Snake {
    var direction: Direction
    /** The occupied cells, head first. */
    var body: seq<Block>
    /** The cell dropped from the end of the body by the most recent move. */
    var tail: Option<Block>

    /**
     * The invariant of every snake the game can reach: at least three cells,
     * laid out as a path, with the saved tail cell touching the last cell.
     */
    ghost predicate Valid()
      reads this
    {
      |body| >= 3 && Path(body) &&
      (tail.Some? ==> Touching(body[|body| - 1], tail.value))
    }

    /** The starting snake: three cells in a row from (x, y) rightwards, heading Right. */
    constructor (x: int, y: int)
      ensures body == [Block(x + 2, y), Block(x + 1, y), Block(x, y)]
      ensures direction == Right && tail == None
      ensures Valid()
    {
      var cells: seq<Block> := [];
      cells := cells + [Block(x + 2, y)];
      cells := cells + [Block(x + 1, y)];
      cells := cells + [Block(x, y)];
      direction := Right;
      body := cells;
      tail := None;
      assert Adjacent(cells[0], cells[1]) && Adjacent(cells[1], cells[2]);
    }

    /** The coordinates of the head cell. */
    function HeadPosition(): (p: (int, int))
      reads this
      requires |body| > 0
      ensures Block(p.0, p.1) == body[0]
    {
      (body[0].x, body[0].y)
    }

    /** The current heading. */
    function HeadDirection(): (d: Direction)
      reads this
      ensures d == direction
    {
      direction
    }

    /**
     * Where the head would go on a move with the optional override heading,
     * without changing anything.
     */
    function NextHead(dir: Option<Direction>): (p: (int, int))
      reads this
      requires |body| > 0
      ensures Block(p.0, p.1) == Step(body[0], Heading(direction, dir))
      ensures Adjacent(body[0], Block(p.0, p.1))
    {
      var (headX, headY) := HeadPosition();
      var moving := if dir.Some? then dir.value else direction;
      match moving
      case Up => (headX, headY - 1)
      case Down => (headX, headY + 1)
      case Left => (headX - 1, headY)
      case Right => (headX + 1, headY)
    }

    /**
     * One move: take the override heading if given, push the next head cell
     * in front and drop the last cell into the saved tail.
     */
    method MoveForward(dir: Option<Direction>)
      requires |body| > 0
      modifies this
      ensures direction == Heading(old(direction), dir)
      ensures |body| == old(|body|)
      ensures (body[0].x, body[0].y) == old(NextHead(dir))
      ensures body[1..] == old(body[..|body| - 1])
      ensures body == Advance(old(body), direction)
      ensures tail == Some(old(body[|body| - 1]))
      ensures old(Valid()) ==> Valid()
    {
      ghost var before := body;
      match dir {
        case Some(d) => direction := d;
        case None =>
      }
      var (lastX, lastY) := HeadPosition();
      var newBlock := match direction
        case Up => Block(lastX, lastY - 1)
        case Down => Block(lastX, lastY + 1)
        case Left => Block(lastX - 1, lastY)
        case Right => Block(lastX + 1, lastY);
      body := [newBlock] + body;
      var removedBlock := body[|body| - 1];
      body := body[..|body| - 1];
      tail := Some(removedBlock);
      assert body == Advance(before, direction);
      AdvanceKeepsLength(before, direction);
      if |before| >= 3 && Path(before) {
        AdvancePath(before, direction);
        assert body[|body| - 1] == before[|before| - 2];
      }
    }

    /** Growth: append the saved tail cell to the body; the saved cell stays saved. */
    method RestoreTail()
      requires tail.Some?
      modifies this
      ensures body == old(body) + [old(tail).value]
      ensures tail == old(tail) && direction == old(direction)
      ensures old(Valid()) ==> Valid()
    {
      var blk := tail.value;
      body := body + [blk];
    }

    /**
     * Self-collision test of cell (x, y): scans the body from the head and
     * stops before the last cell, except on a one-cell body, whose only cell
     * is compared.
     */
    method OverlapTail(x: int, y: int) returns (r: bool)
      ensures r == Overlaps(body, Block(x, y))
      ensures |body| >= 2 ==> (r <==> Block(x, y) in body[..|body| - 1])
      ensures |body| == 1 ==> (r <==> body[0] == Block(x, y))
    {
      // ch counts the cells visited so far, so body[ch] is the cell the loop is at
      var ch: nat := 0;
      while ch < |body|
        invariant |body| >= 2 ==> ch < |body| - 1
        invariant |body| <= 1 ==> ch <= |body|
        invariant forall i :: 0 <= i < ch ==> body[i] != Block(x, y)
      {
        var block := body[ch];
        if x == block.x && y == block.y {
          assert body[ch] == Block(x, y);
          return true;
        }
        ch := ch + 1;
        if ch == |body| - 1 {
          break;
        }
      }
      assert |body| >= 2 ==> body[..|body| - 1] == body[..ch];
      return false;
    }
  }

  /**
   * A client run from the origin: start, move without an override, then grow;
   * each state follows from the contracts alone.
   */
  method MoveThenGrowFromOrigin()
  {
    var s := new Snake(0, 0);
    s.MoveForward(None);
    assert s.body[0] == Block(3, 0) && s.tail == Some(Block(0, 0));
    s.RestoreTail();
    assert |s.body| == 4 && s.body[3] == Block(0, 0);
  }

  /** A client of the self-collision test: the last cell is never reported. */
  method CollisionOnStartingSnake()
  {
    var s := new Snake(3, 5);
    var collides := s.OverlapTail(4, 5);
    assert s.body[1] == Block(4, 5);
    assert collides;
    collides := s.OverlapTail(3, 5);
    assert !collides;
  }

  /** A client turning the snake: the override heading sets the new head and heading. */
  method TurnUpFromOrigin()
  {
    var s := new Snake(1, 0);
    s.MoveForward(Some(Up));
    assert s.HeadPosition() == (3, -1) && s.HeadDirection() == Up;
  }
}
