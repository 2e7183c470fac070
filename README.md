# Snake: a verified model of the snake entity

This project models the snake of a small grid arcade game written in Rust
(`snake/src/snake.rs`). The snake has a heading (`Direction`), a body of grid
cells (`Block`) stored head first, and a saved `tail` cell: the cell dropped from
the end of the body by the most recent move, which the game puts back to make
the snake grow.

`snake.dfy` holds one module, `Snake`:

- `Direction`, `Block` and `Option` as datatypes. `Opposite` is the reverse
  heading. `Delta` and `Step` are the reference rule for one step on the grid.
  Up decreases `y`, as on a screen.
- `Advance` says what the body becomes after one move. `Overlaps` (with
  `Compared`) says which cells the self-collision test reports. Lemmas about
  these functions state what a move keeps and what growth does.
- `class Snake` has the three fields of the Rust struct. The body, a
  `LinkedList<Block>` in the source, is a `seq<Block>` field that the methods
  reassign. `new`, `move_forward` and `restore_tail` become the constructor and
  methods that change state. `overlap_tail` becomes a method with the source's
  loop: a counter, an early return on a match, and a break before the last
  cell. `head_position`, `head_direction` and `next_head` become functions that
  read the object.
- The ghost predicate `Valid()` is the invariant of every snake the game can
  reach. The body has at least three cells. Consecutive cells are neighbours
  or the same cell (the same cell happens after growing twice from one move).
  The saved tail cell touches the last cell. The constructor establishes it,
  and `MoveForward` and `RestoreTail` preserve it.
- Three client methods show that the contracts alone are enough to work out
  concrete states: a move then growth from the origin, the self-collision test
  on a starting snake, and a turn Up.

Preconditions follow the source's panics. `head_position`, `next_head` and
`move_forward` call `front().unwrap()`, so they require a non-empty body.
`restore_tail` calls `unwrap()` on the saved cell, so it requires `tail` to be
`Some`. `overlap_tail` has no precondition: on an empty body its loop never runs
and it returns false.

The self-collision test on a one-cell body: some descriptions of this game say
it always answers false there. The code compares the single cell before testing
its counter, so it answers true on that cell. The model follows the code
(`OverlapTail`, `OverlapsSingleCell`). Every body the game can reach has at
least three cells, so the difference never shows in play.

## Model

| member | source | states |
|---|---|---|
| `Snake.Opposite` | snake/src/snake.rs:26-33 | no heading is its own opposite |
| `Snake.OppositeInvolution` | snake/src/snake.rs:26-33 | the opposite of the opposite is the heading itself |
| `Snake.OppositeUnique` | snake/src/snake.rs:26-33 | two headings have the same opposite exactly when they are equal |
| `Snake.Delta` | snake/src/snake.rs:139-144 | a step changes exactly one coordinate by one unit; Up and Down leave x unchanged |
| `Snake.Step` | snake/src/snake.rs:101-118 | the next cell is a grid neighbour of the current one |
| `Snake.DeltaOpposite` | snake/src/snake.rs:139-144 | opposite headings move by opposite displacements |
| `Snake.StepThenOpposite` | snake/src/snake.rs:101-118 | a step followed by a step in the opposite heading returns to the start cell |
| `Snake.Snake.constructor` | snake/src/snake.rs:55-77 | the body is (x+2,y), (x+1,y), (x,y) head first, the heading is Right, no tail is saved, and the invariant holds |
| `Snake.Snake.HeadPosition` | snake/src/snake.rs:87-90 | on a non-empty body, returns the coordinates of the first cell and changes nothing |
| `Snake.Snake.HeadDirection` | snake/src/snake.rs:125-127 | returns the current heading and changes nothing |
| `Snake.Snake.NextHead` | snake/src/snake.rs:130-145 | the head moved one step by the override heading if given, else by the current one; it is a neighbour of the head; nothing changes |
| `Snake.Snake.MoveForward` | snake/src/snake.rs:93-122 | the heading becomes the override if given; the length is unchanged; the new head is what `NextHead` gave before the move; the other cells are the old body without its last cell; the saved tail is the old last cell; the invariant is kept |
| `Snake.Snake.RestoreTail` | snake/src/snake.rs:148-151 | with a saved tail, appends it to the body (length + 1) and leaves the saved tail and the heading unchanged; the invariant is kept |
| `Snake.Snake.OverlapTail` | snake/src/snake.rs:154-167 | for two or more cells, true exactly when (x, y) is one of the cells before the last; for one cell, true exactly when (x, y) is that cell; false on an empty body |
| `Snake.AdvanceKeepsLength` | snake/src/snake.rs:119-120 | pushing a head and dropping the last cell keeps the length; the cells after the new head are the old body without its last cell |
| `Snake.AdvancePath` | snake/src/snake.rs:99-120 | a move keeps the body a path of touching cells |
| `Snake.AdvanceThenGrow` | snake/src/snake.rs:119-121 | a move followed by putting the vacated cell back equals pushing the new head onto the whole old body |
| `Snake.OverlapsBeforeMove` | snake/src/snake.rs:154-167 | for two or more cells, the self-collision test reports a cell exactly when the next move leaves that cell occupied by the body behind the new head |
| `Snake.OverlapsSingleCell` | snake/src/snake.rs:154-167 | on a one-cell body the test reports exactly that cell |

## Left out

- `Snake::draw` and `SNAKE_COLOR` (snake/src/snake.rs:10, 80-84): drawing goes through `piston_window` and `crate::draw::draw_block`, which are not part of this model, and the colour is a floating-point constant.
- 32-bit integers: coordinates are unbounded integers, so the overflow of `x+2`, `x+1` and the one-unit moves on `i32` is not modelled.
- The linked list: the body is a sequence, so the constant cost of pushing at the front and popping at the back is not captured.
- The game loop, input handling, food, scoring and wall collision are not in `snake/src/snake.rs` and are not part of this model.
