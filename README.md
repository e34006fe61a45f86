# goobcube: a verified model of the arcade's game logic

goobcube is a pygame arcade: a menu of five icons launches Bouncy Ball, Snake, Pong,
Asteroids or a MIDI Piano, and each game offers the same "return to menu?" prompt on
Escape. This project models, in Dafny, the logic behind those screens. Drawing, sound and
MIDI traffic are not modelled. The modelled parts are:

- **the shared return prompt** (`events.dfy`, module `Events`). Escape opens it, Left/Right
  toggle No/Yes, Enter confirms and Escape closes. Whether Enter on Yes also closes the prompt
  differs between games, so it is a parameter.
- **Bouncy Ball** (`ball.dfy`). The held arrows steer the ball, which moves and bounces off
  the wall band.
- **Snake** (`snake.dfy`). A grid board with at most one turn per move, fixed-interval moves,
  collision, eating, growth and restart.
- **Pong** (`pong.dfy`). Clamped paddles, ball flight, top/bottom bounce, paddle returns and
  scoring.
- **Piano note bookkeeping** (`piano.dfy`). The keyboard-to-note map, the set of held notes,
  instrument cycling, note names and the bouncing label.
- **Asteroids** (`asteroids_rules.dfy` holds the geometry and the collision pass as values;
  `asteroids.dfy` holds the session state and the game class). Wrap-around, waves, the shot
  rate limit, bullet life, splitting, scoring, lives with a grace period, and levels.
- **the menu and the application state machine** (`goobcube.dfy`). Grid navigation, the exit
  dialog, launch actions, and the per-frame dispatch between the menu and the games
  (`Loading`, `InMenu`, `InBall`, ...).

Each game object that the program mutates becomes a `class`. The class exposes abstraction
functions (`State()`, `PromptState()`, `PlayState()`). Every method is proved to move that
state exactly as a pure step function does, e.g. `State() == Frame(old(State()), dt, ...)`.
The game's rules are proved as lemmas about those step functions.

Everything the program reads from outside is an explicit input:

- the frame time `dt`;
- the keys held during a frame;
- random draws, as values with their ranges stated as preconditions;
- the heading vectors, in place of trigonometry;
- the pygame collision tests, as function parameters.

Where pygame's integer rectangles matter, the values are integers. Where the program uses
floats, they are reals.

## Model

| member | source | states |
|---|---|---|
| Events.PromptAfter | src/game_snake.py:56-71 | The new prompt keeps a 0/1 choice. Escape always opens it. A closed prompt ignores every other event, and so does an open one for any event other than a Left, Right or Enter key press. Left/Right toggle the choice and keep it open. Enter keeps the choice and leaves the prompt open exactly when Yes is chosen in a game that does not close on Yes. The prompt is open afterwards only if it was open before or the event was Escape. |
| Events.PromptResult | src/game_snake.py:61-63 | The handler reports `return_to_menu` exactly when the prompt takes an Enter while Yes is chosen; otherwise it reports nothing. |
| Ball.BandIsWallMinusRadius | src/game_ball.py:67-70 | The band the ball's centre is kept in is the wall `Rect(24, 96, WIDTH-48, HEIGHT-128)` shrunk by the radius 16 on every side. |
| Ball.Steer | src/game_ball.py:45-52 | The velocity on one axis changes by `accel*dt` for each arrow held on that axis, with opposite signs for the two arrows. |
| Ball.Bounce | src/game_ball.py:72-88 | After the bounce the position lies within the band. An overshoot on either side puts the ball on that edge and reverses its velocity. A position inside the band is left alone. |
| Ball.AxisStep | src/game_ball.py:61-88 | One axis of a frame ends inside the band, and the final velocity is the steered velocity or its reverse. |
| Ball.BallGame.constructor | src/game_ball.py:10-23 | A new game has the ball at the screen centre (480, 300) with velocity (220, -140), and its prompt closed on No. |
| Ball.BallGame.Reset | src/game_ball.py:15-23 | Reset recentres the ball and restores its velocity. It leaves the prompt fields untouched. |
| Ball.BallGame.ResetClosingPrompt | src/game_pong.py:26-27 | The corrected reset: as Reset, but it also closes the prompt and selects No, as Pong's reset does. |
| Ball.BallGame.HandleEvent | src/game_ball.py:25-39 | The event moves the prompt as `PromptAfter` does for a game that does not close on Yes. The handler reports as `PromptResult` does. The ball is not touched. |
| Ball.BallGame.MoveAxis | src/game_ball.py:45-88 | One axis of the frame equals `AxisStep`. |
| Ball.BallGame.Update | src/game_ball.py:41-92 | With the prompt open nothing changes. Otherwise each axis advances by `AxisStep` with its own arrows. The prompt is unchanged in both cases. |
| Ball.StalePromptOnReentry | src/game_ball.py:33-34 | As written, the sequence Escape, Right, Enter followed by `reset` finds the prompt still open with Yes selected. A frame then leaves the ball frozen. |
| Ball.FreshPromptOnReentry | src/game_ball.py:15-23 | With the corrected reset, the same sequence lets the next frame of 0.25 s move the ball to `480 + 220*0.25` with the prompt closed. |
| Snake.GridSize | src/game_snake.py:11-13 | The grid is `(960-48)//24 = 38` cells wide and `(600-128)//24 = 19` cells high. |
| Snake.FirstFree | src/game_snake.py:46-52 | The index returned is that of the first drawn cell off the snake. Every earlier draw lies on the snake. |
| Snake.Spawned | src/game_snake.py:46-52 | Spawning changes only the food, which lands on a grid cell that is not on the snake. |
| Snake.FrameTimer | src/game_snake.py:94-101 | The move timer grows by `dt` and loses one interval of 0.13 s when it reaches it. Below the interval, a frame changes nothing but the timer. |
| Snake.StartedValid | src/game_snake.py:30-37 | A reset gives a valid board: a one-cell snake in the middle heading right, score 0 and nothing to grow. The snake is alive and has not turned, and the move timer is kept. |
| Snake.TurnRules | src/game_snake.py:72-85 | A turn never reverses the direction. It either changes nothing or changes just the direction and sets the turned flag. Once the snake has turned, further keys are ignored until the next move. |
| Snake.AtMostOneTurn | src/game_snake.py:73 | After one accepted turn a second key changes nothing. |
| Snake.BlockedMoveKills | src/game_snake.py:108-113 | A move into a wall or into the body only kills the snake: nothing else changes. |
| Snake.TailCellBlocks | src/game_snake.py:110 | Moving onto the current tail cell is a collision, because the test runs before the tail is dropped. |
| Snake.FreeMove | src/game_snake.py:114-123 | On a free move, eating pushes the head, keeps the tail, adds one point and puts new food off the snake. Otherwise the head is pushed, the tail is dropped, and score and food are kept. |
| Snake.NoReverse | src/game_snake.py:74-85 | On a valid board the next head is never the neck cell. |
| Snake.DropTailKeeps | src/game_snake.py:123 | Dropping the tail keeps the body on the grid, distinct and connected. |
| Snake.PushHeadKeeps | src/game_snake.py:114 | Pushing an adjacent free grid cell as the head keeps the body on the grid, distinct and connected. |
| Snake.StepAdjacent | src/game_snake.py:104-106 | The next head is adjacent to the old head, and a second step in the same direction does not lead back to the old head. |
| Snake.EatKeepsValid | src/game_snake.py:114-121 | A move that eats keeps the board valid. |
| Snake.StepKeepsValid | src/game_snake.py:114-123 | A move that does not eat keeps the board valid. |
| Snake.FrameKeepsValid | src/game_snake.py:90-101 | Every frame keeps the board valid. |
| Snake.MoveFrameValid | src/game_snake.py:98-101 | A frame that moves keeps the board valid. |
| Snake.WaitFrameValid | src/game_snake.py:96-98 | A frame that only advances the timer keeps the board valid. |
| Snake.RetimedValid | src/game_snake.py:96-99 | Changing the move timer keeps a board valid and ready to move. |
| Snake.MoveKeepsValid | src/game_snake.py:103-123 | Every move, blocked or free, keeps the board valid. |
| Snake.EventKeepsValid | src/game_snake.py:54-88 | Every event, including a turn or a restart on Enter after death, keeps the board valid. |
| Snake.ScoreIsLength | src/game_snake.py:115-123 | On a valid board the score is the snake's length minus one. |
| Snake.SnakeGame.constructor | src/game_snake.py:10-19 | A new game holds a freshly reset board and a closed prompt. |
| Snake.SnakeGame.FreeDraw | src/game_snake.py:47-52 | The loop finds the first drawn cell off the snake: it lies on the grid and is `FirstFree`. |
| Snake.SnakeGame.SpawnFood | src/game_snake.py:46-52 | The board becomes `Spawned`. |
| Snake.SnakeGame.Reset | src/game_snake.py:30-37 | The board becomes `Started`, and the prompt is left alone. |
| Snake.SnakeGame.HandleEvent | src/game_snake.py:54-88 | The prompt moves as `PromptAfter` (closing on Yes), the result is `PromptResult`, and the board moves as `EventBoard`. |
| Snake.SnakeGame.PromptEvent | src/game_snake.py:56-71 | The prompt branch moves only the prompt. |
| Snake.SnakeGame.Turn | src/game_snake.py:72-85 | The board becomes `Turned`. |
| Snake.SnakeGame.MoveSnake | src/game_snake.py:103-123 | The board becomes `MoveStep`. |
| Snake.SnakeGame.Update | src/game_snake.py:90-101 | With the prompt open or the snake dead nothing changes. Otherwise the board advances by `Frame`. |
| Snake.SnakeGame.Tick | src/game_snake.py:94-101 | The board advances by `Frame`. |
| Snake.SnakeGame.MoveDue | src/game_snake.py:99-101 | A due move sets the reduced timer, moves, and clears the turned flag. |
| Pong.ServedRules | src/game_pong.py:16-27 | A serve gives a valid court with score [0, 0]. The ball is alive at the centre, both paddles are centred, and the ball heads right exactly when the draw says so. The spin draw lies in [−0.5, 0.5], so the vertical speed is at most half the ball speed. |
| Pong.Clamp | src/game_pong.py:61-62 | A paddle ends within `[0, HEIGHT - 100]`. It is unchanged inside that range and pinned to the nearer end outside it. |
| Pong.PaddleBounced | src/game_pong.py:74-84 | A paddle hit keeps the ball's horizontal speed and changes only `x` and `dx`. It changes something only when the ball is moving toward a paddle it touches. A hit on the left paddle sends the ball right from its right edge. A hit on the right paddle sends it left from the paddle's left edge minus the ball size. |
| Pong.RalliedKeeps | src/game_pong.py:50-84 | The rally part of a frame keeps the score, the alive flag and the ball's horizontal speed, and leaves both paddles on screen. |
| Pong.FrameKeepsValid | src/game_pong.py:47-92 | Every frame keeps the court valid. |
| Pong.FramePaddlesOnScreen | src/game_pong.py:61-62 | After a live frame both paddles lie within `[0, HEIGHT - 100]`. |
| Pong.FrameScore | src/game_pong.py:87-92 | Leaving on the left scores for the right player, and leaving on the right scores for the left player. Otherwise the score is kept. The rally ends exactly when the ball leaves. |
| Pong.AtMostOnePoint | src/game_pong.py:87-92 | A frame adds at most one point, to one player, and only in the frame that ends the rally. |
| Pong.DeadFrameIsIdle | src/game_pong.py:48-49 | After a point, frames change nothing. |
| Pong.FrameWallContact | src/game_pong.py:68-70 | The vertical velocity is reversed exactly when the moved ball touches the top or bottom. |
| Pong.LeftPaddleSaves | src/game_pong.py:77-80 | A ball moving left that touches only the left paddle is returned from that paddle's edge with no point scored. |
| Pong.RightPaddleSaves | src/game_pong.py:81-84 | A ball moving right that touches the right paddle is returned from that paddle's edge with no point scored. |
| Pong.PromptKeepsValid | src/game_pong.py:29-42 | The prompt never sits closed with Yes selected. |
| Pong.EventKeepsValid | src/game_pong.py:29-45 | Every event keeps the court valid, including the restart on Enter after a point. |
| Pong.YesKeepsPromptOpen | src/game_pong.py:36-38 | Enter on Yes reports `return_to_menu` and leaves both prompt and court as they were. |
| Pong.PongGame.constructor | src/game_pong.py:7-14 | A new game holds a fresh serve and a closed prompt. |
| Pong.PongGame.Reset | src/game_pong.py:16-27 | Reset serves afresh and closes the prompt on No. |
| Pong.PongGame.HandleEvent | src/game_pong.py:29-45 | The prompt moves as `PromptAfter` (staying open on Yes), the result is `PromptResult`, and the court moves as `EventCourt`. |
| Pong.PongGame.MovePaddles | src/game_pong.py:50-62 | The paddles move by `Paddles`. |
| Pong.PongGame.MoveBall | src/game_pong.py:64-71 | The ball flies and bounces off the top or bottom. |
| Pong.PongGame.BouncePaddles | src/game_pong.py:74-84 | The ball's state becomes `PaddleBounced`. |
| Pong.PongGame.CheckPoint | src/game_pong.py:87-92 | The court becomes `Scored`. |
| Pong.PongGame.Update | src/game_pong.py:47-92 | With the prompt open nothing changes. Otherwise the court advances by `Frame`. |
| Piano.KeyMapsDisjoint | src/game_piano.py:29-38 | The white and black key maps share no key, and the merged map is their union. |
| Piano.KeyToNoteInverse | src/game_piano.py:38 | Every mapped key plays a note in 48..65, and that note maps back to the key. |
| Piano.WhiteNoteKey | src/game_piano.py:29-33 | Every white key plays a note in 48..65 whose key is that white key. |
| Piano.BlackNoteKey | src/game_piano.py:34-37 | Every black key plays a note in 48..65 whose key is that black key. |
| Piano.KeyForInverse | src/game_piano.py:29-38 | Every note in 48..65 has a key that plays it. |
| Piano.WhiteKeyFor | src/game_piano.py:29-33 | The key of a white note is a white key. |
| Piano.BlackKeyFor | src/game_piano.py:34-37 | The key of every other note in range is a black key. |
| Piano.KeyMapShape | src/game_piano.py:29-38 | The key map is a bijection from its 18 keys onto the notes 48..65. |
| Piano.NameIndex | src/game_piano.py:40 | An index in 0..11 names the given pitch class. |
| Piano.NameOctaveRoundTrip | src/game_piano.py:357-360 | The name and octave of a note determine it again, and note 60 is C4. |
| Piano.NextInstrument | src/game_piano.py:111-120 | The instrument stays a MIDI program in 0..127. |
| Piano.InstrumentRoundTrip | src/game_piano.py:112-117 | Up then Down, or Down then Up, returns to the same program. The cycle wraps from 127 to 0 and from 0 to 127. |
| Piano.WhiteHeightIsTwoFifths | src/game_piano.py:149 | The keyboard height is `int(HEIGHT * 0.4)`. |
| Piano.TruncBounds | src/game_piano.py:146-147 | `int()` truncates toward zero, for either sign. |
| Piano.EdgeBounce | src/game_piano.py:151-166 | Past the low edge the label is pinned there and moves away from it. Past the high edge it is pinned against that edge and moves back. Otherwise it is untouched. |
| Piano.EdgeBounceBounds | src/game_piano.py:151-166 | After a bounce the label lies within the edges and its speed is kept. |
| Piano.NotesOff | src/game_piano.py:325-335 | With an output port every held note is released. Without one the set is kept. Nothing else changes. |
| Piano.ResetState | src/game_piano.py:77-84 | Reset recentres the label at (W/2 − w/2, H/2 − h/2), keeps its size, clears the held notes, keeps the instrument and the output port, and restores the velocity (100, 100). |
| Piano.NoteSetRules | src/game_piano.py:122-132 | A mapped key press adds its note, and a press of a held note changes nothing. A release removes its note, and a release of an unheld note changes nothing. |
| Piano.UnmappedKeys | src/game_piano.py:122-132 | Unmapped keys neither add nor remove notes. |
| Piano.PressReleaseRoundTrip | src/game_piano.py:122-132 | Pressing and releasing a key that was not held restores the held set. |
| Piano.ReleaseUnderPrompt | src/game_piano.py:94-132 | With the prompt open, key releases still release notes, and key presses other than Escape never add one. |
| Piano.EventKeepsValid | src/game_piano.py:88-134 | Every event keeps the instrument in range and the held notes within the mapped range. |
| Piano.MovedRules | src/game_piano.py:146-166 | A move keeps the label on screen above the keyboard and keeps its size. A label pinned to an edge moves away from it. |
| Piano.ResetKeepsValid | src/game_piano.py:77-84 | Reset keeps the state valid. |
| Piano.PianoGame.constructor | src/game_piano.py:15-64 | A new game has instrument 80, no notes, the label centred with velocity (100, 100), and a closed prompt. |
| Piano.PianoGame.AllNotesOff | src/game_piano.py:325-335 | The state becomes `NotesOff`. |
| Piano.PianoGame.Reset | src/game_piano.py:77-84 | The state becomes `ResetState`. |
| Piano.PianoGame.HandleEvent | src/game_piano.py:88-134 | The prompt moves as `PromptAfter` (closing on Yes), the result is `PromptResult`, and the state moves as `PianoEvent`. |
| Piano.PianoGame.PromptEvent | src/game_piano.py:90-106 | The prompt branch moves the prompt, and Enter on Yes releases all notes. |
| Piano.PianoGame.PlayKeyboard | src/game_piano.py:108-132 | A key press or release updates instrument and notes as `KeyPressed` / `KeyReleased` do. |
| Piano.PianoGame.BounceAxis | src/game_piano.py:151-166 | One axis of the bounce equals `EdgeBounce`. |
| Piano.PianoGame.Update | src/game_piano.py:138-166 | With the prompt open nothing changes. Otherwise the label moves by the truncated travel and bounces. |
| AsteroidsRules.Norm2 | src/game_asteroids.py:413 | A squared length is never negative. |
| AsteroidsRules.CentreInField | src/game_asteroids.py:15-20 | The playfield is `Rect(24, 96, 912, 480)`, and its centre (480, 336) lies inside it. |
| AsteroidsRules.WrapCoord | src/game_asteroids.py:378-385 | A coordinate ends in `[lo, hi)`. It is kept when already inside, becomes `hi - 1` below `lo`, and becomes `lo` at or past `hi`. |
| AsteroidsRules.Wrap | src/game_asteroids.py:378-385 | A wrapped point is in the playfield, and a point already there is unchanged. |
| AsteroidsRules.BaseRadius | src/game_asteroids.py:99 | The base radius of sizes 1..3 is at least 14. |
| AsteroidsRules.VertexRadiusBounds | src/game_asteroids.py:105 | Each vertex lies between 0.8 and 1.2 times the base radius. |
| AsteroidsRules.Outline | src/game_asteroids.py:102-106 | There is one vertex length per draw. |
| AsteroidsRules.NewAsteroidWellShaped | src/game_asteroids.py:97-116 | A new asteroid has 8..12 vertices within the jaggedness band and a size in 1..3. |
| AsteroidsRules.SumBounds | src/game_asteroids.py:412 | A sum of n terms, each in `[lo, hi]`, lies between `n*lo` and `n*hi`. |
| AsteroidsRules.AverageRadiusBounds | src/game_asteroids.py:412 | The average vertex length lies between 0.8 and 1.2 times the base radius. |
| AsteroidsRules.HitRadiusBounds | src/game_asteroids.py:409-413 | A point within 0.72 base radii of the centre always hits. A point beyond 1.08 base radii never hits. |
| AsteroidsRules.Clamp01 | src/game_asteroids.py:441 | The clamp lands in [0, 1] and keeps values already there. |
| AsteroidsRules.SegmentParam | src/game_asteroids.py:437-441 | The projection parameter lies in [0, 1] and is 0 for a point segment. |
| AsteroidsRules.DistPointSegmentSq | src/game_asteroids.py:436-443 | The squared distance is non-negative, and for a point segment it is the squared distance to that point. |
| AsteroidsRules.ExpandDist | src/game_asteroids.py:442-443 | The squared distance to `a + t*(b-a)` expands as a quadratic in t. |
| AsteroidsRules.ExpandFarEnd | src/game_asteroids.py:436-443 | The squared distance to b is the same quadratic at `t = 1`. |
| AsteroidsRules.DistAtMostEndpoints | src/game_asteroids.py:436-443 | The computed distance is never more than the distance to a. For a point segment, or one of positive length, it is never more than the distance to b. |
| AsteroidsRules.Wave | src/game_asteroids.py:87-95 | A wave has one asteroid per draw. |
| AsteroidsRules.WaveIsField | src/game_asteroids.py:87-95 | A wave spawns well-shaped asteroids on the playfield, each of size 2 or 3. |
| AsteroidsRules.Drift | src/game_asteroids.py:181-184 | A drifting asteroid stays in the playfield. Only its position and angle change, and it stays well shaped. |
| AsteroidsRules.Fly | src/game_asteroids.py:187-190 | A flying bullet stays in the playfield, keeps its velocity and loses `dt` of life. |
| AsteroidsRules.LiveBullets | src/game_asteroids.py:191 | Exactly the bullets with positive life are kept. |
| AsteroidsRules.FirstHit | src/game_asteroids.py:206-218 | The bullet chosen is the first one inside the asteroid: no earlier bullet hits it. |
| AsteroidsRules.FirstHitByPositions | src/game_asteroids.py:206-207 | The chosen bullet depends only on bullet positions. |
| AsteroidsRules.Fragments | src/game_asteroids.py:213-217 | A hit asteroid of size 2 or 3 splits into two of the next size down at its position. Size 1 leaves nothing. |
| AsteroidsRules.MarkSpent | src/game_asteroids.py:209 | Marking spent bullets keeps the bullet count. |
| AsteroidsRules.SpentInRange | src/game_asteroids.py:204-218 | Only existing bullets are spent. |
| AsteroidsRules.SplitFieldLength | src/game_asteroids.py:203-221 | After the pass, the count of asteroids plus hits equals the count before plus twice the splits. |
| AsteroidsRules.NoHitKeepsField | src/game_asteroids.py:219-221 | With no hit the field is unchanged. |
| AsteroidsRules.SplitFieldIsField | src/game_asteroids.py:203-221 | The pass keeps every asteroid well shaped and on the playfield. |
| AsteroidsRules.OutcomeIsField | src/game_asteroids.py:205-220 | One asteroid's outcome (itself or its fragments) is a valid field. |
| AsteroidsRules.PassScoreBounds | src/game_asteroids.py:210 | Each hit scores between 10 and 30. |
| AsteroidsRules.SpentAtMostHits | src/game_asteroids.py:208-218 | At most one bullet is spent per hit asteroid. |
| AsteroidsRules.SingleHit | src/game_asteroids.py:204-221 | With exactly one asteroid hit, the pass scores ten times its size and splits it iff it is larger than 1. |
| AsteroidsRules.NoHitCounts | src/game_asteroids.py:204-221 | With no asteroid hit there is no score and no split. |
| AsteroidsRules.LargeHit | src/game_asteroids.py:210-217 | A single large hit scores 30 and grows the field by one. |
| AsteroidsRules.SharedBullet | src/game_asteroids.py:204-222 | One bullet over two small asteroids destroys both and scores 20, because its life is zeroed but it is not removed until the pass ends. |
| AsteroidsRules.FirstShipHit | src/game_asteroids.py:226-235 | The asteroid chosen is the first one the ship's circle touches. |
| Asteroids.Max0 | src/game_asteroids.py:154 | `max(0.0, x)` is non-negative, at least x, and equal to one of them. |
| Asteroids.Timed | src/game_asteroids.py:153-156 | Only the timers change. The cooldown stays non-negative, and so does a non-negative grace timer. A grace timer longer than `dt` stays positive. |
| Asteroids.Steered | src/game_asteroids.py:167-178 | Steering changes only the angle, velocity and position of the ship, and leaves the ship in the playfield. |
| Asteroids.Drifted | src/game_asteroids.py:181-184 | Drifting keeps the count and sizes of the asteroids, and keeps the field valid. |
| Asteroids.Flown | src/game_asteroids.py:187-190 | Flight keeps the bullet count. |
| Asteroids.Moved | src/game_asteroids.py:181-191 | The move phase changes only the asteroids and bullets. It keeps the asteroid count and field, and every `bullets` entry left has positive life. |
| Asteroids.BulletPass | src/game_asteroids.py:203-222 | The pass changes only asteroids, score and bullets, and leaves only live bullets. |
| Asteroids.ShipChecked | src/game_asteroids.py:224-235 | A collision costs at most one life and only outside the grace period. The last life ends the game. Any other lost life respawns the ship at the centre, at rest, heading −90°, with 2 s of grace. Without a hit nothing changes. |
| Asteroids.Advanced | src/game_asteroids.py:196-199 | Level advance touches only level and asteroids. |
| Asteroids.ResetKeepsValid | src/game_asteroids.py:57-65 | Reset keeps the state valid, and spawns `level + 3` asteroids with the ship alive. |
| Asteroids.RestartIsFresh | src/game_asteroids.py:139-144 | A restart after game over gives score 0, 3 lives, level 1, four asteroids, no bullets and the ship at the centre. |
| Asteroids.FireRateLimited | src/game_asteroids.py:357-371 | Two shots in a row add at most one bullet, and none while the cooldown runs. Firing starts a cooldown. |
| Asteroids.FiredKeepsValid | src/game_asteroids.py:357-371 | Firing keeps the state valid. |
| Asteroids.EventKeepsValid | src/game_asteroids.py:120-145 | Every event keeps the state valid. |
| Asteroids.FlewKeepsValid | src/game_asteroids.py:153-191 | The flight phase keeps the state valid, with score, lives, level, alive and asteroid count unchanged. |
| Asteroids.BulletPassKeepsValid | src/game_asteroids.py:203-222 | The bullet pass keeps the state valid and adds at most 30 points per asteroid. |
| Asteroids.ShipCheckedKeepsValid | src/game_asteroids.py:224-235 | The ship check keeps the state valid. |
| Asteroids.PassAdvance | src/game_asteroids.py:204-220 | The loop's update of bullets, field and score at asteroid `i` matches the pass over the first `i+1` asteroids. |
| Asteroids.FirstHitMarked | src/game_asteroids.py:206-209 | Zeroing earlier hits' life does not change which bullet hits next. |
| Asteroids.MarkSpentAdd | src/game_asteroids.py:209 | Zeroing one more bullet equals marking it spent. |
| Asteroids.HitsAtMostField | src/game_asteroids.py:204-220 | No more asteroids are hit than exist. |
| Asteroids.CollidedAfterFlight | src/game_asteroids.py:186-235 | After flight and collisions the state is valid and the level is kept. The score grows by at most 30 per asteroid, and at most one life is lost. A lost life ends the game or respawns the ship with grace. No life is lost while grace outlasts `dt`. |
| Asteroids.FrameKeepsValid | src/game_asteroids.py:149-199 | Every frame keeps the state valid. |
| Asteroids.AdvancedKeepsValid | src/game_asteroids.py:196-199 | Advancing the level keeps the state valid. |
| Asteroids.FrameScore | src/game_asteroids.py:203-222 | A frame never lowers the score and adds at most 30 per asteroid. |
| Asteroids.FrameLives | src/game_asteroids.py:224-235 | A frame loses at most one life. The last life ends the game, and any other respawns the ship at the centre, at rest, heading −90°, with grace. |
| Asteroids.InvincibleKeepsLives | src/game_asteroids.py:155-156 | While the grace timer outlasts the frame no life is lost. |
| Asteroids.FrameLevel | src/game_asteroids.py:196-199 | A live ship always has asteroids. The level is kept or rises by one with a fresh wave of `level + 4`. |
| Asteroids.AdvancedLevel | src/game_asteroids.py:196-199 | When a cleared field advances the level, the new field is exactly the next wave. |
| Asteroids.AsteroidsGame.constructor | src/game_asteroids.py:11-44 | A new game is alive with score 0, 3 lives, level 1, idle timers and a closed prompt. |
| Asteroids.AsteroidsGame.MakeAsteroid | src/game_asteroids.py:97-116 | The loop builds `NewAsteroid`, which is well shaped for valid draws. |
| Asteroids.AsteroidsGame.InitPlayer | src/game_asteroids.py:78-85 | The ship becomes `Respawned`. |
| Asteroids.AsteroidsGame.SpawnWave | src/game_asteroids.py:87-95 | The field becomes the wave for the level. |
| Asteroids.AsteroidsGame.Reset | src/game_asteroids.py:57-65 | The state becomes `ResetPlay`. |
| Asteroids.AsteroidsGame.FireBullet | src/game_asteroids.py:357-371 | The state becomes `Fired`. |
| Asteroids.AsteroidsGame.PromptEvent | src/game_asteroids.py:122-135 | The prompt branch moves only the prompt. |
| Asteroids.AsteroidsGame.Restart | src/game_asteroids.py:139-144 | The state becomes `Restarted`. |
| Asteroids.AsteroidsGame.HandleEvent | src/game_asteroids.py:120-145 | The prompt moves as `PromptAfter` (closing on Yes), the result is `PromptResult`, and play moves as `EventPlay`. |
| Asteroids.AsteroidsGame.DriftAsteroids | src/game_asteroids.py:181-184 | The loop drifts every asteroid. |
| Asteroids.AsteroidsGame.FlyBullets | src/game_asteroids.py:186-191 | The loop flies every bullet, then drops the spent ones. |
| Asteroids.AsteroidsGame.FirstBulletIn | src/game_asteroids.py:206-207 | The loop finds `FirstHit`. |
| Asteroids.AsteroidsGame.ShootOne | src/game_asteroids.py:205-220 | One asteroid's turn yields its outcome and its score, and zeroes the life of the bullet that hit it. |
| Asteroids.AsteroidsGame.ShootPass | src/game_asteroids.py:203-221 | The loop over asteroids yields the split field, the spent bullets and the pass score. |
| Asteroids.AsteroidsGame.ShootAsteroids | src/game_asteroids.py:203-222 | The state becomes `BulletPass`. |
| Asteroids.AsteroidsGame.CheckShip | src/game_asteroids.py:224-235 | The state becomes `ShipChecked`. |
| Asteroids.AsteroidsGame.HandleCollisions | src/game_asteroids.py:201-235 | The state becomes `Collided`. |
| Asteroids.AsteroidsGame.Tick | src/game_asteroids.py:153-156 | The state becomes `Timed`. |
| Asteroids.AsteroidsGame.SteerShip | src/game_asteroids.py:167-178 | The state becomes `Steered`. |
| Asteroids.AsteroidsGame.NextLevel | src/game_asteroids.py:196-199 | The state becomes `Advanced`. |
| Asteroids.AsteroidsGame.Update | src/game_asteroids.py:149-199 | With the prompt open nothing changes. Otherwise play advances by `Frame`. |
| GoobCube.Rows | src/goobcube.py:280-282 | The row count is the ceiling of icons over columns. |
| GoobCube.RowsIsCeiling | src/goobcube.py:280-282 | The rows hold every icon with no empty row, and five icons in four columns make two rows. |
| GoobCube.LaunchAction | src/goobcube.py:263-274 | Enter launches a game exactly for a selection in 0..4. |
| GoobCube.NavigateInRange | src/goobcube.py:245-262 | Navigation keeps the selection on an icon. |
| GoobCube.NavigateSteps | src/goobcube.py:245-262 | Left/Right move at most one step within the row. Up/Down move at most one row. Other keys do not move. |
| GoobCube.NavigateRightLeft | src/goobcube.py:251-256 | Right moves exactly when not in the last column and a next icon exists. Left moves exactly when not in the first column. |
| GoobCube.MenuKeepsValid | src/goobcube.py:231-278 | Every event keeps the menu valid. |
| GoobCube.DialogRules | src/goobcube.py:232-243 | In the exit dialog the selection is kept, and Left/Right toggle the choice. Escape or Enter on No close the dialog. The result is quit exactly on Enter with Yes chosen, and nothing otherwise. |
| GoobCube.EnterLaunches | src/goobcube.py:263-274 | Enter on icon i launches the i-th game in the order Ball, Snake, Pong, Asteroids, Piano. |
| GoobCube.Menu.constructor | src/goobcube.py:202-211 | A new menu selects the first icon with the dialog closed. |
| GoobCube.Menu.HandleEvent | src/goobcube.py:231-278 | The menu moves as `MenuAfter` and reports `MenuResult`. |
| GoobCube.LastAction | src/goobcube.py:389-404 | The frame's action is the last event's result, or none without events. |
| GoobCube.PongStateUnreachable | src/goobcube.py:422-425 | The application never enters a separate Pong state. Pong runs nested and the menu resumes. |
| GoobCube.MenuTransitions | src/goobcube.py:412-435 | Each launch resets its game and enters it, except Pong, which runs nested from the menu. |
| GoobCube.GameTransitions | src/goobcube.py:438-474 | In a game, `return_to_menu` goes back to the menu, and anything else updates the game. |
| GoobCube.App.constructor | src/goobcube.py:370-376 | The application starts loading. |
| GoobCube.App.Boot | src/goobcube.py:380-381 | After the loading animation the menu is shown. |
| GoobCube.App.FrameAction | src/goobcube.py:389-404 | The loop quits exactly when some event quits. Otherwise it yields the last event's action. |
| GoobCube.App.Frame | src/goobcube.py:387-474 | A frame moves the state and issues the command `Step` gives. |

## Left out

- Drawing, fonts, colours, the loading animation and every `draw` method are not modelled: they affect only pixels.
- Music and sound effects are not modelled, including `on_enter`, the beeps and the menu-music checks in `App.run`. They are output only.
- MIDI input and output, the listener thread, `piano.py` and `test_midi.py` are not modelled, because they are I/O and concurrency. Whether an output port exists is a constructor input (`output`).
- Piano's `_note_to_color`, `_random_color` and `_render_goob` are not modelled. The rendered label's size is a constructor input, and the colour change on a bounce is drawing only.
- Piano.PianoGame.Update: Piano's own frame clock becomes the `elapsed` input.
- Piano.NotesOff: the exception path in `_all_notes_off` (lines 334-335) is not modelled, since a failing port is outside the model.
- Ball.BallGame.Update: the speed clamp by `math.hypot` (game_ball.py:55-59) is not modelled, because square roots of reals are not available. The velocity the contract states is the steered velocity before that clamp.
- Trigonometry is not modelled. In Asteroids the firing heading and the thrust direction are inputs (`heading`, `forward`), and vertex directions are not kept: each vertex is its length.
- The polygon tests `_circle_intersect_asteroid` and `_point_in_polygon`, and `_point_in_asteroid` when used inside the pass, are not modelled as formulas. They are the `shipHit` and `bulletHit` parameters. `PointInAsteroid` and `DistPointSegmentSq` model the formulas they rest on.
- Random draws (food cells, spawn edges, speeds, sizes, vertex jitter, the Pong serve direction and spin) are inputs, with their ranges as preconditions. Pong's unused `angle` draw is left out.
- Snake's `spawn_food` loops forever when no free cell comes up. The model therefore requires the draws to contain a free cell (`Feeds`).
- Pygame's `colliderect` is the `collide` parameter. The integer truncation inside `pygame.Rect` is not modelled.
- `_run_pong` (goobcube.py:478-498) is the `RunPong` command of the state machine. Its extra `update` after `return_to_menu` changes nothing, by `Pong.YesKeepsPromptOpen` and the prompt guard of `Pong.PongGame.Update`.
- The window-close `QUIT` event and `sys.exit` are not modelled, since they end the process. The exit dialog's quit is the `Quit` action.
- Snake's and Asteroids' `__init__` leave the board and the ship unset until `reset`. The model's constructors initialise them.
- Asteroids.FrameLevel: it states the size of the new wave. `Asteroids.AdvancedLevel` states that the field is exactly that wave.
- AsteroidsRules.DistAtMostEndpoints: the far-end bound is stated for a point segment or for one of positive squared length. Over the reals that is every segment, but the proof of that step is not part of the model.

## Findings

| source | as written | input that shows it | evidently intended | confidence | as-written member | corrected member |
|---|---|---|---|---|---|---|
| src/game_ball.py:33-34 | Enter on Yes returns to the menu without closing the prompt, and `reset` (lines 15-23) does not clear it. | Escape, Right, Enter, then launch Bouncy Ball from the menu and run one frame: the prompt is still open on Yes and the ball does not move. | On re-entry the prompt is closed, as Pong's `reset` does (game_pong.py:26-27). | not executed | Ball.StalePromptOnReentry | Ball.FreshPromptOnReentry |
