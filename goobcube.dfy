/** The GOOBCUBE shell: the icon menu with its exit dialog, and the application state machine
    that starts the mini-games from the menu and brings them back to it. */
module GoobCube {
  import opened Events

  /** Five icons (Bouncy Ball, Snake, Pong, Asteroids, Piano) in rows of four. */
  const IconCount := 5
  const Columns := 4

  /** The `rows` property: `(n + columns - 1) // columns`. */
  function Rows(n: nat, c: nat): (r: nat)
    requires c >= 1
    ensures (r - 1) * c < n <= r * c || (n == 0 && r == 0)
  {
    (n + c - 1) / c
  }

  /** `rows` is the ceiling of n / c; the menu has two rows. */
  lemma RowsIsCeiling(n: nat, c: nat)
    requires c >= 1
    ensures n <= Rows(n, c) * c && (Rows(n, c) == 0 || (Rows(n, c) - 1) * c < n)
    ensures Rows(IconCount, Columns) == 2
  {
  }

  // ---------- Menu ----------

  /** The menu's fields: the selected icon and the exit dialog (0 = No, 1 = Yes). */
  datatype MenuState = MenuState(selected: int, confirmExit: bool, confirmChoice: int)

  /** The arrow keys on the icon grid: left and right within the row, up and down by a row,
      never past the grid. */
  function Navigate(sel: int, k: Key): int {
    var row, col := sel / Columns, sel % Columns;
    if k == Right then (if col < Columns - 1 && sel + 1 < IconCount then sel + 1 else sel)
    else if k == Left then (if col > 0 then sel - 1 else sel)
    else if k == Down then (if sel + Columns < IconCount then sel + Columns else sel)
    else if k == Up then (if sel - Columns >= 0 then sel - Columns else sel)
    else sel
  }

  /** The game Enter launches for each icon; there is none beyond the fifth. */
  function LaunchAction(sel: int): (a: Action)
    ensures a == NoAction <==> !(0 <= sel < IconCount)
  {
    if sel == 0 then StartBall
    else if sel == 1 then StartSnake
    else if sel == 2 then StartPong
    else if sel == 3 then StartAsteroids
    else if sel == 4 then StartPiano
    else NoAction
  }

  /** `Menu.handle_event` on the menu's fields. Inside the exit dialog the arrows toggle the
      choice and Esc or Enter on No closes it; outside, the arrows move the selection and Esc
      opens the dialog, with the choice it had when it was last closed. */
  function MenuAfter(m: MenuState, ev: Event): MenuState {
    if m.confirmExit then
      if ev.KeyDown? then
        if IsLeftRight(ev.key) then m.(confirmChoice := 1 - m.confirmChoice)
        else if IsEnter(ev.key) then (if m.confirmChoice == 1 then m else m.(confirmExit := false))
        else if ev.key == Escape then m.(confirmExit := false)
        else m
      else m
    else if ev.KeyDown? then
      if ev.key == Escape then m.(confirmExit := true)
      else m.(selected := Navigate(m.selected, ev.key))
    else m
  }

  /** What `Menu.handle_event` hands back: the exit (`sys.exit`) on Enter on Yes in the
      dialog, a game on Enter outside it, nothing otherwise. */
  function MenuResult(m: MenuState, ev: Event): Action {
    if m.confirmExit then
      if ev.KeyDown? && IsEnter(ev.key) && m.confirmChoice == 1 then Quit else NoAction
    else if ev.KeyDown? && IsEnter(ev.key) then LaunchAction(m.selected)
    else NoAction
  }

  predicate MenuValid(m: MenuState) {
    0 <= m.selected < IconCount && ValidChoice(m.confirmChoice)
  }

  /** The arrows keep the selection on the grid. */
  lemma NavigateInRange(sel: int, k: Key)
    requires 0 <= sel < IconCount
    ensures 0 <= Navigate(sel, k) < IconCount
  {
  }

  /** Left and right stay in the row and move by one or not at all; up and down move by a
      whole row or not at all; no other key moves the selection. */
  lemma NavigateSteps(sel: int, k: Key)
    requires 0 <= sel < IconCount
    ensures var r := Navigate(sel, k);
            && (IsLeftRight(k) ==> r / Columns == sel / Columns && (r == sel || r == sel + 1 || r == sel - 1))
            && (k == Up || k == Down ==> r == sel || r == sel + Columns || r == sel - Columns)
            && (!IsLeftRight(k) && k != Up && k != Down ==> r == sel)
  {
  }

  /** Right moves exactly when the icon is not the last of its row or of the grid; left
      exactly when it is not the first of its row. */
  lemma NavigateRightLeft(sel: int)
    requires 0 <= sel < IconCount
    ensures Navigate(sel, Right) == sel + 1 <==> sel % Columns < Columns - 1 && sel + 1 < IconCount
    ensures Navigate(sel, Left) == sel - 1 <==> sel % Columns > 0
  {
  }

  /** The menu's fields stay valid. */
  lemma MenuKeepsValid(m: MenuState, ev: Event)
    requires MenuValid(m)
    ensures MenuValid(MenuAfter(m, ev))
  {
    if !m.confirmExit && ev.KeyDown? {
      NavigateInRange(m.selected, ev.key);
    }
  }

  /** While the exit dialog is open the selection stays, the arrows toggle the choice, Esc or
      Enter on No closes the dialog, and nothing but the exit comes back. */
  lemma DialogRules(m: MenuState, ev: Event)
    requires MenuValid(m) && m.confirmExit
    ensures var r := MenuAfter(m, ev);
            && r.selected == m.selected
            && (ev.KeyDown? && IsLeftRight(ev.key) ==> r.confirmExit && r.confirmChoice == 1 - m.confirmChoice)
            && (ev == KeyDown(Escape) || (ev.KeyDown? && IsEnter(ev.key) && m.confirmChoice == 0) ==> !r.confirmExit)
            && (MenuResult(m, ev) == NoAction || MenuResult(m, ev) == Quit)
            && (MenuResult(m, ev) == Quit <==> ev.KeyDown? && IsEnter(ev.key) && m.confirmChoice == 1)
  {
  }

  /** Enter outside the dialog launches the selected icon's game. */
  lemma EnterLaunches(m: MenuState, k: Key)
    requires MenuValid(m) && !m.confirmExit && IsEnter(k)
    ensures MenuAfter(m, KeyDown(k)) == m
    ensures MenuResult(m, KeyDown(k)) == [StartBall, StartSnake, StartPong, StartAsteroids, StartPiano][m.selected]
  {
  }

  class Menu {
    var selected: int
    var confirmExit: bool
    var confirmChoice: int

    function State(): MenuState
      reads this
    {
      MenuState(selected, confirmExit, confirmChoice)
    }

    ghost predicate Valid()
      reads this
    {
      MenuValid(State())
    }

    /** `__init__`: the first icon selected and the dialog closed on No. */
    constructor ()
      ensures Valid() && State() == MenuState(0, false, 0)
    {
      selected := 0;
      confirmExit := false;
      confirmChoice := 0;
    }

    /** `handle_event`. */
    method HandleEvent(ev: Event) returns (result: Action)
      requires Valid()
      modifies this
      ensures Valid()
      ensures State() == MenuAfter(old(State()), ev)
      ensures result == MenuResult(old(State()), ev)
    {
      MenuKeepsValid(State(), ev);
      result := NoAction;
      if confirmExit {
        if ev.KeyDown? {
          if ev.key == Left || ev.key == Right {
            confirmChoice := 1 - confirmChoice;
          } else if ev.key == Return || ev.key == KpEnter {
            if confirmChoice == 1 {
              result := Quit;
            } else {
              confirmExit := false;
            }
          } else if ev.key == Escape {
            confirmExit := false;
          }
        }
        return;
      }
      if ev.KeyDown? {
        var c := Columns;
        var n := IconCount;
        var row, col := selected / c, selected % c;
        if ev.key == Right {
          if col < c - 1 && selected + 1 < n {
            selected := selected + 1;
          }
        } else if ev.key == Left {
          if col > 0 {
            selected := selected - 1;
          }
        } else if ev.key == Down {
          if selected + c < n {
            selected := selected + c;
          }
        } else if ev.key == Up {
          if selected - c >= 0 {
            selected := selected - c;
          }
        } else if ev.key == Return || ev.key == KpEnter {
          result := LaunchAction(selected);
        } else if ev.key == Escape {
          confirmExit := true;
        }
      }
    }
  }

  // ---------- The application ----------

  /** `App.state`: the loading screen, the menu, or one of the games. */
  datatype AppState = Loading | InMenu | InBall | InSnake | InPong | InAsteroids | InPiano

  /** What a frame of `App.run` asks of the games: nothing, the `reset` of a game being
      entered, the `update` of the running game, Pong's own loop (`_run_pong`), or leaving
      the program. */
  datatype Command = Idle | ResetGame(game: AppState) | UpdateGame(game: AppState) | RunPong | Exit

  /** The frame's action: the result of the last event's handler, None for no events. This
      is the closed form that the event loop of `App.FrameAction` is proved against. */
  function LastAction(outcomes: seq<Action>): (a: Action)
    ensures |outcomes| > 0 ==> a == outcomes[|outcomes| - 1]
    ensures |outcomes| == 0 ==> a == NoAction
  {
    if |outcomes| == 0 then NoAction else outcomes[|outcomes| - 1]
  }

  /** The state machine after the event loop: in the menu a start action enters its game
      (Pong runs its own loop and ends back in the menu); in a game, the request to return
      goes back to the menu and anything else updates the game. */
  function Transition(s: AppState, a: Action): (AppState, Command) {
    match s
    case InMenu =>
      if a == StartBall then (InBall, ResetGame(InBall))
      else if a == StartSnake then (InSnake, ResetGame(InSnake))
      else if a == StartPong then (InMenu, RunPong)
      else if a == StartAsteroids then (InAsteroids, ResetGame(InAsteroids))
      else if a == StartPiano then (InPiano, ResetGame(InPiano))
      else (InMenu, Idle)
    case InBall | InSnake | InAsteroids | InPiano =>
      if a == ReturnToMenu then (InMenu, Idle) else (s, UpdateGame(s))
    case _ => (s, Idle)
  }

  /** One frame: a handler's Quit (the exit dialog's Yes) ends the program on the spot;
      otherwise the last action drives the transition. */
  function Step(s: AppState, outcomes: seq<Action>): (AppState, Command) {
    if Quit in outcomes then (s, Exit) else Transition(s, LastAction(outcomes))
  }

  /** Starting from the menu, no sequence of frames reaches the Pong state: Pong never
      becomes the current state. */
  lemma PongStateUnreachable(s: AppState, a: Action)
    requires s != InPong
    ensures Transition(s, a).0 != InPong
  {
  }

  /** In the menu, every start action but Pong's enters its game and resets it; Pong's runs
      its loop and stays in the menu; anything else stays in the menu doing nothing. */
  lemma MenuTransitions(a: Action)
    ensures a == StartBall ==> Transition(InMenu, a) == (InBall, ResetGame(InBall))
    ensures a == StartSnake ==> Transition(InMenu, a) == (InSnake, ResetGame(InSnake))
    ensures a == StartAsteroids ==> Transition(InMenu, a) == (InAsteroids, ResetGame(InAsteroids))
    ensures a == StartPiano ==> Transition(InMenu, a) == (InPiano, ResetGame(InPiano))
    ensures a == StartPong ==> Transition(InMenu, a) == (InMenu, RunPong)
    ensures Transition(InMenu, a).0 != InMenu ==> Transition(InMenu, a).1 == ResetGame(Transition(InMenu, a).0)
  {
  }

  /** In a game, the return request goes to the menu and every other action updates it. */
  lemma GameTransitions(s: AppState, a: Action)
    requires s in {InBall, InSnake, InAsteroids, InPiano}
    ensures a == ReturnToMenu ==> Transition(s, a) == (InMenu, Idle)
    ensures a != ReturnToMenu ==> Transition(s, a) == (s, UpdateGame(s))
  {
  }

  class App {
    var state: AppState

    /** `__init__`: the loading state. */
    constructor ()
      ensures state == Loading
    {
      state := Loading;
    }

    /** The start of `run`: after the loading animation the menu is shown. */
    method Boot()
      modifies this
      ensures state == InMenu
    {
      state := InMenu;
    }

    /** The event loop of one frame: each handler result replaces the last; the exit dialog's
        Yes leaves at once. */
    static method FrameAction(outcomes: seq<Action>) returns (action: Action, quit: bool)
      ensures quit <==> Quit in outcomes
      ensures !quit ==> action == LastAction(outcomes)
    {
      action := NoAction;
      var i := 0;
      while i < |outcomes|
        invariant 0 <= i <= |outcomes|
        invariant Quit !in outcomes[..i]
        invariant action == LastAction(outcomes[..i])
      {
        action := outcomes[i];
        if action == Quit {
          return action, true;
        }
        i := i + 1;
      }
      assert outcomes[..i] == outcomes;
      quit := false;
    }

    /** One frame of `run`, given the handlers' results for its events. */
    method Frame(outcomes: seq<Action>) returns (cmd: Command)
      modifies this
      ensures (state, cmd) == Step(old(state), outcomes)
    {
      var action, quit := FrameAction(outcomes);
      if quit {
        return Exit;
      }
      cmd := Idle;
      if state == InMenu {
        if action == StartBall {
          cmd := ResetGame(InBall);
          state := InBall;
        } else if action == StartSnake {
          cmd := ResetGame(InSnake);
          state := InSnake;
        } else if action == StartPong {
          cmd := RunPong;
          state := InMenu;
        } else if action == StartAsteroids {
          cmd := ResetGame(InAsteroids);
          state := InAsteroids;
        } else if action == StartPiano {
          cmd := ResetGame(InPiano);
          state := InPiano;
        }
      } else if state == InBall || state == InSnake || state == InAsteroids || state == InPiano {
        if action == ReturnToMenu {
          state := InMenu;
        } else {
          cmd := UpdateGame(state);
        }
      }
    }
  }
}
