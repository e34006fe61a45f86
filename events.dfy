/** Input events and handler results shared by the menu and every mini-game. */
module Events {

  /** The window size every game lays itself out in. */
  const Width := 960
  const Height := 600

  /** The keys the handlers look at; every other key is a `Char`. */
  datatype Key = Escape | Left | Right | Up | Down | Return | KpEnter | Space | Char(c: char)

  /** A pygame event as the handlers see it. */
  datatype Event = KeyDown(key: Key) | KeyUp(key: Key) | OtherEvent

  /** What a handler hands back to the application loop; `NoAction` is Python's None.
      `Quit` stands for the program exiting (the exit dialog's Yes, or a window close). */
  datatype Action = NoAction | ReturnToMenu
                  | StartBall | StartSnake | StartPong | StartAsteroids | StartPiano
                  | Quit

  /** Both Enter keys confirm. */
  predicate IsEnter(k: Key) {
    k == Return || k == KpEnter
  }

  /** Left and right arrows toggle a Yes/No choice. */
  predicate IsLeftRight(k: Key) {
    k == Left || k == Right
  }

  /** An Esc key press: the event that opens every return prompt. */
  predicate IsEscDown(ev: Event) {
    ev == KeyDown(Escape)
  }

  /** The Yes/No return prompt that every mini-game carries: whether it is open and which
      button is selected (0 = No, 1 = Yes). */
  datatype Prompt = Prompt(open: bool, choice: int)

  predicate ValidChoice(c: int) {
    c == 0 || c == 1
  }

  /** The prompt branch takes the event: the prompt is open, the event is a key press, and it
      is not Esc (Esc is caught by the branch before it). */
  predicate PromptTakes(p: Prompt, ev: Event) {
    !IsEscDown(ev) && p.open && ev.KeyDown?
  }

  /** The prompt after one event. Esc always opens it; inside it, left/right toggle the choice,
      Enter on No closes it, and Enter on Yes closes it only in the games where
      `closesOnYes` holds (Ball and Pong leave it open). The handlers' own "Esc closes the
      prompt" branch never runs, so it has no counterpart here. */
  function PromptAfter(p: Prompt, ev: Event, closesOnYes: bool): (q: Prompt)
    requires ValidChoice(p.choice)
    ensures ValidChoice(q.choice)
    ensures IsEscDown(ev) ==> q == p.(open := true)
    ensures !IsEscDown(ev) && !p.open ==> q == p
    ensures PromptTakes(p, ev) && IsLeftRight(ev.key) ==> q.open && q.choice == 1 - p.choice
    ensures PromptTakes(p, ev) && IsEnter(ev.key) ==>
              q.choice == p.choice && (q.open <==> p.choice == 1 && !closesOnYes)
    ensures !IsEscDown(ev) && !(ev.KeyDown? && (IsLeftRight(ev.key) || IsEnter(ev.key))) ==> q == p
    ensures q.open ==> p.open || IsEscDown(ev)
  {
    if IsEscDown(ev) then p.(open := true)
    else if PromptTakes(p, ev) then
      if IsLeftRight(ev.key) then p.(choice := 1 - p.choice)
      else if IsEnter(ev.key) then
        if p.choice == 1 && !closesOnYes then p else p.(open := false)
      else p
    else p
  }

  /** The prompt's answer to one event: the request to go back to the menu, given exactly by
      Enter on Yes while the prompt is open. */
  function PromptResult(p: Prompt, ev: Event): (a: Action)
    ensures a == ReturnToMenu || a == NoAction
    ensures a == ReturnToMenu <==> PromptTakes(p, ev) && IsEnter(ev.key) && p.choice == 1
  {
    if PromptTakes(p, ev) && IsEnter(ev.key) && p.choice == 1 then ReturnToMenu else NoAction
  }
}
