/** The Piano mini-game's bookkeeping: the keyboard-to-note maps, the set of sounding notes,
    the MIDI instrument number, note names, and the "GOOBCUBE" label bouncing above the
    keyboard, with the shared return prompt. The MIDI messages themselves are not modelled. */
module Piano {
  import opened Events

  // ---------- Keys and notes ----------

  /** The white keys of the computer keyboard and their MIDI notes (C3 to F4). */
  const WhiteKeys: map<Key, int> :=
    map[Char('a') := 48, Char('s') := 50, Char('d') := 52, Char('f') := 53,
        Char('g') := 55, Char('h') := 57, Char('j') := 59, Char('k') := 60,
        Char('l') := 62, Char(';') := 64, Char('\'') := 65]

  /** The black keys and their notes. */
  const BlackKeys: map<Key, int> :=
    map[Char('w') := 49, Char('e') := 51, Char('t') := 54, Char('y') := 56,
        Char('u') := 58, Char('o') := 61, Char('p') := 63]

  /** `{**WHITE_KEYS, **BLACK_KEYS}`: Dafny's `+` on maps, like the Python merge, lets the
      right-hand map win on a shared key. */
  const KeyToNote: map<Key, int> := WhiteKeys + BlackKeys

  const LowNote := 48
  const HighNote := 65

  /** The key that plays each keyboard note. */
  function KeyFor(n: int): Key {
    if n == 48 then Char('a') else if n == 49 then Char('w') else if n == 50 then Char('s')
    else if n == 51 then Char('e') else if n == 52 then Char('d') else if n == 53 then Char('f')
    else if n == 54 then Char('t') else if n == 55 then Char('g') else if n == 56 then Char('y')
    else if n == 57 then Char('h') else if n == 58 then Char('u') else if n == 59 then Char('j')
    else if n == 60 then Char('k') else if n == 61 then Char('o') else if n == 62 then Char('l')
    else if n == 63 then Char('p') else if n == 64 then Char(';') else Char('\'')
  }

  /** The two maps share no key, so the merge loses nothing. */
  lemma KeyMapsDisjoint()
    ensures WhiteKeys.Keys !! BlackKeys.Keys
    ensures KeyToNote.Keys == WhiteKeys.Keys + BlackKeys.Keys
    ensures forall k :: k in WhiteKeys ==> KeyToNote[k] == WhiteKeys[k]
    ensures forall k :: k in BlackKeys ==> KeyToNote[k] == BlackKeys[k]
  {
  }

  /** Every mapped note is one of 48..65, and the key it came from is `KeyFor` of it. */
  lemma KeyToNoteInverse(k: Key)
    requires k in KeyToNote
    ensures LowNote <= KeyToNote[k] <= HighNote && KeyFor(KeyToNote[k]) == k
  {
    KeyMapsDisjoint();
    if k in WhiteKeys {
      WhiteNoteKey(k);
    } else {
      BlackNoteKey(k);
    }
  }

  lemma WhiteNoteKey(k: Key)
    requires k in WhiteKeys
    ensures LowNote <= WhiteKeys[k] <= HighNote && KeyFor(WhiteKeys[k]) == k
  {
    assert k in {Char('a'), Char('s'), Char('d'), Char('f'), Char('g'), Char('h'), Char('j'), Char('k'),
                 Char('l'), Char(';'), Char('\'')};
  }

  lemma BlackNoteKey(k: Key)
    requires k in BlackKeys
    ensures LowNote <= BlackKeys[k] <= HighNote && KeyFor(BlackKeys[k]) == k
  {
    assert k in {Char('w'), Char('e'), Char('t'), Char('y'), Char('u'), Char('o'), Char('p')};
  }

  /** Each of the eighteen notes 48..65 has its key. */
  lemma KeyForInverse(n: int)
    requires LowNote <= n <= HighNote
    ensures KeyFor(n) in KeyToNote && KeyToNote[KeyFor(n)] == n
  {
    KeyMapsDisjoint();
    if n in {48, 50, 52, 53, 55, 57, 59, 60, 62, 64, 65} {
      WhiteKeyFor(n);
    } else {
      BlackKeyFor(n);
    }
  }

  /** The white notes' keys. */
  lemma WhiteKeyFor(n: int)
    requires n in {48, 50, 52, 53, 55, 57, 59, 60, 62, 64, 65}
    ensures KeyFor(n) in WhiteKeys && WhiteKeys[KeyFor(n)] == n
  {
    if n == 48 { assert KeyFor(n) == Char('a'); }
    else if n == 50 { assert KeyFor(n) == Char('s'); }
    else if n == 52 { assert KeyFor(n) == Char('d'); }
    else if n == 53 { assert KeyFor(n) == Char('f'); }
    else if n == 55 { assert KeyFor(n) == Char('g'); }
    else if n == 57 { assert KeyFor(n) == Char('h'); }
    else if n == 59 { assert KeyFor(n) == Char('j'); }
    else if n == 60 { assert KeyFor(n) == Char('k'); }
    else if n == 62 { assert KeyFor(n) == Char('l'); }
    else if n == 64 { assert KeyFor(n) == Char(';'); }
    else { assert KeyFor(n) == Char('\''); }
  }

  /** The black notes' keys; with the white ones they are all of 48..65. */
  lemma BlackKeyFor(n: int)
    requires LowNote <= n <= HighNote && n !in {48, 50, 52, 53, 55, 57, 59, 60, 62, 64, 65}
    ensures KeyFor(n) in BlackKeys && BlackKeys[KeyFor(n)] == n
  {
    if n == 49 { assert KeyFor(n) == Char('w'); }
    else if n == 51 { assert KeyFor(n) == Char('e'); }
    else if n == 54 { assert KeyFor(n) == Char('t'); }
    else if n == 56 { assert KeyFor(n) == Char('y'); }
    else if n == 58 { assert KeyFor(n) == Char('u'); }
    else if n == 61 { assert KeyFor(n) == Char('o'); }
    else { assert n == 63 && KeyFor(n) == Char('p'); }
  }

  /** So the keys and the notes 48..65 are in one-to-one correspondence. */
  lemma KeyMapShape()
    ensures forall k :: k in KeyToNote ==> LowNote <= KeyToNote[k] <= HighNote
    ensures forall n :: LowNote <= n <= HighNote ==> n in KeyToNote.Values
    ensures forall k1, k2 :: k1 in KeyToNote && k2 in KeyToNote && KeyToNote[k1] == KeyToNote[k2] ==> k1 == k2
  {
    forall k | k in KeyToNote
      ensures LowNote <= KeyToNote[k] <= HighNote && KeyFor(KeyToNote[k]) == k
    {
      KeyToNoteInverse(k);
    }
    forall n | LowNote <= n <= HighNote
      ensures n in KeyToNote.Values
    {
      KeyForInverse(n);
    }
  }

  const NoteNames: seq<string> := ["C", "C#", "D", "D#", "E", "F", "F#", "G", "G#", "A", "A#", "B"]

  /** `_note_to_name_octave`: the pitch class's name and the octave, with middle C (60) in
      octave 4. Python's `%` and `//` by 12 round like Dafny's for every note. */
  function NoteNameOctave(n: int): (string, int) {
    (NoteNames[n % 12], n / 12 - 1)
  }

  /** The position of a note name in the list of names. */
  function NameIndex(name: string): (i: int)
    ensures 0 <= i < 12 ==> NoteNames[i] == name
  {
    if name == "C" then 0 else if name == "C#" then 1 else if name == "D" then 2
    else if name == "D#" then 3 else if name == "E" then 4 else if name == "F" then 5
    else if name == "F#" then 6 else if name == "G" then 7 else if name == "G#" then 8
    else if name == "A" then 9 else if name == "A#" then 10 else if name == "B" then 11
    else -1
  }

  /** The note a name and octave stand for. */
  function NoteOf(name: string, octave: int): int {
    12 * (octave + 1) + NameIndex(name)
  }

  /** The name and the octave give the note back: `_note_to_name_octave` loses nothing. */
  lemma NameOctaveRoundTrip(n: int)
    ensures NoteOf(NoteNameOctave(n).0, NoteNameOctave(n).1) == n
    ensures n == 60 ==> NoteNameOctave(n) == ("C", 4)
  {
    var i := n % 12;
    assert NameIndex(NoteNames[i]) == i by {
      assert 0 <= i < 12;
      if i == 0 { } else if i == 1 { } else if i == 2 { } else if i == 3 { } else if i == 4 { }
      else if i == 5 { } else if i == 6 { } else if i == 7 { } else if i == 8 { } else if i == 9 { }
      else if i == 10 { } else { }
    }
  }

  // ---------- Instrument ----------

  const Programs := 128

  /** Up and Down step the General MIDI program by one, wrapping around 128. */
  function NextInstrument(i: int, up: bool): (r: int)
    ensures 0 <= r < Programs
  {
    if up then (i + 1) % Programs else (i - 1) % Programs
  }

  /** Up then Down, or Down then Up, gives the program back; both wrap at the ends. */
  lemma InstrumentRoundTrip(i: int)
    requires 0 <= i < Programs
    ensures NextInstrument(NextInstrument(i, true), false) == i
    ensures NextInstrument(NextInstrument(i, false), true) == i
    ensures NextInstrument(127, true) == 0 && NextInstrument(0, false) == 127
  {
  }

  // ---------- The label ----------

  const ScreenWidth := Width
  const ScreenHeight := Height
  /** `int(screen_height * 0.4)`: the keyboard's height; the label stays above it. */
  const WhiteHeight := 240
  const Floor := ScreenHeight - WhiteHeight

  lemma WhiteHeightIsTwoFifths()
    ensures WhiteHeight == ((ScreenHeight as real) * 0.4).Floor
  {
  }

  /** `int(x)` on a float: truncation toward zero. */
  function Trunc(r: real): int {
    if r >= 0.0 then r.Floor else -((-r).Floor)
  }

  /** Truncation drops the fraction: it rounds down the non-negative values and up the
      negative ones. */
  lemma TruncBounds(r: real)
    ensures r >= 0.0 ==> Trunc(r) as real <= r < Trunc(r) as real + 1.0
    ensures r < 0.0 ==> Trunc(r) as real - 1.0 < r <= Trunc(r) as real
  {
  }

  /** One axis of the label's bounce against [0, hi]: touching the low edge puts it on the
      edge moving up, touching the high edge puts its far side on that edge moving down. */
  function EdgeBounce(pos: int, size: int, vel: int, hi: int): (r: (int, int))
    ensures pos <= 0 ==> r == (0, if vel < 0 then -vel else vel)
    ensures pos > 0 && pos + size >= hi ==> r == (hi - size, if vel < 0 then vel else -vel)
    ensures pos > 0 && pos + size < hi ==> r == (pos, vel)
  {
    if pos <= 0 then (0, Abs(vel))
    else if pos + size >= hi then (hi - size, -Abs(vel))
    else (pos, vel)
  }

  function Abs(v: int): int {
    if v < 0 then -v else v
  }

  /** A bounced axis of a label no larger than the room lies in the room, and the speed is
      kept: only the sign of the velocity changes. */
  lemma EdgeBounceBounds(pos: int, size: int, vel: int, hi: int)
    requires 0 <= size <= hi
    ensures var r := EdgeBounce(pos, size, vel, hi);
            0 <= r.0 && r.0 + size <= hi && Abs(r.1) == Abs(vel)
  {
  }

  // ---------- The game state ----------

  /** The fields the handlers change, beside the prompt: the program, the sounding notes,
      the label's rectangle (its size is that of the rendered text) and velocity. Whether a
      MIDI output is open is fixed at start-up. */
  datatype PianoState = PianoState(instrument: int, activeNotes: set<int>, hasOutput: bool,
                                   x: int, y: int, w: int, h: int, vx: int, vy: int)

  /** `_all_notes_off`: with no MIDI output it returns at once and the set stays as it is. */
  function NotesOff(s: PianoState): (r: PianoState)
    ensures r == s.(activeNotes := r.activeNotes)
    ensures r.activeNotes == if s.hasOutput then {} else s.activeNotes
  {
    if s.hasOutput then s.(activeNotes := {}) else s
  }

  /** A key press outside the prompt: Up and Down change the program; a mapped key sounds
      its note unless it already sounds. */
  function KeyPressed(s: PianoState, k: Key): PianoState {
    var s1 := if k == Up then s.(instrument := NextInstrument(s.instrument, true))
              else if k == Down then s.(instrument := NextInstrument(s.instrument, false))
              else s;
    if k in KeyToNote && KeyToNote[k] !in s1.activeNotes then s1.(activeNotes := s1.activeNotes + {KeyToNote[k]})
    else s1
  }

  /** A key release: a mapped key silences its note if it sounds. */
  function KeyReleased(s: PianoState, k: Key): PianoState {
    if k in KeyToNote && KeyToNote[k] in s.activeNotes then s.(activeNotes := s.activeNotes - {KeyToNote[k]})
    else s
  }

  /** The game part of `handle_event` for the prompt as it was before the event. Enter on Yes
      in the prompt silences everything; every event the prompt does not take plays the
      keyboard, so a key release is seen even while the prompt is open. */
  function PianoEvent(s: PianoState, p: Prompt, ev: Event): PianoState {
    if IsEscDown(ev) then s
    else if PromptTakes(p, ev) then
      if IsEnter(ev.key) && p.choice == 1 then NotesOff(s) else s
    else if ev.KeyDown? then KeyPressed(s, ev.key)
    else if ev.KeyUp? then KeyReleased(s, ev.key)
    else s
  }

  /** The whole pixels the label moves along one axis in a frame: `int(v * elapsed)`. */
  function Travel(v: int, elapsed: real): int {
    Trunc(v as real * elapsed)
  }

  /** The label's move in `update` by the travelled distances `dx` and `dy`: each coordinate
      moves, then bounces on the left or right edge and on the top or the keyboard. */
  function Moved(s: PianoState, dx: int, dy: int): PianoState {
    var hx := EdgeBounce(s.x + dx, s.w, s.vx, ScreenWidth);
    var hy := EdgeBounce(s.y + dy, s.h, s.vy, Floor);
    s.(x := hx.0, vx := hx.1, y := hy.0, vy := hy.1)
  }

  /** `reset`: the label back in the centre at [100, 100], no note sounding; the program is
      kept. */
  function ResetState(s: PianoState): (r: PianoState)
    ensures r.activeNotes == {} && r.instrument == s.instrument && r.vx == 100 && r.vy == 100
    ensures r.x == ScreenWidth / 2 - s.w / 2 && r.y == ScreenHeight / 2 - s.h / 2
    ensures r.w == s.w && r.h == s.h && r.hasOutput == s.hasOutput
  {
    NotesOff(s.(x := ScreenWidth / 2 - s.w / 2, y := ScreenHeight / 2 - s.h / 2, vx := 100, vy := 100,
                activeNotes := {}))
  }

  /** The label fits in the room above the keyboard, moves at 100 px/s on each axis, the
      program is a valid one, and only keyboard notes sound. */
  predicate PianoValid(s: PianoState) {
    && 0 <= s.instrument < Programs
    && (forall n :: n in s.activeNotes ==> LowNote <= n <= HighNote)
    && 0 <= s.w <= ScreenWidth && 0 <= s.h <= Floor
    && Abs(s.vx) == 100 && Abs(s.vy) == 100
  }

  // ---------- Properties ----------

  /** Pressing a mapped key adds exactly its note (doing nothing when it already sounds);
      releasing it removes exactly its note. */
  lemma NoteSetRules(s: PianoState, k: Key)
    requires k in KeyToNote && k != Up && k != Down
    ensures KeyPressed(s, k).activeNotes == s.activeNotes + {KeyToNote[k]}
    ensures KeyToNote[k] in s.activeNotes ==> KeyPressed(s, k) == s
    ensures KeyReleased(s, k).activeNotes == s.activeNotes - {KeyToNote[k]}
    ensures KeyToNote[k] !in s.activeNotes ==> KeyReleased(s, k) == s
  {
  }

  /** A key that is not mapped leaves the notes alone. */
  lemma UnmappedKeys(s: PianoState, k: Key)
    requires k !in KeyToNote
    ensures KeyPressed(s, k).activeNotes == s.activeNotes
    ensures KeyReleased(s, k) == s
  {
  }

  /** Pressing and releasing a key that was silent gives the notes back as they were. */
  lemma PressReleaseRoundTrip(s: PianoState, k: Key)
    requires k in KeyToNote && KeyToNote[k] !in s.activeNotes
    ensures KeyReleased(KeyPressed(s, k), k).activeNotes == s.activeNotes
  {
    assert (s.activeNotes + {KeyToNote[k]}) - {KeyToNote[k]} == s.activeNotes;
  }

  /** Releasing a key is seen with the prompt open too; pressing one is not. */
  lemma ReleaseUnderPrompt(s: PianoState, p: Prompt, k: Key)
    requires p.open
    ensures PianoEvent(s, p, KeyUp(k)) == KeyReleased(s, k)
    ensures k != Escape ==> PianoEvent(s, p, KeyDown(k)).activeNotes <= s.activeNotes
  {
  }

  lemma EventKeepsValid(s: PianoState, p: Prompt, ev: Event)
    requires PianoValid(s)
    ensures PianoValid(PianoEvent(s, p, ev))
  {
    if !ev.OtherEvent? && ev.key in KeyToNote {
      KeyToNoteInverse(ev.key);
    }
  }

  /** After a move the label is inside the screen above the keyboard, its left and top are
      not negative, and an edge contact turns the velocity away from that edge. */
  lemma MovedRules(s: PianoState, dx: int, dy: int)
    requires PianoValid(s)
    ensures var r := Moved(s, dx, dy);
            && PianoValid(r) && r.w == s.w && r.h == s.h
            && 0 <= r.x && r.x + r.w <= ScreenWidth && 0 <= r.y && r.y + r.h <= Floor
            && (s.x + dx <= 0 ==> r.x == 0 && r.vx > 0)
            && (s.x + dx > 0 && s.x + dx + s.w >= ScreenWidth ==> r.x + r.w == ScreenWidth && r.vx < 0)
            && (s.y + dy <= 0 ==> r.y == 0 && r.vy > 0)
            && (s.y + dy > 0 && s.y + dy + s.h >= Floor ==> r.y + r.h == Floor && r.vy < 0)
  {
    EdgeBounceBounds(s.x + dx, s.w, s.vx, ScreenWidth);
    EdgeBounceBounds(s.y + dy, s.h, s.vy, Floor);
  }

  lemma ResetKeepsValid(s: PianoState)
    requires PianoValid(s)
    ensures PianoValid(ResetState(s))
  {
  }

  class PianoGame {
    var instrument: int
    var activeNotes: set<int>
    var hasOutput: bool
    var x: int
    var y: int
    var w: int
    var h: int
    var vx: int
    var vy: int
    var returnPrompt: bool
    var promptChoice: int

    function State(): PianoState
      reads this
    {
      PianoState(instrument, activeNotes, hasOutput, x, y, w, h, vx, vy)
    }

    function PromptState(): Prompt
      reads this
    {
      Prompt(returnPrompt, promptChoice)
    }

    ghost predicate Valid()
      reads this
    {
      ValidChoice(promptChoice) && PianoValid(State())
    }

    /** `__init__`: program 80, no note sounding, the label of size `w` by `h` centred and
        moving at [100, 100], the prompt closed on No; `output` says whether a MIDI output
        could be opened. */
    constructor (output: bool, labelW: int, labelH: int)
      requires 0 <= labelW <= ScreenWidth && 0 <= labelH <= Floor
      ensures Valid()
      ensures State() == PianoState(80, {}, output, ScreenWidth / 2 - labelW / 2, ScreenHeight / 2 - labelH / 2,
                                    labelW, labelH, 100, 100)
      ensures PromptState() == Prompt(false, 0)
    {
      instrument := 80;
      activeNotes := {};
      hasOutput := output;
      w, h := labelW, labelH;
      x := ScreenWidth / 2 - labelW / 2;
      y := ScreenHeight / 2 - labelH / 2;
      vx, vy := 100, 100;
      returnPrompt := false;
      promptChoice := 0;
    }

    /** `_all_notes_off`. */
    method AllNotesOff()
      modifies this
      ensures State() == NotesOff(old(State()))
      ensures PromptState() == old(PromptState())
    {
      if !hasOutput {
        return;
      }
      activeNotes := {};
    }

    /** `reset`. */
    method Reset()
      requires Valid()
      modifies this
      ensures Valid()
      ensures State() == ResetState(old(State()))
      ensures PromptState() == old(PromptState())
    {
      ResetKeepsValid(State());
      x := ScreenWidth / 2 - w / 2;
      y := ScreenHeight / 2 - h / 2;
      vx, vy := 100, 100;
      activeNotes := {};
      AllNotesOff();
    }

    /** `handle_event`: the prompt (Enter on Yes silences the notes, asks for the menu and
        closes it); every other event plays the keyboard. */
    method HandleEvent(ev: Event) returns (result: Action)
      requires Valid()
      modifies this
      ensures Valid()
      ensures PromptState() == PromptAfter(old(PromptState()), ev, true)
      ensures result == PromptResult(old(PromptState()), ev)
      ensures State() == PianoEvent(old(State()), old(PromptState()), ev)
    {
      EventKeepsValid(State(), PromptState(), ev);
      if ev == KeyDown(Escape) || (returnPrompt && ev.KeyDown?) {
        result := PromptEvent(ev);
      } else {
        result := NoAction;
        PlayKeyboard(ev);
      }
    }

    /** The prompt branches of `handle_event`: Esc opens the prompt; inside it the arrows
        toggle the choice and Enter closes it, on Yes after silencing every note. */
    method PromptEvent(ev: Event) returns (result: Action)
      requires ValidChoice(promptChoice) && (IsEscDown(ev) || PromptTakes(PromptState(), ev))
      modifies this
      ensures PromptState() == PromptAfter(old(PromptState()), ev, true)
      ensures result == PromptResult(old(PromptState()), ev)
      ensures State() == PianoEvent(old(State()), old(PromptState()), ev)
    {
      result := NoAction;
      if ev == KeyDown(Escape) {
        returnPrompt := true;
      } else {
        if ev.key == Left || ev.key == Right {
          promptChoice := 1 - promptChoice;
        } else if ev.key == Return || ev.key == KpEnter {
          if promptChoice == 1 {
            returnPrompt := false;
            AllNotesOff();
            result := ReturnToMenu;
          } else {
            returnPrompt := false;
          }
        } else if ev.key == Escape {
          // The Esc key press was taken by the first branch: this one is dead.
          assert false;
        }
      }
    }

    /** The keyboard branch of `handle_event`: Up and Down change the program, a mapped key
        sounds or silences its note. */
    method PlayKeyboard(ev: Event)
      modifies this
      ensures PromptState() == old(PromptState())
      ensures State() == if ev.KeyDown? then KeyPressed(old(State()), ev.key)
                         else if ev.KeyUp? then KeyReleased(old(State()), ev.key)
                         else old(State())
    {
      if ev.KeyDown? {
        if ev.key == Up {
          instrument := (instrument + 1) % Programs;
        } else if ev.key == Down {
          instrument := (instrument - 1) % Programs;
        }
        if ev.key in KeyToNote && KeyToNote[ev.key] !in activeNotes {
          activeNotes := activeNotes + {KeyToNote[ev.key]};
        }
      } else if ev.KeyUp? {
        if ev.key in KeyToNote && KeyToNote[ev.key] in activeNotes {
          activeNotes := activeNotes - {KeyToNote[ev.key]};
        }
      }
    }

    /** One axis of the label's bounce in `update`. */
    static method BounceAxis(pos: int, size: int, vel: int, hi: int) returns (p: int, v: int)
      ensures (p, v) == EdgeBounce(pos, size, vel, hi)
    {
      p, v := pos, vel;
      if p <= 0 {
        p := 0;
        v := Abs(v);
      } else if p + size >= hi {
        p := hi - size;
        v := -Abs(v);
      }
    }

    /** `update`: nothing while the prompt is open; otherwise the label moves by the time the
        game's own clock reports (`elapsed`) and bounces. */
    method Update(elapsed: real)
      requires Valid()
      modifies this
      ensures Valid()
      ensures PromptState() == old(PromptState())
      ensures State() == if old(returnPrompt) then old(State())
                         else Moved(old(State()), Travel(old(vx), elapsed), Travel(old(vy), elapsed))
    {
      if returnPrompt {
        return;
      }
      var dx, dy := Travel(vx, elapsed), Travel(vy, elapsed);
      MovedRules(State(), dx, dy);
      var whiteHeight := WhiteHeight;
      var left, ux := BounceAxis(x + dx, w, vx, ScreenWidth);
      var top, uy := BounceAxis(y + dy, h, vy, ScreenHeight - whiteHeight);
      x, y, vx, vy := left, top, ux, uy;
    }
  }
}
