/** What the picker reads and what one key press ends in, shared by the
    two picker versions (twd/crud.py and twd/screen.py). */
module Events {
  import opened Text
  import opened Views

  /** Key codes as `stdscr.getch()` reports them: `ord(...)` of a
      character, or one of the `curses.KEY_*` constants. */
  const KeyEnter := 10        // ord("\n")
  const KeyEsc := 27
  const KeyDel := 127
  const KeyDown := 258        // curses.KEY_DOWN
  const KeyUp := 259          // curses.KEY_UP
  const KeyBackspace := 263   // curses.KEY_BACKSPACE
  const KeyD := 'd' as int
  const KeyJ := 'j' as int
  const KeyK := 'k' as int
  const KeyN := 'n' as int
  const KeyQ := 'q' as int
  const KeyS := 's' as int
  const KeyT := 't' as int

  /** What handling one key ends in: the loop goes on, the picker returns a
      bookmark, or it returns `None`. */
  datatype Outcome = Continue | Selected(rec: Record) | Cancelled

  /** The pending action: `action` is `None` until the first `d`, then
      `"delete"` for good. */
  datatype Action = NoAction | Delete

  /** The three mode flags and the pending action. */
  datatype Modes = Modes(search: bool, postSearch: bool, confirm: bool, action: Action) {
    /** Browse mode: none of the three flags is set. */
    predicate Browsing() {
      !search && !postSearch && !confirm
    }

    /** A key reaches the post-search branch. */
    predicate PostSearching() {
      !search && postSearch
    }

    /** A key reaches the confirm branch (in the current picker, unless it
        is `n`, `t` or `q`). */
    predicate Confirming() {
      !search && !postSearch && confirm
    }
  }

  /** The action line, by priority: the search prompt, the delete
      confirmation, the `cd` command for the pre-selected path, blanks. */
  datatype Prompt = SearchPrompt(query: Str) | DeletePrompt(alias: Str, path: Str) | CdCommand(path: Str) | Blank(width: nat)

  /** One turn of the loop: the terminal size read by `getmaxyx` for the
      frame, then the key read by `getch`. */
  datatype Input = Input(height: int, width: int, key: int)

  /** How a run over a finite list of inputs ends: the picker returned
      (a bookmark or `None`), the frame raised, or it is still waiting
      for a key. Each case carries the state the picker is left in: what
      the store and the caller's dict have lost, what CONFIG holds. */
  datatype SessionEnd<S> = Returned(choice: Option<Record>, state: S) | Raised(error: PyError, state: S) | Waiting(state: S)
}
