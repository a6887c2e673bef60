/** The terminal input events the panels react to (the crossterm `KeyCode`s they match on). */
module Keys {

  /**
   * A key code. `TabKey` is crossterm's `KeyCode::Tab`, renamed so that it does
   * not clash with the application's `Tab`; `OtherKey` stands for every code no
   * panel matches on (function keys, Home, Delete, ...).
   */
  datatype KeyCode =
    | Char(c: char)
    | Left
    | Right
    | Up
    | Down
    | Enter
    | Esc
    | TabKey
    | Backspace
    | OtherKey

  /** Whether a key event is a press, a repeat or a release. */
  datatype KeyEventKind = Press | Repeat | Release

  /** A terminal event: a key, or anything else (mouse, resize, focus, paste). */
  datatype TermEvent =
    | Key(code: KeyCode, kind: KeyEventKind)
    | NonKey
}
