/**
 * The first-run form of src/tui/setup_panel.rs: two text fields (server URL
 * and token), the field being edited, and whether the form was accepted.
 * The event arrives as a parameter instead of being read from the terminal.
 */
module Setup {
  import opened Wrappers
  import opened Keys

  datatype FieldFocus = Url | Token

  /** `SetupData`. */
  datatype SetupData = SetupData(url: string, token: string, focusedField: FieldFocus)

  /** The whole panel as a value: its data and the accepted flag. */
  datatype Panel = Panel(data: SetupData, accepted: bool)

  /** `unwrap_or_default` on an optional string. */
  function OrEmpty(o: Option<string>): string
  {
    if o.Some? then o.value else ""
  }

  /** `SetupPanel::new`: missing values become empty, the URL field has focus, nothing is accepted yet. */
  function Initial(initialUrl: Option<string>, initialToken: Option<string>): (p: Panel)
    ensures p.data.url == (if initialUrl.Some? then initialUrl.value else "")
    ensures p.data.token == (if initialToken.Some? then initialToken.value else "")
    ensures p.data.focusedField == Url && !p.accepted
  {
    Panel(SetupData(OrEmpty(initialUrl), OrEmpty(initialToken), Url), false)
  }

  /** `final_values`: both values when the form was accepted, neither otherwise. */
  function FinalValues(p: Panel): (r: (Option<string>, Option<string>))
    ensures p.accepted <==> r.0.Some?
    ensures p.accepted <==> r.1.Some?
    ensures p.accepted ==> r == (Some(p.data.url), Some(p.data.token))
  {
    if p.accepted then (Some(p.data.url), Some(p.data.token)) else (None, None)
  }

  /** The text of the focused field. */
  function Focused(d: SetupData): string
  {
    if d.focusedField == Url then d.url else d.token
  }

  /** The other field's text. */
  function Unfocused(d: SetupData): string
  {
    if d.focusedField == Url then d.token else d.url
  }

  /** Replace the focused field's text. */
  function WithFocused(d: SetupData, text: string): SetupData
  {
    if d.focusedField == Url then d.(url := text) else d.(token := text)
  }

  /** `String::pop` on the focused field: drop the last character, if any. */
  function Erased(d: SetupData): SetupData
  {
    var t := Focused(d);
    if |t| > 0 then WithFocused(d, t[..|t| - 1]) else d
  }

  /**
   * One event: the new panel, and whether the form is finished. Finishing
   * touches no text, and the accepted flag changes only when the form finishes.
   */
  function Transition(p: Panel, ev: TermEvent): (r: (Panel, bool))
    ensures r.1 ==> r.0.data == p.data
    ensures !r.1 ==> r.0.accepted == p.accepted
  {
    if ev.Key? && ev.kind == KeyEventKind.Press then
      match ev.code
      case Esc => (p.(accepted := false), true)
      case Enter => (p.(accepted := true), true)
      case TabKey => (p.(data := p.data.(focusedField := if p.data.focusedField == Url then Token else Url)), false)
      case Backspace => (p.(data := Erased(p.data)), false)
      case Char(c) => (p.(data := WithFocused(p.data, Focused(p.data) + [c])), false)
      case _ => (p, false)
    else (p, false)
  }

  /** A key press. */
  function Pressed(code: KeyCode): TermEvent
  {
    Key(code, KeyEventKind.Press)
  }

  /**
   * The form is finished exactly on a press of Enter (accepted) or Esc (not
   * accepted); every other key, every release or repeat, and every non-key
   * event leaves it open and the accepted flag as it was.
   */
  lemma FinishesExactly(p: Panel, ev: TermEvent)
    ensures Transition(p, ev).1 <==> ev == Pressed(Enter) || ev == Pressed(Esc)
    ensures ev == Pressed(Enter) ==> Transition(p, ev).0 == p.(accepted := true)
    ensures ev == Pressed(Esc) ==> Transition(p, ev).0 == p.(accepted := false)
    ensures !Transition(p, ev).1 ==> Transition(p, ev).0.accepted == p.accepted
    ensures !(ev.Key? && ev.kind == KeyEventKind.Press) ==> Transition(p, ev).0 == p
  {
  }

  /** Enter then `final_values` yields both texts; Esc then `final_values` yields neither. */
  lemma AcceptOrAbort(p: Panel)
    ensures FinalValues(Transition(p, Pressed(Enter)).0) == (Some(p.data.url), Some(p.data.token))
    ensures FinalValues(Transition(p, Pressed(Esc)).0) == (None, None)
  {
  }

  /** Tab switches the focused field and touches no text, so two Tabs are the identity. */
  lemma TabToggles(p: Panel)
    ensures var q := Transition(p, Pressed(TabKey)).0;
              q.data.focusedField != p.data.focusedField && q.data.url == p.data.url && q.data.token == p.data.token
    ensures Transition(Transition(p, Pressed(TabKey)).0, Pressed(TabKey)).0 == p
  {
  }

  /** A character is appended to the focused field only; the other field and the focus stay. */
  lemma CharEditsFocused(p: Panel, c: char)
    ensures var d := Transition(p, Pressed(Char(c))).0.data;
              Focused(d) == Focused(p.data) + [c] && Unfocused(d) == Unfocused(p.data) && d.focusedField == p.data.focusedField
  {
  }

  /**
   * Backspace removes the last character of the focused field, does nothing on
   * an empty one, and never touches the other field.
   */
  lemma BackspaceEditsFocused(p: Panel)
    ensures var d := Transition(p, Pressed(Backspace)).0.data;
              Unfocused(d) == Unfocused(p.data) && d.focusedField == p.data.focusedField
              && (|Focused(p.data)| == 0 ==> d == p.data)
              && (|Focused(p.data)| > 0 ==> Focused(d) + [Focused(p.data)[|Focused(p.data)| - 1]] == Focused(p.data))
  {
  }

  /** Typing a character and erasing it restores the panel. */
  lemma CharThenBackspace(p: Panel, c: char)
    ensures Transition(Transition(p, Pressed(Char(c))).0, Pressed(Backspace)).0 == p
  {
    var t := Focused(p.data) + [c];
    assert t[..|t| - 1] == Focused(p.data);
  }

  /** `SetupPanel`, updated in place by `handle_events`. */
  class SetupPanel {
    var data: SetupData
    var accepted: bool

    function Snapshot(): Panel
      reads this
    {
      Panel(data, accepted)
    }

    constructor (initialUrl: Option<string>, initialToken: Option<string>)
      ensures Snapshot() == Initial(initialUrl, initialToken)
    {
      data := SetupData(OrEmpty(initialUrl), OrEmpty(initialToken), Url);
      accepted := false;
    }

    /** `handle_events` for one event: `true` when the form is finished. */
    method HandleEvent(ev: TermEvent) returns (done: bool)
      modifies this
      ensures (Snapshot(), done) == Transition(old(Snapshot()), ev)
    {
      if ev.Key? && ev.kind == KeyEventKind.Press {
        match ev.code {
          case Esc =>
            accepted := false;
            return true;
          case Enter =>
            accepted := true;
            return true;
          case TabKey =>
            data := data.(focusedField := if data.focusedField == Url then Token else Url);
          case Backspace =>
            if data.focusedField == Url {
              if |data.url| > 0 {
                data := data.(url := data.url[..|data.url| - 1]);
              }
            } else {
              if |data.token| > 0 {
                data := data.(token := data.token[..|data.token| - 1]);
              }
            }
          case Char(c) =>
            if data.focusedField == Url {
              data := data.(url := data.url + [c]);
            } else {
              data := data.(token := data.token + [c]);
            }
          case _ =>
        }
      }
      done := false;
    }
  }
}
