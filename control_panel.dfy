/**
 * The key handling of the demo panel in src/tui/control_panel.rs: a `u8`
 * counter moved by Left/Right with wrap-around, and a worker selector moved
 * by Up/Down.
 */
module ControlPanel {
  import opened Keys
  import opened WorkersWidget

  newtype u8 = x: int | 0 <= x < 256

  /** `u8::wrapping_add`: the sum modulo 256. */
  function WrappingAdd(a: u8, b: u8): (r: u8)
    ensures r as int == a as int + b as int || r as int == a as int + b as int - 256
  {
    ((a as int + b as int) % 256) as u8
  }

  /** `u8::wrapping_sub`: the difference modulo 256 (never negative: `%` is Euclidean). */
  function WrappingSub(a: u8, b: u8): (r: u8)
    ensures r as int == a as int - b as int || r as int == a as int - b as int + 256
  {
    ((a as int - b as int) % 256) as u8
  }

  /**
   * Incrementing steps up by one below 255 and wraps 255 to 0; decrementing
   * steps down by one above 0 and wraps 0 to 255.
   */
  lemma CounterSteps(x: u8)
    ensures x < 255 ==> WrappingAdd(x, 1) == x + 1
    ensures WrappingAdd(255, 1) == 0
    ensures x > 0 ==> WrappingSub(x, 1) == x - 1
    ensures WrappingSub(0, 1) == 255
  {
  }

  /** An increment followed by a decrement, or the other way round, restores the counter. */
  lemma IncDecInverse(x: u8)
    ensures WrappingSub(WrappingAdd(x, 1), 1) == x
    ensures WrappingAdd(WrappingSub(x, 1), 1) == x
  {
    if x == 255 {
      assert WrappingAdd(x, 1) == 0;
    } else {
      assert WrappingAdd(x, 1) == x + 1;
    }
    if x == 0 {
      assert WrappingSub(x, 1) == 255;
    } else {
      assert WrappingSub(x, 1) == x - 1;
    }
  }

  /** The counter after a key: Right increments, Left decrements, every other key leaves it. */
  function CounterAfter(counter: u8, code: KeyCode): (r: u8)
    ensures code == Right ==> WrappingSub(r, 1) == counter
    ensures code == Left ==> WrappingAdd(r, 1) == counter
    ensures code != Left && code != Right ==> r == counter
  {
    IncDecInverse(counter);
    if code == Left then WrappingSub(counter, 1)
    else if code == Right then WrappingAdd(counter, 1)
    else counter
  }

  /** The selection after a key on a list of `len` names: Up and Down move it, other keys leave it. */
  function SelectionAfter(selected: nat, len: nat, code: KeyCode): (r: nat)
    ensures selected < len ==> r < len
    ensures code != Up && code != Down ==> r == selected
  {
    if len == 0 then selected
    else if code == Up then UpIndex(selected, len)
    else if code == Down then DownIndex(selected, len)
    else selected
  }

  /**
   * The key moves at most one of the two: Left/Right never touch the
   * selection, Up/Down never touch the counter, and any other key touches
   * neither.
   */
  lemma KeysAreIndependent(counter: u8, selected: nat, len: nat, code: KeyCode)
    ensures code != Left && code != Right ==> CounterAfter(counter, code) == counter
    ensures code != Up && code != Down ==> SelectionAfter(selected, len, code) == selected
    ensures code == Right ==> CounterAfter(CounterAfter(counter, code), Left) == counter
  {
    IncDecInverse(counter);
  }

  /** The demo panel's `App`: connection settings, the counter and the worker selector. */
  class App {
    var url: string
    var token: string
    var counter: u8
    const workers: Workers

    /** `From<(String, String)>`: the settings, a zero counter and the default selector. */
    constructor (value: (string, string))
      ensures url == value.0 && token == value.1 && counter == 0
      ensures fresh(workers) && workers.selected == 0 && workers.names == DefaultNames
    {
      url := value.0;
      token := value.1;
      counter := 0;
      workers := new Workers();
    }

    method IncrementCounter()
      modifies this
      ensures counter == WrappingAdd(old(counter), 1)
      ensures url == old(url) && token == old(token)
    {
      counter := WrappingAdd(counter, 1);
    }

    method DecrementCounter()
      modifies this
      ensures counter == WrappingSub(old(counter), 1)
      ensures url == old(url) && token == old(token)
    {
      counter := WrappingSub(counter, 1);
    }

    /** `handle_key_event`: `true` asks to quit, and only `q` does. */
    method HandleKeyEvent(code: KeyCode) returns (quit: bool)
      modifies this, workers
      ensures quit <==> code == Char('q')
      ensures url == old(url) && token == old(token)
      ensures counter == CounterAfter(old(counter), code)
      ensures workers.names == old(workers.names)
      ensures workers.selected == SelectionAfter(old(workers.selected), |workers.names|, code)
    {
      if code == Char('q') {
        return true;
      } else if code == Left {
        DecrementCounter();
      } else if code == Right {
        IncrementCounter();
      } else if code == Up {
        workers.Up();
      } else if code == Down {
        workers.Down();
      }
      quit := false;
    }

    /** `handle_events` for one event: only a key press reaches `handle_key_event`; anything else is ignored. */
    method HandleEvent(ev: TermEvent) returns (quit: bool)
      modifies this, workers
      ensures quit <==> ev == Key(Char('q'), KeyEventKind.Press)
      ensures url == old(url) && token == old(token)
      ensures workers.names == old(workers.names)
      ensures ev.Key? && ev.kind == KeyEventKind.Press ==>
                counter == CounterAfter(old(counter), ev.code)
                && workers.selected == SelectionAfter(old(workers.selected), |workers.names|, ev.code)
      ensures !(ev.Key? && ev.kind == KeyEventKind.Press) ==> counter == old(counter) && workers.selected == old(workers.selected)
    {
      if ev.Key? && ev.kind == KeyEventKind.Press {
        quit := HandleKeyEvent(ev.code);
      } else {
        quit := false;
      }
    }
  }
}
