/** The cyclic selector of src/widgets/workers.rs: a list of names and the index of the highlighted one. */
module WorkersWidget {

  /** The index `up` moves to: one back, wrapping from the first to the last; always inside the list. */
  function UpIndex(selected: nat, len: nat): (r: nat)
    requires len > 0
    ensures r < len
  {
    (selected + len - 1) % len
  }

  /** The index `down` moves to: one forward, wrapping from the last to the first; always inside the list. */
  function DownIndex(selected: nat, len: nat): (r: nat)
    requires len > 0
    ensures r < len
  {
    (selected + len + 1) % len
  }

  lemma ModSmall(a: int, m: int)
    requires 0 <= a < m
    ensures a % m == a
  {
  }

  lemma ModShift(a: int, m: int)
    requires 0 < m <= a < 2 * m
    ensures a % m == a - m
  {
    ModSmall(a - m, m);
  }

  lemma ModDouble(m: int)
    requires 0 < m
    ensures (2 * m) % m == 0
  {
    ModSmall(0, m);
    assert 2 * m == m + m;
  }

  /** On an index of the list, `down` steps forward by one and wraps from the last index to 0. */
  lemma DownStep(selected: nat, len: nat)
    requires selected < len
    ensures DownIndex(selected, len) == if selected + 1 < len then selected + 1 else 0
  {
    if selected + 1 < len {
      ModShift(selected + len + 1, len);
    } else {
      ModDouble(len);
    }
  }

  /** On an index of the list, `up` steps back by one and wraps from 0 to the last index. */
  lemma UpStep(selected: nat, len: nat)
    requires selected < len
    ensures UpIndex(selected, len) == if selected > 0 then selected - 1 else len - 1
  {
    if selected > 0 {
      ModShift(selected + len - 1, len);
    } else {
      ModSmall(len - 1, len);
    }
  }

  /** `up` and `down` undo each other on every index of the list. */
  lemma UpDownInverse(selected: nat, len: nat)
    requires selected < len
    ensures UpIndex(DownIndex(selected, len), len) == selected
    ensures DownIndex(UpIndex(selected, len), len) == selected
  {
    DownStep(selected, len);
    UpStep(DownIndex(selected, len), len);
    UpStep(selected, len);
    DownStep(UpIndex(selected, len), len);
  }

  const DefaultNames: seq<string> := [" Move Up ", "<Up>", " Move Down ", "<Down>"]

  /** `Workers`: the highlighted index and the list of names. */
  class Workers {
    var selected: nat
    var names: seq<string>

    /** `Workers::default()`. */
    constructor ()
      ensures selected == 0 && names == DefaultNames
    {
      selected := 0;
      names := DefaultNames;
    }

    method Up()
      modifies this
      ensures names == old(names)
      ensures |names| == 0 ==> selected == old(selected)
      ensures |names| > 0 ==> selected == UpIndex(old(selected), |names|)
    {
      if |names| > 0 {
        selected := (selected + |names| - 1) % |names|;
      }
    }

    method Down()
      modifies this
      ensures names == old(names)
      ensures |names| == 0 ==> selected == old(selected)
      ensures |names| > 0 ==> selected == DownIndex(old(selected), |names|)
    {
      if |names| > 0 {
        selected := (selected + |names| + 1) % |names|;
      }
    }
  }
}
