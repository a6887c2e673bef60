/**
 * The computations inside the dashboard renderer of src/ui/tabs/dashboard.rs:
 * the list of selectable workers, the connection count and busy colour of a
 * worker, how a worker's connections are packed into rows of squares, and how
 * the queue map is split into a model column and a worker column. Nothing is
 * drawn: each computation yields the values the renderer would lay out.
 */
module Dashboard {
  import opened Wrappers
  import opened Text
  import opened Models
  import opened AppState

  /** The pseudo-worker the server reports requests without a valid key under. */
  const Unauthenticated: string := "Unauthenticated"

  // ---------------------------------------------------------------------------
  // The selectable workers
  // ---------------------------------------------------------------------------

  /** `names` lists the status keys other than "Unauthenticated", ascending and each once. */
  ghost predicate IsWorkerList(names: seq<string>, statuses: WorkerStatuses)
  {
    StrictlySorted(names) && forall n :: n in names <==> n in statuses && n != Unauthenticated
  }

  /**
   * The worker names: the keys of `worker_statuses` without "Unauthenticated",
   * collected and sorted.
   */
  method WorkerNames(statuses: WorkerStatuses) returns (names: seq<string>)
    ensures IsWorkerList(names, statuses)
    ensures |names| == |statuses.Keys - {Unauthenticated}|
  {
    names := SortedList(statuses.Keys - {Unauthenticated});
  }

  /** There is only one worker list per status map, whatever order the map enumerates its keys in. */
  lemma WorkerListUnique(names: seq<string>, others: seq<string>, statuses: WorkerStatuses)
    requires IsWorkerList(names, statuses) && IsWorkerList(others, statuses)
    ensures names == others
  {
    SortedUnique(names, others);
  }

  /** A strictly sorted listing of a set has one entry per element. */
  lemma {:induction false} SortedListingSize(s: seq<string>, keys: set<string>)
    requires StrictlySorted(s)
    requires forall x :: x in s <==> x in keys
    ensures |s| == |keys|
    decreases |s|
  {
    if |s| > 0 {
      var rest := s[1..];
      assert StrictlySorted(rest);
      forall x ensures x in rest <==> x in keys - {s[0]} {
        if x in rest {
          var j :| 0 <= j < |rest| && rest[j] == x;
          assert s[j + 1] == x && Less(s[0], x);
          LessIrreflexive(x);
        }
        if x in keys - {s[0]} {
          var j :| 0 <= j < |s| && s[j] == x;
          assert j != 0;
          assert rest[j - 1] == x;
        }
      }
      SortedListingSize(rest, keys - {s[0]});
    }
  }

  /**
   * `workers_len`, which bounds the worker cursor, counts every status key,
   * so it exceeds the length of the displayed list by one exactly when
   * "Unauthenticated" reports.
   */
  lemma WorkerCountVersusList(s: State, names: seq<string>)
    requires s.caches.workerStatuses.Some? && IsWorkerList(names, s.caches.workerStatuses.value)
    ensures WorkerCount(s) == |names| + (if Unauthenticated in s.caches.workerStatuses.value then 1 else 0)
  {
    var keys := s.caches.workerStatuses.value.Keys;
    SortedListingSize(names, keys - {Unauthenticated});
    if Unauthenticated in keys {
      WorkerCountIncludesUnauthenticated(s);
    } else {
      assert keys - {Unauthenticated} == keys;
    }
  }

  /** `names.get(selected_worker)`: the selected worker's name, if the index is on the list. */
  function SelectedWorker(names: seq<string>, selected: nat): (r: Option<string>)
    ensures r.None? <==> selected >= |names|
    ensures r.Some? ==> r.value == names[selected]
  {
    if selected < |names| then Some(names[selected]) else None
  }

  /**
   * When "Unauthenticated" reports, the worker cursor can be moved one past
   * the displayed list: pressing Down `|names|` times from any position on
   * the list leaves the info panel with no selected worker.
   */
  lemma CursorPassesLastWorker(s: State, names: seq<string>)
    requires s.caches.workerStatuses.Some? && IsWorkerList(names, s.caches.workerStatuses.value)
    requires Unauthenticated in s.caches.workerStatuses.value
    requires s.focus == WorkersList && s.selectedWorker < |names|
    ensures CanMoveDown(s)
    ensures SelectedWorker(names, CursorDownN(s, |names|).selectedWorker).None?
  {
    WorkerCountVersusList(s, names);
    CursorDownSaturates(s, |names|);
  }

  /**
   * The message shown instead of the busy grid: a loading note before the
   * first status poll, "No workers online." when no worker other than
   * "Unauthenticated" reports, and none when there is a grid to draw.
   */
  function GridMessage(statuses: Option<WorkerStatuses>): (r: Option<string>)
    ensures r == Some("Loading worker statuses...") <==> statuses.None?
    ensures r == Some("No workers online.") <==> statuses.Some? && statuses.value.Keys <= {Unauthenticated}
    ensures r.None? <==> statuses.Some? && exists n :: n in statuses.value && n != Unauthenticated
  {
    if statuses.None? then Some("Loading worker statuses...")
    else if |statuses.value.Keys - {Unauthenticated}| == 0 then
      assert statuses.value.Keys - {Unauthenticated} == {};
      Some("No workers online.")
    else
      var n :| n in statuses.value.Keys - {Unauthenticated};
      None
  }

  // ---------------------------------------------------------------------------
  // Connection count and busy colour of one worker
  // ---------------------------------------------------------------------------

  /** The worker's connection count, 0 when connections were not fetched or the worker is not in them. */
  function ConnectionCount(connections: Option<WorkerConnections>, name: string): (r: nat)
    ensures r > 0 ==> connections.Some? && name in connections.value
    ensures connections.Some? && name in connections.value ==> r == connections.value[name]
  {
    if connections.Some? && name in connections.value then connections.value[name] else 0
  }

  /** A missing count reads as 0; a present one is read as it is. */
  lemma ConnectionDefault(connections: Option<WorkerConnections>, name: string)
    ensures connections.None? ==> ConnectionCount(connections, name) == 0
    ensures connections.Some? && name !in connections.value ==> ConnectionCount(connections, name) == 0
    ensures connections.Some? && name in connections.value ==> ConnectionCount(connections, name) == connections.value[name]
    ensures ConnectionCount(connections, name) > 0 ==> connections.Some? && name in connections.value
  {
  }

  /** The last status the worker reported, "Unknown" when it has none. */
  function LastStatus(statuses: WorkerStatuses, name: string): (r: string)
    ensures r == "Unknown" || (name in statuses && r in statuses[name])
    ensures name in statuses && |statuses[name]| > 0 ==> r == statuses[name][|statuses[name]| - 1]
  {
    if name in statuses && |statuses[name]| > 0 then statuses[name][|statuses[name]| - 1] else "Unknown"
  }

  /** The squares of a worker are drawn in the "bad" colour when its last status is "Working". */
  predicate IsBusy(statuses: WorkerStatuses, name: string)
    ensures IsBusy(statuses, name) ==> name in statuses && "Working" in statuses[name]
  {
    LastStatus(statuses, name) == "Working"
  }

  /**
   * A worker is busy exactly when it has statuses and the last one is
   * "Working"; a worker without statuses is never busy.
   */
  lemma BusyIffWorking(statuses: WorkerStatuses, name: string)
    ensures IsBusy(statuses, name) <==>
              name in statuses && |statuses[name]| > 0 && statuses[name][|statuses[name]| - 1] == "Working"
    ensures name !in statuses || |statuses[name]| == 0 ==> !IsBusy(statuses, name)
  {
  }

  // ---------------------------------------------------------------------------
  // Packing connections into rows of squares
  // ---------------------------------------------------------------------------

  /** Each square is two columns wide and followed by a one-column gap. */
  const SquareSize: nat := 2
  const GapSize: nat := 1

  /** `u16::saturating_sub`. */
  function SaturatingSub(a: nat, b: nat): (r: nat)
    ensures r <= a
    ensures a >= b ==> r + b == a
    ensures a < b ==> r == 0
  {
    if a >= b then a - b else 0
  }

  /** `usize as u16`: the count modulo 2^16. */
  function AsU16(n: nat): (r: nat)
    ensures r < 0x1_0000
    ensures n < 0x1_0000 ==> r == n
    ensures (n - r) % 0x1_0000 == 0
  {
    n % 0x1_0000
  }

  /**
   * `max_squares_per_line`: the number of square-plus-gap slots that fit in
   * the inner width less one column, and at least one.
   */
  function MaxSquaresPerLine(width: u16): (r: nat)
    ensures r >= 1
    ensures r == 1 || r * (SquareSize + GapSize) <= SaturatingSub(width as nat, 1)
    ensures (r + 1) * (SquareSize + GapSize) > SaturatingSub(width as nat, 1)
  {
    var slots := SaturatingSub(width as nat, 1) / (SquareSize + GapSize);
    if slots >= 1 then slots else 1
  }

  /** `u16::div_ceil`: the quotient rounded up. */
  function DivCeil(a: nat, b: nat): (r: nat)
    requires b > 0
    ensures a <= r * b
    ensures r > 0 ==> (r - 1) * b < a
  {
    var d := a / b;
    if a % b > 0 then d + 1 else d
  }

  lemma MulMonotone(a: nat, b: nat, m: nat)
    requires a <= b
    ensures a * m <= b * m
  {
    assert b * m == a * m + (b - a) * m;
  }

  /** Every row before the last required one starts before the end of the count. */
  lemma RowStartsBeforeEnd(row: nat, max: nat, count: nat)
    requires max > 0 && row < DivCeil(count, max)
    ensures row * max < count
  {
    var rows := DivCeil(count, max);
    MulMonotone(row, rows - 1, max);
  }

  function Sum(s: seq<nat>): nat
  {
    if |s| == 0 then 0 else Sum(s[..|s| - 1]) + s[|s| - 1]
  }

  lemma SumAppend(s: seq<nat>, x: nat)
    ensures Sum(s + [x]) == Sum(s) + x
  {
    assert (s + [x])[..|s|] == s;
  }

  /** How many squares the first `n` rows hold when every row takes up to `max` of `count`. */
  function Filled(n: nat, max: nat, count: nat): nat
  {
    if n * max <= count then n * max else count
  }

  /**
   * The rows packed so far: they hold `Filled(|rows|, …)` squares, each
   * between one and `max`, and every row except the last required one is full.
   */
  predicate Packed(rows: seq<nat>, max: nat, count: nat)
    requires max > 0
  {
    && Sum(rows) == Filled(|rows|, max, count)
    && (forall i :: 0 <= i < |rows| ==> 1 <= rows[i] <= max)
    && (forall i :: 0 <= i < |rows| && i < DivCeil(count, max) - 1 ==> rows[i] == max)
  }

  /** The arithmetic of one row: it starts before the end, holds one to `max` squares, `max` unless it is the last. */
  lemma RowStep(row: nat, max: nat, count: nat, start: nat, end: nat)
    requires max > 0 && row < DivCeil(count, max)
    requires start == row * max && end == (if start + max <= count then start + max else count)
    ensures 1 <= end - start <= max
    ensures Filled(row, max, count) + (end - start) == Filled(row + 1, max, count)
    ensures row + 1 < DivCeil(count, max) ==> end - start == max
  {
    RowStartsBeforeEnd(row, max, count);
    assert (row + 1) * max == start + max;
    if row + 1 < DivCeil(count, max) {
      RowStartsBeforeEnd(row + 1, max, count);
    }
  }

  /** One turn of the packing loop: a row of `squares` that `RowStep` allows keeps the rows packed. */
  lemma PackStep(rows: seq<nat>, max: nat, count: nat, squares: nat)
    requires max > 0 && |rows| < DivCeil(count, max) && Packed(rows, max, count)
    requires 1 <= squares <= max && Filled(|rows|, max, count) + squares == Filled(|rows| + 1, max, count)
    requires |rows| + 1 < DivCeil(count, max) ==> squares == max
    ensures Packed(rows + [squares], max, count)
  {
    SumAppend(rows, squares);
    var next := rows + [squares];
    forall i | 0 <= i < |next|
      ensures 1 <= next[i] <= max && (i < DivCeil(count, max) - 1 ==> next[i] == max)
    {
      if i < |rows| {
        assert next[i] == rows[i];
      }
    }
  }

  /** Once all required rows are packed, they hold the whole count. */
  lemma PackDone(rows: seq<nat>, max: nat, count: nat)
    requires max > 0 && |rows| == DivCeil(count, max) && Packed(rows, max, count)
    ensures Sum(rows) == count
  {
  }

  /**
   * The square rows of one worker cell: for each row, how many squares it
   * holds. Nothing is drawn for a worker without connections or when the
   * cell is lower than the number of rows needed. The count is first cut to
   * 16 bits (`connection_count as u16`). Otherwise there are
   * `ceil(count / max)` rows, each holds between one and `max` squares, all
   * but the last are full, and together they hold the whole count.
   */
  method SquareRows(connections: nat, width: u16, height: u16) returns (rows: seq<nat>)
    ensures var count := AsU16(connections);
            var max := MaxSquaresPerLine(width);
            if connections == 0 || (height as nat) < DivCeil(count, max) then rows == []
            else
              && |rows| == DivCeil(count, max)
              && Sum(rows) == count
              && (forall i :: 0 <= i < |rows| ==> 1 <= rows[i] <= max)
              && (forall i :: 0 <= i < |rows| - 1 ==> rows[i] == max)
  {
    rows := [];
    if connections > 0 {
      var count := AsU16(connections);
      var max := MaxSquaresPerLine(width);
      var required := DivCeil(count, max);
      if height as nat >= required {
        var row := 0;
        while row < required
          invariant row <= required && |rows| == row
          invariant Packed(rows, max, count)
        {
          var start := row * max;
          var end := if start + max <= count then start + max else count;
          RowStep(row, max, count, start, end);
          PackStep(rows, max, count, end - start);
          rows := rows + [end - start];
          row := row + 1;
        }
        PackDone(rows, max, count);
      }
    }
  }

  /** A layout constraint of ratatui, as far as the square rows use them. */
  datatype Constraint = Length(n: nat) | Min(n: nat)

  /**
   * The horizontal constraints of a row of `k` squares: a square and a gap
   * per square, the trailing gap popped, and a filler pushed at the end. The
   * list has `2k` entries, squares at the even indices, gaps at the odd ones
   * before the filler.
   */
  method SquareConstraints(k: nat) returns (cs: seq<Constraint>)
    requires k > 0
    ensures |cs| == 2 * k
    ensures forall j :: 0 <= j < |cs| - 1 ==>
              cs[j] == if j % 2 == 0 then Length(SquareSize) else Length(GapSize)
    ensures cs[|cs| - 1] == Min(0)
  {
    cs := [];
    var i := 0;
    while i < k
      invariant i <= k
      invariant |cs| == 2 * i
      invariant forall j :: 0 <= j < |cs| ==> cs[j] == if j % 2 == 0 then Length(SquareSize) else Length(GapSize)
    {
      cs := cs + [Length(SquareSize)];
      cs := cs + [Length(GapSize)];
      i := i + 1;
    }
    cs := cs[..|cs| - 1];
    cs := cs + [Min(0)];
  }

  /** The `i`-th square of a row of `k` sits at index `2i` of its constraints. */
  lemma SquareIndex(cs: seq<Constraint>, k: nat, i: nat)
    requires k > 0 && |cs| == 2 * k
    requires forall j :: 0 <= j < |cs| - 1 ==> cs[j] == if j % 2 == 0 then Length(SquareSize) else Length(GapSize)
    requires i < k
    ensures 2 * i < |cs| && cs[2 * i] == Length(SquareSize)
  {
    assert (2 * i) % 2 == 0;
  }

  // ---------------------------------------------------------------------------
  // The queue columns
  // ---------------------------------------------------------------------------

  datatype Column = ModelColumn | WorkerColumn

  /** Keys starting with "Node:" are worker queues; every other key is a model queue. */
  function ColumnOf(name: string): (r: Column)
    ensures r == WorkerColumn <==> !StartsWith(name, "Model:") && StartsWith(name, "Node:")
  {
    if StartsWith(name, "Model:") then ModelColumn
    else if StartsWith(name, "Node:") then WorkerColumn
    else ModelColumn
  }

  /** The line a queue key is shown as. */
  function QueueLine(name: string, count: nat): (r: string)
    ensures StartsWith(name, "Model:") ==> |r| <= |name|
    ensures !StartsWith(name, "Model:") ==> EndsWith(r, ": " + NatToString(count))
  {
    if StartsWith(name, "Model:") then RemoveAll(name, "Model: ")
    else
      var shown := if StartsWith(name, "Node:") then RemoveAll(name, "Node: ") else name;
      EndsWithAppend(shown, ": " + NatToString(count));
      assert shown + ": " + NatToString(count) == shown + (": " + NatToString(count));
      shown + ": " + NatToString(count)
  }

  /** The two columns built from the keys `names`, visited in order. */
  function Columns(names: seq<string>, queues: QueueMap): (r: (seq<string>, seq<string>))
    requires forall n :: n in names ==> n in queues
    ensures |r.0| + |r.1| == |names|
    decreases |names|
  {
    if |names| == 0 then ([], [])
    else
      var prev := Columns(names[..|names| - 1], queues);
      var name := names[|names| - 1];
      var line := QueueLine(name, queues[name]);
      if ColumnOf(name) == WorkerColumn then (prev.0, prev.1 + [line]) else (prev.0 + [line], prev.1)
  }

  /** One key lands in one column: the worker column for "Node:" keys, the model column otherwise. */
  lemma ColumnsSingle(name: string, queues: QueueMap)
    requires name in queues
    ensures ColumnOf(name) == WorkerColumn ==> Columns([name], queues) == ([], [QueueLine(name, queues[name])])
    ensures ColumnOf(name) == ModelColumn ==> Columns([name], queues) == ([QueueLine(name, queues[name])], [])
  {
    assert [name][..0] == [];
    var line := QueueLine(name, queues[name]);
    assert Columns([], queues) == ([], []);
    assert [] + [line] == [line];
  }

  /** Splitting a key sequence splits each column the same way: every key is placed independently, in order. */
  lemma {:induction false} ColumnsAppend(a: seq<string>, b: seq<string>, queues: QueueMap)
    requires forall n :: n in a ==> n in queues
    requires forall n :: n in b ==> n in queues
    ensures forall n :: n in a + b ==> n in queues
    ensures Columns(a + b, queues) == (Columns(a, queues).0 + Columns(b, queues).0, Columns(a, queues).1 + Columns(b, queues).1)
    decreases |b|
  {
    if |b| == 0 {
      assert a + b == a;
      ColumnsEmpty(queues);
      AppendEmpty(Columns(a, queues).0);
      AppendEmpty(Columns(a, queues).1);
    } else {
      var b' := b[..|b| - 1];
      var x := b[|b| - 1];
      assert x in b;
      assert forall n :: n in b' ==> n in b;
      ColumnsAppend(a, b', queues);
      LastSplit(a, b);
      var line := QueueLine(x, queues[x]);
      var left := Columns(a, queues);
      var right := Columns(b', queues);
      assert Columns(b, queues) == if ColumnOf(x) == WorkerColumn then (right.0, right.1 + [line]) else (right.0 + [line], right.1);
      AppendAssoc(left.0, right.0, [line]);
      AppendAssoc(left.1, right.1, [line]);
    }
  }

  lemma ColumnsEmpty(queues: QueueMap)
    ensures Columns([], queues) == ([], [])
  {
  }

  lemma AppendEmpty(s: seq<string>)
    ensures s + [] == s
  {
  }

  lemma AppendAssoc(s: seq<string>, t: seq<string>, u: seq<string>)
    ensures (s + t) + u == s + (t + u)
  {
  }

  lemma LastSplit(a: seq<string>, b: seq<string>)
    requires |b| > 0
    ensures |a + b| > 0 && (a + b)[..|a + b| - 1] == a + b[..|b| - 1] && (a + b)[|a + b| - 1] == b[|b| - 1]
  {
  }

  /** A "Model:" key is shown as the text after "Model: ", without its count. */
  lemma ModelKeyLine(rest: string, count: nat)
    ensures ColumnOf("Model: " + rest) == ModelColumn
    ensures QueueLine("Model: " + rest, count) == RemoveAll(rest, "Model: ")
    ensures !Contains(rest, "Model: ") ==> QueueLine("Model: " + rest, count) == rest
  {
    assert ("Model: " + rest)[..6] == "Model:";
    RemoveAllPrefix("Model: ", rest);
    if !Contains(rest, "Model: ") {
      RemoveAllAbsent(rest, "Model: ");
    }
  }

  /** A "Node:" key is shown in the worker column as the text after "Node: " and its count. */
  lemma NodeKeyLine(rest: string, count: nat)
    ensures ColumnOf("Node: " + rest) == WorkerColumn
    ensures QueueLine("Node: " + rest, count) == RemoveAll(rest, "Node: ") + ": " + NatToString(count)
    ensures !Contains(rest, "Node: ") ==> QueueLine("Node: " + rest, count) == rest + ": " + NatToString(count)
  {
    assert ("Node: " + rest)[..5] == "Node:";
    assert ("Node: " + rest)[..6] != "Model:";
    RemoveAllPrefix("Node: ", rest);
    if !Contains(rest, "Node: ") {
      RemoveAllAbsent(rest, "Node: ");
    }
  }

  /** Any other key is shown in the model column as the key and its count. */
  lemma OtherKeyLine(name: string, count: nat)
    requires !StartsWith(name, "Model:") && !StartsWith(name, "Node:")
    ensures ColumnOf(name) == ModelColumn
    ensures QueueLine(name, count) == name + ": " + NatToString(count)
  {
  }

  /** Taking one more key of `names` adds its line to its column. */
  lemma ColumnsPrefixStep(names: seq<string>, queues: QueueMap, i: nat)
    requires i < |names| && forall n :: n in names ==> n in queues
    ensures forall n :: n in names[..i] ==> n in queues
    ensures forall n :: n in names[..i + 1] ==> n in queues
    ensures var prev := Columns(names[..i], queues);
            var line := QueueLine(names[i], queues[names[i]]);
            Columns(names[..i + 1], queues)
              == if ColumnOf(names[i]) == WorkerColumn then (prev.0, prev.1 + [line]) else (prev.0 + [line], prev.1)
  {
    assert names[..i + 1][..i] == names[..i];
  }

  /** A sorted listing of a set of keys, the order `sort_unstable` visits them in. */
  ghost function SortedKeys(keys: set<string>): (s: seq<string>)
    ensures StrictlySorted(s)
    ensures forall x :: x in s <==> x in keys
    decreases keys
  {
    if keys == {} then []
    else
      var x :| x in keys;
      InsertSorted(SortedKeys(keys - {x}), x)
  }

  /**
   * The two queue columns: with a queue map, the keys in ascending order
   * distributed by `Columns`; without one, a placeholder line in each.
   */
  method QueueColumns(queues: Option<QueueMap>) returns (modelLines: seq<string>, workerLines: seq<string>)
    ensures queues.None? ==> modelLines == ["No model queues"] && workerLines == ["No worker queues"]
    ensures queues.Some? ==> (modelLines, workerLines) == Columns(SortedKeys(queues.value.Keys), queues.value)
  {
    modelLines := [];
    workerLines := [];
    if queues.Some? {
      var q := queues.value;
      var names := SortedList(q.Keys);
      var i := 0;
      while i < |names|
        invariant i <= |names|
        invariant (modelLines, workerLines) == Columns(names[..i], q)
      {
        var name := names[i];
        var count := q[name];
        ColumnsPrefixStep(names, q, i);
        if StartsWith(name, "Model:") {
          modelLines := modelLines + [RemoveAll(name, "Model: ")];
        } else if StartsWith(name, "Node:") {
          workerLines := workerLines + [RemoveAll(name, "Node: ") + ": " + NatToString(count)];
        } else {
          modelLines := modelLines + [name + ": " + NatToString(count)];
        }
        i := i + 1;
      }
      assert names[..i] == names;
      SortedUnique(names, SortedKeys(q.Keys));
    } else {
      modelLines := modelLines + ["No model queues"];
      workerLines := workerLines + ["No worker queues"];
    }
  }

  /** Every queue key is shown on exactly one line, so the two columns together have one line per key. */
  lemma OneLinePerQueue(queues: QueueMap)
    ensures |Columns(SortedKeys(queues.Keys), queues).0| + |Columns(SortedKeys(queues.Keys), queues).1| == |queues.Keys|
  {
    SortedListingSize(SortedKeys(queues.Keys), queues.Keys);
  }
}
