/**
 * The inference client's streaming model actions (src/clients/infer_client.rs):
 * `pull_model` and `delete_model` send one request and read the response body
 * as newline-delimited JSON. A carry-over byte buffer collects the chunks; every
 * complete line is drained, decoded as UTF-8, trimmed and, unless blank, turned
 * into an output line with a message and a success flag. A leftover unterminated
 * line is handled when the stream ends, and a summary line closes a run that did
 * not fail.
 *
 * The two actions differ only in the endpoint, the HTTP method and the words
 * "pull"/"delete", so the model has one ingester parameterised by `Verb`.
 * UTF-8 decoding, JSON parsing and JSON rendering are passed in as a `Codec`.
 * Output goes to an `ActionSink`, which stands for the application state the
 * source writes through `add_banner` and `add_action_output_line`.
 */
module InferClient {
  import opened Wrappers
  import opened Json
  import opened Text
  import opened Errors
  import opened Http

  newtype byte = b: int | 0 <= b < 256

  const NEWLINE: byte := 10

  datatype Verb = Pull | Delete

  /**
   * The library functions the ingester calls: `String::from_utf8` (its error
   * carries the text of the `FromUtf8Error`), `serde_json::from_str::<Value>`
   * (its error carries the parse error's text) and `Value::to_string`.
   */
  datatype Codec = Codec(
    utf8: seq<byte> -> Result<string, string>,
    parse: string -> Result<Value, string>,
    render: Value -> string)

  /** One item of the response body stream: a chunk of bytes, or the transport error reading it gave. */
  type StreamItem = Result<seq<byte>, string>

  /** What the ingester does to the application state, in order. */
  datatype Effect =
    | Banner(text: string)                     // add_banner(text)
    | Output(text: string, success: bool)      // add_action_output_line(text, success)

  // ---------------------------------------------------------------------------
  // Splitting bytes into lines
  // ---------------------------------------------------------------------------

  function Flatten(chunks: seq<seq<byte>>): (r: seq<byte>)
  {
    if |chunks| == 0 then [] else chunks[0] + Flatten(chunks[1..])
  }

  lemma {:induction false} FlattenAppend(a: seq<seq<byte>>, b: seq<seq<byte>>)
    ensures Flatten(a + b) == Flatten(a) + Flatten(b)
  {
    if |a| == 0 {
      assert a + b == b;
    } else {
      assert (a + b)[1..] == a[1..] + b;
      FlattenAppend(a[1..], b);
    }
  }

  /** `buffer.iter().position(|&b| b == b'\n')`: the first occurrence of `x`. */
  function IndexOf(s: seq<byte>, x: byte): (r: Option<nat>)
    ensures r.Some? ==> r.value < |s| && s[r.value] == x && x !in s[..r.value]
    ensures r.None? ==> x !in s
  {
    if |s| == 0 then None
    else if s[0] == x then Some(0)
    else match IndexOf(s[1..], x)
      case None => None
      case Some(i) => assert s[..i + 1] == [s[0]] + s[1..][..i]; Some(i + 1)
  }

  /** A drained line: it ends with its only newline. */
  predicate IsLine(l: seq<byte>)
  {
    |l| > 0 && l[|l| - 1] == NEWLINE && NEWLINE !in l[..|l| - 1]
  }

  /**
   * Draining `buffer` up to and including each newline, as long as there is
   * one: the complete lines, in order, and what is left over.
   */
  function SplitLines(buffer: seq<byte>): (r: (seq<seq<byte>>, seq<byte>))
    ensures r.0 == [] <==> NEWLINE !in buffer
    ensures |r.1| <= |buffer|
    decreases |buffer|
  {
    match IndexOf(buffer, NEWLINE)
    case None => ([], buffer)
    case Some(i) =>
      var rest := SplitLines(buffer[i + 1..]);
      ([buffer[..i + 1]] + rest.0, rest.1)
  }

  /** Drained lines followed by the leftover are exactly the buffer. */
  lemma {:induction false} SplitLinesConcat(buffer: seq<byte>)
    ensures Flatten(SplitLines(buffer).0) + SplitLines(buffer).1 == buffer
    decreases |buffer|
  {
    match IndexOf(buffer, NEWLINE)
    case None =>
      SplitLinesNone(buffer);
      assert Flatten([]) + buffer == buffer;
    case Some(i) =>
      SplitLinesConcat(buffer[i + 1..]);
      SplitLinesConcatStep(buffer, i);
  }

  /** The step of `SplitLinesConcat`: one drained line in front of the tail's lines and leftover. */
  lemma SplitLinesConcatStep(buffer: seq<byte>, i: nat)
    requires IndexOf(buffer, NEWLINE) == Some(i)
    requires Flatten(SplitLines(buffer[i + 1..]).0) + SplitLines(buffer[i + 1..]).1 == buffer[i + 1..]
    ensures Flatten(SplitLines(buffer).0) + SplitLines(buffer).1 == buffer
  {
    var line, tail := buffer[..i + 1], buffer[i + 1..];
    var rest := SplitLines(tail);
    SplitLinesCons(buffer, i);
    assert SplitLines(buffer) == ([line] + rest.0, rest.1);
    assert buffer == line + tail;
    ConcatStep(buffer, line, tail, rest.0, rest.1);
  }

  lemma ConcatStep(buffer: seq<byte>, line: seq<byte>, tail: seq<byte>, lines: seq<seq<byte>>, rest: seq<byte>)
    requires buffer == line + tail && Flatten(lines) + rest == tail
    ensures Flatten([line] + lines) + rest == buffer
  {
    FlattenCons(line, lines);
    assert (line + Flatten(lines)) + rest == line + (Flatten(lines) + rest);
  }

  lemma FlattenCons(x: seq<byte>, xs: seq<seq<byte>>)
    ensures Flatten([x] + xs) == x + Flatten(xs)
  {
    assert ([x] + xs)[1..] == xs;
  }

  /** The leftover holds no newline, and every drained line ends at its only newline. */
  lemma {:induction false} SplitLinesShape(buffer: seq<byte>)
    ensures NEWLINE !in SplitLines(buffer).1
    ensures forall i :: 0 <= i < |SplitLines(buffer).0| ==> IsLine(SplitLines(buffer).0[i])
    decreases |buffer|
  {
    var idx := IndexOf(buffer, NEWLINE);
    if idx.None? {
      SplitLinesNone(buffer);
    } else {
      var i := idx.value;
      var line, tail := buffer[..i + 1], buffer[i + 1..];
      var rest := SplitLines(tail);
      assert SplitLines(buffer) == ([line] + rest.0, rest.1) by { SplitLinesCons(buffer, i); }
      SplitLinesShape(tail);
      assert IsLine(line) by { assert line[..i] == buffer[..i]; }
      LinesCons(line, rest.0);
    }
  }

  lemma LinesCons(line: seq<byte>, lines: seq<seq<byte>>)
    requires IsLine(line) && forall k :: 0 <= k < |lines| ==> IsLine(lines[k])
    ensures forall k :: 0 <= k < |[line] + lines| ==> IsLine(([line] + lines)[k])
  {
    forall k | 1 <= k < |[line] + lines|
      ensures IsLine(([line] + lines)[k])
    {
      assert ([line] + lines)[k] == lines[k - 1];
    }
  }

  /** Draining at the first newline, when there is one. */
  lemma SplitLinesCons(b: seq<byte>, i: nat)
    requires IndexOf(b, NEWLINE) == Some(i)
    ensures SplitLines(b) == ([b[..i + 1]] + SplitLines(b[i + 1..]).0, SplitLines(b[i + 1..]).1)
  {
  }

  /** Without a newline nothing is drained. */
  lemma SplitLinesNone(b: seq<byte>)
    requires IndexOf(b, NEWLINE).None?
    ensures SplitLines(b) == ([], b)
  {
  }

  lemma SliceAppend(a: seq<byte>, c: seq<byte>, j: nat)
    requires j <= |a|
    ensures (a + c)[j..] == a[j..] + c && (a + c)[..j] == a[..j]
  {
  }

  /** Splitting a concatenation: the lines of `a`, then the lines of what `a` leaves over followed by `c`. */
  lemma {:induction false} SplitLinesAppend(a: seq<byte>, c: seq<byte>)
    ensures SplitLines(a + c).0 == SplitLines(a).0 + SplitLines(SplitLines(a).1 + c).0
    ensures SplitLines(a + c).1 == SplitLines(SplitLines(a).1 + c).1
    decreases |a|
  {
    match IndexOf(a, NEWLINE)
    case Some(i) =>
      SplitLinesAppend(a[i + 1..], c);
      SplitLinesAppendStep(a, c, i);
    case None =>
      SplitLinesNone(a);
      assert [] + SplitLines(a + c).0 == SplitLines(a + c).0;
  }

  /** The step of `SplitLinesAppend`: the first line of `a` is also the first line of `a + c`. */
  lemma SplitLinesAppendStep(a: seq<byte>, c: seq<byte>, i: nat)
    requires IndexOf(a, NEWLINE) == Some(i)
    requires SplitLines(a[i + 1..] + c).0 == SplitLines(a[i + 1..]).0 + SplitLines(SplitLines(a[i + 1..]).1 + c).0
    requires SplitLines(a[i + 1..] + c).1 == SplitLines(SplitLines(a[i + 1..]).1 + c).1
    ensures SplitLines(a + c).0 == SplitLines(a).0 + SplitLines(SplitLines(a).1 + c).0
    ensures SplitLines(a + c).1 == SplitLines(SplitLines(a).1 + c).1
  {
    var line, tail := a[..i + 1], a[i + 1..];
    var T := SplitLines(tail);
    var S := SplitLines(T.1 + c);
    SplitLinesCons(a, i);
    SplitLinesFirstOfAppend(a, c, i);
    ConsAssoc(line, T.0, S.0);
  }

  /** The first line drained from `a + c` is the first line of `a`. */
  lemma SplitLinesFirstOfAppend(a: seq<byte>, c: seq<byte>, i: nat)
    requires IndexOf(a, NEWLINE) == Some(i)
    ensures SplitLines(a + c) == ([a[..i + 1]] + SplitLines(a[i + 1..] + c).0, SplitLines(a[i + 1..] + c).1)
  {
    IndexOfPrefix(a, c, i);
    SplitLinesCons(a + c, i);
    SliceAppend(a, c, i + 1);
  }

  lemma ConsAssoc<T>(x: T, u: seq<T>, v: seq<T>)
    ensures [x] + (u + v) == ([x] + u) + v
  {
  }

  lemma InitLast<T>(s: seq<T>)
    requires |s| > 0
    ensures s[..|s| - 1] + [s[|s| - 1]] == s
  {
  }

  /** The first newline of `a` is also the first newline of `a + c`. */
  lemma {:induction false} IndexOfPrefix(a: seq<byte>, c: seq<byte>, i: nat)
    requires IndexOf(a, NEWLINE) == Some(i)
    ensures IndexOf(a + c, NEWLINE) == Some(i)
    decreases |a|
  {
    if a[0] != NEWLINE {
      assert (a + c)[1..] == a[1..] + c;
      IndexOfPrefix(a[1..], c, i - 1);
    }
  }

  /**
   * The ingester's buffer handling chunk by chunk: append the chunk to the
   * carry-over buffer, then drain every complete line. The result is the lines
   * drained so far and the buffer.
   */
  function FeedAll(chunks: seq<seq<byte>>): (r: (seq<seq<byte>>, seq<byte>))
    ensures NEWLINE !in r.1
  {
    if |chunks| == 0 then ([], [])
    else
      var before := FeedAll(chunks[..|chunks| - 1]);
      var now := SplitLines(before.1 + chunks[|chunks| - 1]);
      SplitLinesShape(before.1 + chunks[|chunks| - 1]);
      (before.0 + now.0, now.1)
  }

  /**
   * Chunk independence: feeding the chunks one at a time drains exactly the lines
   * of their concatenation, and leaves exactly its unterminated rest.
   */
  lemma {:induction false} ChunkIndependence(chunks: seq<seq<byte>>)
    ensures FeedAll(chunks) == SplitLines(Flatten(chunks))
  {
    if chunks != [] {
      var init := chunks[..|chunks| - 1];
      var last := chunks[|chunks| - 1];
      ChunkIndependence(init);
      assert chunks == init + [last];
      FlattenAppend(init, [last]);
      assert Flatten([last]) == last;
      SplitLinesAppend(Flatten(init), last);
    }
  }

  /** So two chunkings of the same bytes drain the same lines and leave the same buffer. */
  lemma ChunkingIrrelevant(c1: seq<seq<byte>>, c2: seq<seq<byte>>)
    requires Flatten(c1) == Flatten(c2)
    ensures FeedAll(c1) == FeedAll(c2)
  {
    ChunkIndependence(c1);
    ChunkIndependence(c2);
  }

  /** After every round of draining, the buffer holds no newline, and drained lines plus buffer are all the bytes. */
  lemma FeedAllInvariant(chunks: seq<seq<byte>>)
    ensures NEWLINE !in FeedAll(chunks).1
    ensures Flatten(FeedAll(chunks).0) + FeedAll(chunks).1 == Flatten(chunks)
    ensures forall i :: 0 <= i < |FeedAll(chunks).0| ==> IsLine(FeedAll(chunks).0[i])
  {
    ChunkIndependence(chunks);
    SplitLinesConcat(Flatten(chunks));
    SplitLinesShape(Flatten(chunks));
  }

  // ---------------------------------------------------------------------------
  // One line
  // ---------------------------------------------------------------------------

  /**
   * The message of a decoded line: the `"status"` member if there is one,
   * otherwise the `"message"` member; if the member chosen is not a string, or
   * neither exists, the JSON text of the whole value.
   */
  function MessageOf(codec: Codec, j: Value): (r: string)
    ensures Get(j, "status").Some? && Get(j, "status").value.Str? ==> r == Get(j, "status").value.s
    ensures Get(j, "status").Some? && !Get(j, "status").value.Str? ==> r == codec.render(j)
    ensures (Get(j, "status").None? && Get(j, "message").Some? && Get(j, "message").value.Str?)
              ==> r == Get(j, "message").value.s
    ensures (Get(j, "status").None? && (Get(j, "message").None? || !Get(j, "message").value.Str?))
              ==> r == codec.render(j)
    ensures !j.Object? ==> r == codec.render(j)
  {
    var chosen := if Get(j, "status").Some? then Get(j, "status") else Get(j, "message");
    if chosen.Some? && chosen.value.Str? then chosen.value.s else codec.render(j)
  }

  /**
   * A decoded line succeeds unless its `"error"` member exists, is not null, and
   * reads as boolean true: `is_none_or(|err| err.is_null() || !err.as_bool().unwrap_or(false))`.
   */
  function LineSuccess(j: Value): (r: bool)
    ensures !r <==> Get(j, "error") == Some(Bool(true))
  {
    match Get(j, "error")
    case None => true
    case Some(err) => err.Null? || !(match AsBool(err) case Some(b) => b case None => false)
  }

  function ErrorBannerPrefix(verb: Verb): string
  {
    match verb
    case Pull => "Pull Error: "
    case Delete => "Delete Error: "
  }

  /** The text recorded for a line that is not JSON. */
  function NonJsonText(trimmed: string, parseError: string, remainder: bool): string
  {
    (if remainder then "Non-JSON final line: " else "Non-JSON line: ")
      + trimmed + " (Parse Error: " + parseError + ")"
  }

  /** The final output line of an action: it names the action, and claims success exactly when there was. */
  function SummaryLine(verb: Verb, success: bool): (r: string)
    ensures EndsWith(r, " successfully.") <==> success
    ensures StartsWith(r, if verb == Pull then "Model pull " else "Model delete ")
  {
    var head := if verb == Pull then "Model pull " else "Model delete ";
    var tail := if success then "completed successfully." else "completed with errors.";
    assert (head + tail)[..|head|] == head;
    assert (head + tail)[|head + tail| - 14..] == tail[|tail| - 14..];
    assert !success ==> tail[|tail| - 14] == 'd';
    head + tail
  }

  /** The ingester's state between lines: what it has written, its overall success flag, and the error it stopped with. */
  datatype Progress = Progress(effects: seq<Effect>, success: bool, failure: Option<ClientError>)

  const Start := Progress([], true, None)

  /**
   * Handling one line's bytes (`remainder` tells the leftover at end of stream from
   * a drained line). A stopped ingester does nothing more; bytes that are not UTF-8
   * stop it with a decode error; a blank line is skipped; anything else is written.
   */
  function HandleLine(verb: Verb, codec: Codec, p: Progress, line: seq<byte>, remainder: bool): (r: Progress)
    ensures p.failure.Some? ==> r == p
    ensures p.failure.None? && codec.utf8(line).Err? ==>
              r == p.(failure := Some(Decode(codec.utf8(line).error)))
    ensures p.failure.None? && codec.utf8(line).Ok? && Trim(codec.utf8(line).value) == [] ==> r == p
    ensures r.success ==> p.success
    ensures p.effects <= r.effects
  {
    if p.failure.Some? then p
    else match codec.utf8(line)
      case Err(d) => p.(failure := Some(Decode(d)))
      case Ok(text) =>
        var trimmed := Trim(text);
        if trimmed == [] then p
        else match codec.parse(trimmed)
          case Ok(j) =>
            var message := MessageOf(codec, j);
            var ok := LineSuccess(j);
            var banner := if !ok && !remainder then [Banner(ErrorBannerPrefix(verb) + message)] else [];
            Progress(p.effects + banner + [Output(message, ok)], p.success && ok, None)
          case Err(e) =>
            var text := NonJsonText(trimmed, e, remainder);
            Progress(p.effects + [Output(text, false), Banner(text)], false, None)
  }

  /** A line that leaves the overall success flag alone: blank, or JSON whose `"error"` is not `true`. */
  predicate LineOk(codec: Codec, line: seq<byte>)
  {
    codec.utf8(line).Ok? &&
    var trimmed := Trim(codec.utf8(line).value);
    trimmed == [] || (codec.parse(trimmed).Ok? && LineSuccess(codec.parse(trimmed).value))
  }

  /** Banners and output lines come in the order the source writes them. */
  lemma LineEffectOrder(verb: Verb, codec: Codec, p: Progress, line: seq<byte>, remainder: bool)
    requires p.failure.None? && codec.utf8(line).Ok?
    requires Trim(codec.utf8(line).value) != []
    ensures var t := Trim(codec.utf8(line).value);
            var r := HandleLine(verb, codec, p, line, remainder);
            match codec.parse(t)
            case Ok(j) =>
              if !LineSuccess(j) && !remainder
              then r.effects == p.effects + [Banner(ErrorBannerPrefix(verb) + MessageOf(codec, j)), Output(MessageOf(codec, j), false)]
              else r.effects == p.effects + [Output(MessageOf(codec, j), LineSuccess(j))]
            case Err(e) =>
              r.effects == p.effects + [Output(NonJsonText(t, e, remainder), false), Banner(NonJsonText(t, e, remainder))]
  {
    var t := Trim(codec.utf8(line).value);
    match codec.parse(t) {
      case Ok(j) =>
      case Err(e) =>
    }
  }

  /** Handling a line without a decode error updates the flag exactly by that line's outcome. */
  lemma HandleLineSuccess(verb: Verb, codec: Codec, p: Progress, line: seq<byte>, remainder: bool)
    requires p.failure.None?
    requires HandleLine(verb, codec, p, line, remainder).failure.None?
    ensures HandleLine(verb, codec, p, line, remainder).success == (p.success && LineOk(codec, line))
  {
  }

  // ---------------------------------------------------------------------------
  // A whole stream
  // ---------------------------------------------------------------------------

  /** Handling the drained lines in order. */
  function ProcessLines(verb: Verb, codec: Codec, p: Progress, lines: seq<seq<byte>>): (r: Progress)
    ensures r.failure.None? ==> p.failure.None?
    ensures r.failure.Some? && p.failure.None? ==> r.failure.value.Decode?
  {
    if |lines| == 0 then p
    else HandleLine(verb, codec, ProcessLines(verb, codec, p, lines[..|lines| - 1]), lines[|lines| - 1], false)
  }

  lemma {:induction false} ProcessLinesAppend(verb: Verb, codec: Codec, p: Progress, a: seq<seq<byte>>, b: seq<seq<byte>>)
    ensures ProcessLines(verb, codec, p, a + b) == ProcessLines(verb, codec, ProcessLines(verb, codec, p, a), b)
    decreases |b|
  {
    if |b| == 0 {
      assert a + b == a;
    } else {
      var b', x := b[..|b| - 1], b[|b| - 1];
      assert (a + b)[..|a + b| - 1] == a + b';
      assert (a + b)[|a + b| - 1] == x;
      ProcessLinesAppend(verb, codec, p, a, b');
      ProcessLinesSnoc(verb, codec, p, a + b);
      ProcessLinesSnoc(verb, codec, ProcessLines(verb, codec, p, a), b);
    }
  }

  lemma ProcessLinesSnoc(verb: Verb, codec: Codec, p: Progress, lines: seq<seq<byte>>)
    requires |lines| > 0
    ensures ProcessLines(verb, codec, p, lines)
              == HandleLine(verb, codec, ProcessLines(verb, codec, p, lines[..|lines| - 1]), lines[|lines| - 1], false)
  {
  }

  /** Once stopped by an error, the ingester stays stopped and writes nothing more. */
  lemma {:induction false} ProcessLinesStopped(verb: Verb, codec: Codec, p: Progress, lines: seq<seq<byte>>)
    requires p.failure.Some?
    ensures ProcessLines(verb, codec, p, lines) == p
  {
    if |lines| > 0 {
      ProcessLinesStopped(verb, codec, p, lines[..|lines| - 1]);
    }
  }

  /**
   * `overall_success` is monotone and exact: over lines that do not stop the
   * ingester it stays true exactly when it started true and every line was ok.
   */
  lemma {:induction false} ProcessLinesSuccess(verb: Verb, codec: Codec, p: Progress, lines: seq<seq<byte>>)
    requires p.failure.None?
    requires ProcessLines(verb, codec, p, lines).failure.None?
    ensures ProcessLines(verb, codec, p, lines).success == (p.success && AllLinesOk(codec, lines))
  {
    if |lines| > 0 {
      var init, last := lines[..|lines| - 1], lines[|lines| - 1];
      ProcessLinesSnoc(verb, codec, p, lines);
      ProcessLinesSuccess(verb, codec, p, init);
      InitLast(lines);
      ProcessLinesSuccessStep(verb, codec, p.success, ProcessLines(verb, codec, p, init), init, last, lines);
    }
  }

  /** One more line: the flag so far, and-ed with that line's outcome. */
  lemma ProcessLinesSuccessStep(verb: Verb, codec: Codec, ok0: bool, q: Progress, init: seq<seq<byte>>, last: seq<byte>,
                                lines: seq<seq<byte>>)
    requires q.failure.None? && q.success == (ok0 && AllLinesOk(codec, init))
    requires HandleLine(verb, codec, q, last, false).failure.None?
    requires lines == init + [last]
    ensures HandleLine(verb, codec, q, last, false).success == (ok0 && AllLinesOk(codec, lines))
  {
    HandleLineSuccess(verb, codec, q, last, false);
    AllLinesOkSnoc(codec, init, last);
  }

  /** Every line is ok: none of them clears the overall flag. */
  predicate AllLinesOk(codec: Codec, lines: seq<seq<byte>>)
  {
    forall i :: 0 <= i < |lines| ==> LineOk(codec, lines[i])
  }

  lemma AllLinesOkSnoc(codec: Codec, init: seq<seq<byte>>, last: seq<byte>)
    ensures AllLinesOk(codec, init + [last]) == (AllLinesOk(codec, init) && LineOk(codec, last))
  {
    var lines := init + [last];
    assert forall i :: 0 <= i < |init| ==> lines[i] == init[i];
    assert lines[|init|] == last;
  }

  /** The overall flag never comes back once a line has cleared it. */
  lemma {:induction false} ProcessLinesMonotone(verb: Verb, codec: Codec, p: Progress, lines: seq<seq<byte>>)
    ensures ProcessLines(verb, codec, p, lines).success ==> p.success
    ensures p.effects <= ProcessLines(verb, codec, p, lines).effects
  {
    if |lines| > 0 {
      ProcessLinesMonotone(verb, codec, p, lines[..|lines| - 1]);
    }
  }

  /** The index of the first transport error in the stream, or its length if there is none. */
  function ErrIndex(stream: seq<StreamItem>): (r: nat)
    ensures r <= |stream|
    ensures forall i :: 0 <= i < r ==> stream[i].Ok?
    ensures r < |stream| ==> stream[r].Err?
  {
    if |stream| == 0 || stream[0].Err? then 0 else 1 + ErrIndex(stream[1..])
  }

  /** The chunks of a run of stream items (an item that is an error contributes nothing). */
  function ChunksOf(items: seq<StreamItem>): (r: seq<seq<byte>>)
    ensures |r| == |items|
  {
    if |items| == 0 then []
    else ChunksOf(items[..|items| - 1]) + [match items[|items| - 1] case Ok(c) => c case Err(_) => []]
  }

  lemma {:induction false} ChunksOfAppend(a: seq<StreamItem>, b: seq<StreamItem>)
    ensures ChunksOf(a + b) == ChunksOf(a) + ChunksOf(b)
    decreases |b|
  {
    if |b| == 0 {
      assert a + b == a;
    } else {
      assert (a + b)[..|a + b| - 1] == a + b[..|b| - 1];
      ChunksOfAppend(a, b[..|b| - 1]);
    }
  }

  /** The bytes received before the stream ended or failed. */
  function Received(stream: seq<StreamItem>): seq<byte>
  {
    Flatten(ChunksOf(stream[..ErrIndex(stream)]))
  }

  /**
   * Everything the ingester writes before its summary line: the complete lines
   * of the received bytes, then, if the stream ended without a transport error,
   * the leftover bytes as a final line.
   */
  function LinesProgress(verb: Verb, codec: Codec, stream: seq<StreamItem>): Progress
  {
    var split := SplitLines(Received(stream));
    var p := ProcessLines(verb, codec, Start, split.0);
    if ErrIndex(stream) < |stream| || split.1 == [] then p
    else HandleLine(verb, codec, p, split.1, true)
  }

  datatype Outcome = Outcome(effects: seq<Effect>, result: Result<(), ClientError>)

  /**
   * What ingesting a response body writes and returns. A decode error or a
   * transport error ends the run with `Err` and no summary; otherwise the summary
   * line, flagged with the overall success, is written last.
   */
  function Ingest(verb: Verb, codec: Codec, stream: seq<StreamItem>): (r: Outcome)
    ensures var p := LinesProgress(verb, codec, stream);
            r.result.Ok? <==> p.failure.None? && ErrIndex(stream) == |stream|
    ensures var p := LinesProgress(verb, codec, stream);
            r.result.Ok? ==> r.effects == p.effects + [Output(SummaryLine(verb, p.success), p.success)]
    ensures r.result.Err? ==> r.effects == LinesProgress(verb, codec, stream).effects
  {
    var p := LinesProgress(verb, codec, stream);
    if p.failure.Some? then Outcome(p.effects, Err(p.failure.value))
    else if ErrIndex(stream) < |stream| then
      Outcome(p.effects, Err(Reqwest(stream[ErrIndex(stream)].error)))
    else Outcome(p.effects + [Output(SummaryLine(verb, p.success), p.success)], Ok(()))
  }

  /** The first error wins: a decode error in a line received before a transport error is the one reported. */
  lemma IngestErrors(verb: Verb, codec: Codec, stream: seq<StreamItem>)
    ensures var p := LinesProgress(verb, codec, stream);
            p.failure.Some? ==> Ingest(verb, codec, stream).result == Err(p.failure.value)
    ensures var p := LinesProgress(verb, codec, stream);
            p.failure.None? && ErrIndex(stream) < |stream| ==>
              Ingest(verb, codec, stream).result == Err(Reqwest(stream[ErrIndex(stream)].error))
  {
  }

  /** The summary's flag is true exactly when every line received, leftover included, was ok. */
  lemma {:induction false} SummaryReflectsLines(verb: Verb, codec: Codec, stream: seq<StreamItem>)
    requires Ingest(verb, codec, stream).result.Ok?
    ensures var split := SplitLines(Received(stream));
            var e := Ingest(verb, codec, stream).effects;
            var s := e[|e| - 1].success;
            e[|e| - 1] == Output(SummaryLine(verb, s), s)
            && (s <==> AllLinesOk(codec, split.0) && (split.1 != [] ==> LineOk(codec, split.1)))
  {
    var split := SplitLines(Received(stream));
    var q := ProcessLines(verb, codec, Start, split.0);
    var p := LinesProgress(verb, codec, stream);
    ProcessLinesSuccess(verb, codec, Start, split.0);
    if split.1 != [] {
      HandleLineSuccess(verb, codec, q, split.1, true);
    }
  }

  /** Output-line and banner lists are the two projections of the effect log. */
  function OutputsOf(effects: seq<Effect>): (r: seq<(string, bool)>)
    ensures |r| <= |effects|
  {
    if |effects| == 0 then []
    else
      var e := effects[|effects| - 1];
      OutputsOf(effects[..|effects| - 1]) + (if e.Output? then [(e.text, e.success)] else [])
  }

  function BannersOf(effects: seq<Effect>): (r: seq<string>)
    ensures |r| <= |effects|
  {
    if |effects| == 0 then []
    else
      var e := effects[|effects| - 1];
      BannersOf(effects[..|effects| - 1]) + (if e.Banner? then [e.text] else [])
  }

  // ---------------------------------------------------------------------------
  // The imperative ingester
  // ---------------------------------------------------------------------------

  /** The part of the application state the actions write: the banner queue and the action output lines. */
  class ActionSink {
    var banners: seq<string>
    var outputs: seq<(string, bool)>

    constructor ()
      ensures banners == [] && outputs == []
    {
      banners := [];
      outputs := [];
    }

    method AddBanner(msg: string)
      modifies this
      ensures banners == old(banners) + [msg] && outputs == old(outputs)
    {
      banners := banners + [msg];
    }

    method AddOutputLine(msg: string, success: bool)
      modifies this
      ensures outputs == old(outputs) + [(msg, success)] && banners == old(banners)
    {
      outputs := outputs + [(msg, success)];
    }
  }

  /** The sink shows the effect log `effects` on top of what it held at the start. */
  ghost predicate Shows(sink: ActionSink, banners0: seq<string>, outputs0: seq<(string, bool)>, effects: seq<Effect>)
    reads sink
  {
    sink.banners == banners0 + BannersOf(effects) && sink.outputs == outputs0 + OutputsOf(effects)
  }

  /** Adding a banner to a sink that shows `effects` makes it show `effects + [Banner(text)]`. */
  lemma ShowsBanner(banners0: seq<string>, outputs0: seq<(string, bool)>, effects: seq<Effect>,
                    banners: seq<string>, outputs: seq<(string, bool)>, text: string)
    requires banners == banners0 + BannersOf(effects) && outputs == outputs0 + OutputsOf(effects)
    ensures banners + [text] == banners0 + BannersOf(effects + [Banner(text)])
    ensures outputs == outputs0 + OutputsOf(effects + [Banner(text)])
  {
    assert (effects + [Banner(text)])[..|effects|] == effects;
  }

  /** Adding an output line to a sink that shows `effects` makes it show `effects + [Output(text, ok)]`. */
  lemma ShowsOutput(banners0: seq<string>, outputs0: seq<(string, bool)>, effects: seq<Effect>,
                    banners: seq<string>, outputs: seq<(string, bool)>, text: string, ok: bool)
    requires banners == banners0 + BannersOf(effects) && outputs == outputs0 + OutputsOf(effects)
    ensures banners == banners0 + BannersOf(effects + [Output(text, ok)])
    ensures outputs + [(text, ok)] == outputs0 + OutputsOf(effects + [Output(text, ok)])
  {
    assert (effects + [Output(text, ok)])[..|effects|] == effects;
  }

  /** What a non-blank decoded line writes: the JSON message (after an error banner), or the non-JSON text and its banner. */
  function TextEffects(verb: Verb, codec: Codec, trimmed: string, remainder: bool): seq<Effect>
  {
    match codec.parse(trimmed)
    case Ok(j) => JsonEffects(verb, codec, j, remainder)
    case Err(e) =>
      var text := NonJsonText(trimmed, e, remainder);
      [Output(text, false), Banner(text)]
  }

  /** A non-blank decoded line adds exactly its `TextEffects` to the log. */
  lemma HandleLineText(verb: Verb, codec: Codec, p: Progress, line: seq<byte>, remainder: bool)
    requires p.failure.None? && codec.utf8(line).Ok?
    requires Trim(codec.utf8(line).value) != []
    ensures HandleLine(verb, codec, p, line, remainder).effects
              == p.effects + TextEffects(verb, codec, Trim(codec.utf8(line).value), remainder)
  {
    LineEffectOrder(verb, codec, p, line, remainder);
  }

  /** The effects of a line that is JSON: an error banner when it failed (not on the final remainder), then its message. */
  function JsonEffects(verb: Verb, codec: Codec, j: Value, remainder: bool): seq<Effect>
  {
    var message := MessageOf(codec, j);
    var ok := LineSuccess(j);
    if !ok && !remainder then [Banner(ErrorBannerPrefix(verb) + message), Output(message, ok)] else [Output(message, ok)]
  }

  /** Writing a line that is JSON. */
  method EmitJson(verb: Verb, codec: Codec, json: Value, remainder: bool, sink: ActionSink,
                  ghost log: seq<Effect>, ghost banners0: seq<string>, ghost outputs0: seq<(string, bool)>)
    returns (ok: bool)
    requires Shows(sink, banners0, outputs0, log)
    modifies sink
    ensures ok == LineSuccess(json)
    ensures Shows(sink, banners0, outputs0, log + JsonEffects(verb, codec, json, remainder))
  {
    var message := MessageOf(codec, json);
    ok := LineSuccess(json);
    if !ok && !remainder {
      var banner := ErrorBannerPrefix(verb) + message;
      ShowsBanner(banners0, outputs0, log, sink.banners, sink.outputs, banner);
      sink.AddBanner(banner);
      ShowsOutput(banners0, outputs0, log + [Banner(banner)], sink.banners, sink.outputs, message, ok);
      sink.AddOutputLine(message, ok);
      assert log + [Banner(banner)] + [Output(message, ok)] == log + JsonEffects(verb, codec, json, remainder);
    } else {
      ShowsOutput(banners0, outputs0, log, sink.banners, sink.outputs, message, ok);
      sink.AddOutputLine(message, ok);
    }
  }

  /** Writing a line that is not JSON: an output line, then the same text as a banner. */
  method EmitNonJson(text: string, sink: ActionSink,
                     ghost log: seq<Effect>, ghost banners0: seq<string>, ghost outputs0: seq<(string, bool)>)
    requires Shows(sink, banners0, outputs0, log)
    modifies sink
    ensures Shows(sink, banners0, outputs0, log + [Output(text, false), Banner(text)])
  {
    ShowsOutput(banners0, outputs0, log, sink.banners, sink.outputs, text, false);
    sink.AddOutputLine(text, false);
    ShowsBanner(banners0, outputs0, log + [Output(text, false)], sink.banners, sink.outputs, text);
    sink.AddBanner(text);
    assert log + [Output(text, false)] + [Banner(text)] == log + [Output(text, false), Banner(text)];
  }

  /**
   * Writing one non-blank decoded line to the sink. `ok` is whether the line
   * leaves the overall flag alone.
   */
  method EmitText(verb: Verb, codec: Codec, trimmed: string, remainder: bool, sink: ActionSink,
                  ghost log: seq<Effect>, ghost banners0: seq<string>, ghost outputs0: seq<(string, bool)>)
    returns (ok: bool)
    requires Shows(sink, banners0, outputs0, log)
    modifies sink
    ensures ok == (codec.parse(trimmed).Ok? && LineSuccess(codec.parse(trimmed).value))
    ensures Shows(sink, banners0, outputs0, log + TextEffects(verb, codec, trimmed, remainder))
  {
    var parsed := codec.parse(trimmed);
    if parsed.Ok? {
      ok := EmitJson(verb, codec, parsed.value, remainder, sink, log, banners0, outputs0);
    } else {
      ok := false;
      EmitNonJson(NonJsonText(trimmed, parsed.error, remainder), sink, log, banners0, outputs0);
    }
  }

  /**
   * The body of the inner loop for one line (and, with `remainder`, of the
   * end-of-stream block): decode, trim, parse and write. `failure` is the decode
   * error, if any, and `lineOk` whether the line leaves the overall flag alone.
   */
  method EmitLine(verb: Verb, codec: Codec, line: seq<byte>, remainder: bool, sink: ActionSink,
                  ghost p: Progress, ghost banners0: seq<string>, ghost outputs0: seq<(string, bool)>)
    returns (failure: Option<ClientError>, lineOk: bool)
    requires p.failure.None?
    requires Shows(sink, banners0, outputs0, p.effects)
    modifies sink
    ensures failure == HandleLine(verb, codec, p, line, remainder).failure
    ensures failure.None? ==> lineOk == LineOk(codec, line)
    ensures Shows(sink, banners0, outputs0, HandleLine(verb, codec, p, line, remainder).effects)
  {
    var decoded := codec.utf8(line);
    if decoded.Err? {
      return Some(Decode(decoded.error)), false;
    }
    failure, lineOk := None, true;
    var trimmed := Trim(decoded.value);
    if trimmed != [] {
      HandleLineText(verb, codec, p, line, remainder);
      lineOk := EmitText(verb, codec, trimmed, remainder, sink, p.effects, banners0, outputs0);
    }
  }

  /** Where the stream reader stands after the first `k` chunks, all received without error. */
  lemma AfterChunks(stream: seq<StreamItem>, k: nat)
    requires k <= ErrIndex(stream)
    ensures FeedAll(ChunksOf(stream[..k])).0 <= SplitLines(Received(stream)).0
    ensures k == ErrIndex(stream) ==> FeedAll(ChunksOf(stream[..k])) == SplitLines(Received(stream))
  {
    var all := stream[..ErrIndex(stream)];
    assert all == stream[..k] + all[k..];
    ChunksOfAppend(stream[..k], all[k..]);
    FlattenAppend(ChunksOf(stream[..k]), ChunksOf(all[k..]));
    SplitLinesAppend(Flatten(ChunksOf(stream[..k])), Flatten(ChunksOf(all[k..])));
    ChunkIndependence(ChunksOf(stream[..k]));
  }

  /** Reading an item without error moves past the first error's index no further than it. */
  lemma ErrIndexNext(stream: seq<StreamItem>, k: nat)
    requires k <= ErrIndex(stream) && k < |stream| && stream[k].Ok?
    ensures k + 1 <= ErrIndex(stream)
  {
  }

  /** Feeding chunk `k`: the lines drained before it, then those its bytes complete. */
  lemma FeedStep(stream: seq<StreamItem>, k: nat)
    requires k < |stream| && stream[k].Ok?
    ensures var before := FeedAll(ChunksOf(stream[..k]));
            var now := SplitLines(before.1 + stream[k].value);
            FeedAll(ChunksOf(stream[..k + 1])) == (before.0 + now.0, now.1)
  {
    assert stream[..k + 1][..k] == stream[..k];
  }

  /** A transport error while reading chunk `k` ends the run with what the drained lines wrote. */
  lemma TransportErrorOutcome(verb: Verb, codec: Codec, stream: seq<StreamItem>, k: nat, done: seq<seq<byte>>)
    requires k == ErrIndex(stream) && k < |stream|
    requires FeedAll(ChunksOf(stream[..k])).0 == done
    requires ProcessLines(verb, codec, Start, done).failure.None?
    ensures Ingest(verb, codec, stream).effects == ProcessLines(verb, codec, Start, done).effects
    ensures Ingest(verb, codec, stream).result == Err(Reqwest(stream[k].error))
  {
    AfterChunks(stream, k);
    IngestErrors(verb, codec, stream);
  }

  /** A drained line that is not UTF-8 ends the run with its decode error. */
  lemma DecodeErrorOutcome(verb: Verb, codec: Codec, stream: seq<StreamItem>, k: nat, done: seq<seq<byte>>, l: seq<byte>)
    requires k < ErrIndex(stream)
    requires done + [l] <= FeedAll(ChunksOf(stream[..k + 1])).0
    requires HandleLine(verb, codec, ProcessLines(verb, codec, Start, done), l, false).failure.Some?
    ensures var q := HandleLine(verb, codec, ProcessLines(verb, codec, Start, done), l, false);
            Ingest(verb, codec, stream).effects == q.effects && Ingest(verb, codec, stream).result == Err(q.failure.value)
  {
    var all := SplitLines(Received(stream)).0;
    AfterChunks(stream, k + 1);
    var n := |done| + 1;
    assert all == (done + [l]) + all[n..];
    ProcessLinesAppend(verb, codec, Start, done + [l], all[n..]);
    assert (done + [l])[..|done|] == done;
    ProcessLinesStopped(verb, codec, ProcessLines(verb, codec, Start, done + [l]), all[n..]);
    IngestErrors(verb, codec, stream);
  }

  /** At the end of the stream: the leftover line, if any, then the summary unless it failed. */
  lemma EndOutcome(verb: Verb, codec: Codec, stream: seq<StreamItem>, done: seq<seq<byte>>, buffer: seq<byte>)
    requires ErrIndex(stream) == |stream|
    requires FeedAll(ChunksOf(stream)) == (done, buffer)
    requires ProcessLines(verb, codec, Start, done).failure.None?
    ensures var p := ProcessLines(verb, codec, Start, done);
            var q := if buffer == [] then p else HandleLine(verb, codec, p, buffer, true);
            Ingest(verb, codec, stream).effects
              == (if q.failure.Some? then q.effects else q.effects + [Output(SummaryLine(verb, q.success), q.success)])
            && Ingest(verb, codec, stream).result == (if q.failure.Some? then Err(q.failure.value) else Ok(()))
  {
    assert stream[..|stream|] == stream;
    AfterChunks(stream, |stream|);
    IngestErrors(verb, codec, stream);
  }

  /** Regrouping drained lines. */
  lemma LinesAssoc(done: seq<seq<byte>>, l: seq<byte>, rest: seq<seq<byte>>)
    ensures done + ([l] + rest) == (done + [l]) + rest
    ensures done + [l] <= (done + [l]) + rest
  {
  }

  /**
   * The inner loop: drain and handle every complete line of `buffer`. Without a
   * decode error, the lines handled are exactly the complete lines of the buffer
   * and what is left is its unterminated rest; with one, `stop` is the line that
   * failed and `done` the lines handled before it.
   */
  method DrainLines(verb: Verb, codec: Codec, buffer0: seq<byte>, overallSuccess0: bool, sink: ActionSink,
                    ghost done0: seq<seq<byte>>, ghost banners0: seq<string>, ghost outputs0: seq<(string, bool)>)
    returns (buffer: seq<byte>, overallSuccess: bool, failure: Option<ClientError>,
             ghost done: seq<seq<byte>>, ghost stop: seq<byte>)
    requires ProcessLines(verb, codec, Start, done0).failure.None?
    requires overallSuccess0 == ProcessLines(verb, codec, Start, done0).success
    requires Shows(sink, banners0, outputs0, ProcessLines(verb, codec, Start, done0).effects)
    modifies sink
    ensures failure.None? ==> done == done0 + SplitLines(buffer0).0 && buffer == SplitLines(buffer0).1
    ensures failure.None? ==> ProcessLines(verb, codec, Start, done).failure.None?
    ensures failure.None? ==> overallSuccess == ProcessLines(verb, codec, Start, done).success
    ensures failure.None? ==> Shows(sink, banners0, outputs0, ProcessLines(verb, codec, Start, done).effects)
    ensures failure.Some? ==> done + [stop] <= done0 + SplitLines(buffer0).0
    ensures failure.Some? ==> failure == HandleLine(verb, codec, ProcessLines(verb, codec, Start, done), stop, false).failure
    ensures failure.Some? ==> Shows(sink, banners0, outputs0, HandleLine(verb, codec, ProcessLines(verb, codec, Start, done), stop, false).effects)
  {
    buffer, overallSuccess, failure, done, stop := buffer0, overallSuccess0, None, done0, [];
    ghost var p := ProcessLines(verb, codec, Start, done);
    while IndexOf(buffer, NEWLINE).Some?
      invariant done + SplitLines(buffer).0 == done0 + SplitLines(buffer0).0
      invariant SplitLines(buffer).1 == SplitLines(buffer0).1
      invariant p == ProcessLines(verb, codec, Start, done)
      invariant p.failure.None? && overallSuccess == p.success
      invariant Shows(sink, banners0, outputs0, p.effects)
      decreases |buffer|
    {
      var newlinePos := IndexOf(buffer, NEWLINE).value;
      var lineBytes := buffer[..newlinePos + 1];
      SplitLinesCons(buffer, newlinePos);
      buffer := buffer[newlinePos + 1..];
      LinesAssoc(done, lineBytes, SplitLines(buffer).0);
      var lineFailure, lineOk := EmitLine(verb, codec, lineBytes, false, sink, p, banners0, outputs0);
      if lineFailure.Some? {
        return buffer, overallSuccess, lineFailure, done, lineBytes;
      }
      HandleLineSuccess(verb, codec, p, lineBytes, false);
      if !lineOk {
        overallSuccess := false;
      }
      assert ProcessLines(verb, codec, Start, done + [lineBytes]) == HandleLine(verb, codec, p, lineBytes, false) by {
        assert (done + [lineBytes])[..|done|] == done;
      }
      p := HandleLine(verb, codec, p, lineBytes, false);
      done := done + [lineBytes];
    }
    SplitLinesNone(buffer);
    assert done + [] == done;
  }

  /**
   * The body of `pull_model` / `delete_model` after the response arrived:
   * the buffer loop, the leftover line and the summary.
   */
  method IngestStream(verb: Verb, codec: Codec, stream: seq<StreamItem>, sink: ActionSink)
    returns (r: Result<(), ClientError>)
    modifies sink
    ensures r == Ingest(verb, codec, stream).result
    ensures Shows(sink, old(sink.banners), old(sink.outputs), Ingest(verb, codec, stream).effects)
  {
    ghost var banners0, outputs0 := sink.banners, sink.outputs;
    var buffer: seq<byte> := [];
    var overallSuccess := true;
    ghost var done: seq<seq<byte>> := [];
    var k := 0;
    while k < |stream|
      invariant k <= ErrIndex(stream)
      invariant FeedAll(ChunksOf(stream[..k])) == (done, buffer)
      invariant ProcessLines(verb, codec, Start, done).failure.None?
      invariant overallSuccess == ProcessLines(verb, codec, Start, done).success
      invariant Shows(sink, banners0, outputs0, ProcessLines(verb, codec, Start, done).effects)
    {
      if stream[k].Err? {
        TransportErrorOutcome(verb, codec, stream, k, done);
        return Err(Reqwest(stream[k].error));
      }
      var failure;
      buffer, overallSuccess, failure, done := ReadChunk(verb, codec, stream, k, buffer, overallSuccess, sink, done, banners0, outputs0);
      if failure.Some? {
        return Err(failure.value);
      }
      k := k + 1;
    }
    assert stream[..k] == stream;
    EndOutcome(verb, codec, stream, done, buffer);
    r := FinishStream(verb, codec, buffer, overallSuccess, sink, ProcessLines(verb, codec, Start, done), banners0, outputs0);
  }

  /**
   * One turn of the outer loop on a chunk that arrived: append it to the
   * buffer and drain the buffer. Without a decode error the reader stands
   * after chunk `k`; with one, the whole run has ended with that error.
   */
  method ReadChunk(verb: Verb, codec: Codec, stream: seq<StreamItem>, k: nat, buffer0: seq<byte>, overallSuccess0: bool,
                   sink: ActionSink, ghost done0: seq<seq<byte>>, ghost banners0: seq<string>, ghost outputs0: seq<(string, bool)>)
    returns (buffer: seq<byte>, overallSuccess: bool, failure: Option<ClientError>, ghost done: seq<seq<byte>>)
    requires k < |stream| && stream[k].Ok? && k <= ErrIndex(stream)
    requires FeedAll(ChunksOf(stream[..k])) == (done0, buffer0)
    requires ProcessLines(verb, codec, Start, done0).failure.None?
    requires overallSuccess0 == ProcessLines(verb, codec, Start, done0).success
    requires Shows(sink, banners0, outputs0, ProcessLines(verb, codec, Start, done0).effects)
    modifies sink
    ensures failure.None? ==> k + 1 <= ErrIndex(stream) && FeedAll(ChunksOf(stream[..k + 1])) == (done, buffer)
    ensures failure.None? ==> ProcessLines(verb, codec, Start, done).failure.None?
    ensures failure.None? ==> overallSuccess == ProcessLines(verb, codec, Start, done).success
    ensures failure.None? ==> Shows(sink, banners0, outputs0, ProcessLines(verb, codec, Start, done).effects)
    ensures failure.Some? ==> Ingest(verb, codec, stream).result == Err(failure.value)
    ensures failure.Some? ==> Shows(sink, banners0, outputs0, Ingest(verb, codec, stream).effects)
  {
    FeedStep(stream, k);
    ErrIndexNext(stream, k);
    ghost var stop;
    buffer, overallSuccess, failure, done, stop := DrainLines(verb, codec, buffer0 + stream[k].value, overallSuccess0, sink, done0, banners0, outputs0);
    if failure.Some? {
      DecodeErrorOutcome(verb, codec, stream, k, done, stop);
    }
  }

  /** The end of the stream: handle the unterminated leftover, if any, then write the summary unless it failed. */
  method FinishStream(verb: Verb, codec: Codec, buffer: seq<byte>, overallSuccess0: bool, sink: ActionSink,
                      ghost p0: Progress, ghost banners0: seq<string>, ghost outputs0: seq<(string, bool)>)
    returns (r: Result<(), ClientError>)
    requires p0.failure.None? && overallSuccess0 == p0.success
    requires Shows(sink, banners0, outputs0, p0.effects)
    modifies sink
    ensures var q := if buffer == [] then p0 else HandleLine(verb, codec, p0, buffer, true);
            && Shows(sink, banners0, outputs0,
                     if q.failure.Some? then q.effects else q.effects + [Output(SummaryLine(verb, q.success), q.success)])
            && r == (if q.failure.Some? then Err(q.failure.value) else Ok(()))
  {
    ghost var p := p0;
    var overallSuccess := overallSuccess0;
    if buffer != [] {
      var failure, lineOk := EmitLine(verb, codec, buffer, true, sink, p, banners0, outputs0);
      if failure.Some? {
        return Err(failure.value);
      }
      HandleLineSuccess(verb, codec, p, buffer, true);
      if !lineOk {
        overallSuccess := false;
      }
      p := HandleLine(verb, codec, p, buffer, true);
    }
    var finalMessage := SummaryLine(verb, overallSuccess);
    ShowsOutput(banners0, outputs0, p.effects, sink.banners, sink.outputs, finalMessage, overallSuccess);
    sink.AddOutputLine(finalMessage, overallSuccess);
    r := Ok(());
  }

  // ---------------------------------------------------------------------------
  // The client and its requests
  // ---------------------------------------------------------------------------

  /** `HiveInferClient`: the HTTP wrapper and the (already checked) Authorization value. */
  datatype HiveInferClient = HiveInferClient(client: HttpClient, authHeader: string)

  /** `HiveInferClient::new`: both the own header and the wrapper's check the same bearer text. */
  function NewInferClient(baseUrl: string, token: string, builder: Result<(), string>): (r: Result<HiveInferClient, ClientError>)
    ensures !ValidHeaderValue(token) ==> r == Err(HeaderInvalid)
    ensures ValidHeaderValue(token) && builder.Err? ==> r == Err(Reqwest(builder.error))
    ensures r.Ok? <==> ValidHeaderValue(token) && builder.Ok?
    ensures r.Ok? ==> r.value.authHeader == BearerValue(token) && r.value.client.baseUrl == baseUrl
  {
    BearerValidIffToken(token);
    if !ValidHeaderValue(BearerValue(token)) then Err(HeaderInvalid)
    else match NewClient(baseUrl, token, builder)
      case Err(e) => Err(e)
      case Ok(c) => Ok(HiveInferClient(c, BearerValue(token)))
  }

  /** `make_headers`: Authorization first, then a `Node` header (stored under its lower-case name, as header maps do) when a
   * node is named and its name is a valid header value. */
  function MakeHeaders(c: HiveInferClient, node: Option<string>): (r: Result<Headers, ClientError>)
    ensures r.Err? <==> node.Some? && !ValidHeaderValue(node.value)
    ensures r.Err? ==> r.error == HeaderInvalid
    ensures r.Ok? ==> |r.value| > 0 && r.value[0] == ("authorization", c.authHeader)
    ensures r.Ok? ==> |r.value| == (if node.Some? then 2 else 1)
    ensures r.Ok? && node.Some? ==> r.value[1] == ("node", node.value)
  {
    match node
    case None => Ok([("authorization", c.authHeader)])
    case Some(name) =>
      if ValidHeaderValue(name) then Ok([("authorization", c.authHeader), ("node", name)]) else Err(HeaderInvalid)
  }

  datatype HttpMethod = Post | DeleteMethod

  datatype Request = Request(verbOf: HttpMethod, url: string, headers: Headers, body: Value)

  /** The endpoint of an action. */
  function ActionPath(verb: Verb): string
  {
    match verb
    case Pull => "/api/pull"
    case Delete => "/api/delete"
  }

  /**
   * `format!("{}/api/pull", base_url.trim_end_matches('/'))`, and `/api/delete`
   * for the delete action: the base URL less its trailing slashes, then the endpoint.
   */
  function ActionUrl(baseUrl: string, verb: Verb): (r: string)
    ensures EndsWith(r, ActionPath(verb))
    ensures var stem := r[..|r| - |ActionPath(verb)|];
            StartsWith(baseUrl, stem) && (stem == [] || stem[|stem| - 1] != '/')
    ensures forall i :: |r| - |ActionPath(verb)| <= i < |baseUrl| ==> baseUrl[i] == '/'
  {
    var stem := TrimEndMatches(baseUrl, '/');
    EndsWithAppend(stem, ActionPath(verb));
    assert (stem + ActionPath(verb))[..|stem|] == stem;
    stem + ActionPath(verb)
  }

  /** The request an action sends: POST or DELETE, its URL, its headers and the body `{ "name": model }`. */
  function ActionRequest(c: HiveInferClient, verb: Verb, model: string, node: Option<string>): (r: Result<Request, ClientError>)
    ensures r.Err? <==> MakeHeaders(c, node).Err?
    ensures r.Ok? ==> r.value.body == Object(map["name" := Str(model)])
    ensures r.Ok? ==> r.value.verbOf == (if verb == Pull then Post else DeleteMethod)
    ensures r.Ok? ==> r.value.url == ActionUrl(c.client.baseUrl, verb) && r.value.headers == MakeHeaders(c, node).value
  {
    match MakeHeaders(c, node)
    case Err(e) => Err(e)
    case Ok(headers) =>
      Ok(Request(if verb == Pull then Post else DeleteMethod, ActionUrl(c.client.baseUrl, verb), headers,
                 Object(map["name" := Str(model)])))
  }

  /** A whole action: a header error or a failed request returns before anything is written. */
  function Action(c: HiveInferClient, verb: Verb, model: string, node: Option<string>, codec: Codec,
                  response: Result<seq<StreamItem>, string>): (r: Outcome)
    ensures MakeHeaders(c, node).Err? ==> r == Outcome([], Err(HeaderInvalid))
    ensures MakeHeaders(c, node).Ok? && response.Err? ==> r == Outcome([], Err(Reqwest(response.error)))
    ensures MakeHeaders(c, node).Ok? && response.Ok? ==> r == Ingest(verb, codec, response.value)
  {
    match ActionRequest(c, verb, model, node)
    case Err(e) => Outcome([], Err(e))
    case Ok(_) =>
      match response
      case Err(e) => Outcome([], Err(Reqwest(e)))
      case Ok(stream) => Ingest(verb, codec, stream)
  }

  /**
   * `pull_model` (verb `Pull`) and `delete_model` (verb `Delete`). `response` is the
   * outcome of sending the request: the body's stream of chunks, or the transport
   * error's text.
   */
  method RunAction(c: HiveInferClient, verb: Verb, model: string, node: Option<string>, codec: Codec,
                   response: Result<seq<StreamItem>, string>, sink: ActionSink)
    returns (r: Result<(), ClientError>)
    modifies sink
    ensures r == Action(c, verb, model, node, codec, response).result
    ensures Shows(sink, old(sink.banners), old(sink.outputs), Action(c, verb, model, node, codec, response).effects)
  {
    var request := ActionRequest(c, verb, model, node);
    if request.Err? {
      return Err(request.error);
    }
    if response.Err? {
      return Err(Reqwest(response.error));
    }
    r := IngestStream(verb, codec, response.value, sink);
  }
}
