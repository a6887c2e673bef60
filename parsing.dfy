/**
 * Shaping of two raw JSON payloads (src/utils/parsing.rs): the `/worker/pings`
 * object into a map of timestamp lists, and the `/key` array into a list of
 * authentication keys. The RFC 3339 date-time parser is a parameter.
 */
module Parsing {
  import opened Wrappers
  import opened Json
  import opened Models

  /** `DateTime::parse_from_rfc3339(s).ok()`, converted to UTC. */
  type TimeParser = string -> Option<Instant>

  /** The elements of `items` that are strings the parser accepts, parsed, in order. */
  function FilterTimes(parse: TimeParser, items: seq<Value>): (r: seq<Instant>)
    ensures |r| <= |items|
  {
    if |items| == 0 then []
    else
      var last := items[|items| - 1];
      FilterTimes(parse, items[..|items| - 1])
        + (if last.Str? && parse(last.s).Some? then [parse(last.s).value] else [])
  }

  /** Filtering keeps order: it distributes over concatenation. */
  lemma {:induction false} FilterTimesAppend(parse: TimeParser, a: seq<Value>, b: seq<Value>)
    ensures FilterTimes(parse, a + b) == FilterTimes(parse, a) + FilterTimes(parse, b)
    decreases |b|
  {
    if |b| > 0 {
      assert (a + b)[..|a + b| - 1] == a + b[..|b| - 1];
      FilterTimesAppend(parse, a, b[..|b| - 1]);
    } else {
      assert a + b == a;
    }
  }

  /** An element survives exactly when it is a string that parses. */
  predicate Accepted(parse: TimeParser, v: Value)
  {
    v.Str? && parse(v.s).Some?
  }

  /** Nothing is dropped exactly when every element is accepted. */
  lemma {:induction false} FilterTimesKeepsAll(parse: TimeParser, items: seq<Value>)
    ensures |FilterTimes(parse, items)| == |items| <==> forall i :: 0 <= i < |items| ==> Accepted(parse, items[i])
  {
    if |items| > 0 {
      var init := items[..|items| - 1];
      FilterTimesKeepsAll(parse, init);
      assert forall i :: 0 <= i < |init| ==> init[i] == items[i];
    }
  }

  /** Every timestamp kept is the parse of one of the input's strings. */
  lemma {:induction false} FilterTimesSound(parse: TimeParser, items: seq<Value>, t: Instant)
    requires t in FilterTimes(parse, items)
    ensures exists i :: 0 <= i < |items| && Accepted(parse, items[i]) && parse(items[i].s) == Some(t)
  {
    var init := items[..|items| - 1];
    var last := items[|items| - 1];
    if t in FilterTimes(parse, init) {
      FilterTimesSound(parse, init, t);
      var i :| 0 <= i < |init| && Accepted(parse, init[i]) && parse(init[i].s) == Some(t);
      assert items[i] == init[i];
    } else {
      assert Accepted(parse, last) && parse(last.s) == Some(t);
    }
  }

  /** The timestamps of one worker's entry: an array is filtered, anything else gives none. */
  function PingTimes(parse: TimeParser, v: Value): (r: seq<Instant>)
    ensures !v.Array? ==> r == []
    ensures v.Array? ==> r == FilterTimes(parse, v.items)
  {
    match v
    case Array(items) => FilterTimes(parse, items)
    case _ => []
  }

  /**
   * `parse_worker_pings`: for an object, one entry per member with that member's
   * timestamps; for anything else, the empty map.
   */
  method ParseWorkerPings(parse: TimeParser, raw: Value) returns (out: WorkerPings)
    ensures !raw.Object? ==> out == map[]
    ensures raw.Object? ==> out.Keys == raw.fields.Keys
    ensures raw.Object? ==> forall name :: name in out ==> out[name] == PingTimes(parse, raw.fields[name])
  {
    out := map[];
    if raw.Object? {
      var todo := raw.fields.Keys;
      while todo != {}
        invariant todo <= raw.fields.Keys
        invariant out.Keys == raw.fields.Keys - todo
        invariant forall name :: name in out ==> out[name] == PingTimes(parse, raw.fields[name])
        decreases todo
      {
        var name :| name in todo;
        var times := PingTimes(parse, raw.fields[name]);
        out := out[name := times];
        todo := todo - {name};
      }
    }
  }

  /** Decoding every element, or nothing at all: `Vec<AuthKey>` from an array. */
  function DecodeAuthKeys(items: seq<Value>): (r: Option<AuthKeys>)
    ensures r.Some? <==> forall i :: 0 <= i < |items| ==> DecodeAuthKey(items[i]).Some?
    ensures r.Some? ==> |r.value| == |items| && forall i :: 0 <= i < |items| ==> DecodeAuthKey(items[i]) == Some(r.value[i])
  {
    if |items| == 0 then Some([])
    else
      var init := items[..|items| - 1];
      assert forall i :: 0 <= i < |init| ==> init[i] == items[i];
      match (DecodeAuthKeys(init), DecodeAuthKey(items[|items| - 1]))
      case (Some(keys), Some(key)) => Some(keys + [key])
      case _ => None
  }

  /**
   * `parse_auth_keys`: an array is decoded, falling back to the empty list when
   * decoding fails; any other payload gives the empty list.
   */
  function ParseAuthKeys(raw: Value): (r: AuthKeys)
    ensures !raw.Array? ==> r == []
  {
    match raw
    case Array(items) => (match DecodeAuthKeys(items) case Some(keys) => keys case None => [])
    case _ => []
  }

  /** All or nothing: either every element decoded, in order, or the result is empty. */
  lemma ParseAuthKeysAllOrNothing(raw: Value)
    requires raw.Array?
    ensures (forall i :: 0 <= i < |raw.items| ==> DecodeAuthKey(raw.items[i]).Some?) ==>
              |ParseAuthKeys(raw)| == |raw.items|
              && forall i :: 0 <= i < |raw.items| ==> DecodeAuthKey(raw.items[i]) == Some(ParseAuthKeys(raw)[i])
    ensures (exists i :: 0 <= i < |raw.items| && DecodeAuthKey(raw.items[i]).None?) ==> ParseAuthKeys(raw) == []
  {
  }
}
