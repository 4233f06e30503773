/**
  The OpenAI client of refactor_core/openai_client.py: the retry loop of
  `call_openai_api` and the raw-response file of `save_raw_open_ai_response`.

  The provider is an oracle `outcome`: `outcome(k)` is the response of
  attempt `k`, or `None` when that attempt raises. Sleeping is recorded as
  the list of durations slept, in seconds.
 */
module Completion {
  import opened Wrappers
  import opened Json
  import opened Files

  const DefaultMaxRetries: int := 3

  /** The provider calls made, the pauses between them and the value returned. */
  datatype Trace = Trace(response: Option<Json>, calls: seq<nat>, sleeps: seq<nat>)

  /** Attempts `attempt`, `attempt + 1`, ..., `maxRetries`, stopping at the first success. */
  function RetryFrom(outcome: nat -> Option<Json>, attempt: nat, maxRetries: int): Trace
    decreases if attempt <= maxRetries then maxRetries - attempt + 1 else 0
  {
    if attempt > maxRetries then Trace(None, [], [])
    else if outcome(attempt).Some? then Trace(outcome(attempt), [attempt], [])
    else
      var rest := RetryFrom(outcome, attempt + 1, maxRetries);
      Trace(rest.response, [attempt] + rest.calls, [2 * attempt] + rest.sleeps)
  }

  /** The whole `for attempt in range(1, max_retries + 1)` loop. */
  function CallTrace(outcome: nat -> Option<Json>, maxRetries: int): Trace {
    RetryFrom(outcome, 1, maxRetries)
  }

  /**
    `call_openai_api(api_key, prompt, model, temperature, max_retries)`: the
    response of the first attempt that does not raise, after sleeping
    `2 * attempt` seconds following each failed attempt; `None` when every
    attempt fails.
   */
  method CallOpenAiApi(outcome: nat -> Option<Json>, maxRetries: int := DefaultMaxRetries)
    returns (response: Option<Json>, calls: seq<nat>, sleeps: seq<nat>)
    ensures Trace(response, calls, sleeps) == CallTrace(outcome, maxRetries)
  {
    calls, sleeps := [], [];
    var attempt: nat := 1;
    while attempt <= maxRetries
      invariant 1 <= attempt
      invariant CallTrace(outcome, maxRetries) == Trace(RetryFrom(outcome, attempt, maxRetries).response,
        calls + RetryFrom(outcome, attempt, maxRetries).calls,
        sleeps + RetryFrom(outcome, attempt, maxRetries).sleeps)
      decreases maxRetries - attempt + 1
    {
      if outcome(attempt).Some? {
        calls := calls + [attempt];
        return outcome(attempt), calls, sleeps;
      }
      var rest := RetryFrom(outcome, attempt + 1, maxRetries);
      SnocAssoc(calls, attempt, rest.calls);
      SnocAssoc(sleeps, 2 * attempt, rest.sleeps);
      calls := calls + [attempt];
      sleeps := sleeps + [2 * attempt];
      attempt := attempt + 1;
    }
    assert calls + [] == calls && sleeps + [] == sleeps;
    response := None;
  }

  lemma SnocAssoc(a: seq<nat>, x: nat, b: seq<nat>)
    ensures a + ([x] + b) == (a + [x]) + b
  {
  }

  /** The attempt numbers `lo`, `lo + 1`, ..., `hi`. */
  function Range(lo: nat, hi: int): (r: seq<nat>)
    ensures |r| == if hi < lo then 0 else hi - lo + 1
    ensures forall i :: 0 <= i < |r| ==> r[i] == lo + i
    decreases if hi < lo then 0 else hi - lo + 1
  {
    if hi < lo then [] else [lo] + Range(lo + 1, hi)
  }

  /** The pauses after failed attempts `lo`, ..., `hi`: 2, 4, 6, ... seconds. */
  function Backoff(lo: nat, hi: int): (r: seq<nat>)
    ensures |r| == if hi < lo then 0 else hi - lo + 1
    ensures forall i :: 0 <= i < |r| ==> r[i] == 2 * (lo + i)
    decreases if hi < lo then 0 else hi - lo + 1
  {
    if hi < lo then [] else [2 * lo] + Backoff(lo + 1, hi)
  }

  /** The first attempt in `attempt..maxRetries` that succeeds, if any. */
  predicate SucceedsFrom(outcome: nat -> Option<Json>, attempt: nat, maxRetries: int) {
    exists k: nat :: attempt <= k <= maxRetries && outcome(k).Some?
  }

  /**
    The loop calls the provider with consecutive attempt numbers from
    `attempt`, returns the first success and sleeps `2 * k` after each failed
    attempt `k`; when no attempt succeeds it makes every attempt, sleeps
    after the last one too, and returns `None`.
   */
  lemma {:induction false} RetryFromSpec(outcome: nat -> Option<Json>, attempt: nat, maxRetries: int)
    ensures var t := RetryFrom(outcome, attempt, maxRetries);
      && (t.response.Some? <==> SucceedsFrom(outcome, attempt, maxRetries))
      && (t.response.Some? ==> exists k: nat :: (attempt <= k <= maxRetries
            && t.response == outcome(k) && t.calls == Range(attempt, k) && t.sleeps == Backoff(attempt, k - 1)
            && forall j :: attempt <= j < k ==> outcome(j).None?))
      && (t.response.None? ==> t.calls == Range(attempt, maxRetries) && t.sleeps == Backoff(attempt, maxRetries))
    decreases if attempt <= maxRetries then maxRetries - attempt + 1 else 0
  {
    var t := RetryFrom(outcome, attempt, maxRetries);
    if attempt > maxRetries {
    } else if outcome(attempt).Some? {
      assert t.calls == Range(attempt, attempt);
      assert t.sleeps == Backoff(attempt, attempt - 1);
    } else {
      RetryFromSpec(outcome, attempt + 1, maxRetries);
      var rest := RetryFrom(outcome, attempt + 1, maxRetries);
      if rest.response.Some? {
        var k: nat :| attempt + 1 <= k <= maxRetries && rest.response == outcome(k)
          && rest.calls == Range(attempt + 1, k) && rest.sleeps == Backoff(attempt + 1, k - 1)
          && forall j :: attempt + 1 <= j < k ==> outcome(j).None?;
        assert t.calls == Range(attempt, k);
        assert t.sleeps == Backoff(attempt, k - 1);
      } else {
        forall k: nat | attempt <= k <= maxRetries
          ensures outcome(k).None?
        {
          if k > attempt {
            assert !(attempt + 1 <= k <= maxRetries && outcome(k).Some?);
          }
        }
      }
    }
  }

  /**
    `call_openai_api` makes at most `max_retries` calls, numbered from 1; it
    returns the response of the first successful call and calls nothing
    after it; it returns `None` exactly when no call in `1..max_retries`
    succeeds, which includes `max_retries <= 0`.
   */
  lemma CallSpec(outcome: nat -> Option<Json>, maxRetries: int)
    ensures var t := CallTrace(outcome, maxRetries);
      && |t.calls| <= (if maxRetries < 0 then 0 else maxRetries)
      && t.calls == Range(1, |t.calls|)
      && (t.response.Some? <==> SucceedsFrom(outcome, 1, maxRetries))
      && (t.response.Some? ==> (t.response == outcome(|t.calls|)
            && forall j :: 1 <= j < |t.calls| ==> outcome(j).None?))
      && (t.response.None? ==> forall j :: 1 <= j <= maxRetries ==> outcome(j).None?)
  {
    RetryFromSpec(outcome, 1, maxRetries);
  }

  /** The sum of a list of pauses. */
  function Total(sleeps: seq<nat>): nat {
    if |sleeps| == 0 then 0 else sleeps[0] + Total(sleeps[1..])
  }

  lemma {:induction false} TotalBackoff(n: nat)
    ensures Total(Backoff(1, n)) == n * (n + 1)
  {
    if n > 0 {
      TotalSnoc(Backoff(1, n - 1), 2 * n);
      TotalBackoff(n - 1);
      assert Backoff(1, n) == Backoff(1, n - 1) + [2 * n];
    }
  }

  lemma {:induction false} TotalSnoc(s: seq<nat>, x: nat)
    ensures Total(s + [x]) == Total(s) + x
    decreases |s|
  {
    if |s| > 0 {
      assert (s + [x])[1..] == s[1..] + [x];
      TotalSnoc(s[1..], x);
    }
  }

  /**
    The back-off is linear in the attempt number: after `f` failed attempts
    the loop has slept `2 + 4 + ... + 2f = f(f + 1)` seconds in all, one
    pause per failure (the last failure included).
   */
  lemma TotalSleep(outcome: nat -> Option<Json>, maxRetries: int)
    ensures var t := CallTrace(outcome, maxRetries);
      var failures := if t.response.Some? then |t.calls| - 1 else |t.calls|;
      && failures >= 0
      && t.sleeps == Backoff(1, failures)
      && Total(t.sleeps) == failures * (failures + 1)
  {
    RetryFromSpec(outcome, 1, maxRetries);
    var t := CallTrace(outcome, maxRetries);
    var failures := if t.response.Some? then |t.calls| - 1 else |t.calls|;
    assert t.sleeps == Backoff(1, failures);
    TotalBackoff(failures);
  }

  /** The response object, as `save_raw_open_ai_response` receives it. */
  class ResponseDict {
    var fields: map<string, Json>
  }

  /**
    `WithToDict`: an object whose `to_dict()` gives a fresh dict; `PlainDict`:
    a dict the caller holds, which is updated in place; `NotADict`: `None`,
    a list, a string or a number, where item assignment raises `TypeError`.
   */
  datatype ResponseArg = WithToDict(converted: map<string, Json>) | PlainDict(dict: ResponseDict) | NotADict

  /** `source_id or f"{input_type}_{timestamp}"`. */
  function BaseName(sourceId: Option<string>, inputType: string, timestamp: string): string {
    if sourceId.Some? && sourceId.value != "" then sourceId.value else inputType + "_" + timestamp
  }

  /** `output_dir / f"{base_name}.json"`. */
  function RawResponsePath(outputDir: string, sourceId: Option<string>, inputType: string,
                           timestamp: string): string {
    PathJoin(outputDir, BaseName(sourceId, inputType, timestamp) + ".json")
  }

  /** The `metadata` record; a missing `source_id` is written as `null`. */
  function Metadata(sourceId: Option<string>, inputType: string, timestamp: string): Json {
    JObject(map[
      "source_id" := if sourceId.Some? then JString(sourceId.value) else JNull,
      "input_type" := JString(inputType),
      "timestamp" := JString(timestamp)])
  }

  /** The response dict with its `metadata` key set. */
  function Stamped(fields: map<string, Json>, sourceId: Option<string>, inputType: string,
                   timestamp: string): map<string, Json> {
    fields["metadata" := Metadata(sourceId, inputType, timestamp)]
  }

  /**
    `save_raw_open_ai_response`: stamp the response with its metadata and
    write it as JSON. Every exception is logged and turned into `None`:
    `TypeError` for a response that is not a dict (nothing is written) and
    `OSError` when `open` fails (`canOpen` is false; a plain dict has then
    already been stamped). `timestamp` is the clock reading formatted
    `%Y%m%dT%H%M%S`.
   */
  method SaveRawOpenAiResponse(disk: Disk, response: ResponseArg, outputDir: string,
                               sourceId: Option<string>, inputType: string, timestamp: string,
                               canOpen: bool)
    returns (r: Option<string>)
    modifies disk, if response.PlainDict? then {response.dict} else {}
    ensures response.PlainDict? ==>
      response.dict.fields == Stamped(old(response.dict.fields), sourceId, inputType, timestamp)
    ensures response.NotADict? || !canOpen ==> r.None? && disk.files == old(disk.files)
    ensures !response.NotADict? && canOpen ==>
      && r == Some(RawResponsePath(outputDir, sourceId, inputType, timestamp))
      && disk.files == old(disk.files)[r.value := JsonFile(JObject(Stamped(
           if response.WithToDict? then response.converted else old(response.dict.fields),
           sourceId, inputType, timestamp)))]
  {
    var path := RawResponsePath(outputDir, sourceId, inputType, timestamp);
    var stamped: map<string, Json>;
    match response {
      case NotADict =>
        return None;
      case WithToDict(converted) =>
        stamped := Stamped(converted, sourceId, inputType, timestamp);
      case PlainDict(dict) =>
        dict.fields := Stamped(dict.fields, sourceId, inputType, timestamp);
        stamped := dict.fields;
    }
    if !canOpen {
      return None;
    }
    disk.Write(path, JsonFile(JObject(stamped)));
    r := Some(path);
  }

  /**
    Reading the saved object back gives the original keys unchanged, apart
    from `metadata`, which holds the source id (or `null`), the input type
    and the timestamp.
   */
  lemma StampedReadBack(fields: map<string, Json>, sourceId: Option<string>, inputType: string,
                        timestamp: string)
    ensures var s := Stamped(fields, sourceId, inputType, timestamp);
      && s.Keys == fields.Keys + {"metadata"}
      && (forall k :: k in fields && k != "metadata" ==> s[k] == fields[k])
      && Subscript(s["metadata"], "input_type") == Success(JString(inputType))
      && Subscript(s["metadata"], "timestamp") == Success(JString(timestamp))
      && Subscript(s["metadata"], "source_id")
        == Success(if sourceId.Some? then JString(sourceId.value) else JNull)
  {
  }

  /**
    The file is named after a non-empty source id when there is one, else
    after the input type and the timestamp; either way the name before
    ".json" is never empty.
   */
  lemma RawResponseName(outputDir: string, sourceId: Option<string>, inputType: string, timestamp: string)
    ensures var path := RawResponsePath(outputDir, sourceId, inputType, timestamp);
      exists base: string :: base != [] && path == outputDir + "/" + base + ".json"
        && (sourceId.Some? && sourceId.value != "" ==> base == sourceId.value)
        && (sourceId.None? || sourceId.value == "" ==> base == inputType + "_" + timestamp)
  {
    var base := BaseName(sourceId, inputType, timestamp);
    assert |inputType + "_" + timestamp| >= 1;
    assert RawResponsePath(outputDir, sourceId, inputType, timestamp) == outputDir + "/" + base + ".json";
  }

  /**
    Two responses with different source ids go to different files in the
    same directory, when each id is a single path segment (no '/'), as
    video ids and `text_<stem>` ids are: pathlib would otherwise map "a"
    and "./a" to one file.
   */
  lemma DistinctSourcesDistinctFiles(outputDir: string, a: string, b: string, inputType: string,
                                     timestamp: string)
    requires a != "" && b != "" && a != b && '/' !in a && '/' !in b
    ensures RawResponsePath(outputDir, Some(a), inputType, timestamp)
      != RawResponsePath(outputDir, Some(b), inputType, timestamp)
  {
    var pa := RawResponsePath(outputDir, Some(a), inputType, timestamp);
    var pb := RawResponsePath(outputDir, Some(b), inputType, timestamp);
    var n := |outputDir| + 1;
    if |a| != |b| {
      assert |pa| != |pb|;
    } else {
      assert pa[n..n + |a|] == a;
      assert pb[n..n + |b|] == b;
    }
  }
}
