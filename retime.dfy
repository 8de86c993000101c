/**
 * `update_timestamps`, as both log controllers write it. Every record is
 * serialised; the timestamps found in the text are read, shifted so that the
 * first timestamp ever seen (the anchor) lands on the origin, printed back
 * with millisecond precision and substituted with `str.replace`. A record with
 * a float `ts` field (the Zeek format) gets `@timestamp` and `ts` rewritten
 * the same way. The engine polls its Event before every record and every
 * match; the standalone tool never stops early (`NoCancel`).
 */
module Retime {
  import opened Wrappers
  import opened Text
  import opened JsonValues
  import opened StampPattern
  import opened Calendar
  import opened LogReplay

  /** `full[:-4] + 'Z'`, with Python's slicing of a text shorter than four characters. */
  function Chop(full: string): (s: string)
    ensures |full| >= 4 ==> |s| == |full| - 3
  {
    (if |full| >= 4 then full[..|full| - 4] else []) + "Z"
  }

  /** With Python's `datetime`, the text written for an instant is `FormatStamp`'s. */
  lemma ChopIsFormatStamp(lib: DateLib, t: int)
    requires Python(lib) && InRange(t)
    ensures Chop(lib.strftime(t)) == FormatStamp(t)
  {
    ChopMillis(FromInstant(t));
  }

  /** Why an update ends without a list of records. */
  datatype Failure =
    | BadOption        // the time option is not supported: an error is reported
    | DualFormat       // a record carries both timestamp formats: an error is reported
    | Crash(reason: string)   // Python raises

  /** What both tools report for a record with both timestamp formats. */
  const DualFormatMessage := "Provided log file has attributes of Zeek log dump and winlogbeat log dump. Exiting to avoid arbitrary behavior. . ."

  /**
   * What the loops carry: the anchor (`earliest_datetime`), the number of
   * Event polls so far, and every timestamp rewritten so far as the pair
   * (instant read, instant written), in order.
   */
  datatype Clock = Clock(anchor: Option<int>, polls: nat, trace: seq<(int, int)>)

  const Start := Clock(None, 0, [])

  /** `origin + (t - anchor)`, or a crash where the sum leaves the range of `datetime`. */
  function Shift(origin: int, anchor: int, t: int): (r: Result<int, Failure>)
    ensures r.Ok? <==> InRange(origin + (t - anchor))
    ensures r.Ok? ==> r.value - origin == t - anchor
  {
    var s := origin + (t - anchor);
    if InRange(s) then Ok(s) else Err(Crash("OverflowError: date value out of range"))
  }

  /**
   * The anchor is the first instant read, and every instant written is the
   * origin plus the distance of the instant read from the anchor.
   */
  ghost predicate Anchored(origin: int, c: Clock)
  {
    && (c.anchor.None? <==> c.trace == [])
    && (c.anchor.Some? ==> c.trace[0].0 == c.anchor.value)
    && (c.anchor.Some? ==> forall k :: 0 <= k < |c.trace| ==> c.trace[k].1 == origin + (c.trace[k].0 - c.anchor.value))
  }

  /**
   * One timestamp read as instant `cur`: it becomes the anchor if there is
   * none yet, and is shifted; the pair (cur, new instant) joins the trace.
   */
  function Advance(origin: int, c: Clock, cur: int): (r: Result<(Clock, int), Failure>)
    ensures r.Err? ==> r.error.Crash?
    ensures r.Ok? ==> r.value.0.polls == c.polls && r.value.0.trace == c.trace + [(cur, r.value.1)]
  {
    var anchor := if c.anchor.Some? then c.anchor.value else cur;
    match Shift(origin, anchor, cur)
    case Err(f) => Err(f)
    case Ok(t) => Ok((Clock(Some(anchor), c.polls, c.trace + [(cur, t)]), t))
  }

  /**
   * The body of the inner loop for one match m: parse it, take it as the
   * anchor if there is none yet, shift it, and replace every occurrence of m
   * in the record's text by the new stamp.
   */
  function MatchStep(lib: DateLib, origin: int, c: Clock, text: string, m: string): (r: Result<(Clock, string), Failure>)
    requires MatchText(m)
    ensures r.Err? ==> r.error.Crash?
    ensures r.Ok? ==> r.value.0.polls == c.polls && |r.value.0.trace| == |c.trace| + 1
  {
    match lib.strptime(m)
    case None => Err(Crash("ValueError: time data does not match format"))
    case Some(cur) =>
      match Advance(origin, c, cur)
      case Err(f) => Err(f)
      case Ok((c', t)) => Ok((c', Replace(text, m, Chop(lib.strftime(t)))))
  }

  /**
   * The inner loop over the matches ms of the record's original text, with
   * the new text; on success also the number of matches left unvisited when
   * the loop broke on the Event (what `len(list(result))` then counts).
   */
  function RetimeMatches(lib: DateLib, origin: int, cancel: Cancel, c: Clock, text: string, ms: seq<string>)
    : (r: Result<(Clock, string, nat), Failure>)
    requires forall k :: 0 <= k < |ms| ==> MatchText(ms[k])
    ensures r.Err? ==> r.error.Crash?
    ensures r.Ok? ==> r.value.2 < |ms| || (ms == [] && r.value.2 == 0)
    ensures r.Ok? && cancel == NoCancel ==> r.value.2 == 0 && r.value.0.polls == c.polls + |ms|
    decreases |ms|
  {
    if ms == [] then Ok((c, text, 0))
    else if Fires(cancel, c.polls) then Ok((c.(polls := c.polls + 1), text, |ms| - 1))
    else
      match MatchStep(lib, origin, c.(polls := c.polls + 1), text, ms[0])
      case Err(f) => Err(f)
      case Ok((c', text')) => RetimeMatches(lib, origin, cancel, c', text', ms[1..])
  }

  /**
   * The `ts` branch: where the record has a float `ts`, set `@timestamp` to the
   * shifted stamp and `ts` to its epoch text, and serialise the record again.
   * Also returns whether `"ts" in i` held.
   */
  function EpochStep(codec: Codec, lib: DateLib, origin: int, c: Clock, i: Json, text: string)
    : (r: Result<(Clock, string, bool), Failure>)
    ensures r.Err? ==> r.error.Crash?
    ensures r.Ok? ==> r.value.2 == (Member(i, "ts") == Ok(true))
    ensures r.Ok? && !r.value.2 ==> r.value.0 == c && r.value.1 == text
  {
    match Member(i, "ts")
    case Err(e) => Err(Crash(e))
    case Ok(false) => Ok((c, text, false))
    case Ok(true) =>
      match Index(i, "ts")
      case Err(e) => Err(Crash(e))
      case Ok(ts) =>
        if !ts.Float? then Ok((c, text, true))
        else
          match lib.fromTimestamp(ts.x)
          case None => Err(Crash("ValueError: timestamp out of range"))
          case Some(cur) =>
            if !InRange(cur) then Err(Crash("ValueError: year is out of range"))
            else
              match Advance(origin, c, cur)
              case Err(f) => Err(f)
              case Ok((c', t)) =>
                var fields := Put(Put(i.fields, "@timestamp", Str(Chop(lib.strftime(t)))), "ts", Str(lib.epochText(t)));
                Ok((c', codec.dumps(Obj(fields)), true))
  }

  /** One pass of the outer loop body over record i. */
  function RetimeRecord(codec: Codec, lib: DateLib, origin: int, cancel: Cancel, c: Clock, i: Json)
    : (r: Result<(Clock, Json), Failure>)
    ensures r.Err? ==> r.error != BadOption
    ensures cancel == NoCancel ==> r != Err(DualFormat)
  {
    var text := codec.dumps(i);
    match RetimeMatches(lib, origin, cancel, c, text, Matches(text))
    case Err(f) => Err(f)
    case Ok((c1, text1, left)) =>
      match EpochStep(codec, lib, origin, c1, i, text1)
      case Err(f) => Err(f)
      case Ok((c2, text2, tsIn)) =>
        if left > 0 && tsIn then Err(DualFormat)
        else
          match codec.loads(text2)
          case None => Err(Crash("JSONDecodeError"))
          case Some(j) => Ok((c2, j))
  }

  /** The outer loop from record list `logs` on, `acc` holding the records already produced. */
  function RetimeRecords(codec: Codec, lib: DateLib, origin: int, cancel: Cancel, c: Clock,
                         logs: seq<Json>, acc: seq<Json>): (r: Result<(Clock, seq<Json>), Failure>)
    ensures r.Err? ==> r.error != BadOption
    ensures r.Ok? ==> acc <= r.value.1 && |r.value.1| <= |acc| + |logs|
    ensures cancel == NoCancel ==> r != Err(DualFormat)
    ensures r.Ok? && cancel == NoCancel ==> |r.value.1| == |acc| + |logs|
    decreases |logs|
  {
    if logs == [] then Ok((c, acc))
    else if Fires(cancel, c.polls) then Ok((c.(polls := c.polls + 1), acc))
    else
      match RetimeRecord(codec, lib, origin, cancel, c.(polls := c.polls + 1), logs[0])
      case Err(f) => Err(f)
      case Ok((c', j)) => RetimeRecords(codec, lib, origin, cancel, c', logs[1..], acc + [j])
  }

  /** The origin a time option names: the current time for `now`, else a stamp, else an error. */
  function Origin(lib: DateLib, option: string, now: int): (r: Result<int, Failure>)
    requires InRange(now)
    ensures r.Ok? && Python(lib) ==> InRange(r.value)
    ensures r == Err(BadOption) <==> option != "now" && !MatchStart(option)
  {
    if option == "now" then Ok(now)
    else if MatchStart(option) then
      match lib.strptime(option)
      case None => Err(Crash("ValueError: time data does not match format"))
      case Some(t) =>
        assert Python(lib) ==> lib.strptime(option) == StrpTime(option);
        Ok(t)
    else Err(BadOption)
  }

  /**
   * `update_timestamps(logs, option)`, `now` standing for the current time.
   * Without cancellation the dual-format exit never fires: it can only follow
   * an early break of the match loop, and the match iterator is spent by the
   * time it is counted.
   */
  function UpdateTimestamps(codec: Codec, lib: DateLib, logs: seq<Json>, option: string, now: int, cancel: Cancel)
    : (r: Result<seq<Json>, Failure>)
    requires InRange(now)
    ensures option == "no_update" ==> r == Ok(logs)
    ensures r == Err(BadOption) <==> option != "no_update" && option != "now" && !MatchStart(option)
    ensures cancel == NoCancel ==> r != Err(DualFormat)
    ensures r.Ok? ==> |r.value| <= |logs|
    ensures r.Ok? && cancel == NoCancel ==> |r.value| == |logs|
  {
    if option == "no_update" then Ok(logs)
    else
      match Origin(lib, option, now)
      case Err(f) => Err(f)
      case Ok(origin) =>
        match RetimeRecords(codec, lib, origin, cancel, Start, logs, [])
        case Err(f) => Err(f)
        case Ok((_, out)) => Ok(out)
  }

  // ---------------------------------------------------------------- the loops

  /**
   * The outer loop of `update_timestamps` once the origin is known: for
   * every record, poll the Event, then re-time the record.
   */
  method RetimeLoop(codec: Codec, lib: DateLib, origin: int, cancel: Cancel, logs: seq<Json>)
    returns (r: Result<(Clock, seq<Json>), Failure>)
    ensures r == RetimeRecords(codec, lib, origin, cancel, Start, logs, [])
  {
    var c := Start;
    var acc: seq<Json> := [];
    var k := 0;
    while k < |logs|
      invariant k <= |logs|
      invariant RetimeRecords(codec, lib, origin, cancel, c, logs[k..], acc) == RetimeRecords(codec, lib, origin, cancel, Start, logs, [])
      decreases |logs| - k
    {
      assert logs[k..][0] == logs[k] && logs[k..][1..] == logs[k + 1..];
      if Fires(cancel, c.polls) {
        return Ok((c.(polls := c.polls + 1), acc));
      }
      var one := RetimeOne(codec, lib, origin, cancel, c.(polls := c.polls + 1), logs[k]);
      RetimeRecordsStep(codec, lib, origin, cancel, c, logs[k..], acc, one);
      if one.Err? {
        return Err(one.error);
      }
      c, acc := one.value.0, acc + [one.value.1];
      k := k + 1;
    }
    r := Ok((c, acc));
  }

  /**
   * The body of the outer loop for record i, the Event having been polled:
   * re-time its matches, then its `ts` field, and read the new text back.
   */
  method RetimeOne(codec: Codec, lib: DateLib, origin: int, cancel: Cancel, c0: Clock, i: Json)
    returns (r: Result<(Clock, Json), Failure>)
    ensures r == RetimeRecord(codec, lib, origin, cancel, c0, i)
  {
    var text := codec.dumps(i);
    var m := RetimeMatchesLoop(lib, origin, cancel, c0, text, Matches(text));
    if m.Err? {
      return Err(m.error);
    }
    var (c, t, left) := m.value;
    var epoch := EpochStep(codec, lib, origin, c, i, t);
    if epoch.Err? {
      return Err(epoch.error);
    }
    var (c2, t2, tsIn) := epoch.value;
    if left > 0 && tsIn {
      return Err(DualFormat);
    }
    var back := codec.loads(t2);
    if back.None? {
      return Err(Crash("JSONDecodeError"));
    }
    r := Ok((c2, back.value));
  }

  /** The inner loop over the matches ms of a record's text, the Event being polled before each match. */
  method RetimeMatchesLoop(lib: DateLib, origin: int, cancel: Cancel, c0: Clock, text: string, ms: seq<string>)
    returns (r: Result<(Clock, string, nat), Failure>)
    requires forall k :: 0 <= k < |ms| ==> MatchText(ms[k])
    ensures r == RetimeMatches(lib, origin, cancel, c0, text, ms)
  {
    var c := c0;
    var t := text;
    var j := 0;
    while j < |ms|
      invariant j <= |ms|
      invariant RetimeMatches(lib, origin, cancel, c, t, ms[j..]) == RetimeMatches(lib, origin, cancel, c0, text, ms)
      decreases |ms| - j
    {
      assert ms[j..][0] == ms[j] && ms[j..][1..] == ms[j + 1..];
      if Fires(cancel, c.polls) {
        return Ok((c.(polls := c.polls + 1), t, |ms| - j - 1));
      }
      var step := MatchStep(lib, origin, c.(polls := c.polls + 1), t, ms[j]);
      if step.Err? {
        return Err(step.error);
      }
      RetimeMatchesStep(lib, origin, cancel, c, t, ms[j..], step.value.0, step.value.1);
      c, t := step.value.0, step.value.1;
      j := j + 1;
    }
    r := Ok((c, t, 0));
  }

  // ---------------------------------------------------------------- the anchor

  /**
   * The first timestamp in scan order, whether a pattern match or a `ts`
   * field, lands exactly on the origin, and every later one keeps its
   * distance from the first.
   */
  lemma AnchorLandsOnOrigin(codec: Codec, lib: DateLib, origin: int, cancel: Cancel, logs: seq<Json>)
    requires RetimeRecords(codec, lib, origin, cancel, Start, logs, []).Ok?
    ensures var c := RetimeRecords(codec, lib, origin, cancel, Start, logs, []).value.0;
      && (c.trace != [] ==> c.trace[0].1 == origin)
      && forall k :: 0 <= k < |c.trace| ==> c.trace[k].1 - c.trace[0].1 == c.trace[k].0 - c.trace[0].0
  {
    RetimeRecordsAnchored(codec, lib, origin, cancel, Start, logs, []);
  }

  /** Shifting one instant keeps the clock anchored, ... */
  lemma AdvanceAnchored(origin: int, c: Clock, cur: int)
    requires Anchored(origin, c) && Advance(origin, c, cur).Ok?
    ensures Anchored(origin, Advance(origin, c, cur).value.0)
  {
    var (c', t) := Advance(origin, c, cur).value;
    assert c'.anchor.Some? && c'.trace == c.trace + [(cur, t)];
    forall k | 0 <= k < |c'.trace|
      ensures c'.trace[k].1 == origin + (c'.trace[k].0 - c'.anchor.value)
    {
      if k < |c.trace| {
        assert c'.trace[k] == c.trace[k];
      }
    }
  }

  /** ... one match ... */
  lemma MatchStepAnchored(lib: DateLib, origin: int, c: Clock, text: string, m: string)
    requires MatchText(m) && Anchored(origin, c) && MatchStep(lib, origin, c, text, m).Ok?
    ensures Anchored(origin, MatchStep(lib, origin, c, text, m).value.0)
  {
    AdvanceAnchored(origin, c, lib.strptime(m).value);
  }

  /** ... all the matches of a record ... */
  lemma {:induction false} RetimeMatchesAnchored(lib: DateLib, origin: int, cancel: Cancel, c: Clock, text: string, ms: seq<string>)
    requires forall k :: 0 <= k < |ms| ==> MatchText(ms[k])
    requires Anchored(origin, c) && RetimeMatches(lib, origin, cancel, c, text, ms).Ok?
    ensures Anchored(origin, RetimeMatches(lib, origin, cancel, c, text, ms).value.0)
    decreases |ms|
  {
    if ms != [] && !Fires(cancel, c.polls) {
      var c1 := c.(polls := c.polls + 1);
      MatchStepAnchored(lib, origin, c1, text, ms[0]);
      var (c', text') := MatchStep(lib, origin, c1, text, ms[0]).value;
      RetimeMatchesAnchored(lib, origin, cancel, c', text', ms[1..]);
    }
  }

  /** ... the `ts` field ... */
  lemma EpochStepAnchored(codec: Codec, lib: DateLib, origin: int, c: Clock, i: Json, text: string)
    requires Anchored(origin, c) && EpochStep(codec, lib, origin, c, i, text).Ok?
    ensures Anchored(origin, EpochStep(codec, lib, origin, c, i, text).value.0)
  {
    if Member(i, "ts") == Ok(true) && Index(i, "ts").value.Float? {
      AdvanceAnchored(origin, c, lib.fromTimestamp(Index(i, "ts").value.x).value);
    }
  }

  /** ... one record ... */
  lemma RetimeRecordAnchored(codec: Codec, lib: DateLib, origin: int, cancel: Cancel, c: Clock, i: Json)
    requires Anchored(origin, c) && RetimeRecord(codec, lib, origin, cancel, c, i).Ok?
    ensures Anchored(origin, RetimeRecord(codec, lib, origin, cancel, c, i).value.0)
  {
    var text := codec.dumps(i);
    RetimeMatchesAnchored(lib, origin, cancel, c, text, Matches(text));
    var (c1, text1, _) := RetimeMatches(lib, origin, cancel, c, text, Matches(text)).value;
    EpochStepAnchored(codec, lib, origin, c1, i, text1);
  }

  /** ... and every record from the current one on. */
  lemma {:induction false} RetimeRecordsAnchored(codec: Codec, lib: DateLib, origin: int, cancel: Cancel, c: Clock,
                                                 logs: seq<Json>, acc: seq<Json>)
    requires Anchored(origin, c) && RetimeRecords(codec, lib, origin, cancel, c, logs, acc).Ok?
    ensures Anchored(origin, RetimeRecords(codec, lib, origin, cancel, c, logs, acc).value.0)
    decreases |logs|
  {
    if logs != [] && !Fires(cancel, c.polls) {
      var c1 := c.(polls := c.polls + 1);
      var one := RetimeRecord(codec, lib, origin, cancel, c1, logs[0]);
      RetimeRecordsStep(codec, lib, origin, cancel, c, logs, acc, one);
      RetimeRecordAnchored(codec, lib, origin, cancel, c1, logs[0]);
      RetimeRecordsAnchored(codec, lib, origin, cancel, one.value.0, logs[1..], acc + [one.value.1]);
    }
  }


  // ---------------------------------------------------------------- records without timestamps

  /** A record with no stamp in its text and no `ts` key. */
  predicate Plain(codec: Codec, i: Json)
  {
    Matches(codec.dumps(i)) == [] && Member(i, "ts") == Ok(false)
  }

  /** When `loads` reads back what `dumps` writes, records without timestamps come out unchanged. */
  lemma {:induction false} PlainRecordsUnchanged(codec: Codec, lib: DateLib, origin: int, cancel: Cancel, c: Clock,
                                                 logs: seq<Json>, acc: seq<Json>)
    requires RoundTrips(codec)
    requires forall k :: 0 <= k < |logs| ==> Plain(codec, logs[k])
    ensures RetimeRecords(codec, lib, origin, cancel, c, logs, acc).Ok?
    ensures var out := RetimeRecords(codec, lib, origin, cancel, c, logs, acc).value.1;
      exists n :: 0 <= n <= |logs| && out == acc + logs[..n] && (cancel == NoCancel ==> n == |logs|)
    decreases |logs|
  {
    if logs == [] {
      assert acc + logs[..0] == acc;
    } else if Fires(cancel, c.polls) {
      assert acc + logs[..0] == acc;
    } else {
      var c1 := c.(polls := c.polls + 1);
      assert Plain(codec, logs[0]);
      PlainRecordUnchanged(codec, lib, origin, cancel, c1, logs[0]);
      var one := RetimeRecord(codec, lib, origin, cancel, c1, logs[0]);
      var (c', j) := one.value;
      assert one == Ok((c', j));
      var rest := logs[1..];
      forall k | 0 <= k < |rest|
        ensures Plain(codec, rest[k])
      {
        assert rest[k] == logs[k + 1];
      }
      PlainRecordsUnchanged(codec, lib, origin, cancel, c', rest, acc + [j]);
      var r := RetimeRecords(codec, lib, origin, cancel, c', rest, acc + [j]);
      assert RetimeRecords(codec, lib, origin, cancel, c, logs, acc) == r;
      var out := r.value.1;
      var n :| 0 <= n <= |rest| && out == acc + [j] + rest[..n] && (cancel == NoCancel ==> n == |rest|);
      ConsPrefix(acc, logs, n, out);
      assert 0 <= n + 1 <= |logs| && out == acc + logs[..n + 1];
    }
  }

  /** The head of a sequence followed by a prefix of its tail is a prefix of the sequence. */
  lemma ConsPrefix<T>(acc: seq<T>, s: seq<T>, n: nat, out: seq<T>)
    requires n < |s| && out == acc + [s[0]] + s[1..][..n]
    ensures out == acc + s[..n + 1]
  {
    assert s[..n + 1] == [s[0]] + s[1..][..n];
  }

  /** A record without timestamps passes through `RetimeRecord` unchanged. */
  lemma PlainRecordUnchanged(codec: Codec, lib: DateLib, origin: int, cancel: Cancel, c: Clock, i: Json)
    requires RoundTrips(codec) && Plain(codec, i)
    ensures RetimeRecord(codec, lib, origin, cancel, c, i).Ok?
    ensures RetimeRecord(codec, lib, origin, cancel, c, i).value.1 == i
  {
    assert codec.loads(codec.dumps(i)) == Some(i);
  }

  /** One pass of the inner loop: a match that does not stop the loop hands on its clock and text. */
  lemma RetimeMatchesStep(lib: DateLib, origin: int, cancel: Cancel, c: Clock, text: string, ms: seq<string>,
                          c': Clock, text': string)
    requires ms != [] && !Fires(cancel, c.polls) && forall k :: 0 <= k < |ms| ==> MatchText(ms[k])
    requires MatchStep(lib, origin, c.(polls := c.polls + 1), text, ms[0]) == Ok((c', text'))
    ensures RetimeMatches(lib, origin, cancel, c, text, ms) == RetimeMatches(lib, origin, cancel, c', text', ms[1..])
  {
  }

  /** One record re-timed: the outer loop goes on from the next, or stops with its failure. */
  lemma RetimeRecordsStep(codec: Codec, lib: DateLib, origin: int, cancel: Cancel, c: Clock, logs: seq<Json>, acc: seq<Json>,
                          one: Result<(Clock, Json), Failure>)
    requires logs != [] && !Fires(cancel, c.polls)
    requires RetimeRecord(codec, lib, origin, cancel, c.(polls := c.polls + 1), logs[0]) == one
    ensures one.Err? ==> RetimeRecords(codec, lib, origin, cancel, c, logs, acc) == Err(one.error)
    ensures one.Ok? ==>
      RetimeRecords(codec, lib, origin, cancel, c, logs, acc)
        == RetimeRecords(codec, lib, origin, cancel, one.value.0, logs[1..], acc + [one.value.1])
  {
    var r := RetimeRecords(codec, lib, origin, cancel, c, logs, acc);
    match one
    case Err(f) =>
      assert r == Err(f);
    case Ok((c', j)) =>
      assert r == RetimeRecords(codec, lib, origin, cancel, c', logs[1..], acc + [j]);
  }

  /** With Python's `datetime`, a stamp written for instant t reads back as t cut to the millisecond. */
  lemma WrittenStampReadsBack(lib: DateLib, t: int)
    requires Python(lib) && InRange(t)
    ensures lib.strptime(Chop(lib.strftime(t))) == Some(t - t % 1000)
  {
    ChopIsFormatStamp(lib, t);
    ParseFormat(t);
  }
}
