/**
 * `trickle_logs`, as both log controllers write it: the records are sorted
 * by their `@timestamp` string (Python's sort is stable), and then sent one
 * by one, each after a wait equal to its distance from the latest instant
 * seen so far. The engine polls its Event before each record and reports a
 * bad reply without stopping; the standalone tool sleeps, and a negative
 * wait or a bad reply ends it with an exception.
 */
module Trickle {
  import opened Wrappers
  import opened Text
  import opened JsonValues
  import opened Calendar
  import opened LogReplay

  // ---------------------------------------------------------------- the sort

  /** The sort key `x["@timestamp"]`, where the record is a dict holding a string there. */
  function StampOf(j: Json): Option<string>
  {
    if j.Obj? then
      match Lookup(j.fields, "@timestamp")
      case Some(Str(s)) => Some(s)
      case _ => None
    else None
  }

  predicate Stamped(logs: seq<Json>)
  {
    forall k :: 0 <= k < |logs| ==> StampOf(logs[k]).Some?
  }

  function Key(j: Json): string
    requires StampOf(j).Some?
  {
    StampOf(j).value
  }

  // ---------------------------------------------------------------- how the sort fails

  const MissingStamp := "KeyError: '@timestamp'"
  const NotSubscriptable := "TypeError: indices must be integers"
  const UnorderedStamps := "TypeError: '<' not supported between the stamps"
  const NotAString := "TypeError: strptime() argument 1 must be str"

  /** The key `x["@timestamp"]` can be computed for this record. */
  predicate HasKey(j: Json)
  {
    j.Obj? && Lookup(j.fields, "@timestamp").Some?
  }

  /** What the key raises on a record where it cannot be computed. */
  function KeyErrorOf(j: Json): string
  {
    if j.Obj? then MissingStamp else NotSubscriptable
  }

  /**
   * The exception of the key function, if any. Python computes the key of
   * every record, in list order, before it compares any two, so the first
   * record without a key decides.
   */
  function KeyFault(logs: seq<Json>): (r: Option<string>)
    ensures r.None? <==> forall k :: 0 <= k < |logs| ==> HasKey(logs[k])
  {
    if logs == [] then None
    else if !HasKey(logs[0]) then Some(KeyErrorOf(logs[0]))
    else KeyFault(logs[1..])
  }

  /** The failing key is that of the first record without one. */
  lemma {:induction false} KeyFaultFirst(logs: seq<Json>)
    ensures KeyFault(logs).Some? ==>
      exists k :: 0 <= k < |logs| && !HasKey(logs[k]) && (forall i :: 0 <= i < k ==> HasKey(logs[i]))
                  && KeyFault(logs) == Some(KeyErrorOf(logs[k]))
  {
    if logs != [] && HasKey(logs[0]) {
      KeyFaultFirst(logs[1..]);
      if KeyFault(logs).Some? {
        var k :| 0 <= k < |logs[1..]| && !HasKey(logs[1..][k]) && (forall i :: 0 <= i < k ==> HasKey(logs[1..][i]))
                 && KeyFault(logs[1..]) == Some(KeyErrorOf(logs[1..][k]));
        assert forall i :: 0 <= i < k + 1 ==> HasKey(logs[i]) by {
          forall i | 0 <= i < k + 1
            ensures HasKey(logs[i])
          {
            if i > 0 {
              assert logs[i] == logs[1..][i - 1];
            }
          }
        }
        assert !HasKey(logs[k + 1]) && KeyFault(logs) == Some(KeyErrorOf(logs[k + 1]));
      }
    }
  }

  /** A stamp Python orders against other numbers: a bool, an int or a float. */
  predicate NumericStamp(j: Json)
  {
    j.Obj? &&
    match Lookup(j.fields, "@timestamp")
    case Some(Bool(_)) => true
    case Some(Int(_)) => true
    case Some(Float(_)) => true
    case _ => false
  }

  /**
   * How `logs.sort(key=lambda x: x["@timestamp"])` fails, if it does: the
   * key's exception first; otherwise, with two or more records, a
   * comparison raises `TypeError` unless the stamps are all strings or all
   * numbers (a sort has to compare some string with some non-string when
   * both occur, and `None` or a dict is never ordered).
   */
  function SortFault(logs: seq<Json>): (r: Option<string>)
    ensures Stamped(logs) ==> r.None?
  {
    match KeyFault(logs)
    case Some(e) => Some(e)
    case None =>
      if |logs| <= 1 || Stamped(logs) || (forall k :: 0 <= k < |logs| ==> NumericStamp(logs[k])) then None
      else Some(UnorderedStamps)
  }

  /**
   * With every key computable, the sort fails exactly on two or more
   * records whose stamps are neither all strings nor all numbers.
   */
  lemma SortFaultIff(logs: seq<Json>)
    requires KeyFault(logs).None?
    ensures SortFault(logs).Some? <==>
      |logs| >= 2 && (exists k :: 0 <= k < |logs| && StampOf(logs[k]).None?)
                  && (exists k :: 0 <= k < |logs| && !NumericStamp(logs[k]))
    ensures SortFault(logs).Some? ==> SortFault(logs) == Some(UnorderedStamps)
  {
  }

  predicate SortedByStamp(logs: seq<Json>)
    requires Stamped(logs)
  {
    forall i, j :: 0 <= i < j < |logs| ==> LexLe(Key(logs[i]), Key(logs[j]))
  }

  /** The records of `logs` whose key is `key`, in their order. */
  function WithKey(logs: seq<Json>, key: string): (r: seq<Json>)
    requires Stamped(logs)
  {
    if logs == [] then []
    else if Key(logs[0]) == key then [logs[0]] + WithKey(logs[1..], key)
    else WithKey(logs[1..], key)
  }

  /** Insert j into s before the first record whose key is not below j's. */
  function Insert(j: Json, s: seq<Json>): (r: seq<Json>)
    requires StampOf(j).Some? && Stamped(s)
    ensures Stamped(r)
    ensures |r| == |s| + 1
    ensures multiset(r) == multiset(s) + multiset{j}
    decreases |s|
  {
    if s == [] || LexLe(Key(j), Key(s[0])) then [j] + s
    else
      assert s == [s[0]] + s[1..];
      [s[0]] + Insert(j, s[1..])
  }

  /** `logs.sort(key=lambda x: x["@timestamp"])` on records that all have a string stamp. */
  function SortByStamp(logs: seq<Json>): (r: seq<Json>)
    requires Stamped(logs)
    ensures Stamped(r) && |r| == |logs|
    ensures multiset(r) == multiset(logs)
  {
    if logs == [] then []
    else
      assert logs == [logs[0]] + logs[1..];
      Insert(logs[0], SortByStamp(logs[1..]))
  }

  /** A lower bound of j and of every key of s bounds every key after the insertion. */
  lemma {:induction false} InsertLowerBound(b: string, j: Json, s: seq<Json>)
    requires StampOf(j).Some? && Stamped(s)
    requires LexLe(b, Key(j)) && forall k :: 0 <= k < |s| ==> LexLe(b, Key(s[k]))
    ensures forall k :: 0 <= k < |s| + 1 ==> LexLe(b, Key(Insert(j, s)[k]))
    decreases |s|
  {
    if s != [] && !LexLe(Key(j), Key(s[0])) {
      var t := Insert(j, s[1..]);
      InsertLowerBound(b, j, s[1..]);
      assert Insert(j, s) == [s[0]] + t;
      forall k | 0 < k < |s| + 1
        ensures LexLe(b, Key(Insert(j, s)[k]))
      {
        assert Insert(j, s)[k] == t[k - 1];
      }
    }
  }

  lemma {:induction false} InsertSorted(j: Json, s: seq<Json>)
    requires StampOf(j).Some? && Stamped(s) && SortedByStamp(s)
    ensures SortedByStamp(Insert(j, s))
    decreases |s|
  {
    var r := Insert(j, s);
    if s == [] {
    } else if LexLe(Key(j), Key(s[0])) {
      InsertFrontSorted(j, s);
    } else {
      LexLeTotal(Key(j), Key(s[0]));
      var rest := s[1..];
      InsertSorted(j, rest);
      InsertLowerBound(Key(s[0]), j, rest);
      var t := Insert(j, rest);
      ConsSorted(s[0], t);
      assert r == [s[0]] + t;
    }
  }

  /** A record whose key bounds every key of a sorted t stays sorted in front of it. */
  lemma ConsSorted(x: Json, t: seq<Json>)
    requires StampOf(x).Some? && Stamped(t) && SortedByStamp(t)
    requires forall k :: 0 <= k < |t| ==> LexLe(Key(x), Key(t[k]))
    ensures Stamped([x] + t) && SortedByStamp([x] + t)
  {
    var r := [x] + t;
    forall m | 0 < m < |r|
      ensures LexLe(Key(r[0]), Key(r[m]))
    {
      assert r[m] == t[m - 1];
    }
  }

  /** A record whose key is not above the first key of a sorted s goes in front and keeps the order. */
  lemma InsertFrontSorted(j: Json, s: seq<Json>)
    requires StampOf(j).Some? && Stamped(s) && SortedByStamp(s)
    requires s != [] && LexLe(Key(j), Key(s[0]))
    ensures SortedByStamp(Insert(j, s))
  {
    var r := Insert(j, s);
    assert r == [j] + s;
    forall m | 0 < m < |r|
      ensures LexLe(Key(r[0]), Key(r[m]))
    {
      if m > 1 {
        LexLeTransitive(Key(j), Key(s[0]), Key(s[m - 1]));
      }
    }
  }

  /** The sort orders the records by stamp. */
  lemma {:induction false} SortSorted(logs: seq<Json>)
    requires Stamped(logs)
    ensures SortedByStamp(SortByStamp(logs))
  {
    if logs != [] {
      SortSorted(logs[1..]);
      InsertSorted(logs[0], SortByStamp(logs[1..]));
    }
  }

  lemma {:induction false} InsertWithKey(j: Json, s: seq<Json>, key: string)
    requires StampOf(j).Some? && Stamped(s) && SortedByStamp(s)
    ensures WithKey(Insert(j, s), key) == (if Key(j) == key then [j] else []) + WithKey(s, key)
    decreases |s|
  {
    if s != [] && !LexLe(Key(j), Key(s[0])) {
      LexLessIrreflexive(Key(j));
      assert Key(s[0]) != Key(j);
      InsertWithKey(j, s[1..], key);
      var r := Insert(j, s);
      assert r[1..] == Insert(j, s[1..]);
    }
  }

  /** The sort is stable: records with the same stamp keep their relative order. */
  lemma {:induction false} SortStable(logs: seq<Json>, key: string)
    requires Stamped(logs)
    ensures WithKey(SortByStamp(logs), key) == WithKey(logs, key)
  {
    if logs != [] {
      SortStable(logs[1..], key);
      SortSorted(logs[1..]);
      InsertWithKey(logs[0], SortByStamp(logs[1..]), key);
    }
  }

  // ---------------------------------------------------------------- the waits

  /** The instant `latest_datetime` holds after instant `cur`: the larger, or `cur` at the start. */
  function Latest(latest: Option<int>, cur: int): int
  {
    if latest.Some? && latest.value >= cur then latest.value else cur
  }

  /** The wait before each instant of ts: its distance from `latest_datetime`. */
  function Waits(latest: Option<int>, ts: seq<int>): (r: seq<int>)
    ensures |r| == |ts|
    decreases |ts|
  {
    if ts == [] then []
    else
      var l := if latest.Some? then latest.value else ts[0];
      [ts[0] - l] + Waits(Some(Latest(latest, ts[0])), ts[1..])
  }

  /** The latest of the instants. */
  function Max(ts: seq<int>): int
    requires ts != []
  {
    if |ts| == 1 then ts[0]
    else
      var m := Max(ts[1..]);
      if ts[0] >= m then ts[0] else m
  }

  /** The latest instant is one of them, and no instant is later. */
  lemma {:induction false} MaxIsPeak(ts: seq<int>)
    requires ts != []
    ensures Max(ts) in ts && forall k :: 0 <= k < |ts| ==> ts[k] <= Max(ts)
  {
    if |ts| > 1 {
      MaxIsPeak(ts[1..]);
      forall k | 0 < k < |ts|
        ensures ts[k] <= Max(ts)
      {
        assert ts[k] == ts[1..][k - 1];
      }
    }
  }

  function Sum(ts: seq<int>): int
  {
    if ts == [] then 0 else ts[0] + Sum(ts[1..])
  }

  predicate Ascending(ts: seq<int>)
  {
    forall i, j :: 0 <= i < j < |ts| ==> ts[i] <= ts[j]
  }

  lemma MaxOfPrefix(ts: seq<int>, k: nat)
    requires 1 < k <= |ts|
    ensures Max(ts[..k]) == if ts[0] >= Max(ts[1..k]) then ts[0] else Max(ts[1..k])
  {
    assert ts[..k][1..] == ts[1..k];
  }

  lemma {:induction false} WaitsFromPeak(l: int, ts: seq<int>, k: nat)
    requires k < |ts|
    ensures Waits(Some(l), ts)[k] == ts[k] - (if k == 0 then l else Latest(Some(l), Max(ts[..k])))
    decreases k
  {
    if k > 0 {
      var l' := Latest(Some(l), ts[0]);
      WaitsFromPeak(l', ts[1..], k - 1);
      if k > 1 {
        assert ts[1..][..k - 1] == ts[1..k];
        MaxOfPrefix(ts, k);
      } else {
        assert ts[..1] == [ts[0]];
      }
    }
  }

  /**
   * The wait before the first record is 0, and before every later one it is
   * its instant minus the latest instant among the records before it.
   */
  lemma WaitsAreGapsToPeak(ts: seq<int>, k: nat)
    requires k < |ts|
    ensures Waits(None, ts)[k] == if k == 0 then 0 else ts[k] - Max(ts[..k])
  {
    if k > 0 {
      var tail, j := ts[1..], k - 1;
      WaitsAfterFirst(ts, k);
      WaitsFromPeak(ts[0], tail, j);
      PeakAfterFirst(ts, k);
      var w := Waits(Some(ts[0]), tail)[j];
      assert Waits(None, ts)[k] == w;
      if j == 0 {
        assert w == ts[k] - ts[0];
      } else {
        var p := Max(tail[..j]);
        assert w == ts[k] - Latest(Some(ts[0]), p);
        assert Max(ts[..k]) == Latest(Some(ts[0]), p);
      }
    } else {
      assert Waits(None, ts) == [0] + Waits(Some(ts[0]), ts[1..]);
    }
  }

  lemma PeakAfterFirst(ts: seq<int>, k: nat)
    requires 0 < k <= |ts|
    ensures Max(ts[..k]) == if k == 1 then ts[0] else Latest(Some(ts[0]), Max(ts[1..][..k - 1]))
  {
    if k > 1 {
      assert ts[1..][..k - 1] == ts[1..k];
      MaxOfPrefix(ts, k);
    } else {
      assert ts[..1] == [ts[0]];
    }
  }


  lemma WaitsAfterFirst(ts: seq<int>, k: nat)
    requires 0 < k < |ts|
    ensures Waits(None, ts)[k] == Waits(Some(ts[0]), ts[1..])[k - 1]
    ensures ts[1..][k - 1] == ts[k]
  {
    assert Waits(None, ts) == [0] + Waits(Some(ts[0]), ts[1..]);
  }



  lemma {:induction false} AscendingWaitsFrom(l: int, ts: seq<int>)
    requires Ascending(ts) && (ts != [] ==> l <= ts[0])
    ensures forall k :: 0 <= k < |ts| ==> Waits(Some(l), ts)[k] >= 0
    ensures Sum(Waits(Some(l), ts)) == if ts == [] then 0 else ts[|ts| - 1] - l
    decreases |ts|
  {
    if ts != [] {
      AscendingWaitsFrom(ts[0], ts[1..]);
      var w := Waits(Some(l), ts);
      assert w == [ts[0] - l] + Waits(Some(ts[0]), ts[1..]);
      forall k | 0 < k < |ts|
        ensures w[k] >= 0
      {
        assert w[k] == Waits(Some(ts[0]), ts[1..])[k - 1];
      }
    }
  }

  /** On ascending instants every wait is non-negative, and the waits add up to last minus first. */
  lemma {:induction false} AscendingWaits(ts: seq<int>)
    requires Ascending(ts)
    ensures forall k :: 0 <= k < |ts| ==> Waits(None, ts)[k] >= 0
    ensures ts != [] ==> Waits(None, ts)[0] == 0 && Sum(Waits(None, ts)) == ts[|ts| - 1] - ts[0]
  {
    if ts != [] {
      assert Ascending(ts[1..]);
      AscendingWaitsFrom(ts[0], ts[1..]);
      var w := Waits(None, ts);
      assert w == [0] + Waits(Some(ts[0]), ts[1..]);
      forall k | 0 < k < |ts|
        ensures w[k] >= 0
      {
        assert w[k] == Waits(Some(ts[0]), ts[1..])[k - 1];
      }
    }
  }

  // ---------------------------------------------------------------- stamps to instants

  /** How a record's stamp is read as an instant; `None` where Python raises. */
  type Reader = Json -> Option<int>

  /** `datetime.strptime(x["@timestamp"], "%Y-%m-%dT%H:%M:%S.%fZ")`. */
  function ReadStamp(j: Json): Option<int>
  {
    match StampOf(j)
    case None => None
    case Some(s) => StrpTime(s)
  }

  /** Every record's stamp reads as an instant. */
  predicate Readable(read: Reader, logs: seq<Json>)
  {
    forall k :: 0 <= k < |logs| ==> read(logs[k]).Some?
  }

  function InstantsOf(read: Reader, logs: seq<Json>): (ts: seq<int>)
    requires Readable(read, logs)
    ensures |ts| == |logs| && forall k :: 0 <= k < |logs| ==> ts[k] == read(logs[k]).value
  {
    seq(|logs|, k requires 0 <= k < |logs| => read(logs[k]).value)
  }

  /** Every stamp has the 24-character shape the tools write, and reads as an instant. */
  predicate CanonicalStamps(logs: seq<Json>)
  {
    Stamped(logs) && forall k :: 0 <= k < |logs| ==> Canonical(Key(logs[k])) && StrpTime(Key(logs[k])).Some?
  }

  /** For stamps of the fixed shape, string order is time order. */
  lemma SortedInstants(logs: seq<Json>)
    requires CanonicalStamps(logs) && SortedByStamp(logs)
    ensures Readable(ReadStamp, logs) && Ascending(InstantsOf(ReadStamp, logs))
  {
    assert Readable(ReadStamp, logs) by {
      forall k | 0 <= k < |logs|
        ensures ReadStamp(logs[k]) == StrpTime(Key(logs[k]))
      {
      }
    }
    var ts := InstantsOf(ReadStamp, logs);
    forall i, j | 0 <= i < j < |ts|
      ensures ts[i] <= ts[j]
    {
      assert ReadStamp(logs[i]) == StrpTime(Key(logs[i]));
      assert ReadStamp(logs[j]) == StrpTime(Key(logs[j]));
      CanonicalOrder(Key(logs[j]), Key(logs[i]));
    }
  }

  lemma SortKeepsCanonical(logs: seq<Json>)
    requires CanonicalStamps(logs)
    ensures CanonicalStamps(SortByStamp(logs))
  {
    var s := SortByStamp(logs);
    forall k | 0 <= k < |s|
      ensures Canonical(Key(s[k])) && StrpTime(Key(s[k])).Some?
    {
      assert s[k] in multiset(s);
      var i :| 0 <= i < |logs| && logs[i] == s[k];
    }
  }

  /**
   * Sorting records with stamps of the fixed shape puts their instants in
   * ascending order, so by AscendingWaits the waits are never negative, the
   * first is 0 and together they span the first instant to the last.
   */
  lemma SortedWaits(logs: seq<Json>)
    requires CanonicalStamps(logs)
    ensures Readable(ReadStamp, SortByStamp(logs))
    ensures Ascending(InstantsOf(ReadStamp, SortByStamp(logs)))
  {
    SortKeepsCanonical(logs);
    SortSorted(logs);
    SortedInstants(SortByStamp(logs));
  }



  // ---------------------------------------------------------------- the send loops

  /** How a trickle run ends: all sent, stopped by the Event, or an exception. */
  datatype Ending = Done | Killed | Crashed(reason: string)

  /** What a trickle run did: the wait before each send, the records sent, and how it ended. */
  datatype Run = Run(waits: seq<int>, sent: seq<Json>, ending: Ending)

  const Fresh := Run([], [], Done)

  const ParseError := "ValueError: time data does not match format"

  /** The `num` printed in the bad-response error. */
  function BadResponse(num: nat): string
  {
    "Bad response log #: " + NatToString(num)
  }

  /**
   * The errors the engine reports for the reply to send number `num`:
   * `send_logs` reports a raised exception and answers `failed.`, and any
   * answer but `<Response [200]>` (status 200, by the contract of `ResponseText`) is
   * reported as a bad response.
   */
  function ReplyErrors(reply: Reply, num: nat): (r: seq<string>)
  {
    match reply
    case Raised(m) => [ErrorLine(m), ErrorLine(BadResponse(num))]
    case Response(s) => if s != 200 then [ErrorLine(BadResponse(num))] else []
  }

  /**
   * The engine's loop over the sorted records from record k on: the Event is
   * polled before each record, and the loop goes on after a bad reply (the
   * errors it reports are `ErrorsOf` the sends made).
   */
  function EngineLoop(read: Reader, cancel: Cancel, logs: seq<Json>, k: nat, latest: Option<int>, run: Run): (r: Run)
    requires k <= |logs|
    decreases |logs| - k
  {
    if k == |logs| then run.(ending := Done)
    else if Fires(cancel, k) then run.(ending := Killed)
    else
      match read(logs[k])
      case None => run.(ending := Crashed(ParseError))
      case Some(cur) =>
        var l := if latest.Some? then latest.value else cur;
        var run' := Run(run.waits + [cur - l], run.sent + [logs[k]], Done);
        EngineLoop(read, cancel, logs, k + 1, Some(Latest(latest, cur)), run')
  }

  /**
   * Whatever the stamps and the Event, the engine's run sends at most the
   * remaining records, one wait per send, and ends normally exactly when it
   * sent them all.
   */
  lemma {:induction false} EngineLoopEnds(read: Reader, cancel: Cancel, logs: seq<Json>, k: nat, latest: Option<int>, run: Run)
    requires k <= |logs|
    ensures var r := EngineLoop(read, cancel, logs, k, latest, run);
      && |run.sent| <= |r.sent| <= |run.sent| + |logs| - k
      && |r.waits| - |run.waits| == |r.sent| - |run.sent|
      && (r.ending == Done <==> |r.sent| == |run.sent| + |logs| - k)
    decreases |logs| - k
  {
    if k < |logs| && !Fires(cancel, k) && read(logs[k]).Some? {
      var cur := read(logs[k]).value;
      var l := if latest.Some? then latest.value else cur;
      EngineLoopEnds(read, cancel, logs, k + 1, Some(Latest(latest, cur)), Run(run.waits + [cur - l], run.sent + [logs[k]], Done));
    }
  }

  /** One record read and sent: the engine's loop goes on from the next. */
  lemma EngineLoopStep(read: Reader, cancel: Cancel, logs: seq<Json>, k: nat, latest: Option<int>, run: Run, cur: int)
    requires k < |logs| && !Fires(cancel, k) && read(logs[k]) == Some(cur)
    ensures EngineLoop(read, cancel, logs, k, latest, run)
      == EngineLoop(read, cancel, logs, k + 1, Some(Latest(latest, cur)),
                    Run(run.waits + [cur - (if latest.Some? then latest.value else cur)], run.sent + [logs[k]], Done))
  {
  }

  lemma WaitsCons(latest: Option<int>, ts: seq<int>, k: nat)
    requires k < |ts|
    ensures Waits(latest, ts[k..])
      == [ts[k] - (if latest.Some? then latest.value else ts[k])] + Waits(Some(Latest(latest, ts[k])), ts[k + 1..])
  {
    assert ts[k..][1..] == ts[k + 1..];
  }

  lemma {:induction false} EngineLoopSends(read: Reader, cancel: Cancel, logs: seq<Json>, k: nat,
                                           latest: Option<int>, run: Run)
    requires Readable(read, logs) && k <= Cutoff(cancel, |logs|)
    ensures var n := Cutoff(cancel, |logs|);
      var r := EngineLoop(read, cancel, logs, k, latest, run);
      && r.sent == run.sent + logs[k..n]
      && r.waits == run.waits + Waits(latest, InstantsOf(read, logs)[k..])[..n - k]
      && r.ending == (if n < |logs| then Killed else Done)
    decreases |logs| - k
  {
    var n := Cutoff(cancel, |logs|);
    var ts := InstantsOf(read, logs);
    if k == n {
    } else {
      var cur := ts[k];
      var l := if latest.Some? then latest.value else cur;
      var run' := Run(run.waits + [cur - l], run.sent + [logs[k]], Done);
      assert !Fires(cancel, k);
      assert read(logs[k]) == Some(cur);
      EngineLoopStep(read, cancel, logs, k, latest, run, cur);
      EngineLoopSends(read, cancel, logs, k + 1, Some(Latest(latest, cur)), run');
      var w' := Waits(Some(Latest(latest, cur)), ts[k + 1..]);
      WaitsCons(latest, ts, k);
      ConsTakeAfter(run.waits, cur - l, w', n - k);
      SnocSlice(run.sent, logs, k, n);
    }
  }

  lemma ConsTakeAfter<T>(pre: seq<T>, x: T, w: seq<T>, m: nat)
    requires 1 <= m <= |w| + 1
    ensures (pre + [x]) + w[..m - 1] == pre + ([x] + w)[..m]
  {
    assert ([x] + w)[..m] == [x] + w[..m - 1];
  }

  lemma SnocSlice<T>(pre: seq<T>, s: seq<T>, k: nat, n: nat)
    requires k < n <= |s|
    ensures (pre + [s[k]]) + s[k + 1..n] == pre + s[k..n]
  {
    assert s[k..n] == [s[k]] + s[k + 1..n];
  }

  /** The errors the engine reports for sends number `base` to `base + n - 1`, in order. */
  function ErrorsOf(reply: nat -> Reply, base: nat, n: nat): seq<string>
  {
    if n == 0 then [] else ErrorsOf(reply, base, n - 1) + ReplyErrors(reply(base + n - 1), n)
  }

  lemma ErrorsOfNext(reply: nat -> Reply, base: nat, n: nat)
    ensures ErrorsOf(reply, base, n + 1) == ErrorsOf(reply, base, n) + ReplyErrors(reply(base + n), n + 1)
  {
  }

  /** Nothing is reported exactly when every reply was status 200. */
  lemma {:induction false} NoErrorsIffAllOk(reply: nat -> Reply, base: nat, n: nat)
    ensures ErrorsOf(reply, base, n) == [] <==> forall m :: base <= m < base + n ==> reply(m) == Response(200)
  {
    if n > 0 {
      NoErrorsIffAllOk(reply, base, n - 1);
      if reply(base + n - 1) != Response(200) {
        assert |ReplyErrors(reply(base + n - 1), n)| > 0;
      }
    }
  }

  /** `time.sleep` given a negative length. */
  const SleepError := "ValueError: sleep length must be non-negative"

  /** `"Bad response log #: " + num` with an int `num`. */
  const ConcatError := "TypeError: can only concatenate str (not \"int\") to str"

  /** The standalone loop: `time.sleep` refuses a negative wait, and a bad reply raises. */
  function ToolLoop(read: Reader, reply: nat -> Reply, base: nat, logs: seq<Json>, k: nat, latest: Option<int>, run: Run): (r: Run)
    requires k <= |logs|
    ensures |run.sent| <= |r.sent| <= |run.sent| + |logs| - k
    ensures |r.waits| - |run.waits| == |r.sent| - |run.sent|
    ensures r.ending == Done ==> |r.sent| == |run.sent| + |logs| - k
    ensures r.ending != Killed
    decreases |logs| - k
  {
    if k == |logs| then run.(ending := Done)
    else
      match read(logs[k])
      case None => run.(ending := Crashed(ParseError))
      case Some(cur) =>
        var l := if latest.Some? then latest.value else cur;
        if cur - l < 0 then run.(ending := Crashed(SleepError))
        else
          var run' := Run(run.waits + [cur - l], run.sent + [logs[k]], Done);
          match reply(base + k)
          case Raised(m) => run'.(ending := Crashed(m))
          case Response(s) =>
            if s != 200 then
              run'.(ending := Crashed(ConcatError))
            else ToolLoop(read, reply, base, logs, k + 1, Some(Latest(latest, cur)), run')
  }

  /** One record of the standalone loop that is read, waited for and answered with 200. */
  lemma ToolLoopStep(read: Reader, reply: nat -> Reply, base: nat, logs: seq<Json>, k: nat, latest: Option<int>, run: Run, cur: int)
    requires k < |logs| && read(logs[k]) == Some(cur) && reply(base + k) == Response(200)
    requires latest.Some? ==> latest.value <= cur
    ensures ToolLoop(read, reply, base, logs, k, latest, run)
      == ToolLoop(read, reply, base, logs, k + 1, Some(Latest(latest, cur)),
                  Run(run.waits + [cur - (if latest.Some? then latest.value else cur)], run.sent + [logs[k]], Done))
  {
  }

  lemma {:induction false} ToolLoopSends(read: Reader, reply: nat -> Reply, base: nat, logs: seq<Json>, k: nat, latest: Option<int>, run: Run)
    requires Readable(read, logs) && Ascending(InstantsOf(read, logs)) && k <= |logs|
    requires latest.Some? ==> forall i :: k <= i < |logs| ==> latest.value <= InstantsOf(read, logs)[i]
    requires forall n :: base + k <= n < base + |logs| ==> reply(n) == Response(200)
    ensures ToolLoop(read, reply, base, logs, k, latest, run)
      == Run(run.waits + Waits(latest, InstantsOf(read, logs)[k..]), run.sent + logs[k..], Done)
    decreases |logs| - k
  {
    var ts := InstantsOf(read, logs);
    if k < |logs| {
      var cur := ts[k];
      var l := if latest.Some? then latest.value else cur;
      var run' := Run(run.waits + [cur - l], run.sent + [logs[k]], Done);
      assert Latest(latest, cur) == cur;
      ToolLoopSends(read, reply, base, logs, k + 1, Some(cur), run');
      WaitsCons(latest, ts, k);
      AppendAssoc(run.waits, [cur - l], Waits(Some(cur), ts[k + 1..]));
      SnocSuffix(run.sent, logs, k);
    }
  }

  lemma TakeSnoc<T>(s: seq<T>, k: nat)
    requires k < |s|
    ensures s[..k + 1] == s[..k] + [s[k]]
  {
  }

  lemma AppendAssoc<T>(a: seq<T>, b: seq<T>, c: seq<T>)
    ensures (a + b) + c == a + (b + c)
  {
  }

  lemma SnocSuffix<T>(pre: seq<T>, s: seq<T>, k: nat)
    requires k < |s|
    ensures (pre + [s[k]]) + s[k + 1..] == pre + s[k..]
  {
    assert s[k..] == [s[k]] + s[k + 1..];
  }

  /**
   * Standalone trickle over sorted records whose stamps all have the fixed
   * shape, every reply being 200: every record is sent, after a wait that is
   * never negative, and the run ends normally.
   */
  lemma ToolTrickleSends(reply: nat -> Reply, base: nat, s: seq<Json>)
    requires CanonicalStamps(s) && SortedByStamp(s)
    requires forall n :: base <= n < base + |s| ==> reply(n) == Response(200)
    ensures Readable(ReadStamp, s)
    ensures var read := ReadStamp;
      ToolLoop(read, reply, base, s, 0, None, Fresh) == Run(Waits(None, InstantsOf(read, s)), s, Done)
  {
    SortedInstants(s);
    ToolLoopSends(ReadStamp, reply, base, s, 0, None, Fresh);
    assert s[0..] == s;
  }
}
