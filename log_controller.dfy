/**
 * `Log_Controller`: the engine's worker that replays one log file into
 * Elasticsearch. It reads its settings from the `[ELK]` section of a config
 * file, and its methods parse, re-time, bulk-send or trickle the records,
 * clear indexes, and drain the shared queue of indexes used in the session.
 * Another thread may set its Event at any time: a method that polls the
 * Event sees it set from poll number `setAt` on (or from the start, if it was
 * already set).
 */
module LogControllers {
  import opened Wrappers
  import opened Text
  import opened JsonValues
  import opened StampPattern
  import opened Calendar
  import opened LogReplay
  import opened Retime
  import opened Trickle
  import opened Shared

  // ---------------------------------------------------------------- configuration

  /** The options `setup` requires, in the order it checks them. */
  const Options: seq<string> := ["delay", "ip", "port", "time", "index", "username", "password", "security"]

  /** The first of `Options[k..]` missing from the section. */
  function FirstMissing(sec: Section, k: nat): (r: Option<string>)
    requires k <= |Options|
    ensures r.None? <==> forall i :: k <= i < |Options| ==> Options[i] in sec
    ensures r.Some? ==>
      exists i :: k <= i < |Options| && Options[i] == r.value && r.value !in sec && forall i' :: k <= i' < i ==> Options[i'] in sec
    decreases |Options| - k
  {
    if k == |Options| then None
    else if Options[k] !in sec then Some(Options[k])
    else FirstMissing(sec, k + 1)
  }

  /** The settings a complete `[ELK]` section gives. */
  datatype Elk = Elk(delay: bool, security: bool, ip: string, port: string, time: string,
                     index: string, username: string, password: string)

  /** `delay` and `security` hold only for the exact text `True`. */
  function ElkOf(sec: Section): (e: Elk)
    requires FirstMissing(sec, 0).None?
    ensures e.delay <==> sec["delay"] == "True"
    ensures e.security <==> sec["security"] == "True"
  {
    assert forall i :: 0 <= i < |Options| ==> Options[i] in sec;
    assert Options[0] in sec && Options[1] in sec && Options[2] in sec && Options[3] in sec;
    assert Options[4] in sec && Options[5] in sec && Options[6] in sec && Options[7] in sec;
    Elk(sec["delay"] == "True", sec["security"] == "True", sec["ip"], sec["port"], sec["time"],
        sec["index"], sec["username"], sec["password"])
  }

  /** What `setup(conf_file)` does: configure, report a bad config, or disable the log. */
  datatype Setup = Configured(elk: Elk) | BadConfig(message: string) | Disabled

  function SetupOf(confFile: string, config: Config): (r: Setup)
    ensures r == Disabled <==> confFile == "None"
    ensures r.Configured? <==> confFile != "None" && "ELK" in config && FirstMissing(config["ELK"], 0).None?
    ensures r.BadConfig? && "ELK" !in config ==> r.message == "Bad config provided."
    ensures r.BadConfig? && "ELK" in config ==>
      r.message == "Bad config provided. " + FirstMissing(config["ELK"], 0).value + " not found."
  {
    if confFile == "None" then Disabled
    else if "ELK" !in config then BadConfig("Bad config provided.")
    else
      match FirstMissing(config["ELK"], 0)
      case Some(opt) => BadConfig("Bad config provided. " + opt + " not found.")
      case None => Configured(ElkOf(config["ELK"]))
  }

  /** A message on the message queue (`Log_Controller.notify`). */
  function NoticeLine(message: string): string
  {
    "[+] " + message
  }

  function PyBool(b: bool): string
  {
    if b then "True" else "False"
  }

  /** The notice a new controller queues. */
  function CreatedNotice(e: Elk, time: string, index: string): string
  {
    NoticeLine("Log Controller created with options:\n\tIP: " + e.ip + ":" + e.port + "\n\tSSL: " + PyBool(e.security)
      + "\n\tTimestamps: " + time + "\n\tIndex: " + index + "\n\tAuthentication: " + e.username + ":" + e.password)
  }

  function DisabledMessage(logId: string): string
  {
    "Missing config file for " + logId + ". Log is disabled."
  }

  /** A logs table row: column name to cell list. */
  type LogRow = map<string, seq<string>>

  /** `row[column][0]`, or the exception Python raises. */
  function Cell(row: LogRow, column: string): (r: Result<string, string>)
    ensures r.Ok? <==> column in row && row[column] != []
    ensures r.Ok? ==> r.value == row[column][0]
  {
    if column !in row then Err("KeyError: " + column)
    else if row[column] == [] then Err("IndexError: list index out of range")
    else Ok(row[column][0])
  }

  /** A cell that overrides a setting unless it holds `None`. */
  function Override(cell: string, setting: string): string
  {
    if cell != "None" then cell else setting
  }

  // ---------------------------------------------------------------- requests and messages

  /** The bulk request `send_logs` makes for the records. */
  function BulkPost(e: Elk, index: string, texts: seq<string>): Request
  {
    Post(BulkUrl(e.security, e.ip, e.port), BulkBody(index, texts), e.username, e.password)
  }

  /** The one-record bulk requests of a trickle that sent the records `sent`, in order. */
  function SinglePosts(e: Elk, index: string, codec: Codec, sent: seq<Json>): (r: seq<Request>)
    ensures |r| == |sent|
  {
    seq(|sent|, k requires 0 <= k < |sent| => BulkPost(e, index, [codec.dumps(sent[k])]))
  }

  lemma SinglePostsSnoc(e: Elk, index: string, codec: Codec, s: seq<Json>, k: nat)
    requires k < |s|
    ensures SinglePosts(e, index, codec, s[..k + 1])
      == SinglePosts(e, index, codec, s[..k]) + [BulkPost(e, index, [codec.dumps(s[k])])]
  {
    var a := SinglePosts(e, index, codec, s[..k + 1]);
    var b := SinglePosts(e, index, codec, s[..k]) + [BulkPost(e, index, [codec.dumps(s[k])])];
    forall i | 0 <= i < |a|
      ensures a[i] == b[i]
    {
      if i < k {
        assert s[..k + 1][i] == s[..k][i];
      }
    }
  }

  /** A log that grew by `step` past `prefix + before` holds `prefix` and then `before + step`. */
  lemma Extended<T>(prefix: seq<T>, before: seq<T>, step: seq<T>, now: seq<T>)
    requires now == (prefix + before) + step
    ensures now == prefix + (before + step)
  {
  }

  /** The requests after record k's send are those of the sends up to and including k. */
  lemma PostsExtended(e: Elk, index: string, codec: Codec, s: seq<Json>, k: nat, r0: seq<Request>, now: seq<Request>)
    requires k < |s|
    requires now == (r0 + SinglePosts(e, index, codec, s[..k])) + [BulkPost(e, index, [codec.dumps(s[k])])]
    ensures now == r0 + SinglePosts(e, index, codec, s[..k + 1])
  {
    SinglePostsSnoc(e, index, codec, s, k);
    Extended(r0, SinglePosts(e, index, codec, s[..k]), [BulkPost(e, index, [codec.dumps(s[k])])], now);
  }

  /** The errors after the reply to send k are those of the replies up to and including k. */
  lemma ErrorsExtended(reply: nat -> Reply, base: nat, k: nat, e0: seq<string>, now: seq<string>)
    requires now == (e0 + ErrorsOf(reply, base, k)) + ReplyErrors(reply(base + k), k + 1)
    ensures now == e0 + ErrorsOf(reply, base, k + 1)
  {
    ErrorsOfNext(reply, base, k);
    Extended(e0, ErrorsOf(reply, base, k), ReplyErrors(reply(base + k), k + 1), now);
  }

  const UnsupportedTail := "> not supported. See help for more details. Exiting . . ."

  /** What `update_timestamps` reports for its outcome. */
  function UpdateErrors(option: string, r: Result<seq<Json>, Failure>): seq<string>
  {
    if r == Err(BadOption) then [ErrorLine("Time option <" + option + UnsupportedTail)]
    else if r == Err(DualFormat) then [ErrorLine(DualFormatMessage)]
    else []
  }

  /** What `parse_logs` reports when it fails: the file, and the text of the exception. */
  function ParseFailure(file: string, message: string): string
  {
    ErrorLine("Error parsing " + file + "\n" + message)
  }

  // ---------------------------------------------------------------- Clear_Thread("all")

  const AllKeywordMessage := "While clearing indexes received keyword \"all\". Skipping to avoid infinite recursion. Do not use index \"all\" in the future."

  /** The names drained from the index queue that get cleared: each name but `all` once, at its first appearance. */
  function Seen(q: seq<string>): seq<string>
  {
    if q == [] then []
    else
      var s := Seen(q[..|q| - 1]);
      var x := q[|q| - 1];
      if x == "all" || x in s then s else s + [x]
  }

  /** Every name but `all` is cleared, and nothing else. */
  lemma {:induction false} SeenMembers(q: seq<string>)
    ensures forall x :: x in Seen(q) <==> x in q && x != "all"
  {
    if q != [] {
      var p := q[..|q| - 1];
      SeenMembers(p);
      assert q == p + [q[|q| - 1]];
    }
  }

  /** No name is cleared twice. */
  lemma {:induction false} SeenDistinct(q: seq<string>)
    ensures forall i, j :: 0 <= i < j < |Seen(q)| ==> Seen(q)[i] != Seen(q)[j]
  {
    if q != [] {
      var p := q[..|q| - 1];
      SeenDistinct(p);
    }
  }

  /** The errors reported while draining: one per queued `all`. */
  function AllErrors(q: seq<string>): seq<string>
  {
    if q == [] then []
    else AllErrors(q[..|q| - 1]) + (if q[|q| - 1] == "all" then [ErrorLine(AllKeywordMessage)] else [])
  }

  /** One error per queued `all`, each the same message. */
  lemma {:induction false} AllErrorsCount(q: seq<string>)
    ensures |AllErrors(q)| == multiset(q)["all"]
    ensures forall k :: 0 <= k < |AllErrors(q)| ==> AllErrors(q)[k] == ErrorLine(AllKeywordMessage)
  {
    if q != [] {
      var p := q[..|q| - 1];
      AllErrorsCount(p);
      assert q == p + [q[|q| - 1]];
    }
  }

  /** Position of the first occurrence of x in q. */
  function FirstIndex(q: seq<string>, x: string): (k: nat)
    requires x in q
    ensures k < |q| && q[k] == x && x !in q[..k]
  {
    if q[0] == x then 0 else 1 + FirstIndex(q[1..], x)
  }

  lemma FirstIndexPrefix(q: seq<string>, x: string, n: nat)
    requires n <= |q| && x in q[..n]
    ensures FirstIndex(q, x) == FirstIndex(q[..n], x)
  {
    var k' := FirstIndex(q[..n], x);
    assert q[..n][..k'] == q[..k'];
  }

  /** The names are cleared in the order of their first appearance in the queue. */
  lemma {:induction false} SeenFirstOrder(q: seq<string>)
    ensures forall i, j :: 0 <= i < j < |Seen(q)| && Seen(q)[i] in q && Seen(q)[j] in q ==>
      FirstIndex(q, Seen(q)[i]) < FirstIndex(q, Seen(q)[j])
  {
    if q != [] {
      var p := q[..|q| - 1];
      var x := q[|q| - 1];
      SeenFirstOrder(p);
      var s := Seen(p);
      assert q[..|q| - 1] == p;
      SeenMembers(p);
      forall i | 0 <= i < |s|
        ensures s[i] in q && FirstIndex(q, s[i]) == FirstIndex(p, s[i])
      {
        assert s[i] in p;
        FirstIndexPrefix(q, s[i], |q| - 1);
      }
      if !(x == "all" || x in s) {
        assert x !in p;
        assert q[..|q| - 1] == p;
        assert FirstIndex(q, x) == |q| - 1;
      }
    }
  }

  // ---------------------------------------------------------------- the controller

  class LogController {
    const logId: string
    const messages: MessageQueue
    const errors: MessageQueue
    const indexQueue: MessageQueue
    const net: Network
    const event: Event
    /** The settings read by `setup`; unset until a config was read. */
    var settings: Option<Elk>
    var index: Option<string>
    var timeOption: Option<string>
    /** The index of every `clear_index` thread started so far, in start order. */
    var clears: seq<string>

    /** The state a successfully constructed controller is in. */
    predicate Valid()
      reads this
    {
      && settings.Some? && index.Some? && timeOption.Some?
      && messages != errors && messages != indexQueue && errors != indexQueue
    }

    /** The index a method uses for its `index="default"` argument. */
    function Resolve(index: string): (r: string)
      requires Valid()
      reads this
      ensures index != "default" ==> r == index
    {
      if index == "default" then this.index.value else index
    }

    constructor Blank(logId: string, messages: MessageQueue, errors: MessageQueue, indexQueue: MessageQueue, net: Network)
      ensures this.logId == logId && this.messages == messages && this.errors == errors
      ensures this.indexQueue == indexQueue && this.net == net
      ensures fresh(event) && !event.isSet
      ensures settings.None? && index.None? && timeOption.None? && clears == []
    {
      this.logId := logId;
      this.messages := messages;
      this.errors := errors;
      this.indexQueue := indexQueue;
      this.net := net;
      event := new Event();
      settings := None;
      index := None;
      timeOption := None;
      clears := [];
    }

    /**
     * `setup(conf_file)`, `config` being what `configparser` reads from the
     * file: a complete `[ELK]` section sets every option; otherwise one error
     * names the problem; the path `None` disables the log.
     */
    method Setup(confFile: string, config: Config)
      requires errors != indexQueue
      modifies this, errors, event
      ensures clears == old(clears)
      ensures SetupOf(confFile, config).Configured? ==>
        var e := SetupOf(confFile, config).elk;
        && settings == Some(e) && index == Some(e.index) && timeOption == Some(e.time)
        && errors.items == old(errors.items) && event.isSet == old(event.isSet)
      ensures SetupOf(confFile, config).BadConfig? ==>
        && settings == old(settings) && index == old(index) && timeOption == old(timeOption)
        && errors.items == old(errors.items) + [ErrorLine(SetupOf(confFile, config).message)]
        && event.isSet == old(event.isSet)
      ensures SetupOf(confFile, config).Disabled? ==>
        && settings == old(settings) && index == old(index) && timeOption == old(timeOption)
        && errors.items == old(errors.items) + [DisabledMessage(logId)]
        && event.isSet
    {
      if confFile != "None" {
        if "ELK" !in config {
          errors.Put(ErrorLine("Bad config provided."));
          return;
        }
        var sec := config["ELK"];
        var missing := FirstMissing(sec, 0);
        if missing.Some? {
          errors.Put(ErrorLine("Bad config provided. " + missing.value + " not found."));
          return;
        }
        var e := ElkOf(sec);
        settings := Some(e);
        index := Some(e.index);
        timeOption := Some(e.time);
      } else {
        errors.Put(DisabledMessage(logId));
        event.Set();
      }
    }

    /**
     * The rest of `__init__` once `setup` has run: let the index and time
     * cells override the settings unless they hold `None`, queue the index,
     * and announce the controller. Where an attribute is still unset Python
     * raises `AttributeError`: queueing needs the index, the announcement
     * needs the settings. Answers the exception raised, if any.
     */
    method Finish(row: LogRow) returns (failure: Option<string>)
      requires settings.Some? ==> index.Some? && timeOption.Some?
      requires messages != indexQueue
      modifies this, indexQueue, messages
      ensures settings == old(settings) && clears == old(clears)
      ensures Cell(row, "log_index").Err? ==>
        failure == Some(Cell(row, "log_index").error) && unchanged(this, indexQueue, messages)
      ensures Cell(row, "log_index").Ok? ==>
        var ic := Cell(row, "log_index").value;
        && index == (if ic != "None" then Some(ic) else old(index))
        && (index.None? ==> failure.Some? && unchanged(indexQueue, messages))
        && (index.Some? ==> indexQueue.items == old(indexQueue.items) + [index.value])
      ensures Cell(row, "log_index").Ok? && index.Some? ==>
        && (Cell(row, "log_time").Err? ==>
              failure == Some(Cell(row, "log_time").error) && timeOption == old(timeOption) && unchanged(messages))
        && (Cell(row, "log_time").Ok? ==>
              var tc := Cell(row, "log_time").value;
              timeOption == (if tc != "None" then Some(tc) else old(timeOption)))
      ensures Cell(row, "log_index").Ok? && index.Some? && Cell(row, "log_time").Ok? ==>
        && (settings.None? ==> failure.Some? && unchanged(messages))
        && (settings.Some? ==>
              failure.None? && messages.items == old(messages.items) + [CreatedNotice(settings.value, timeOption.value, index.value)])
    {
      failure := QueueIndex(row);
      if failure.None? {
        failure := Announce(row);
      }
    }

    /** The index cell overrides the index unless it holds `None`; the index is then queued. */
    method QueueIndex(row: LogRow) returns (failure: Option<string>)
      modifies this, indexQueue
      ensures settings == old(settings) && timeOption == old(timeOption) && clears == old(clears)
      ensures Cell(row, "log_index").Err? ==>
        failure == Some(Cell(row, "log_index").error) && unchanged(this, indexQueue)
      ensures Cell(row, "log_index").Ok? ==>
        var ic := Cell(row, "log_index").value;
        && index == (if ic != "None" then Some(ic) else old(index))
        && (index.None? <==> failure.Some?)
        && (index.None? ==> unchanged(indexQueue))
        && (index.Some? ==> indexQueue.items == old(indexQueue.items) + [index.value])
    {
      var indexCell := Cell(row, "log_index");
      if indexCell.Err? {
        return Some(indexCell.error);
      }
      if indexCell.value != "None" {
        index := Some(indexCell.value);
      }
      if index.None? {
        return Some("AttributeError: 'Log_Controller' object has no attribute 'index'");
      }
      indexQueue.Put(index.value);
      failure := None;
    }

    /** The time cell overrides the time option unless it holds `None`; the controller is then announced. */
    method Announce(row: LogRow) returns (failure: Option<string>)
      requires index.Some? && (settings.Some? ==> timeOption.Some?)
      modifies this, messages
      ensures settings == old(settings) && index == old(index) && clears == old(clears)
      ensures Cell(row, "log_time").Err? ==>
        failure == Some(Cell(row, "log_time").error) && timeOption == old(timeOption) && unchanged(messages)
      ensures Cell(row, "log_time").Ok? ==>
        var tc := Cell(row, "log_time").value;
        && timeOption == (if tc != "None" then Some(tc) else old(timeOption))
        && (settings.None? ==> failure.Some? && unchanged(messages))
        && (settings.Some? ==>
              failure.None? && messages.items == old(messages.items) + [CreatedNotice(settings.value, timeOption.value, index.value)])
    {
      var timeCell := Cell(row, "log_time");
      if timeCell.Err? {
        return Some(timeCell.error);
      }
      if timeCell.value != "None" {
        timeOption := Some(timeCell.value);
      }
      if settings.None? {
        return Some("AttributeError: 'Log_Controller' object has no attribute 'ip'");
      }
      messages.Put(CreatedNotice(settings.value, timeOption.value, index.value));
      failure := None;
    }

    /**
     * `Log_Controller(Scenario, Log_ID, ...)`, `config` being what
     * `configparser` reads from the row's config file: read the config and log
     * file cells, run `setup`, then `Finish`. Only a complete config yields a
     * controller; a disabled log, or a bad config, ends in `AttributeError`.
     */
    static method Create(logs: map<string, LogRow>, logId: string, config: Config,
                         messages: MessageQueue, errors: MessageQueue, indexQueue: MessageQueue, net: Network)
      returns (r: Result<LogController, string>)
      requires messages != errors && messages != indexQueue && errors != indexQueue
      modifies messages, errors, indexQueue
      ensures logId !in logs ==> r.Err? && unchanged(messages, errors, indexQueue)
      ensures logId in logs && (Cell(logs[logId], "config_file").Err? || Cell(logs[logId], "log_file").Err?) ==>
        r.Err? && unchanged(messages, errors, indexQueue)
      ensures r.Ok? <==>
        && logId in logs
        && Cell(logs[logId], "config_file").Ok? && Cell(logs[logId], "log_file").Ok?
        && Cell(logs[logId], "log_index").Ok? && Cell(logs[logId], "log_time").Ok?
        && SetupOf(Cell(logs[logId], "config_file").value, config).Configured?
      ensures r.Ok? ==>
        var row := logs[logId];
        var e := SetupOf(Cell(row, "config_file").value, config).elk;
        var idx := Override(Cell(row, "log_index").value, e.index);
        var time := Override(Cell(row, "log_time").value, e.time);
        && fresh(r.value) && fresh(r.value.event) && !r.value.event.isSet && r.value.Valid()
        && r.value.logId == logId && r.value.net == net && r.value.clears == []
        && r.value.messages == messages && r.value.errors == errors && r.value.indexQueue == indexQueue
        && r.value.settings == Some(e) && r.value.index == Some(idx) && r.value.timeOption == Some(time)
        && indexQueue.items == old(indexQueue.items) + [idx]
        && messages.items == old(messages.items) + [CreatedNotice(e, time, idx)]
        && errors.items == old(errors.items)
      ensures
        (&& logId in logs && Cell(logs[logId], "config_file").Ok? && Cell(logs[logId], "log_file").Ok?
         && SetupOf(Cell(logs[logId], "config_file").value, config) == Disabled) ==>
        && messages.items == old(messages.items)
        && errors.items == old(errors.items) + [DisabledMessage(logId)]
        && indexQueue.items == old(indexQueue.items)
           + (var c := Cell(logs[logId], "log_index"); if c.Ok? && c.value != "None" then [c.value] else [])
    {
      if logId !in logs {
        return Err("KeyError: " + logId);
      }
      var row := logs[logId];
      var confCell := Cell(row, "config_file");
      if confCell.Err? {
        return Err(confCell.error);
      }
      var fileCell := Cell(row, "log_file");
      if fileCell.Err? {
        return Err(fileCell.error);
      }
      var c := new LogController.Blank(logId, messages, errors, indexQueue, net);
      c.Setup(confCell.value, config);
      var failure := c.Finish(row);
      if failure.Some? {
        return Err(failure.value);
      }
      r := Ok(c);
    }

    /** `Stop()`: set the Event (joining the thread is not modelled). */
    method Stop()
      modifies event
      ensures event.isSet
    {
      event.Set();
    }

    /**
     * `parse_logs(file)` over the file's lines, or the text of the exception
     * `open` raises; `decodeMessage` is the text of the exception `raw_decode`
     * raises. The Event is polled before each line; the result is the
     * records of the lines read, empty strings removed, or `None` (the answer
     * `failed.`) when opening or decoding raises.
     */
    method ParseLogs(codec: Codec, file: string, contents: Result<seq<string>, string>, decodeMessage: string, setAt: Option<nat>)
      returns (r: Option<seq<Json>>)
      requires LawfulDecoder(codec)
      modifies errors
      ensures contents.Err? ==> r.None? && errors.items == old(errors.items) + [ParseFailure(file, contents.error)]
      ensures contents.Ok? ==>
        var lines := contents.value;
        var n := Cutoff(Cancel(event.isSet, setAt), |lines|);
        && r == ParsedLogs(codec, lines[..n])
        && errors.items == old(errors.items) + (if r.None? then [ParseFailure(file, decodeMessage)] else [])
    {
      if contents.Err? {
        errors.Put(ParseFailure(file, contents.error));
        return None;
      }
      r := ParseLines(codec, contents.value, Cancel(event.isSet, setAt));
      if r.None? {
        errors.Put(ParseFailure(file, decodeMessage));
      }
    }

    /**
     * `update_timestamps(logs, option)`, `now` standing for the current time:
     * the Event is polled before every record and every match. The option
     * `default` means the controller's own.
     */
    method UpdateTimestamps(codec: Codec, lib: DateLib, logs: seq<Json>, option: string, now: int, setAt: Option<nat>)
      returns (r: Result<seq<Json>, Failure>)
      requires Valid() && InRange(now)
      modifies errors
      ensures var opt := if option == "default" then timeOption.value else option;
        && r == Retime.UpdateTimestamps(codec, lib, logs, opt, now, Cancel(event.isSet, setAt))
        && errors.items == old(errors.items) + UpdateErrors(opt, r)
    {
      var opt := if option == "default" then timeOption.value else option;
      var cancel := Cancel(event.isSet, setAt);
      if opt == "no_update" {
        return Ok(logs);
      }
      var o := Origin(lib, opt, now);
      if o.Err? {
        if o.error == BadOption {
          errors.Put(ErrorLine("Time option <" + opt + UnsupportedTail));
        }
        return Err(o.error);
      }
      var out := RetimeLoop(codec, lib, o.value, cancel, logs);
      if out.Err? {
        if out.error == DualFormat {
          errors.Put(ErrorLine(DualFormatMessage));
        }
        return Err(out.error);
      }
      r := Ok(out.value.1);
    }

    /**
     * `send_logs(logs, index)`: one bulk request with every record. A raised
     * exception is reported and answered with `failed.`; otherwise the answer
     * is the response's text.
     */
    method SendLogs(codec: Codec, logs: seq<Json>, index: string) returns (answer: string)
      requires Valid()
      modifies net, errors
      ensures net.requests == old(net.requests) + [BulkPost(settings.value, Resolve(index), Texts(codec, logs))]
      ensures match net.reply(|old(net.requests)|)
        case Response(status) => answer == ResponseText(status) && errors.items == old(errors.items)
        case Raised(m) => answer == "failed." && errors.items == old(errors.items) + [ErrorLine(m)]
    {
      var idx := Resolve(index);
      var e := settings.value;
      var url := BulkUrl(e.security, e.ip, e.port);
      var body := BuildBody(codec, logs, idx);
      var reply := net.Send(Post(url, body, e.username, e.password));
      match reply {
        case Response(status) =>
          answer := ResponseText(status);
        case Raised(m) =>
          errors.Put(ErrorLine(m));
          answer := "failed.";
      }
    }

    /**
     * `trickle_logs(logs, index)`: sort the records by their stamp, then for
     * each one poll the Event, wait the gap to the latest stamp so far, and
     * send it alone. Also returns the waits, in microseconds. `read` is how
     * a record's stamp is read: the engine's reader is `Trickle.ReadStamp`.
     * A sort that raises ends it at once; stamps that sort but are not
     * strings reach the first poll, and then `strptime` raises.
     */
    method TrickleLogs(codec: Codec, read: Reader, logs: seq<Json>, index: string, setAt: Option<nat>)
      returns (answer: Result<string, string>, waits: seq<int>)
      requires Valid()
      modifies net, errors
      ensures SortFault(logs).Some? ==>
        answer == Err(SortFault(logs).value) && waits == [] && unchanged(net, errors)
      ensures SortFault(logs).None? && !Stamped(logs) ==>
        && answer == (if Fires(Cancel(event.isSet, setAt), 0) then Ok("thread killed.") else Err(NotAString))
        && waits == [] && unchanged(net, errors)
      ensures Stamped(logs) ==>
        var run := EngineLoop(read, Cancel(event.isSet, setAt), SortByStamp(logs), 0, None, Fresh);
        && waits == run.waits
        && net.requests == old(net.requests) + SinglePosts(settings.value, Resolve(index), codec, run.sent)
        && errors.items == old(errors.items) + ErrorsOf(net.reply, |old(net.requests)|, |run.sent|)
        && answer == match run.ending
                     case Done => Ok("done.")
                     case Killed => Ok("thread killed.")
                     case Crashed(m) => Err(m)
    {
      var fault := SortFault(logs);
      if fault.Some? {
        return Err(fault.value), [];
      }
      if !Stamped(logs) {
        // the sort succeeded on stamps that are not strings: the first poll, then strptime raises
        if event.isSet || (setAt.Some? && setAt.value <= 0) {
          return Ok("thread killed."), [];
        }
        return Err(NotAString), [];
      }
      answer, waits := TrickleSorted(codec, read, SortByStamp(logs), Resolve(index), setAt);
    }

    /** The loop of `trickle_logs` over the records already sorted. */
    method TrickleSorted(codec: Codec, read: Reader, sorted: seq<Json>, idx: string, setAt: Option<nat>)
      returns (answer: Result<string, string>, waits: seq<int>)
      requires Valid()
      modifies net, errors
      ensures var run := EngineLoop(read, Cancel(event.isSet, setAt), sorted, 0, None, Fresh);
        && waits == run.waits
        && net.requests == old(net.requests) + SinglePosts(settings.value, Resolve(idx), codec, run.sent)
        && errors.items == old(errors.items) + ErrorsOf(net.reply, |old(net.requests)|, |run.sent|)
        && answer == match run.ending
                     case Done => Ok("done.")
                     case Killed => Ok("thread killed.")
                     case Crashed(m) => Err(m)
    {
      ghost var cancel := Cancel(event.isSet, setAt);
      ghost var base := |net.requests|;
      ghost var run := EngineLoop(read, cancel, sorted, 0, None, Fresh);
      var latest: Option<int> := None;
      waits := [];
      var k := 0;
      while k < |sorted|
        invariant k <= |sorted| && Valid()
        invariant EngineLoop(read, cancel, sorted, k, latest, Run(waits, sorted[..k], Done)) == run
        invariant net.requests == old(net.requests) + SinglePosts(settings.value, Resolve(idx), codec, sorted[..k])
        invariant errors.items == old(errors.items) + ErrorsOf(net.reply, base, k)
        decreases |sorted| - k
      {
        if event.isSet || (setAt.Some? && setAt.value <= k) {
          return Ok("thread killed."), waits;
        }
        var cur := read(sorted[k]);
        if cur.None? {
          return Err(ParseError), waits;
        }
        latest, waits := TrickleStep(codec, read, cancel, sorted, k, idx, latest, waits, cur.value,
                                     old(net.requests), old(errors.items), run);
        k := k + 1;
      }
      answer := Ok("done.");
    }

    /** One pass of the trickle loop past its checks: the wait recorded and record k sent. */
    method TrickleStep(codec: Codec, read: Reader, ghost cancel: Cancel, sorted: seq<Json>, k: nat, idx: string,
                       latest: Option<int>, waits: seq<int>, cur: int,
                       ghost r0: seq<Request>, ghost e0: seq<string>, ghost run: Run)
      returns (latest': Option<int>, waits': seq<int>)
      requires Valid() && k < |sorted| && !Fires(cancel, k) && read(sorted[k]) == Some(cur)
      requires EngineLoop(read, cancel, sorted, k, latest, Run(waits, sorted[..k], Done)) == run
      requires net.requests == r0 + SinglePosts(settings.value, Resolve(idx), codec, sorted[..k])
      requires errors.items == e0 + ErrorsOf(net.reply, |r0|, k)
      modifies net, errors
      ensures EngineLoop(read, cancel, sorted, k + 1, latest', Run(waits', sorted[..k + 1], Done)) == run
      ensures net.requests == r0 + SinglePosts(settings.value, Resolve(idx), codec, sorted[..k + 1])
      ensures errors.items == e0 + ErrorsOf(net.reply, |r0|, k + 1)
    {
      var l := if latest.Some? then latest.value else cur;
      EngineLoopStep(read, cancel, sorted, k, latest, Run(waits, sorted[..k], Done), cur);
      assert sorted[..k + 1] == sorted[..k] + [sorted[k]];
      latest' := Some(Latest(latest, cur));
      waits' := waits + [cur - l];
      SendNext(codec, sorted, k, idx, r0, e0);
    }

    /** Record k of the trickle loop sent, its errors reported after those of the sends before it. */
    method SendNext(codec: Codec, sorted: seq<Json>, k: nat, idx: string, ghost r0: seq<Request>, ghost e0: seq<string>)
      requires Valid() && k < |sorted|
      requires net.requests == r0 + SinglePosts(settings.value, Resolve(idx), codec, sorted[..k])
      requires errors.items == e0 + ErrorsOf(net.reply, |r0|, k)
      modifies net, errors
      ensures net.requests == r0 + SinglePosts(settings.value, Resolve(idx), codec, sorted[..k + 1])
      ensures errors.items == e0 + ErrorsOf(net.reply, |r0|, k + 1)
    {
      var e, i := settings.value, Resolve(idx);
      SendOne(codec, sorted[k], idx, k + 1, |r0| + k);
      PostsExtended(e, i, codec, sorted, k, r0, net.requests);
      ErrorsExtended(net.reply, |r0|, k, e0, errors.items);
    }

    /**
     * One send of the trickle loop: `send_logs([record], index)`, then the
     * report of a reply other than `<Response [200]>` as bad response `num`.
     */
    method SendOne(codec: Codec, record: Json, index: string, num: nat, ghost at: nat)
      requires Valid() && |net.requests| == at
      modifies net, errors
      ensures net.requests == old(net.requests) + [BulkPost(settings.value, Resolve(index), [codec.dumps(record)])]
      ensures errors.items == old(errors.items) + ReplyErrors(net.reply(at), num)
    {
      assert Texts(codec, [record]) == [codec.dumps(record)];
      var response := SendLogs(codec, [record], index);
      if response != "<Response [200]>" {
        errors.Put(ErrorLine(BadResponse(num)));
      }
      ghost var rep := net.reply(at);
      if rep.Raised? {
        assert response[0] != "<Response [200]>"[0];
      }
    }

    /** `clear_index(index)`: announce it and delete the index; a raised exception propagates. */
    method ClearIndex(index: string) returns (answer: Result<string, string>)
      requires Valid()
      modifies messages, net
      ensures messages.items == old(messages.items) + [NoticeLine("clearing index: " + Resolve(index))]
      ensures net.requests == old(net.requests)
        + [Delete(ClearUrl(settings.value.security, settings.value.ip, settings.value.port, Resolve(index)),
                  settings.value.username, settings.value.password)]
      ensures match net.reply(|old(net.requests)|)
        case Response(status) => answer == Ok(ResponseText(status))
        case Raised(m) => answer == Err(m)
    {
      var idx := Resolve(index);
      messages.Put(NoticeLine("clearing index: " + idx));
      var e := settings.value;
      var reply := net.Send(Delete(ClearUrl(e.security, e.ip, e.port, idx), e.username, e.password));
      match reply {
        case Response(status) =>
          answer := Ok(ResponseText(status));
        case Raised(m) =>
          answer := Err(m);
      }
    }

    /**
     * `Clear_Thread(index)`: start a `clear_index` thread for the index. For
     * `all`, first drain the index queue, starting one for every name not
     * seen before and reporting every `all` found there; the thread for `all`
     * itself is still started at the end.
     */
    method ClearThread(index: string)
      requires Valid()
      modifies this, indexQueue, messages, errors
      ensures settings == old(settings) && this.index == old(this.index) && timeOption == old(timeOption)
      ensures index != "all" ==>
        clears == old(clears) + [index] && unchanged(indexQueue, messages, errors)
      ensures index == "all" ==>
        && indexQueue.items == []
        && clears == old(clears) + Seen(old(indexQueue.items)) + ["all"]
        && messages.items == old(messages.items)
           + [NoticeLine("Clearing all indexes that have been uploaded during this session . . .")]
        && errors.items == old(errors.items) + AllErrors(old(indexQueue.items))
      decreases if index == "all" then 1 else 0, 0
    {
      if index == "all" {
        messages.Put(NoticeLine("Clearing all indexes that have been uploaded during this session . . ."));
        ghost var queued := indexQueue.items;
        ghost var drained: seq<string> := [];
        var seen: seq<string> := [];
        while indexQueue.items != []
          invariant Valid()
          invariant settings == old(settings) && this.index == old(this.index) && timeOption == old(timeOption)
          invariant queued == drained + indexQueue.items
          invariant seen == Seen(drained)
          invariant clears == old(clears) + seen
          invariant messages.items == old(messages.items)
            + [NoticeLine("Clearing all indexes that have been uploaded during this session . . .")]
          invariant errors.items == old(errors.items) + AllErrors(drained)
          decreases |indexQueue.items|
        {
          drained, seen := DrainOne(queued, drained, seen, old(clears), old(errors.items));
        }
        assert drained == queued;
      }
      clears := clears + [index];
    }

    /**
     * One pass of the loop of `Clear_Thread("all")`: the next queued name is
     * taken; `all` is reported, a name not yet seen is cleared.
     */
    method DrainOne(ghost queued: seq<string>, ghost drained: seq<string>, seen: seq<string>,
                    ghost c0: seq<string>, ghost e0: seq<string>)
      returns (ghost drained': seq<string>, seen': seq<string>)
      requires Valid() && indexQueue.items != []
      requires queued == drained + indexQueue.items && seen == Seen(drained)
      requires clears == c0 + seen && errors.items == e0 + AllErrors(drained)
      modifies this, indexQueue, messages, errors
      ensures Valid() && settings == old(settings) && index == old(index) && timeOption == old(timeOption)
      ensures queued == drained' + indexQueue.items && |indexQueue.items| < old(|indexQueue.items|)
      ensures seen' == Seen(drained') && clears == c0 + seen' && errors.items == e0 + AllErrors(drained')
      ensures messages.items == old(messages.items)
      decreases 0, 1
    {
      var current := indexQueue.Get();
      drained' := drained + [current];
      assert drained'[..|drained|] == drained;
      seen' := seen;
      if current == "all" {
        errors.Put(ErrorLine(AllKeywordMessage));
      } else if current !in seen {
        ClearThread(current);
        seen' := seen + [current];
      }
    }
  }
}
