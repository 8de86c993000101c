/**
 * `standalone_log_controller.py`: the command-line tool that replays one log
 * dump into Elasticsearch. Its settings are module globals, filled by
 * `setup` from an optional config file and then from the command line; the
 * tool parses the dump, re-times it, and sends it in bulk or trickles it.
 * Nothing here is ever cancelled, and an error message is followed by an
 * exit: a failure of `setup` is its return value -1, which the main block
 * turns into `exit(1)`.
 */
module StandaloneTool {
  import opened Wrappers
  import opened Text
  import opened JsonValues
  import opened Calendar
  import opened LogReplay
  import opened Retime
  import opened Trickle
  import opened Shared

  // ---------------------------------------------------------------- the settings

  /** The global `port`: the int 0 at first or from `-p`, the option's text when read from a config file. */
  datatype Port = PortNumber(n: int) | PortText(s: string)

  /** `str(port)`. */
  function PortString(p: Port): string
  {
    match p
    case PortNumber(n) => IntToString(n)
    case PortText(s) => s
  }

  /** `not port`: the int 0 or the empty text. */
  predicate Falsy(p: Port)
  {
    p == PortNumber(0) || p == PortText("")
  }

  /** The module globals. */
  datatype Globals = Globals(verbose: bool, delay: bool, ip: string, port: Port, timeOption: string, logFile: string,
                             index: string, username: string, password: string, security: bool)

  const Initial := Globals(false, false, "", PortNumber(0), "", "", "", "", "", false)

  /**
   * The command line as `argparse` hands it over (`None` for an option not
   * given); `config` is the file named by `-c` as `configparser` reads it.
   */
  datatype Args = Args(config: Option<Config>, ip: Option<string>, port: Option<int>, time: Option<string>,
                       verbose: bool, delay: bool, clearIndex: Option<string>, index: Option<string>,
                       file: Option<string>, username: Option<string>, password: Option<string>, secure: bool)

  /** A command-line text that overrides the config: given and not empty. */
  predicate Given(cli: Option<string>)
  {
    cli.Some? && cli.value != ""
  }

  const BadConfigMessage := "Bad config provided. See README for example. Attempting to use command line options . . ."

  /** The config has an `[ELK]` section with `ip`, `port` and `time`. */
  predicate ConfigOk(config: Config)
  {
    "ELK" in config && "ip" in config["ELK"] && "port" in config["ELK"] && "time" in config["ELK"]
  }

  /** The three flags, which can only switch a setting on. */
  function WithFlags(args: Args, g: Globals): (r: Globals)
  {
    g.(verbose := g.verbose || args.verbose, delay := g.delay || args.delay, security := g.security || args.secure)
  }

  /** The settings a usable config gives: ip, port and time always, the others where present. */
  function WithConfig(sec: Section, g: Globals): (r: Globals)
    requires "ip" in sec && "port" in sec && "time" in sec
    ensures r.ip == sec["ip"] && r.port == PortText(sec["port"]) && r.timeOption == sec["time"]
    ensures r.index == (if "index" in sec then sec["index"] else g.index)
    ensures r.username == (if "username" in sec then sec["username"] else g.username)
    ensures r.password == (if "password" in sec then sec["password"] else g.password)
    ensures r.verbose == g.verbose && r.delay == g.delay && r.security == g.security && r.logFile == g.logFile
  {
    g.(ip := sec["ip"], port := PortText(sec["port"]), timeOption := sec["time"],
       index := if "index" in sec then sec["index"] else g.index,
       username := if "username" in sec then sec["username"] else g.username,
       password := if "password" in sec then sec["password"] else g.password)
  }

  function Pick(cli: Option<string>, current: string): string
  {
    if Given(cli) then cli.value else current
  }

  /** Every option given on the command line overrides the setting. */
  function WithOverrides(args: Args, g: Globals): (r: Globals)
  {
    g.(ip := Pick(args.ip, g.ip),
       port := if args.port.Some? && args.port.value != 0 then PortNumber(args.port.value) else g.port,
       timeOption := Pick(args.time, g.timeOption), index := Pick(args.index, g.index),
       username := Pick(args.username, g.username), password := Pick(args.password, g.password))
  }

  /**
   * The settings once the flags, a usable config and the command line are
   * applied: each setting comes from the command line when given there, else
   * from the config file, else keeps its value; the flags only switch on.
   */
  function Merged(args: Args, g: Globals): (m: Globals)
    requires args.config.Some? ==> ConfigOk(args.config.value)
    ensures var sec := if args.config.Some? then args.config.value["ELK"] else map[];
      && m.ip == (if Given(args.ip) then args.ip.value else if args.config.Some? then sec["ip"] else g.ip)
      && m.timeOption == (if Given(args.time) then args.time.value else if args.config.Some? then sec["time"] else g.timeOption)
      && m.port == (if args.port.Some? && args.port.value != 0 then PortNumber(args.port.value)
                    else if args.config.Some? then PortText(sec["port"]) else g.port)
      && m.index == (if Given(args.index) then args.index.value else if "index" in sec then sec["index"] else g.index)
      && m.username == (if Given(args.username) then args.username.value
                        else if "username" in sec then sec["username"] else g.username)
      && m.password == (if Given(args.password) then args.password.value
                        else if "password" in sec then sec["password"] else g.password)
      && m.verbose == (g.verbose || args.verbose) && m.delay == (g.delay || args.delay)
      && m.security == (g.security || args.secure) && m.logFile == g.logFile
  {
    var g1 := WithFlags(args, g);
    WithOverrides(args, if args.config.Some? then WithConfig(args.config.value["ELK"], g1) else g1)
  }

  /** Every setting `setup` insists on is there. */
  predicate Complete(g: Globals)
  {
    g.ip != "" && g.timeOption != "" && g.index != "" && g.username != "" && g.password != ""
  }

  /** What `setup` ends in: a failure with its message, a `--clear_index` run, or a go-ahead. */
  datatype Plan = Fail(g: Globals, message: string) | Clear(g: Globals, index: string) | Proceed(g: Globals)

  /**
   * The checks at the end of `setup` on the merged settings g, with the
   * default port between the first two: the run proceeds exactly when every
   * setting is there, no index is to be cleared and a log file is named, and
   * any port left unset becomes 9200.
   */
  function Checked(args: Args, g: Globals): (p: Plan)
    ensures p.Proceed? <==> Complete(g) && args.clearIndex.None? && args.file.Some?
    ensures p.Clear? <==> Complete(g) && args.clearIndex.Some?
    ensures p.Clear? ==> p.index == args.clearIndex.value
    ensures !Falsy(p.g.port) || g.ip == ""
    ensures p.Proceed? ==> p.g == g.(port := if Falsy(g.port) then PortNumber(9200) else g.port, logFile := args.file.value)
  {
    if g.ip == "" then Fail(g, "IP not set.")
    else
      var g' := if Falsy(g.port) then g.(port := PortNumber(9200)) else g;
      if g'.timeOption == "" then Fail(g', "No time option Provided.")
      else if g'.index == "" then Fail(g', "No index provided.")
      else if g'.username == "" then Fail(g', "No username provided.")
      else if g'.password == "" then Fail(g', "No password provided.")
      else if args.clearIndex.Some? then Clear(g', args.clearIndex.value)
      else if args.file.None? then Fail(g', "Provide log file!")
      else Proceed(g'.(logFile := args.file.value))
  }

  /**
   * `setup()` from the globals g, up to the request a `--clear_index` run
   * makes. A config file without `[ELK]` `ip`, `port` and `time` ends it with
   * -1 even when the command line gives every option; otherwise the checks
   * decide on the merged settings.
   */
  function SetupPlan(args: Args, g: Globals): (p: Plan)
    ensures args.config.Some? && !ConfigOk(args.config.value) ==> p == Fail(WithFlags(args, g), BadConfigMessage)
    ensures p.Proceed? <==>
      && (args.config.Some? ==> ConfigOk(args.config.value))
      && Complete(Merged(args, g)) && args.clearIndex.None? && args.file.Some?
    ensures p.Clear? <==>
      && (args.config.Some? ==> ConfigOk(args.config.value))
      && Complete(Merged(args, g)) && args.clearIndex.Some?
    ensures p.Clear? ==> p.index == args.clearIndex.value && !Falsy(p.g.port)
    ensures p.Proceed? ==>
      var m := Merged(args, g);
      p.g == m.(port := if Falsy(m.port) then PortNumber(9200) else m.port, logFile := args.file.value)
  {
    if args.config.Some? && !ConfigOk(args.config.value) then Fail(WithFlags(args, g), BadConfigMessage)
    else Checked(args, Merged(args, g))
  }

  /** How the tool's run of `setup` ends: a return value, `exit`, or an exception. */
  datatype Outcome = Returned(code: int) | Exited(code: int) | Uncaught(message: string)

  /** The request `clear_index(index)` makes with the settings g. */
  function ClearRequest(g: Globals, index: string): Request
  {
    Delete(ClearUrl(g.security, g.ip, PortString(g.port), index), g.username, g.password)
  }

  /** `clear_index` exits with 0 once the node answers, whatever the status. */
  function ClearOutcome(answer: Reply): Outcome
  {
    match answer
    case Raised(m) => Uncaught(m)
    case Response(_) => Exited(0)
  }

  /**
   * The globals g, the lines printed (errors0, then errors), the requests
   * made (requests0, then requests) and the outcome are those of plan p.
   */
  predicate Realises(p: Plan, g: Globals, errors0: seq<string>, errors: seq<string>,
                     requests0: seq<Request>, requests: seq<Request>, reply: nat -> Reply, outcome: Outcome)
  {
    match p
    case Fail(g', m) =>
      g == g' && errors == errors0 + [ErrorLine(m)] && requests == requests0 && outcome == Returned(-1)
    case Clear(g', index) =>
      && g == g' && errors == errors0 && requests == requests0 + [ClearRequest(g', index)]
      && outcome == ClearOutcome(reply(|requests0|))
    case Proceed(g') =>
      g == g' && errors == errors0 && requests == requests0 && outcome == Returned(0)
  }

  // ---------------------------------------------------------------- what setup promises

  /** The bulk request `send_logs` makes with the tool's settings. */
  function ToolPost(g: Globals, ip: string, port: Port, index: string, texts: seq<string>): Request
  {
    Post(BulkUrl(g.security, ip, PortString(port)), BulkBody(index, texts), g.username, g.password)
  }

  /** The one-record bulk requests of a trickle that sent the records `sent`, in order. */
  function ToolPosts(g: Globals, ip: string, port: Port, index: string, codec: Codec, sent: seq<Json>): (r: seq<Request>)
    ensures |r| == |sent|
  {
    seq(|sent|, k requires 0 <= k < |sent| => ToolPost(g, ip, port, index, [codec.dumps(sent[k])]))
  }

  lemma ToolPostsSnoc(g: Globals, ip: string, port: Port, index: string, codec: Codec, s: seq<Json>, k: nat)
    requires k < |s|
    ensures ToolPosts(g, ip, port, index, codec, s[..k + 1])
      == ToolPosts(g, ip, port, index, codec, s[..k]) + [ToolPost(g, ip, port, index, [codec.dumps(s[k])])]
  {
    var a := ToolPosts(g, ip, port, index, codec, s[..k + 1]);
    var b := ToolPosts(g, ip, port, index, codec, s[..k]) + [ToolPost(g, ip, port, index, [codec.dumps(s[k])])];
    forall i | 0 <= i < |a|
      ensures a[i] == b[i]
    {
      if i < k {
        assert s[..k + 1][i] == s[..k][i];
      }
    }
  }

  /** What `send_logs` answers for a reply: the response's text, or the exception raised. */
  function AnswerOf(reply: Reply): Result<string, string>
  {
    match reply
    case Response(status) => Ok(ResponseText(status))
    case Raised(m) => Err(m)
  }

  /**
   * Where the trickle loop stops after a send: on the exception raised, or on
   * the `TypeError` its report of a response other than `<Response [200]>` raises.
   */
  function StopOn(answer: Result<string, string>): Option<Ending>
  {
    if answer.Err? then Some(Crashed(answer.error))
    else if answer.value != "<Response [200]>" then Some(Crashed(ConcatError))
    else None
  }

  /** The standalone loop stops exactly where the answer to record k says, or goes on from the next record. */
  lemma ToolLoopAnswer(read: Reader, reply: nat -> Reply, base: nat, logs: seq<Json>, k: nat, latest: Option<int>, run: Run, cur: int)
    requires k < |logs| && read(logs[k]) == Some(cur)
    requires latest.Some? ==> latest.value <= cur
    ensures var run' := Run(run.waits + [cur - (if latest.Some? then latest.value else cur)], run.sent + [logs[k]], Done);
      var stop := StopOn(AnswerOf(reply(base + k)));
      && (stop.Some? ==> ToolLoop(read, reply, base, logs, k, latest, run) == run'.(ending := stop.value))
      && (stop.None? ==> ToolLoop(read, reply, base, logs, k, latest, run)
                         == ToolLoop(read, reply, base, logs, k + 1, Some(Latest(latest, cur)), run'))
  {
  }

  const UnsupportedMessage := "Time option not supported. See help for more details. Exiting . . ."

  /** What the tool's `update_timestamps` prints before it exits with -1. */
  function ToolUpdateErrors(r: Result<seq<Json>, Failure>): seq<string>
  {
    if r == Err(BadOption) then [ErrorLine(UnsupportedMessage)]
    else if r == Err(DualFormat) then [ErrorLine(DualFormatMessage)]
    else []
  }

  // ---------------------------------------------------------------- the tool

  /** `parse_logs(my_file)` over the lines of the file; `None` where `raw_decode` raises. */
  method ParseLogs(codec: Codec, contents: seq<string>) returns (r: Option<seq<Json>>)
    requires LawfulDecoder(codec)
    ensures r == ParsedLogs(codec, contents)
  {
    r := ParseLines(codec, contents, NoCancel);
    assert contents[..|contents|] == contents;
  }

  /** The tool: its module globals, the lines `error` printed, and the Elasticsearch node. */
  class Tool {
    var verbose: bool
    var delay: bool
    var ip: string
    var port: Port
    var timeOption: string
    var logFile: string
    var index: string
    var username: string
    var password: string
    var security: bool
    /** Every line `error` printed, in order. */
    var errors: seq<string>
    const net: Network

    function State(): Globals
      reads this
    {
      Globals(verbose, delay, ip, port, timeOption, logFile, index, username, password, security)
    }

    constructor (net: Network)
      ensures State() == Initial && errors == [] && this.net == net
    {
      verbose, delay, ip, port, timeOption, logFile := false, false, "", PortNumber(0), "", "";
      index, username, password, security := "", "", "", false;
      errors := [];
      this.net := net;
    }

    /** `error(message)`. */
    method Error(message: string)
      modifies this
      ensures State() == old(State()) && errors == old(errors) + [ErrorLine(message)]
    {
      errors := errors + [ErrorLine(message)];
    }

    /**
     * `setup()`: the flags, then the config file, then the command line,
     * then the checks in order; a `--clear_index` run clears the index and
     * exits.
     */
    method Setup(args: Args) returns (outcome: Outcome)
      modifies this, net
      ensures Realises(SetupPlan(args, old(State())), State(), old(errors), errors,
                       old(net.requests), net.requests, net.reply, outcome)
    {
      SetFlags(args);
      if args.config.Some? {
        var config := args.config.value;
        if !ConfigOk(config) {
          Error(BadConfigMessage);
          return Returned(-1);
        }
        ReadConfig(config["ELK"]);
      }
      Override(args);
      outcome := Check(args);
    }

    /** The three flags. */
    method SetFlags(args: Args)
      modifies this
      ensures State() == WithFlags(args, old(State())) && errors == old(errors)
    {
      if args.verbose {
        verbose := true;
      }
      if args.delay {
        delay := true;
      }
      if args.secure {
        security := true;
      }
    }

    /** The config's settings, in `setup`'s order. */
    method ReadConfig(sec: Section)
      requires "ip" in sec && "port" in sec && "time" in sec
      modifies this
      ensures State() == WithConfig(sec, old(State())) && errors == old(errors)
    {
      ip := sec["ip"];
      port := PortText(sec["port"]);
      timeOption := sec["time"];
      ReadOptional(sec);
    }

    /** The settings a config may leave out. */
    method ReadOptional(sec: Section)
      modifies this
      ensures State() == old(State()).(index := if "index" in sec then sec["index"] else old(index),
                                       username := if "username" in sec then sec["username"] else old(username),
                                       password := if "password" in sec then sec["password"] else old(password))
      ensures errors == old(errors)
    {
      if "index" in sec {
        index := sec["index"];
      }
      if "username" in sec {
        username := sec["username"];
      }
      if "password" in sec {
        password := sec["password"];
      }
    }

    /** The command-line overrides. */
    method Override(args: Args)
      modifies this
      ensures State() == WithOverrides(args, old(State())) && errors == old(errors)
    {
      OverrideTarget(args);
      OverrideAccount(args);
    }

    /** The overrides of where the records go and how they are re-timed. */
    method OverrideTarget(args: Args)
      modifies this
      ensures State() == old(State()).(ip := Pick(args.ip, old(ip)), timeOption := Pick(args.time, old(timeOption)),
                                       port := if args.port.Some? && args.port.value != 0 then PortNumber(args.port.value) else old(port))
      ensures errors == old(errors)
    {
      if Given(args.ip) {
        ip := args.ip.value;
      }
      if args.port.Some? && args.port.value != 0 {
        port := PortNumber(args.port.value);
      }
      if Given(args.time) {
        timeOption := args.time.value;
      }
    }

    /** The overrides of the index and the credentials. */
    method OverrideAccount(args: Args)
      modifies this
      ensures State() == old(State()).(index := Pick(args.index, old(index)), username := Pick(args.username, old(username)),
                                       password := Pick(args.password, old(password)))
      ensures errors == old(errors)
    {
      if Given(args.index) {
        index := args.index.value;
      }
      if Given(args.username) {
        username := args.username.value;
      }
      if Given(args.password) {
        password := args.password.value;
      }
    }

    /** The last checks of `setup`, then `--clear_index` or the log file. */
    method Check(args: Args) returns (outcome: Outcome)
      modifies this, net
      ensures Realises(Checked(args, old(State())), State(), old(errors), errors,
                       old(net.requests), net.requests, net.reply, outcome)
    {
      if ip == "" {
        Error("IP not set.");
        return Returned(-1);
      }
      if Falsy(port) {
        port := PortNumber(9200);
      }
      if timeOption == "" {
        Error("No time option Provided.");
        return Returned(-1);
      }
      if index == "" {
        Error("No index provided.");
        return Returned(-1);
      }
      if username == "" {
        Error("No username provided.");
        return Returned(-1);
      }
      if password == "" {
        Error("No password provided.");
        return Returned(-1);
      }
      if args.clearIndex.Some? {
        outcome := ClearIndex(args.clearIndex.value);
        return;
      }
      if args.file.None? {
        Error("Provide log file!");
        return Returned(-1);
      }
      logFile := args.file.value;
      outcome := Returned(0);
    }

    /** `clear_index(index)`: one DELETE request, then `exit(0)`. */
    method ClearIndex(index: string) returns (outcome: Outcome)
      modifies net
      ensures net.requests == old(net.requests) + [ClearRequest(State(), index)]
      ensures outcome == ClearOutcome(net.reply(|old(net.requests)|))
    {
      var answer := net.Send(ClearRequest(State(), index));
      outcome := ClearOutcome(answer);
    }

    /**
     * `update_timestamps(logs, time_option)`, `now` standing for
     * `datetime.now()`; an unsupported option and a record with both
     * timestamp formats are reported before the tool exits.
     */
    method UpdateTimestamps(codec: Codec, lib: DateLib, logs: seq<Json>, option: string, now: int)
      returns (r: Result<seq<Json>, Failure>)
      requires InRange(now)
      modifies this
      ensures r == Retime.UpdateTimestamps(codec, lib, logs, option, now, NoCancel)
      ensures State() == old(State()) && errors == old(errors) + ToolUpdateErrors(r)
    {
      if option == "no_update" {
        return Ok(logs);
      }
      var o := Origin(lib, option, now);
      if o.Err? {
        if o.error == BadOption {
          Error(UnsupportedMessage);
        }
        return Err(o.error);
      }
      var out := RetimeLoop(codec, lib, o.value, NoCancel, logs);
      if out.Err? {
        // never DualFormat: the match iterator is spent by then (the contract of `RetimeRecords`)
        return Err(out.error);
      }
      r := Ok(out.value.1);
    }

    /**
     * `send_logs(logs, ip, port, index)`: one bulk request with every
     * record, answered with the response's text; an exception propagates.
     */
    method SendLogs(codec: Codec, logs: seq<Json>, ip: string, port: Port, index: string)
      returns (answer: Result<string, string>)
      modifies net
      ensures net.requests == old(net.requests) + [ToolPost(State(), ip, port, index, Texts(codec, logs))]
      ensures answer == AnswerOf(net.reply(|old(net.requests)|))
    {
      var body := BuildBody(codec, logs, index);
      var reply := net.Send(Post(BulkUrl(security, ip, PortString(port)), body, username, password));
      match reply {
        case Response(status) =>
          answer := Ok(ResponseText(status));
        case Raised(m) =>
          answer := Err(m);
      }
    }

    /**
     * `trickle_logs(logs, ip, port, index)`: sort the records by
     * `@timestamp` (failing as `SortFault` says, or at `strptime` on a
     * stamp that is not a string), then send them one by one; `waits` are
     * the lengths handed to `time.sleep`.
     */
    method TrickleLogs(codec: Codec, read: Reader, logs: seq<Json>, ip: string, port: Port, index: string)
      returns (waits: seq<int>, ending: Ending)
      modifies net
      ensures SortFault(logs).Some? ==>
        waits == [] && ending == Crashed(SortFault(logs).value) && net.requests == old(net.requests)
      ensures SortFault(logs).None? && !Stamped(logs) ==>
        waits == [] && ending == Crashed(NotAString) && net.requests == old(net.requests)
      ensures Stamped(logs) ==>
        var run := ToolLoop(read, net.reply, |old(net.requests)|, SortByStamp(logs), 0, None, Fresh);
        && waits == run.waits && ending == run.ending
        && net.requests == old(net.requests) + ToolPosts(State(), ip, port, index, codec, run.sent)
    {
      var fault := SortFault(logs);
      if fault.Some? {
        return [], Crashed(fault.value);
      }
      if !Stamped(logs) {
        // the sort succeeded on stamps that are not strings; strptime raises on the first
        return [], Crashed(NotAString);
      }
      waits, ending := TrickleSorted(codec, read, SortByStamp(logs), ip, port, index);
    }

    /** The loop of `trickle_logs` over the records already sorted. */
    method TrickleSorted(codec: Codec, read: Reader, sorted: seq<Json>, ip: string, port: Port, index: string)
      returns (waits: seq<int>, ending: Ending)
      modifies net
      ensures var run := ToolLoop(read, net.reply, |old(net.requests)|, sorted, 0, None, Fresh);
        && waits == run.waits && ending == run.ending
        && net.requests == old(net.requests) + ToolPosts(State(), ip, port, index, codec, run.sent)
    {
      ghost var base := |net.requests|;
      ghost var run := ToolLoop(read, net.reply, base, sorted, 0, None, Fresh);
      ghost var g := State();
      var latest: Option<int> := None;
      waits := [];
      var k := 0;
      while k < |sorted|
        invariant k <= |sorted|
        invariant ToolLoop(read, net.reply, base, sorted, k, latest, Run(waits, sorted[..k], Done)) == run
        invariant State() == g && net.requests == old(net.requests) + ToolPosts(g, ip, port, index, codec, sorted[..k])
        decreases |sorted| - k
      {
        var cur := read(sorted[k]);
        if cur.None? {
          return waits, Crashed(ParseError);
        }
        var l := if latest.Some? then latest.value else cur.value;
        var wait := cur.value - l;
        if wait < 0 {
          return waits, Crashed(SleepError);
        }
        var stop;
        stop, waits := SendStep(codec, read, sorted, k, ip, port, index, latest, waits, cur.value, wait,
                                old(net.requests), run);
        if stop.Some? {
          return waits, stop.value;
        }
        latest := Some(Latest(latest, cur.value));
        k := k + 1;
      }
      ending := Done;
    }

    /**
     * Record k of the trickle sent after its wait: the loop stops with the
     * error a bad reply raises, or goes on from the next record.
     */
    method SendStep(codec: Codec, read: Reader, sorted: seq<Json>, k: nat, ip: string, port: Port, index: string,
                    latest: Option<int>, waits: seq<int>, cur: int, wait: int, ghost r0: seq<Request>, ghost run: Run)
      returns (stop: Option<Ending>, waits': seq<int>)
      requires k < |sorted| && read(sorted[k]) == Some(cur)
      requires wait == cur - (if latest.Some? then latest.value else cur) && wait >= 0
      requires ToolLoop(read, net.reply, |r0|, sorted, k, latest, Run(waits, sorted[..k], Done)) == run
      requires net.requests == r0 + ToolPosts(State(), ip, port, index, codec, sorted[..k])
      modifies net
      ensures waits' == waits + [wait]
      ensures net.requests == r0 + ToolPosts(State(), ip, port, index, codec, sorted[..k + 1])
      ensures stop.Some? ==> run == Run(waits', sorted[..k + 1], stop.value)
      ensures stop.None? ==> ToolLoop(read, net.reply, |r0|, sorted, k + 1, Some(Latest(latest, cur)),
                                      Run(waits', sorted[..k + 1], Done)) == run
    {
      ghost var before := Run(waits, sorted[..k], Done);
      var answer := SendOne(codec, sorted, k, ip, port, index, r0);
      TakeSnoc(sorted, k);
      waits' := waits + [wait];
      stop := StopOn(answer);
      ToolLoopAnswer(read, net.reply, |r0|, sorted, k, latest, before, cur);
    }

    /** Record k of the trickle sent on its own, after the records before it. */
    method SendOne(codec: Codec, sorted: seq<Json>, k: nat, ip: string, port: Port, index: string, ghost r0: seq<Request>)
      returns (answer: Result<string, string>)
      requires k < |sorted|
      requires net.requests == r0 + ToolPosts(State(), ip, port, index, codec, sorted[..k])
      modifies net
      ensures net.requests == r0 + ToolPosts(State(), ip, port, index, codec, sorted[..k + 1])
      ensures answer == AnswerOf(net.reply(|r0| + k))
    {
      ghost var posts := ToolPosts(State(), ip, port, index, codec, sorted[..k]);
      ghost var post := ToolPost(State(), ip, port, index, [codec.dumps(sorted[k])]);
      assert |net.requests| == |r0| + k;
      assert Texts(codec, [sorted[k]]) == [codec.dumps(sorted[k])];
      answer := SendLogs(codec, [sorted[k]], ip, port, index);
      ToolPostsSnoc(State(), ip, port, index, codec, sorted, k);
      AppendAssoc(r0, posts, [post]);
    }
  }
}
