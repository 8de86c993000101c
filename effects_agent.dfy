/**
 * `Effects_Agent`: the worker that runs one effect's commands on its agents
 * over SSH. Modelled here: the constructor, which pads the credential and
 * destination lists of the effect's row in place (the lists are shared with
 * the scenario table, so the padding persists there); the command wrapper
 * that makes the remote shell print its PID first; and the loop that relays
 * the command's output chunks, tagging the first one as the PID.
 */
module EffectsAgents {
  import opened Wrappers
  import opened Text
  import opened LogReplay
  import opened Shared

  /** A Python list of strings that several objects may hold. */
  class PyList {
    var items: seq<string>

    constructor (items: seq<string>)
      ensures this.items == items
    {
      this.items := items;
    }
  }

  /** An effects table row: column name to cell list. */
  type Row = map<string, PyList>

  /** The columns the constructor reads, in the order it reads them. */
  const Columns: seq<string> := ["effect_command", "agent_username", "agent_ip", "agent_password", "effect_file", "effect_file_destination"]

  /** Every cell of the row is a list of its own, as the table reader builds them. */
  predicate OwnLists(row: Row)
  {
    forall a, b :: a in row && b in row && a != b ==> row[a] != row[b]
  }

  /** The first column of `Columns` missing from the row, if any: the `KeyError` the constructor raises. */
  function MissingColumn(row: Row): (r: Option<string>)
    ensures r.None? <==> forall c :: c in Columns ==> c in row
    ensures r.Some? ==> r.value in Columns && r.value !in row
  {
    if Columns[0] !in row then Some(Columns[0])
    else if Columns[1] !in row then Some(Columns[1])
    else if Columns[2] !in row then Some(Columns[2])
    else if Columns[3] !in row then Some(Columns[3])
    else if Columns[4] !in row then Some(Columns[4])
    else if Columns[5] !in row then Some(Columns[5])
    else None
  }

  // ---------------------------------------------------------------- padding

  /** xs extended to length n with copies of its last entry. */
  function Pad(xs: seq<string>, n: nat): (r: seq<string>)
    requires xs != []
    ensures |r| == if n > |xs| then n else |xs|
    ensures r[..|xs|] == xs
    ensures forall k :: |xs| <= k < |r| ==> r[k] == xs[|xs| - 1]
  {
    if n > |xs| then xs + seq(n - |xs|, _ => xs[|xs| - 1]) else xs
  }

  /**
   * One padding step: when n exceeds the length, `xs[0]` is read (raising on
   * an empty list) and the list is padded; otherwise it is left alone. The
   * `elif` branches that would report a missing entry compare the list with
   * `None` and `''`, which a list never equals, so they never run.
   */
  function PadTo(xs: seq<string>, n: nat): (r: Option<seq<string>>)
    ensures r.None? <==> n > |xs| && xs == []
  {
    if n > |xs| then (if xs == [] then None else Some(Pad(xs, n))) else Some(xs)
  }

  /** The lists after the constructor's three padding steps, and the exception that stopped it, if any. */
  datatype PadResult = PadResult(username: seq<string>, password: seq<string>, dest: seq<string>, crash: Option<string>)

  const IndexError := "IndexError: list index out of range"

  function PadRow(username: seq<string>, agentIp: seq<string>, password: seq<string>,
                  files: seq<string>, dest: seq<string>): PadResult
  {
    match PadTo(username, |agentIp|)
    case None => PadResult(username, password, dest, Some(IndexError))
    case Some(u) =>
      match PadTo(password, |agentIp|)
      case None => PadResult(u, password, dest, Some(IndexError))
      case Some(p) =>
        match PadTo(dest, |files|)
        case None => PadResult(u, p, dest, Some(IndexError))
        case Some(d) => PadResult(u, p, d, None)
  }

  function MaxLen(a: nat, b: nat): nat { if a > b then a else b }

  /**
   * A construction that does not raise leaves usernames and passwords as
   * long as the agent list (or longer), and destinations as long as the file
   * list; the entries already there are kept and every new one repeats the
   * last old one.
   */
  lemma PaddingShape(username: seq<string>, agentIp: seq<string>, password: seq<string>,
                     files: seq<string>, dest: seq<string>)
    requires PadRow(username, agentIp, password, files, dest).crash.None?
    ensures var r := PadRow(username, agentIp, password, files, dest);
      && |r.username| == MaxLen(|username|, |agentIp|)
      && |r.password| == MaxLen(|password|, |agentIp|)
      && |r.dest| == MaxLen(|dest|, |files|)
      && r.username[..|username|] == username
      && r.password[..|password|] == password
      && r.dest[..|dest|] == dest
      && (forall k :: |username| <= k < |r.username| ==> r.username[k] == username[|username| - 1])
      && (forall k :: |password| <= k < |r.password| ==> r.password[k] == password[|password| - 1])
      && (forall k :: |dest| <= k < |r.dest| ==> r.dest[k] == dest[|dest| - 1])
  {
  }

  /** The constructor raises exactly when a list it must pad is empty. */
  lemma PaddingCrash(username: seq<string>, agentIp: seq<string>, password: seq<string>,
                     files: seq<string>, dest: seq<string>)
    ensures PadRow(username, agentIp, password, files, dest).crash.Some? <==>
      || (|agentIp| > |username| && username == [])
      || (|agentIp| > |password| && password == [])
      || (|files| > |dest| && dest == [])
  {
  }

  lemma PadTwice(xs: seq<string>, n: nat)
    requires xs != []
    ensures Pad(Pad(xs, n), n) == Pad(xs, n)
  {
  }

  /** Constructing a second agent over the same, already padded, lists changes nothing. */
  lemma PaddingIdempotent(username: seq<string>, agentIp: seq<string>, password: seq<string>,
                          files: seq<string>, dest: seq<string>)
    requires PadRow(username, agentIp, password, files, dest).crash.None?
    ensures var r := PadRow(username, agentIp, password, files, dest);
      PadRow(r.username, agentIp, r.password, files, r.dest) == r
  {
    var r := PadRow(username, agentIp, password, files, dest);
    PaddingShape(username, agentIp, password, files, dest);
    assert PadTo(r.username, |agentIp|) == Some(r.username);
    assert PadTo(r.password, |agentIp|) == Some(r.password);
    assert PadTo(r.dest, |files|) == Some(r.dest);
  }

  // ---------------------------------------------------------------- the command wrapper

  const WrapHead := "echo $$; exec bash -c '"

  /** The remote command line: print the shell's PID, then run the command in its place. */
  function Wrap(command: string): string
  {
    WrapHead + command + "'"
  }

  /** The command a wrapped line runs, if it is a wrapped line. */
  function Unwrap(line: string): Option<string>
  {
    if |line| > |WrapHead| && line[..|WrapHead|] == WrapHead && line[|line| - 1] == '\''
    then Some(line[|WrapHead|..|line| - 1])
    else None
  }

  lemma UnwrapWrap(command: string)
    ensures Unwrap(Wrap(command)) == Some(command)
  {
    var line := Wrap(command);
    assert line[..|WrapHead|] == WrapHead;
    assert line[|WrapHead|..|line| - 1] == command;
  }

  lemma WrapUnwrap(line: string)
    requires Unwrap(line).Some?
    ensures Wrap(Unwrap(line).value) == line
  {
    var c := Unwrap(line).value;
    assert line == line[..|WrapHead|] + c + [line[|line| - 1]];
  }

  // ---------------------------------------------------------------- relaying the output

  newtype Byte = x: int | 0 <= x < 256

  /** What one `channel.recv(1024)` gives: a `socket.timeout`, or bytes (none once the channel closes). */
  datatype Chunk = Timeout | Data(bytes: seq<Byte>)

  predicate IsAscii(b: seq<Byte>)
  {
    forall i :: 0 <= i < |b| ==> b[i] < 128
  }

  function DecodeAscii(b: seq<Byte>): (s: string)
    requires IsAscii(b)
    ensures |s| == |b| && forall i :: 0 <= i < |b| ==> s[i] as int == b[i] as int
  {
    seq(|b|, i requires 0 <= i < |b| => (b[i] as int) as char)
  }

  function TrimLeadingNewlines(s: string): (r: string)
    ensures |r| <= |s| && r == s[|s| - |r|..]
    ensures r == [] || r[0] != '\n'
    ensures forall i :: 0 <= i < |s| - |r| ==> s[i] == '\n'
  {
    if s != [] && s[0] == '\n' then TrimLeadingNewlines(s[1..]) else s
  }

  function TrimTrailingNewlines(s: string): (r: string)
    ensures |r| <= |s| && r == s[..|r|]
    ensures r == [] || r[|r| - 1] != '\n'
    ensures forall i :: |r| <= i < |s| ==> s[i] == '\n'
  {
    if s != [] && s[|s| - 1] == '\n' then TrimTrailingNewlines(s[..|s| - 1]) else s
  }

  /** `s.strip("\n")`. */
  function TrimNewlines(s: string): (r: string)
    ensures r == [] || (r[0] != '\n' && r[|r| - 1] != '\n')
    ensures exists i, j :: 0 <= i <= j <= |s| && r == s[i..j] && forall k :: 0 <= k < i || j <= k < |s| ==> s[k] == '\n'
  {
    var t := TrimLeadingNewlines(s);
    var i := |s| - |t|;
    var r := TrimTrailingNewlines(t);
    assert r == s[i..i + |r|];
    r
  }

  /** What a queued line starts with: the agent, and on the first line the PID label. */
  function TagHead(user: string, ip: string, first: bool): string
  {
    user + "@" + ip + " => " + (if first then "PID: " else "")
  }

  /** The queued line for one chunk of output; the first one is the PID. */
  function Tag(user: string, ip: string, first: bool, text: string): string
  {
    TagHead(user, ip, first) + text
  }

  /** What the output loop of one command did: the lines queued, and whether it ended in an exception. */
  datatype Relayed = Relayed(lines: seq<string>, failed: bool)

  /**
   * The output loop from chunk k on, having queued `lines` already (the next
   * line is the PID line while `pidLine` holds): the Event is polled before
   * each chunk;
   * a timeout is skipped, an empty chunk ends the loop, a chunk that is not
   * ASCII raises (the caller reports it), and the others are queued.
   */
  function Relay(user: string, ip: string, cancel: Cancel, chunks: seq<Chunk>, k: nat, pidLine: bool, lines: seq<string>): (r: Relayed)
    requires k <= |chunks|
    ensures lines <= r.lines && |r.lines| <= |lines| + |chunks| - k
    ensures TaggedLines(user, ip, lines) && pidLine == (lines == []) ==> TaggedLines(user, ip, r.lines)
    decreases |chunks| - k
  {
    if k == |chunks| || Fires(cancel, k) then Relayed(lines, false)
    else
      match chunks[k]
      case Timeout => Relay(user, ip, cancel, chunks, k + 1, pidLine, lines)
      case Data(b) =>
        if |b| == 0 then Relayed(lines, false)
        else if !IsAscii(b) then Relayed(lines, true)
        else
          var text := TrimNewlines(DecodeAscii(b));
          TagExtends(user, ip, lines, pidLine, text);
          Relay(user, ip, cancel, chunks, k + 1, false, lines + [Tag(user, ip, pidLine, text)])
  }

  predicate Tagged(user: string, ip: string, first: bool, line: string)
  {
    TagHead(user, ip, first) <= line
  }

  /** Lines tagged so far: the first carries the PID, and the rest are plain. */
  ghost predicate TaggedLines(user: string, ip: string, lines: seq<string>)
  {
    forall m :: 0 <= m < |lines| ==> Tagged(user, ip, m == 0, lines[m])
  }

  lemma TagExtends(user: string, ip: string, lines: seq<string>, pidLine: bool, text: string)
    ensures TaggedLines(user, ip, lines) && pidLine == (lines == []) ==>
      TaggedLines(user, ip, lines + [Tag(user, ip, pidLine, text)])
  {
    if TaggedLines(user, ip, lines) && pidLine == (lines == []) {
      var lines' := lines + [Tag(user, ip, pidLine, text)];
      forall m | 0 <= m < |lines'|
        ensures Tagged(user, ip, m == 0, lines'[m])
      {
        if m < |lines| {
          assert lines'[m] == lines[m];
        }
      }
    }
  }

  /** The message the agent queues when the SSH session fails. */
  function ConnectError(user: string, ip: string): string
  {
    "Could not connect to SSH on " + user + "@" + ip
  }

  // ---------------------------------------------------------------- the agent

  class EffectsAgent {
    const id: string
    const event: Event
    const messages: MessageQueue
    const errors: MessageQueue
    const commands: PyList
    const username: PyList
    const agentIp: PyList
    const password: PyList
    const scpFiles: PyList
    const scpFileDest: PyList

    constructor Init(id: string, row: Row, messages: MessageQueue, errors: MessageQueue)
      requires MissingColumn(row).None?
      ensures this.id == id && fresh(event) && !event.isSet
      ensures this.messages == messages && this.errors == errors
      ensures commands == row[Columns[0]] && username == row[Columns[1]] && agentIp == row[Columns[2]]
      ensures password == row[Columns[3]] && scpFiles == row[Columns[4]] && scpFileDest == row[Columns[5]]
    {
      this.id := id;
      this.messages := messages;
      this.errors := errors;
      event := new Event();
      commands := row[Columns[0]];
      username := row[Columns[1]];
      agentIp := row[Columns[2]];
      password := row[Columns[3]];
      scpFiles := row[Columns[4]];
      scpFileDest := row[Columns[5]];
    }

    /**
     * `Effects_Agent(Scenario, EFX_ID, q, error)`: look the row up, then pad
     * usernames and passwords to the number of agents and destinations to the
     * number of files, in the row's own lists. A missing row or column raises
     * `KeyError` before anything changes; an empty list that needs padding
     * raises `IndexError`, after the earlier padding steps took effect.
     */
    static method Create(effects: map<string, Row>, id: string, messages: MessageQueue, errors: MessageQueue)
      returns (r: Result<EffectsAgent, string>)
      requires id in effects ==> OwnLists(effects[id])
      modifies if id in effects then effects[id].Values else {}
      ensures id !in effects ==> r == Err("KeyError: " + id)
      ensures id in effects && MissingColumn(effects[id]).Some? ==>
        r == Err("KeyError: " + MissingColumn(effects[id]).value)
      ensures id in effects && MissingColumn(effects[id]).None? ==>
        var row := effects[id];
        var p := PadRow(old(row[Columns[1]].items), old(row[Columns[2]].items), old(row[Columns[3]].items),
                        old(row[Columns[4]].items), old(row[Columns[5]].items));
        && row[Columns[1]].items == p.username
        && row[Columns[3]].items == p.password
        && row[Columns[5]].items == p.dest
        && (forall c :: c in row && c != Columns[1] && c != Columns[3] && c != Columns[5] ==> row[c].items == old(row[c].items))
        && (p.crash.Some? ==> r == Err(p.crash.value))
        && (p.crash.None? ==>
              && r.Ok? && fresh(r.value) && r.value.id == id && !r.value.event.isSet
              && r.value.username == row[Columns[1]] && r.value.password == row[Columns[3]]
              && r.value.agentIp == row[Columns[2]] && r.value.scpFileDest == row[Columns[5]]
              && r.value.commands == row[Columns[0]] && r.value.scpFiles == row[Columns[4]]
              && r.value.messages == messages && r.value.errors == errors)
      ensures id in effects && MissingColumn(effects[id]).Some? ==>
        forall c :: c in effects[id] ==> effects[id][c].items == old(effects[id][c].items)
    {
      if id !in effects {
        return Err("KeyError: " + id);
      }
      var row := effects[id];
      var missing := MissingColumn(row);
      if missing.Some? {
        return Err("KeyError: " + missing.value);
      }
      var username, agentIp, password, files, dest := row[Columns[1]], row[Columns[2]], row[Columns[3]], row[Columns[4]], row[Columns[5]];
      var u := PadTo(username.items, |agentIp.items|);
      if u.None? {
        return Err(IndexError);
      }
      username.items := u.value;
      var p := PadTo(password.items, |agentIp.items|);
      if p.None? {
        return Err(IndexError);
      }
      password.items := p.value;
      var d := PadTo(dest.items, |files.items|);
      if d.None? {
        return Err(IndexError);
      }
      dest.items := d.value;
      var agent := new EffectsAgent.Init(id, row, messages, errors);
      r := Ok(agent);
    }

    /** `Stop()`: set the Event (joining the threads is not modelled). */
    method Stop()
      modifies event
      ensures event.isSet
    {
      event.Set();
    }

    /**
     * The output loop of one command on agent `user@ip`, over the chunks the
     * channel yields; another thread may set the Event before poll `setAt`.
     * A chunk that is not ASCII makes `decode` raise, and the handler reports
     * a failed connection.
     */
    method RelayOutput(user: string, ip: string, chunks: seq<Chunk>, setAt: Option<nat>)
      requires messages != errors
      modifies messages, errors
      ensures var out := Relay(user, ip, Cancel(event.isSet, setAt), chunks, 0, true, []);
        && messages.items == old(messages.items) + out.lines
        && errors.items == old(errors.items) + (if out.failed then [ConnectError(user, ip)] else [])
        && TaggedLines(user, ip, out.lines)
    {
      ghost var cancel := Cancel(event.isSet, setAt);
      ghost var out := Relay(user, ip, cancel, chunks, 0, true, []);
      assert TaggedLines(user, ip, out.lines);
      ghost var m0, e0 := messages.items, errors.items;
      var pidLine := true;
      var k := 0;
      ghost var lines: seq<string> := [];
      while k < |chunks|
        invariant k <= |chunks|
        invariant pidLine == (lines == [])
        invariant messages.items == m0 + lines
        invariant errors.items == e0
        invariant Relay(user, ip, cancel, chunks, k, pidLine, lines) == out
        decreases |chunks| - k
      {
        if event.isSet || (setAt.Some? && setAt.value <= k) {
          assert out == Relayed(lines, false);
          break;
        }
        var stop;
        stop, pidLine, lines := Feed(user, ip, cancel, chunks, k, pidLine, lines, out, m0, e0);
        if stop {
          return;
        }
        k := k + 1;
      }
    }

    /**
     * The output loop's body once the Event was polled: chunk k queues its
     * line, or ends the loop (reporting a failed connection where `decode`
     * raises).
     */
    method Feed(user: string, ip: string, ghost cancel: Cancel, chunks: seq<Chunk>, k: nat, pidLine: bool,
                ghost lines: seq<string>, ghost out: Relayed, ghost m0: seq<string>, ghost e0: seq<string>)
      returns (stop: bool, pidLine': bool, ghost lines': seq<string>)
      requires messages != errors && k < |chunks| && !Fires(cancel, k)
      requires pidLine == (lines == []) && Relay(user, ip, cancel, chunks, k, pidLine, lines) == out
      requires messages.items == m0 + lines && errors.items == e0
      modifies messages, errors
      ensures stop ==>
        && out.lines == lines && messages.items == m0 + lines
        && errors.items == e0 + (if out.failed then [ConnectError(user, ip)] else [])
      ensures !stop ==>
        && pidLine' == (lines' == []) && Relay(user, ip, cancel, chunks, k + 1, pidLine', lines') == out
        && messages.items == m0 + lines' && errors.items == e0
    {
      pidLine', lines' := pidLine, lines;
      match chunks[k] {
        case Timeout =>
          stop := false;
        case Data(b) =>
          if |b| == 0 {
            return true, pidLine, lines;
          }
          if !IsAscii(b) {
            errors.Put(ConnectError(user, ip));
            return true, pidLine, lines;
          }
          var line := Tag(user, ip, pidLine, TrimNewlines(DecodeAscii(b)));
          messages.Put(line);
          stop, pidLine', lines' := false, false, lines + [line];
      }
    }
  }
}
