/**
 * What the two log controllers share: splitting a log dump into JSON records
 * (`parse_logs`), the Elasticsearch bulk request body and the URLs
 * (`send_logs`, `clear_index`), the printed form of an HTTP response, and
 * the cancellation signal of the engine's worker threads.
 */
module LogReplay {
  import opened Wrappers
  import opened Text
  import opened JsonValues

  // ---------------------------------------------------------------- cancellation

  /**
   * When the worker's `threading.Event` is seen set: already set when the
   * operation starts, or set by another thread before poll number `atPoll`.
   * Once set it stays set.
   */
  datatype Cancel = Cancel(setBefore: bool, atPoll: Option<nat>)

  const NoCancel := Cancel(false, None)

  predicate Fires(cancel: Cancel, k: nat)
  {
    cancel.setBefore || (cancel.atPoll.Some? && cancel.atPoll.value <= k)
  }

  /** The number of items processed by a loop that polls once before each of n items. */
  function Cutoff(cancel: Cancel, n: nat): (k: nat)
    ensures k <= n
    ensures forall i :: 0 <= i < k ==> !Fires(cancel, i)
    ensures k < n ==> Fires(cancel, k)
    ensures cancel == NoCancel ==> k == n
  {
    if cancel.setBefore then 0
    else if cancel.atPoll.Some? && cancel.atPoll.value < n then cancel.atPoll.value
    else n
  }

  // ---------------------------------------------------------------- parse_logs

  function Prepend(v: Json, rest: Option<seq<Json>>): Option<seq<Json>>
  {
    if rest.Some? then Some([v] + rest.value) else None
  }

  /**
   * The `raw_decode` loop over one stripped line: values decoded back to back
   * until the position reaches the end of the line; `None` where Python raises.
   */
  function DecodeLine(codec: Codec, line: string): (r: Option<seq<Json>>)
    requires LawfulDecoder(codec)
    ensures r.Some? ==> |r.value| <= |line|
    decreases |line|
  {
    if line == [] then Some([])
    else match codec.rawDecode(line)
      case None => None
      case Some((v, n)) => Prepend(v, DecodeLine(codec, line[n..]))
  }

  function Concat(segs: seq<string>): string
  {
    if segs == [] then [] else segs[0] + Concat(segs[1..])
  }

  /**
   * `segs` cuts `line` into consecutive pieces, the k-th of which `raw_decode`
   * reads, from its start to the end of the line, as exactly the value vs[k].
   */
  ghost predicate Segmentation(codec: Codec, line: string, vs: seq<Json>, segs: seq<string>)
  {
    && |segs| == |vs| && Concat(segs) == line
    && forall k :: 0 <= k < |vs| ==> codec.rawDecode(Concat(segs[k..])) == Some((vs[k], |segs[k]|))
  }

  lemma SegmentationCons(codec: Codec, line: string, n: nat, v: Json, rest: seq<Json>, segs': seq<string>)
    requires 0 < n <= |line| && codec.rawDecode(line) == Some((v, n))
    requires Segmentation(codec, line[n..], rest, segs')
    ensures Segmentation(codec, line, [v] + rest, [line[..n]] + segs')
  {
    var vs, segs := [v] + rest, [line[..n]] + segs';
    assert segs[1..] == segs';
    assert line == line[..n] + line[n..];
    assert Concat(segs) == line;
    forall k | 0 <= k < |vs|
      ensures codec.rawDecode(Concat(segs[k..])) == Some((vs[k], |segs[k]|))
    {
      if k > 0 {
        assert segs[k..] == segs'[k - 1..];
      } else {
        assert segs[k..] == segs;
      }
    }
  }

  /** The pieces the `raw_decode` loop cuts the line into. */
  ghost function Pieces(codec: Codec, line: string): seq<string>
    requires LawfulDecoder(codec)
    decreases |line|
  {
    if line == [] then []
    else match codec.rawDecode(line)
      case None => []
      case Some((_, n)) => [line[..n]] + Pieces(codec, line[n..])
  }

  /** What the loop decodes is a segmentation of the line, read back to back. */
  lemma DecodeLineSegments(codec: Codec, line: string)
    requires LawfulDecoder(codec) && DecodeLine(codec, line).Some?
    ensures exists segs :: Segmentation(codec, line, DecodeLine(codec, line).value, segs)
  {
    PiecesSegment(codec, line);
  }

  lemma {:induction false} PiecesSegment(codec: Codec, line: string)
    requires LawfulDecoder(codec) && DecodeLine(codec, line).Some?
    ensures Segmentation(codec, line, DecodeLine(codec, line).value, Pieces(codec, line))
    decreases |line|
  {
    if line == [] {
      assert Segmentation(codec, line, [], []);
    } else {
      var d := codec.rawDecode(line);
      var v, n := d.value.0, d.value.1;
      var rest := DecodeLine(codec, line[n..]);
      assert DecodeLine(codec, line) == Prepend(v, rest);
      assert Pieces(codec, line) == [line[..n]] + Pieces(codec, line[n..]);
      PiecesSegment(codec, line[n..]);
      SegmentationCons(codec, line, n, v, rest.value, Pieces(codec, line[n..]));
    }
  }

  /** Conversely, any segmentation of the line is the one the loop finds. */
  lemma {:induction false} SegmentsDecodeLine(codec: Codec, line: string, vs: seq<Json>, segs: seq<string>)
    requires LawfulDecoder(codec) && Segmentation(codec, line, vs, segs)
    ensures DecodeLine(codec, line) == Some(vs)
    decreases |segs|
  {
    if segs != [] {
      assert segs[0..] == segs;
      var n := |segs[0]|;
      var rest := Concat(segs[1..]);
      assert line == segs[0] + rest;
      assert codec.rawDecode(line) == Some((vs[0], n));
      assert line[n..] == rest;
      SegmentationTail(codec, line, vs, segs);
      SegmentsDecodeLine(codec, rest, vs[1..], segs[1..]);
      assert DecodeLine(codec, line) == Prepend(vs[0], DecodeLine(codec, rest));
      assert vs == [vs[0]] + vs[1..];
    }
  }

  /** Dropping the first piece leaves a segmentation of the rest of the line. */
  lemma SegmentationTail(codec: Codec, line: string, vs: seq<Json>, segs: seq<string>)
    requires Segmentation(codec, line, vs, segs) && segs != []
    ensures Segmentation(codec, Concat(segs[1..]), vs[1..], segs[1..])
  {
    forall k | 0 <= k < |vs| - 1
      ensures codec.rawDecode(Concat(segs[1..][k..])) == Some((vs[1..][k], |segs[1..][k]|))
    {
      assert segs[1..][k..] == segs[k + 1..];
    }
  }

  /** Every line of the file, stripped and decoded, in file order; `None` where Python raises. */
  function DecodeLines(codec: Codec, lines: seq<string>): Option<seq<Json>>
    requires LawfulDecoder(codec)
  {
    if lines == [] then Some([])
    else
      match DecodeLines(codec, lines[..|lines| - 1])
      case None => None
      case Some(vs) =>
        match DecodeLine(codec, Strip(lines[|lines| - 1]))
        case None => None
        case Some(ws) => Some(vs + ws)
  }

  /** The records with every `""` value removed (the `while "" in all_logs` loop). */
  function DropEmpty(vs: seq<Json>): (r: seq<Json>)
    ensures Str("") !in r && |r| <= |vs|
    ensures forall v :: v in r <==> v in vs && v != Str("")
  {
    if vs == [] then []
    else if vs[|vs| - 1] == Str("") then DropEmpty(vs[..|vs| - 1])
    else DropEmpty(vs[..|vs| - 1]) + [vs[|vs| - 1]]
  }

  lemma {:induction false} DropEmptyAppend(a: seq<Json>, b: seq<Json>)
    ensures DropEmpty(a + b) == DropEmpty(a) + DropEmpty(b)
    decreases |b|
  {
    if b == [] {
      assert a + b == a;
    } else {
      assert (a + b)[..|a + b| - 1] == a + b[..|b| - 1];
      DropEmptyAppend(a, b[..|b| - 1]);
    }
  }

  /** `list.remove(x)`: the list without its first occurrence of x. */
  function RemoveFirst(vs: seq<Json>, x: Json): (r: seq<Json>)
    requires x in vs
    ensures |r| == |vs| - 1
  {
    if vs[0] == x then vs[1..] else [vs[0]] + RemoveFirst(vs[1..], x)
  }

  /** Removing one `""` leaves the same records once all `""` are gone. */
  lemma {:induction false} DropEmptyRemoveFirst(vs: seq<Json>)
    requires Str("") in vs
    ensures DropEmpty(RemoveFirst(vs, Str(""))) == DropEmpty(vs)
  {
    assert vs == [vs[0]] + vs[1..];
    DropEmptyAppend([vs[0]], vs[1..]);
    if vs[0] != Str("") {
      DropEmptyRemoveFirst(vs[1..]);
      DropEmptyAppend([vs[0]], RemoveFirst(vs[1..], Str("")));
    } else {
      assert DropEmpty([vs[0]]) == [];
    }
  }

  /** The result of `parse_logs` on the lines of a file, or `None` where Python raises. */
  function ParsedLogs(codec: Codec, lines: seq<string>): (r: Option<seq<Json>>)
    requires LawfulDecoder(codec)
    ensures r.None? <==> DecodeLines(codec, lines).None?
    ensures r.Some? ==> Str("") !in r.value && |r.value| <= |DecodeLines(codec, lines).value|
  {
    match DecodeLines(codec, lines)
    case None => None
    case Some(vs) => Some(DropEmpty(vs))
  }

  // ---------------------------------------------------------------- the parse loop

  /**
   * The loop of `parse_logs` over the file's lines, the Event being polled
   * before each line; `None` where a line fails to decode.
   */
  method ParseLines(codec: Codec, lines: seq<string>, cancel: Cancel) returns (r: Option<seq<Json>>)
    requires LawfulDecoder(codec)
    ensures r == ParsedLogs(codec, lines[..Cutoff(cancel, |lines|)])
  {
    var all: seq<Json> := [];
    var k := 0;
    while k < |lines|
      invariant k <= Cutoff(cancel, |lines|)
      invariant DecodeLines(codec, lines[..k]).Some?
      invariant all == DropEmpty(DecodeLines(codec, lines[..k]).value)
      decreases |lines| - k
    {
      if Fires(cancel, k) {
        break;
      }
      var next := ParseLine(codec, lines, k, all);
      if next.None? {
        DecodeLinesFail(codec, lines, k);
        return None;
      }
      all := next.value;
      k := k + 1;
    }
    assert k == Cutoff(cancel, |lines|);
    r := Some(all);
  }

  /**
   * One pass of the `parse_logs` loop: decode line k and add its values to
   * `all`, the values of the lines before it, then drop every `""` again.
   */
  method ParseLine(codec: Codec, lines: seq<string>, k: nat, all: seq<Json>) returns (r: Option<seq<Json>>)
    requires LawfulDecoder(codec) && k < |lines|
    requires DecodeLines(codec, lines[..k]).Some? && all == DropEmpty(DecodeLines(codec, lines[..k]).value)
    ensures r.None? <==> DecodeLine(codec, Strip(lines[k])).None?
    ensures r.Some? ==> DecodeLines(codec, lines[..k + 1]).Some? && r.value == DropEmpty(DecodeLines(codec, lines[..k + 1]).value)
  {
    var got := DecodeStripped(codec, Strip(lines[k]));
    if got.None? {
      return None;
    }
    DecodeLinesStep(codec, lines, k);
    DropEmptyAppend(DecodeLines(codec, lines[..k]).value, got.value);
    DropEmptyAppend(all, got.value);
    DropEmptyNoop(all);
    var kept := RemoveEmpties(all + got.value);
    r := Some(kept);
  }

  /** The `raw_decode` loop over one stripped line; `None` where it raises. */
  method DecodeStripped(codec: Codec, line: string) returns (r: Option<seq<Json>>)
    requires LawfulDecoder(codec)
    ensures r == DecodeLine(codec, line)
  {
    var pos := 0;
    var got: seq<Json> := [];
    DecodeFrom(codec, line, 0, []);
    while pos != |line|
      invariant pos <= |line|
      invariant DecodeLine(codec, line) == Glue(got, DecodeLine(codec, line[pos..]))
      decreases |line| - pos
    {
      var d := codec.rawDecode(line[pos..]);
      if d.None? {
        return None;
      }
      var (v, n) := d.value;
      DecodeNext(codec, line, pos, got, v, n);
      got := got + [v];
      pos := pos + n;
    }
    assert line[pos..] == [];
    assert got + [] == got;
    r := Some(got);
  }

  /** Before the loop: nothing decoded yet, the whole line ahead. */
  lemma DecodeFrom(codec: Codec, line: string, pos: nat, got: seq<Json>)
    requires LawfulDecoder(codec) && pos == 0 && got == []
    ensures DecodeLine(codec, line) == Glue(got, DecodeLine(codec, line[pos..]))
  {
    assert line[0..] == line;
    if DecodeLine(codec, line).Some? {
      assert got + DecodeLine(codec, line).value == DecodeLine(codec, line).value;
    }
  }

  /** One value decoded at pos: the loop goes on from pos + n with the value appended. */
  lemma DecodeNext(codec: Codec, line: string, pos: nat, got: seq<Json>, v: Json, n: nat)
    requires LawfulDecoder(codec) && pos < |line| && codec.rawDecode(line[pos..]) == Some((v, n))
    ensures pos + n <= |line|
    ensures Glue(got, DecodeLine(codec, line[pos..])) == Glue(got + [v], DecodeLine(codec, line[pos + n..]))
  {
    assert 0 < n <= |line[pos..]|;
    assert line[pos..][n..] == line[pos + n..];
    var rest := DecodeLine(codec, line[pos + n..]);
    assert DecodeLine(codec, line[pos..]) == Prepend(v, rest);
    if rest.Some? {
      assert got + ([v] + rest.value) == (got + [v]) + rest.value;
    }
  }

  /** `while "" in all_logs: all_logs.remove("")`. */
  method RemoveEmpties(vs: seq<Json>) returns (r: seq<Json>)
    ensures r == DropEmpty(vs)
  {
    r := vs;
    while Str("") in r
      invariant DropEmpty(r) == DropEmpty(vs)
      decreases |r|
    {
      DropEmptyRemoveFirst(r);
      r := RemoveFirst(r, Str(""));
    }
    DropEmptyNoop(r);
  }

  function Glue(got: seq<Json>, rest: Option<seq<Json>>): Option<seq<Json>>
  {
    if rest.Some? then Some(got + rest.value) else None
  }

  lemma DecodeLinesStep(codec: Codec, lines: seq<string>, k: nat)
    requires LawfulDecoder(codec) && k < |lines|
    ensures DecodeLines(codec, lines[..k + 1]) ==
      match DecodeLines(codec, lines[..k])
      case None => None
      case Some(vs) =>
        match DecodeLine(codec, Strip(lines[k]))
        case None => None
        case Some(ws) => Some(vs + ws)
  {
    assert lines[..k + 1][..k] == lines[..k];
  }

  /** A line that fails to decode makes every longer prefix fail. */
  lemma DecodeLinesFail(codec: Codec, lines: seq<string>, k: nat)
    requires LawfulDecoder(codec) && k < |lines|
    requires DecodeLine(codec, Strip(lines[k])).None?
    ensures forall n :: k < n <= |lines| ==> DecodeLines(codec, lines[..n]).None?
  {
    forall n | k < n <= |lines|
      ensures DecodeLines(codec, lines[..n]).None?
    {
      DecodeLinesFrom(codec, lines, k, n);
    }
  }

  lemma {:induction false} DecodeLinesFrom(codec: Codec, lines: seq<string>, k: nat, n: nat)
    requires LawfulDecoder(codec) && k < n <= |lines|
    requires DecodeLine(codec, Strip(lines[k])).None?
    ensures DecodeLines(codec, lines[..n]).None?
    decreases n
  {
    DecodeLinesStep(codec, lines, n - 1);
    assert lines[..n - 1 + 1] == lines[..n];
    if n - 1 > k {
      DecodeLinesFrom(codec, lines, k, n - 1);
    }
  }

  lemma {:induction false} DropEmptyNoop(vs: seq<Json>)
    requires Str("") !in vs
    ensures DropEmpty(vs) == vs
  {
    if vs != [] {
      var init := vs[..|vs| - 1];
      assert Str("") !in init by {
        forall v | v in init
          ensures v in vs
        {
          var i :| 0 <= i < |init| && init[i] == v;
          assert vs[i] == v;
        }
      }
      DropEmptyNoop(init);
      assert vs == init + [vs[|vs| - 1]];
    }
  }

  // ---------------------------------------------------------------- send_logs and clear_index

  /** One section of a config file, option names as `configparser` stores them. */
  type Section = map<string, string>

  /** A config file as `configparser` reads it: section name to section (empty when the file is missing). */
  type Config = map<string, Section>

  /** The texts of the records, as `json.dumps` writes them. */
  function Texts(codec: Codec, logs: seq<Json>): (r: seq<string>)
    ensures |r| == |logs|
  {
    seq(|logs|, k requires 0 <= k < |logs| => codec.dumps(logs[k]))
  }

  /** The action line that precedes every record in a bulk request. */
  function IndexHeader(index: string): string
  {
    "{\"index\": {\"_index\": \"" + index + "\"}}"
  }

  /** The `actions` list: a header line, then the record's text, for every record. */
  function Actions(index: string, texts: seq<string>): (r: seq<string>)
    ensures |r| == 2 * |texts|
    ensures forall k :: 0 <= k < |texts| ==> r[2 * k] == IndexHeader(index) && r[2 * k + 1] == texts[k]
  {
    if texts == [] then []
    else
      var r := Actions(index, texts[..|texts| - 1]) + [IndexHeader(index), texts[|texts| - 1]];
      r
  }

  /**
   * The request body: the actions joined by newlines, and one newline at the
   * end. For N records it is 2N newline-terminated lines, header and record
   * alternating; with no record it is a single newline.
   */
  function BulkBody(index: string, texts: seq<string>): (r: string)
    ensures texts == [] ==> r == "\n"
    ensures texts != [] ==> r == Terminated("\n", Actions(index, texts))
  {
    Join("\n", Actions(index, texts)) + "\n"
  }

  /**
   * The body `send_logs` builds: the `actions` list filled record by record,
   * joined by newlines, with the final newline the bulk API requires.
   */
  method BuildBody(codec: Codec, logs: seq<Json>, index: string) returns (body: string)
    ensures body == BulkBody(index, Texts(codec, logs))
  {
    ghost var texts := Texts(codec, logs);
    var actions: seq<string> := [];
    var k := 0;
    while k < |logs|
      invariant k <= |logs|
      invariant actions == Actions(index, texts[..k])
    {
      assert texts[..k + 1][..k] == texts[..k] && texts[k] == codec.dumps(logs[k]);
      actions := actions + [IndexHeader(index), codec.dumps(logs[k])];
      k := k + 1;
    }
    assert texts[..|logs|] == texts;
    body := Join("\n", actions) + "\n";
  }

  function Scheme(security: bool): string
  {
    if security then "https://" else "http://"
  }

  /** The bulk endpoint: `https://` exactly when security is on, then `ip:port/_bulk/?pretty`. */
  function BulkUrl(security: bool, ip: string, port: string): string
  {
    Scheme(security) + ip + ":" + port + "/_bulk/?pretty"
  }

  /** The endpoint that deletes an index. */
  function ClearUrl(security: bool, ip: string, port: string, index: string): (r: string)
    ensures HasPrefix(r, "https://") <==> security
  {
    var u := Scheme(security) + ip + ":" + port + "/" + index + "?pretty";
    assert !security ==> u[4] == ':';
    u
  }

  predicate HasPrefix(s: string, p: string) { |p| <= |s| && s[..|p|] == p }

  predicate HasSuffix(s: string, p: string) { |p| <= |s| && s[|s| - |p|..] == p }

  /** Reads a bulk URL back into its scheme and its `host:port` part. */
  function ParseBulkUrl(u: string): Option<(bool, string)>
  {
    var tail := "/_bulk/?pretty";
    if HasPrefix(u, "https://") && HasSuffix(u, tail) && |u| >= 8 + |tail| then
      Some((true, u[8..|u| - |tail|]))
    else if HasPrefix(u, "http://") && HasSuffix(u, tail) && |u| >= 7 + |tail| then
      Some((false, u[7..|u| - |tail|]))
    else None
  }

  lemma BulkUrlRoundTrip(security: bool, ip: string, port: string)
    ensures ParseBulkUrl(BulkUrl(security, ip, port)) == Some((security, ip + ":" + port))
  {
    var u := BulkUrl(security, ip, port);
    var tail := "/_bulk/?pretty";
    assert u == Scheme(security) + (ip + ":" + port) + tail;
    if !security {
      assert u[4] == ':';
      assert !HasPrefix(u, "https://");
    }
  }

  /** Reads back the index a clear URL deletes, for a known scheme and address. */
  function ClearedIndex(u: string, security: bool, ip: string, port: string): Option<string>
  {
    var head := Scheme(security) + ip + ":" + port + "/";
    if HasPrefix(u, head) && HasSuffix(u, "?pretty") && |u| >= |head| + 7 then
      Some(u[|head|..|u| - 7])
    else None
  }

  /** The clear URL names the index it was built from, so distinct indexes give distinct URLs. */
  lemma ClearUrlRoundTrip(security: bool, ip: string, port: string, index: string)
    ensures ClearedIndex(ClearUrl(security, ip, port, index), security, ip, port) == Some(index)
  {
    var head := Scheme(security) + ip + ":" + port + "/";
    assert ClearUrl(security, ip, port, index) == head + index + "?pretty";
  }

  /** Two clear URLs on the same address are equal only when they delete the same index. */
  lemma ClearUrlInjective(security: bool, ip: string, port: string, a: string, b: string)
    ensures ClearUrl(security, ip, port, a) == ClearUrl(security, ip, port, b) <==> a == b
  {
    ClearUrlRoundTrip(security, ip, port, a);
    ClearUrlRoundTrip(security, ip, port, b);
  }

  // ---------------------------------------------------------------- HTTP replies

  /** The outcome of one HTTP request: a response with its status code, or an exception. */
  datatype Reply = Response(status: int) | Raised(message: string)

  /** `str(response)` of a `requests` response. */
  function ResponseText(status: int): (r: string)
    ensures r == "<Response [200]>" <==> status == 200
  {
    StatusDigits(status);
    Bracketed(IntToString(status));
    "<Response [" + IntToString(status) + "]>"
  }

  lemma StatusDigits(status: int)
    ensures IntToString(status) == "200" <==> status == 200
  {
    if IntToString(status) == "200" {
      assert Value("200") == 200;
    }
  }

  lemma Bracketed(digits: string)
    ensures "<Response [" + digits + "]>" == "<Response [200]>" <==> digits == "200"
  {
    var p := "<Response [";
    if p + digits + "]>" == "<Response [200]>" {
      assert p + digits + "]>" == p + "200" + "]>";
      assert digits == (p + digits + "]>")[|p|..|p| + |digits|];
    }
  }

  /** The error-queue form of a message (`Log_Controller.error`). */
  function ErrorLine(message: string): string
  {
    "[!] " + message
  }
}
