/**
 * JSON values as Python's `json` module hands them to the replay tools
 * (RFC 8259 values: objects become dicts, arrays lists, numbers int or float),
 * and the dict operations the tools apply to them. The text codec itself
 * (`json.dumps`, `json.loads`, `JSONDecoder.raw_decode`) is a parameter.
 */
module JsonValues {
  import opened Wrappers
  import opened Text

  /** A decoded JSON value; an object keeps its keys in insertion order, as a Python dict does. */
  datatype Json =
    | Null
    | Bool(b: bool)
    | Int(i: int)
    | Float(x: real)
    | Str(s: string)
    | Arr(items: seq<Json>)
    | Obj(fields: seq<(string, Json)>)

  /** The JSON text codec: `json.dumps`, `json.loads` and `JSONDecoder().raw_decode`. */
  datatype Codec = Codec(
    dumps: Json -> string,
    loads: string -> Option<Json>,
    rawDecode: string -> Option<(Json, nat)>)

  /** `raw_decode` either fails or consumes a non-empty prefix of its input. */
  ghost predicate LawfulDecoder(codec: Codec)
  {
    forall s :: codec.rawDecode(s).Some? ==> 0 < codec.rawDecode(s).value.1 <= |s|
  }

  /** `loads` reads back what `dumps` writes. */
  ghost predicate RoundTrips(codec: Codec)
  {
    forall j :: codec.loads(codec.dumps(j)) == Some(j)
  }

  /** The keys of a dict, in insertion order. */
  function Keys(fields: seq<(string, Json)>): (r: seq<string>)
    ensures |r| == |fields|
  {
    if fields == [] then [] else [fields[0].0] + Keys(fields[1..])
  }

  lemma {:induction false} KeysAt(fields: seq<(string, Json)>, i: nat)
    requires i < |fields|
    ensures Keys(fields)[i] == fields[i].0
  {
    if i > 0 {
      KeysAt(fields[1..], i - 1);
    }
  }

  /** `d[k]` on a dict: the value stored under key k, or `None` where Python raises `KeyError`. */
  function Lookup(fields: seq<(string, Json)>, k: string): (r: Option<Json>)
    ensures r.Some? <==> k in Keys(fields)
  {
    if fields == [] then None
    else if fields[0].0 == k then Some(fields[0].1)
    else Lookup(fields[1..], k)
  }

  /** What `d[k]` finds is the value of an entry stored under k. */
  lemma {:induction false} LookupFound(fields: seq<(string, Json)>, k: string)
    requires Lookup(fields, k).Some?
    ensures exists i :: 0 <= i < |fields| && fields[i] == (k, Lookup(fields, k).value)
  {
    if fields[0].0 != k {
      LookupFound(fields[1..], k);
      var i :| 0 <= i < |fields[1..]| && fields[1..][i] == (k, Lookup(fields, k).value);
      assert fields[i + 1] == fields[1..][i];
    } else {
      assert fields[0] == (k, Lookup(fields, k).value);
    }
  }

  /** `d[k] = v`: an existing key keeps its place and takes the new value; a new key goes last. */
  function Put(fields: seq<(string, Json)>, k: string, v: Json): (r: seq<(string, Json)>)
    ensures Keys(r) == if k in Keys(fields) then Keys(fields) else Keys(fields) + [k]
  {
    if fields == [] then [(k, v)]
    else if fields[0].0 == k then [(k, v)] + fields[1..]
    else [fields[0]] + Put(fields[1..], k, v)
  }

  /** No key occurs twice, as in a Python dict. */
  predicate DistinctKeys(fields: seq<(string, Json)>)
  {
    forall i, j :: 0 <= i < j < |fields| ==> fields[i].0 != fields[j].0
  }

  /** `d[k] = v` keeps the keys of a dict distinct. */
  lemma PutDistinct(fields: seq<(string, Json)>, k: string, v: Json)
    requires DistinctKeys(fields)
    ensures DistinctKeys(Put(fields, k, v))
  {
    var r := Put(fields, k, v);
    forall i | 0 <= i < |r|
      ensures r[i].0 == Keys(r)[i]
    {
      KeysAt(r, i);
    }
    forall i | 0 <= i < |fields|
      ensures fields[i].0 == Keys(fields)[i]
    {
      KeysAt(fields, i);
    }
  }

  /** After `d[k] = v`, k maps to v and every other key keeps its value. */
  lemma {:induction false} PutLookup(fields: seq<(string, Json)>, k: string, v: Json, k': string)
    ensures Lookup(Put(fields, k, v), k') == if k' == k then Some(v) else Lookup(fields, k')
  {
    if fields != [] && fields[0].0 != k {
      PutLookup(fields[1..], k, v, k');
      assert Put(fields, k, v)[1..] == Put(fields[1..], k, v);
    } else if fields != [] {
      assert Put(fields, k, v)[1..] == fields[1..];
    }
  }

  /** Python's `k in j` for a JSON value, or an error where Python raises `TypeError`. */
  function Member(j: Json, k: string): (r: Result<bool, string>)
    ensures j.Obj? ==> r == Ok(k in Keys(j.fields))
    ensures r.Err? <==> !(j.Obj? || j.Arr? || j.Str?)
  {
    match j
    case Obj(fields) => Ok(k in Keys(fields))
    case Arr(items) => Ok(Str(k) in items)
    case Str(s) => Ok(Text.Contains(s, k))
    case _ => Err("TypeError: argument of type is not iterable")
  }

  /** Python's `j[k]` with a string key, or an error (`KeyError` on a dict, `TypeError` on anything else). */
  function Index(j: Json, k: string): (r: Result<Json, string>)
    ensures r.Ok? <==> j.Obj? && k in Keys(j.fields)
    ensures r.Ok? ==> Lookup(j.fields, k) == Some(r.value)
  {
    if j.Obj? then
      match Lookup(j.fields, k)
      case Some(v) => Ok(v)
      case None => Err("KeyError")
    else Err("TypeError: indices must be integers")
  }
}
