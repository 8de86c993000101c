/**
 * The regular expression both log controllers use to find timestamps,
 * `\d{4}-\d{2}-\d{2}T\d{2}:\d{2}:\d{2}.\d{3}Z`: a fixed-width pattern of 24
 * characters whose only wildcard is the `.` at offset 19 (any character but a
 * newline). `re.finditer` and `re.match` over it are modelled here.
 */
module StampPattern {
  import opened Text

  const Width: nat := 24

  /** The character class of the pattern at offset i. */
  predicate ClassAt(i: nat, c: char)
    requires i < Width
  {
    if i == 4 || i == 7 then c == '-'
    else if i == 10 then c == 'T'
    else if i == 13 || i == 16 then c == ':'
    else if i == 19 then c != '\n'
    else if i == 23 then c == 'Z'
    else IsDigit(c)
  }

  /** The pattern matches the whole of `m`. */
  predicate MatchText(m: string)
  {
    |m| == Width && forall i :: 0 <= i < Width ==> ClassAt(i, m[i])
  }

  /** The pattern matches `s` at offset p. */
  predicate MatchAt(s: string, p: nat)
  {
    p + Width <= |s| && MatchText(s[p..p + Width])
  }

  /** `re.match(pattern, s)` succeeds: the pattern matches at the start; what follows is not looked at. */
  predicate MatchStart(s: string)
  {
    MatchAt(s, 0)
  }

  /**
   * `re.finditer(pattern, s)` scanning from offset p: the start offsets of the
   * matches, left to right, a new search beginning where the last match ended.
   */
  function FindAll(s: string, p: nat): (r: seq<nat>)
    ensures forall k :: 0 <= k < |r| ==> p <= r[k] && MatchAt(s, r[k])
    ensures forall k :: 0 <= k < |r| - 1 ==> r[k] + Width <= r[k + 1]
    decreases |s| - p
  {
    if p + Width > |s| then []
    else if MatchAt(s, p) then [p] + FindAll(s, p + Width)
    else FindAll(s, p + 1)
  }

  /** The matched texts, in scan order (the `j.group(0)` values of the loop). */
  function Matches(s: string): (r: seq<string>)
    ensures forall k :: 0 <= k < |r| ==> |r[k]| == Width && MatchAt(r[k], 0)
  {
    var offsets := FindAll(s, 0);
    seq(|offsets|, k requires 0 <= k < |offsets| => s[offsets[k]..offsets[k] + Width])
  }

  /**
   * `finditer` misses nothing: every offset at which the pattern matches is
   * either reported or lies inside a reported match.
   */
  lemma {:induction false} FindAllComplete(s: string, p: nat, q: nat)
    requires p <= q && MatchAt(s, q)
    ensures exists k :: 0 <= k < |FindAll(s, p)| && FindAll(s, p)[k] <= q < FindAll(s, p)[k] + Width
    decreases |s| - p
  {
    var r := FindAll(s, p);
    if MatchAt(s, p) {
      if q >= p + Width {
        FindAllComplete(s, p + Width, q);
        var k :| 0 <= k < |FindAll(s, p + Width)| && FindAll(s, p + Width)[k] <= q < FindAll(s, p + Width)[k] + Width;
        assert r[k + 1] == FindAll(s, p + Width)[k];
      } else {
        assert r[0] == p;
      }
    } else {
      FindAllComplete(s, p + 1, q);
    }
  }

  /** A text with no match yields no matches. */
  lemma {:induction false} FindAllNone(s: string, p: nat)
    requires forall q :: p <= q ==> !MatchAt(s, q)
    ensures FindAll(s, p) == []
    decreases |s| - p
  {
    if p + Width <= |s| {
      FindAllNone(s, p + 1);
    }
  }
}
