/**
 * The bookkeeping of `Scenario_Engine`: the two registries of running
 * workers (`EFX_Commander_thread` and `Log_Controller_thread`), each entry
 * seen as its id and its `threading.Event`; the `trash_man` pass that drops
 * the finished ones; the two kill commands; and `index_select`, which picks
 * a scene case-insensitively and starts its workers.
 */
module ScenarioEngine {
  import opened Wrappers
  import opened Text
  import opened Shared
  import opened ScenarioData

  /** A registry entry: the worker's id (`EFX_ID` or `Log_ID`) and its Event. */
  datatype Worker = Worker(id: string, event: Event)

  function Events(ws: seq<Worker>): set<Event>
  {
    set w | w in ws :: w.event
  }

  /** Every worker has an Event of its own. */
  predicate DistinctEvents(ws: seq<Worker>)
  {
    forall i, j :: 0 <= i < j < |ws| ==> ws[i].event != ws[j].event
  }

  function WorkerIds(ws: seq<Worker>): (r: seq<string>)
    ensures |r| == |ws|
  {
    seq(|ws|, k requires 0 <= k < |ws| => ws[k].id)
  }

  // ---------------------------------------------------------------- deleting marked entries

  /** The entries of s whose mark is off, in order. */
  function Keep<T>(s: seq<T>, marks: seq<bool>): seq<T>
    requires |marks| == |s|
  {
    if s == [] then []
    else Keep(s[..|s| - 1], marks[..|s| - 1]) + (if marks[|s| - 1] then [] else [s[|s| - 1]])
  }

  /** The marked positions in ascending order: `[i for i, e in enumerate(...) if ...]`. */
  function Marked(marks: seq<bool>): seq<nat>
  {
    if marks == [] then []
    else Marked(marks[..|marks| - 1]) + (if marks[|marks| - 1] then [|marks| - 1] else [])
  }

  /** Marked lists exactly the marked positions, strictly ascending. */
  lemma MarkedExact(marks: seq<bool>)
    ensures forall q :: 0 <= q < |Marked(marks)| ==> Marked(marks)[q] < |marks| && marks[Marked(marks)[q]]
    ensures forall p, q :: 0 <= p < q < |Marked(marks)| ==> Marked(marks)[p] < Marked(marks)[q]
    ensures forall i :: 0 <= i < |marks| && marks[i] ==> i in Marked(marks)
  {
    MarkedSound(marks);
    MarkedAscending(marks);
    MarkedComplete(marks);
  }

  lemma {:induction false} MarkedSound(marks: seq<bool>)
    ensures forall q :: 0 <= q < |Marked(marks)| ==> Marked(marks)[q] < |marks| && marks[Marked(marks)[q]]
  {
    if marks != [] {
      var n := |marks| - 1;
      var front := marks[..n];
      MarkedSound(front);
      var m := Marked(front);
      assert Marked(marks) == m + (if marks[n] then [n] else []);
      forall q | 0 <= q < |Marked(marks)|
        ensures Marked(marks)[q] < |marks| && marks[Marked(marks)[q]]
      {
        if q < |m| {
          assert Marked(marks)[q] == m[q];
          assert front[m[q]] == marks[m[q]];
        }
      }
    }
  }

  lemma {:induction false} MarkedAscending(marks: seq<bool>)
    ensures forall p, q :: 0 <= p < q < |Marked(marks)| ==> Marked(marks)[p] < Marked(marks)[q]
  {
    if marks != [] {
      var n := |marks| - 1;
      var front := marks[..n];
      MarkedAscending(front);
      MarkedSound(front);
      var m := Marked(front);
      assert Marked(marks) == m + (if marks[n] then [n] else []);
      forall p, q | 0 <= p < q < |Marked(marks)|
        ensures Marked(marks)[p] < Marked(marks)[q]
      {
        assert Marked(marks)[p] == m[p];
        if q < |m| {
          assert Marked(marks)[q] == m[q];
        }
      }
    }
  }

  lemma {:induction false} MarkedComplete(marks: seq<bool>)
    ensures forall i :: 0 <= i < |marks| && marks[i] ==> i in Marked(marks)
  {
    if marks != [] {
      var n := |marks| - 1;
      var front := marks[..n];
      MarkedComplete(front);
      var m := Marked(front);
      assert Marked(marks) == m + (if marks[n] then [n] else []);
      forall i | 0 <= i < |marks| && marks[i]
        ensures i in Marked(marks)
      {
        if i < n {
          assert front[i] == marks[i];
          assert i in m;
        }
      }
    }
  }

  /** No position strictly between two consecutive marked ones (or before the first, or after the last) is marked. */
  lemma MarkedGaps(marks: seq<bool>, q: nat)
    requires q <= |Marked(marks)|
    ensures forall i :: 0 <= i < |marks| && (q < |Marked(marks)| ==> i < Marked(marks)[q])
                        && (0 < q ==> Marked(marks)[q - 1] < i)
                        ==> !marks[i]
  {
    MarkedExact(marks);
  }

  lemma {:induction false} KeepAppend<T>(a: seq<T>, b: seq<T>, ma: seq<bool>, mb: seq<bool>)
    requires |ma| == |a| && |mb| == |b|
    ensures Keep(a + b, ma + mb) == Keep(a, ma) + Keep(b, mb)
  {
    if b != [] {
      var n := |b| - 1;
      KeepAppend(a, b[..n], ma, mb[..n]);
      assert (a + b)[..|a + b| - 1] == a + b[..n];
      assert (ma + mb)[..|a + b| - 1] == ma + mb[..n];
      assert (a + b)[|a + b| - 1] == b[n] && (ma + mb)[|a + b| - 1] == mb[n];
      assert Keep(a + b, ma + mb) == Keep(a + b[..n], ma + mb[..n]) + (if mb[n] then [] else [b[n]]);
      assert Keep(b, mb) == Keep(b[..n], mb[..n]) + (if mb[n] then [] else [b[n]]);
    } else {
      assert a + b == a && ma + mb == ma;
    }
  }

  lemma {:induction false} KeepUnmarked<T>(s: seq<T>, marks: seq<bool>)
    requires |marks| == |s| && forall i :: 0 <= i < |s| ==> !marks[i]
    ensures Keep(s, marks) == s
  {
    if s != [] {
      KeepUnmarked(s[..|s| - 1], marks[..|s| - 1]);
    }
  }

  lemma {:induction false} KeepMarked<T>(s: seq<T>, marks: seq<bool>)
    requires |marks| == |s| && forall i :: 0 <= i < |s| ==> marks[i]
    ensures Keep(s, marks) == []
  {
    if s != [] {
      KeepMarked(s[..|s| - 1], marks[..|s| - 1]);
    }
  }

  /** x is kept exactly when it sits at an unmarked position. */
  lemma {:induction false} KeepMember<T>(s: seq<T>, marks: seq<bool>, x: T)
    requires |marks| == |s|
    ensures x in Keep(s, marks) <==> exists i :: 0 <= i < |s| && s[i] == x && !marks[i]
  {
    if s != [] {
      var n := |s| - 1;
      KeepMember(s[..n], marks[..n], x);
      assert forall i :: 0 <= i < n ==> s[..n][i] == s[i] && marks[..n][i] == marks[i];
    }
  }

  /**
   * Deleting marked position t from a list whose part from u on is already
   * cleaned, nothing between t and u being marked.
   */
  lemma DeleteStep<T>(s: seq<T>, marks: seq<bool>, r: seq<T>, t: nat, u: nat)
    requires |marks| == |s| && t < u <= |s| && marks[t]
    requires forall i :: t < i < u ==> !marks[i]
    requires r == s[..u] + Keep(s[u..], marks[u..])
    ensures r[..t] + r[t + 1..] == s[..t] + Keep(s[t..], marks[t..])
  {
    var mid, midMarks := s[t + 1..u], marks[t + 1..u];
    var tail, tailMarks := s[u..], marks[u..];
    assert r[..t] == s[..t];
    assert r[t + 1..] == mid + Keep(tail, tailMarks);
    assert s[t..] == ([s[t]] + mid) + tail;
    assert marks[t..] == ([marks[t]] + midMarks) + tailMarks;
    forall i | 0 <= i < |midMarks|
      ensures !midMarks[i]
    {
      assert midMarks[i] == marks[t + 1 + i];
    }
    KeepUnmarked(mid, midMarks);
    assert Keep([s[t]], [marks[t]]) == [] by {
      assert [s[t]][..0] == [];
    }
    KeepAppend([s[t]], mid, [marks[t]], midMarks);
    KeepAppend([s[t]] + mid, tail, [marks[t]] + midMarks, tailMarks);
  }

  /** An unmarked prefix followed by a cleaned rest is the whole list cleaned. */
  lemma DeleteDone<T>(s: seq<T>, marks: seq<bool>, t: nat)
    requires |marks| == |s| && t <= |s| && forall i :: 0 <= i < t ==> !marks[i]
    ensures s[..t] + Keep(s[t..], marks[t..]) == Keep(s, marks)
  {
    assert s == s[..t] + s[t..] && marks == marks[..t] + marks[t..];
    KeepAppend(s[..t], s[t..], marks[..t], marks[t..]);
    KeepUnmarked(s[..t], marks[..t]);
  }

  /** The marked positions of marks, gathered by a loop as `trash_man` does. */
  method FindMarked(marks: seq<bool>) returns (trash: seq<nat>)
    ensures trash == Marked(marks)
  {
    trash := [];
    for idx := 0 to |marks|
      invariant trash == Marked(marks[..idx])
    {
      if marks[idx] {
        trash := trash + [idx];
      }
      assert marks[..idx + 1][..idx] == marks[..idx];
    }
    assert marks[..|marks|] == marks;
  }

  /** `for idx in sorted(trash, reverse=True): del s[idx]`, trash being the marked positions. */
  method DeleteMarked<T>(s: seq<T>, trash: seq<nat>, ghost marks: seq<bool>) returns (r: seq<T>)
    requires |marks| == |s| && trash == Marked(marks)
    ensures r == Keep(s, marks)
  {
    MarkedExact(marks);
    r := s;
    var m := |trash|;
    while m > 0
      invariant 0 <= m <= |trash|
      invariant var u := if m == |trash| then |s| else trash[m];
        u <= |s| && r == s[..u] + Keep(s[u..], marks[u..])
    {
      var u := if m == |trash| then |s| else trash[m];
      m := m - 1;
      var idx := trash[m];
      MarkedGaps(marks, m + 1);
      DeleteStep(s, marks, r, idx, u);
      r := r[..idx] + r[idx + 1..];
    }
    var u := if |trash| == 0 then |s| else trash[0];
    MarkedGaps(marks, 0);
    DeleteDone(s, marks, u);
  }

  /** Keep only drops entries. */
  lemma KeepSub<T>(s: seq<T>, marks: seq<bool>)
    requires |marks| == |s|
    ensures forall x :: x in Keep(s, marks) ==> x in s
  {
    forall x | x in Keep(s, marks)
      ensures x in s
    {
      KeepMember(s, marks, x);
    }
  }

  /** Dropping workers keeps the remaining Events distinct. */
  lemma {:induction false} KeepDistinct(ws: seq<Worker>, marks: seq<bool>)
    requires |marks| == |ws| && DistinctEvents(ws)
    ensures DistinctEvents(Keep(ws, marks)) && Events(Keep(ws, marks)) <= Events(ws)
  {
    KeepSub(ws, marks);
    if ws != [] {
      var n := |ws| - 1;
      var front := Keep(ws[..n], marks[..n]);
      KeepDistinct(ws[..n], marks[..n]);
      KeepSub(ws[..n], marks[..n]);
      forall j | 0 <= j < |front|
        ensures front[j].event != ws[n].event
      {
        assert front[j] in ws[..n];
      }
    }
  }

  // ---------------------------------------------------------------- trash_man

  /** Each worker's Event state, in registry order. */
  function Flags(ws: seq<Worker>): (r: seq<bool>)
    reads Events(ws)
    ensures |r| == |ws|
  {
    seq(|ws|, i requires 0 <= i < |ws| reads Events(ws) => ws[i].event.isSet)
  }

  /** The workers whose Event is not set, in registry order. */
  function Unfinished(ws: seq<Worker>): seq<Worker>
    reads Events(ws)
  {
    Keep(ws, Flags(ws))
  }

  /**
   * One registry's half of a `trash_man` pass: collect the indices of the
   * finished workers, then delete them from the highest index down.
   */
  method RemoveFinished(ws: seq<Worker>) returns (r: seq<Worker>)
    ensures r == Unfinished(ws)
  {
    ghost var flags := Flags(ws);
    var trash: seq<nat> := [];
    for idx := 0 to |ws|
      invariant trash == Marked(flags[..idx])
    {
      if ws[idx].event.isSet {
        trash := trash + [idx];
      }
      assert flags[..idx + 1][..idx] == flags[..idx];
      assert flags[..idx + 1] == flags[..idx] + [ws[idx].event.isSet];
    }
    assert flags[..|ws|] == flags;
    r := DeleteMarked(ws, trash, flags);
    assert flags == Flags(ws);
    assert r == Keep(ws, flags);
  }

  /** A pass keeps exactly the workers whose Event is not set. */
  lemma UnfinishedMembers(ws: seq<Worker>, w: Worker)
    ensures w in Unfinished(ws) <==> w in ws && !w.event.isSet
  {
    KeepMember(ws, Flags(ws), w);
  }

  /** A second pass straight after the first removes nothing. */
  lemma ReapIdempotent(ws: seq<Worker>)
    ensures Unfinished(Unfinished(ws)) == Unfinished(ws)
  {
    var u := Unfinished(ws);
    forall i | 0 <= i < |u|
      ensures !Flags(u)[i]
    {
      UnfinishedMembers(ws, u[i]);
    }
    KeepUnmarked(u, Flags(u));
  }

  // ---------------------------------------------------------------- Kill_EFX / Kill_Log_Controller

  /** Which workers a kill command with this selection stops and removes. */
  function KillMarks(ws: seq<Worker>, selection: string): (r: seq<bool>)
    ensures |r| == |ws|
  {
    seq(|ws|, i requires 0 <= i < |ws| => Lower(selection) == "all" || Lower(ws[i].id) == Lower(selection))
  }

  /** `all`, in any case, stops every worker and empties the registry. */
  lemma KillAll(ws: seq<Worker>, selection: string)
    requires Lower(selection) == "all"
    ensures Keep(ws, KillMarks(ws, selection)) == []
    ensures forall i :: 0 <= i < |ws| ==> KillMarks(ws, selection)[i]
  {
    KeepMarked(ws, KillMarks(ws, selection));
  }

  /**
   * Any other selection removes exactly the workers whose id lowers to the
   * lowered selection, and keeps the rest in order; one that matches
   * nothing leaves the registry as it was.
   */
  lemma KillNamed(ws: seq<Worker>, selection: string, w: Worker)
    requires Lower(selection) != "all"
    ensures w in Keep(ws, KillMarks(ws, selection)) <==> w in ws && Lower(w.id) != Lower(selection)
    ensures (forall i :: 0 <= i < |ws| ==> Lower(ws[i].id) != Lower(selection)) ==> Keep(ws, KillMarks(ws, selection)) == ws
  {
    KeepMember(ws, KillMarks(ws, selection), w);
    if forall i :: 0 <= i < |ws| ==> Lower(ws[i].id) != Lower(selection) {
      KeepUnmarked(ws, KillMarks(ws, selection));
    }
  }

  /** The lowered ids of a registry. */
  function LowerIds(ws: seq<Worker>): (r: seq<string>)
    ensures |r| == |ws| && forall i :: 0 <= i < |ws| ==> r[i] == Lower(ws[i].id)
  {
    seq(|ws|, i requires 0 <= i < |ws| => Lower(ws[i].id))
  }

  /**
   * A kill command on one registry, given the selection typed at the
   * prompt: an empty registry is left alone; `all` stops every worker and
   * empties it; a selection equal to some lowered id stops those workers and
   * then deletes them; anything else changes nothing.
   */
  method Kill(ws: seq<Worker>, selection: string) returns (r: seq<Worker>)
    requires DistinctEvents(ws)
    modifies Events(ws)
    ensures r == Keep(ws, KillMarks(ws, selection))
    ensures forall i :: 0 <= i < |ws| ==> ws[i].event.isSet == (old(ws[i].event.isSet) || KillMarks(ws, selection)[i])
  {
    var marks := KillMarks(ws, selection);
    if |ws| == 0 {
      return ws;
    }
    var low := LowerIds(ws);
    var key := Lower(selection);
    if key == "all" {
      StopAll(ws);
      KillAll(ws, selection);
      return [];
    }
    if key !in low {
      KillNamed(ws, selection, ws[0]);
      return ws;
    }
    var deathNote := FindMarked(marks);
    MarkedExact(marks);
    StopAt(ws, deathNote);
    r := DeleteMarked(ws, deathNote, marks);
  }

  /** `EFX.Stop()` for every worker, in order. */
  method StopAll(ws: seq<Worker>)
    requires DistinctEvents(ws)
    modifies Events(ws)
    ensures forall i :: 0 <= i < |ws| ==> ws[i].event.isSet
  {
    for k := 0 to |ws|
      invariant forall i :: 0 <= i < k ==> ws[i].event.isSet
    {
      ws[k].event.Set();
    }
  }

  /** `Stop()` for the workers at the listed positions; every other Event keeps its state. */
  method StopAt(ws: seq<Worker>, positions: seq<nat>)
    requires DistinctEvents(ws) && forall q :: 0 <= q < |positions| ==> positions[q] < |ws|
    modifies Events(ws)
    ensures forall i :: 0 <= i < |ws| ==> ws[i].event.isSet == (old(ws[i].event.isSet) || i in positions)
  {
    for q := 0 to |positions|
      invariant forall i :: 0 <= i < |ws| ==> ws[i].event.isSet == (old(ws[i].event.isSet) || i in positions[..q])
    {
      ws[positions[q]].event.Set();
      assert positions[..q + 1] == positions[..q] + [positions[q]];
    }
    assert positions[..|positions|] == positions;
  }

  // ---------------------------------------------------------------- index_select

  /**
   * `Selection_keys`: each scene id under its lowered form; when two ids
   * lower alike, the later one wins, as when building a dict.
   */
  function SelectionKeys(ids: seq<string>): (r: map<string, string>)
    ensures forall key | key in r :: r[key] in ids && Lower(r[key]) == key
  {
    if ids == [] then map[]
    else SelectionKeys(ids[..|ids| - 1])[Lower(ids[|ids| - 1]) := ids[|ids| - 1]]
  }

  /** A selection is found exactly when some id lowers to the lowered selection. */
  lemma {:induction false} SelectionKeysFound(ids: seq<string>, key: string)
    ensures key in SelectionKeys(ids) <==> exists i :: 0 <= i < |ids| && Lower(ids[i]) == key
  {
    if ids != [] {
      var n := |ids| - 1;
      SelectionKeysFound(ids[..n], key);
      assert forall i :: 0 <= i < n ==> ids[..n][i] == ids[i];
    }
  }

  /** When several ids lower alike, the selection names the last of them. */
  lemma {:induction false} SelectionKeysLast(ids: seq<string>, j: nat)
    requires j < |ids| && forall k :: j < k < |ids| ==> Lower(ids[k]) != Lower(ids[j])
    ensures Lower(ids[j]) in SelectionKeys(ids) && SelectionKeys(ids)[Lower(ids[j])] == ids[j]
  {
    var n := |ids| - 1;
    var key := Lower(ids[j]);
    var front := ids[..n];
    assert SelectionKeys(ids) == SelectionKeys(front)[Lower(ids[n]) := ids[n]];
    if j < n {
      assert front[j] == ids[j];
      assert forall k :: j < k < |front| ==> front[k] == ids[k];
      SelectionKeysLast(front, j);
      assert Lower(ids[n]) != key;
    }
  }

  /** The cells of an `effects` or `logs` column that name a worker to start, in order. */
  function NonNone(cells: seq<string>): (r: seq<string>)
    ensures forall c :: c in r <==> c in cells && c != "None"
  {
    if cells == [] then []
    else NonNone(cells[..|cells| - 1]) + (if cells[|cells| - 1] == "None" then [] else [cells[|cells| - 1]])
  }

  /** The workers a column starts; a missing column starts none. */
  function Started(cells: Option<seq<string>>): seq<string>
  {
    if cells.None? then [] else NonNone(cells.value)
  }

  /** Appends one new worker, with a fresh unset Event, per non-`None` cell. */
  method Start(ws: seq<Worker>, cells: seq<string>) returns (r: seq<Worker>)
    requires DistinctEvents(ws)
    ensures DistinctEvents(r) && |ws| <= |r| && r[..|ws|] == ws
    ensures WorkerIds(r) == WorkerIds(ws) + NonNone(cells)
    ensures forall i :: |ws| <= i < |r| ==> fresh(r[i].event) && !r[i].event.isSet
  {
    r := ws;
    for k := 0 to |cells|
      invariant DistinctEvents(r) && |ws| <= |r| && r[..|ws|] == ws
      invariant WorkerIds(r) == WorkerIds(ws) + NonNone(cells[..k])
      invariant forall i :: |ws| <= i < |r| ==> fresh(r[i].event) && !r[i].event.isSet
    {
      assert cells[..k + 1][..k] == cells[..k];
      if cells[k] != "None" {
        var e := new Event();
        assert WorkerIds(r + [Worker(cells[k], e)]) == WorkerIds(r) + [cells[k]];
        r := r + [Worker(cells[k], e)];
      }
    }
    assert cells[..|cells|] == cells;
  }

  /** How `index_select` ends. */
  datatype Selected = Hit | Miss | Uncaught(message: string)

  /** The KeyError raised for a missing column. */
  function KeyError(name: string): string
  {
    "KeyError: '" + name + "'"
  }

  /**
   * The scene bookkeeping of `Scenario_Engine`: the scenario table, the
   * current scene and its children, and the two worker registries.
   */
  class Engine {
    const scenario: Table
    var currentScene: string
    var sceneChildren: seq<string>
    var efx: seq<Worker>
    var logs: seq<Worker>

    /** Every registered worker has an Event of its own. */
    predicate Valid()
      reads this
    {
      DistinctEvents(efx) && DistinctEvents(logs) && Events(efx) !! Events(logs)
    }

    /** `Scenario_Engine(Scenario)`: scene `0` is current and no worker runs. */
    constructor (scenario: Table)
      requires Lookup(scenario, "0").Some? && Cells(Lookup(scenario, "0").value, "scene_children").Some?
      ensures this.scenario == scenario && currentScene == "0"
      ensures sceneChildren == Cells(Lookup(scenario, "0").value, "scene_children").value
      ensures efx == [] && logs == [] && Valid()
    {
      this.scenario := scenario;
      currentScene := "0";
      sceneChildren := Cells(Lookup(scenario, "0").value, "scene_children").value;
      efx := [];
      logs := [];
    }

    /** One `trash_man` pass: both registries lose their finished workers. */
    method Reap()
      requires Valid()
      modifies this
      ensures Valid()
      ensures efx == Unfinished(old(efx)) && logs == Unfinished(old(logs))
      ensures currentScene == old(currentScene) && sceneChildren == old(sceneChildren)
    {
      ghost var e0, l0 := efx, logs;
      var e := RemoveFinished(efx);
      var l := RemoveFinished(logs);
      KeepDistinct(e0, Flags(e0));
      KeepDistinct(l0, Flags(l0));
      assert Events(e) <= Events(e0) && Events(l) <= Events(l0);
      assert Events(e) !! Events(l);
      efx, logs := e, l;
    }

    /** `Kill_EFX` with the selection typed at the prompt; the log workers are untouched. */
    method KillEfx(selection: string)
      requires Valid()
      modifies this, Events(efx)
      ensures Valid()
      ensures efx == Keep(old(efx), KillMarks(old(efx), selection))
      ensures forall i :: 0 <= i < |old(efx)| ==>
        old(efx)[i].event.isSet == (old(efx[i].event.isSet) || KillMarks(old(efx), selection)[i])
      ensures logs == old(logs) && currentScene == old(currentScene) && sceneChildren == old(sceneChildren)
      ensures forall w :: w in logs ==> w.event.isSet == old(w.event.isSet)
    {
      KeepDistinct(efx, KillMarks(efx, selection));
      efx := Kill(efx, selection);
    }

    /** `Kill_Log_Controller` with the selection typed at the prompt; the effect workers are untouched. */
    method KillLogs(selection: string)
      requires Valid()
      modifies this, Events(logs)
      ensures Valid()
      ensures logs == Keep(old(logs), KillMarks(old(logs), selection))
      ensures forall i :: 0 <= i < |old(logs)| ==>
        old(logs)[i].event.isSet == (old(logs[i].event.isSet) || KillMarks(old(logs), selection)[i])
      ensures efx == old(efx) && currentScene == old(currentScene) && sceneChildren == old(sceneChildren)
      ensures forall w :: w in efx ==> w.event.isSet == old(w.event.isSet)
    {
      KeepDistinct(logs, KillMarks(logs, selection));
      logs := Kill(logs, selection);
    }

    /**
     * `index_select` with the selection typed at the prompt. A hit sets the
     * current scene, then its children, then starts one effect worker per
     * non-`None` cell of `effects` and one log worker per non-`None` cell of
     * `logs`; a missing column raises a KeyError after the steps before it.
     * A miss changes nothing.
     */
    method IndexSelect(selection: string) returns (outcome: Selected)
      requires Valid()
      modifies this
      ensures Valid()
      ensures var keys := SelectionKeys(Ids(scenario));
        Lower(selection) !in keys ==>
          outcome == Miss && currentScene == old(currentScene) && sceneChildren == old(sceneChildren)
          && efx == old(efx) && logs == old(logs)
      ensures var keys := SelectionKeys(Ids(scenario));
        Lower(selection) in keys ==>
          var row := Lookup(scenario, keys[Lower(selection)]).value;
          var children, effects, logCells := Cells(row, "scene_children"), Cells(row, "effects"), Cells(row, "logs");
          && currentScene == keys[Lower(selection)]
          && sceneChildren == (if children.Some? then children.value else old(sceneChildren))
          && WorkerIds(efx) == old(WorkerIds(efx)) + (if children.Some? then Started(effects) else [])
          && WorkerIds(logs) == old(WorkerIds(logs)) + (if children.Some? && effects.Some? then Started(logCells) else [])
          && outcome == (if children.None? then Uncaught(KeyError("scene_children"))
                         else if effects.None? then Uncaught(KeyError("effects"))
                         else if logCells.None? then Uncaught(KeyError("logs"))
                         else Hit)
      ensures efx[..|old(efx)|] == old(efx) && logs[..|old(logs)|] == old(logs)
      ensures forall i :: |old(efx)| <= i < |efx| ==> fresh(efx[i].event) && !efx[i].event.isSet
      ensures forall i :: |old(logs)| <= i < |logs| ==> fresh(logs[i].event) && !logs[i].event.isSet
    {
      var keys := SelectionKeys(Ids(scenario));
      var key := Lower(selection);
      if key !in keys {
        return Miss;
      }
      currentScene := keys[key];
      var row := Lookup(scenario, currentScene).value;
      var children := Cells(row, "scene_children");
      if children.None? {
        return Uncaught(KeyError("scene_children"));
      }
      sceneChildren := children.value;
      var effects := Cells(row, "effects");
      if effects.None? {
        return Uncaught(KeyError("effects"));
      }
      StartEffects(effects.value);
      var logCells := Cells(row, "logs");
      if logCells.None? {
        return Uncaught(KeyError("logs"));
      }
      StartLogs(logCells.value);
      return Hit;
    }

    /** The effects loop of `index_select`. */
    method StartEffects(cells: seq<string>)
      requires Valid()
      modifies this
      ensures Valid()
      ensures WorkerIds(efx) == old(WorkerIds(efx)) + NonNone(cells) && efx[..|old(efx)|] == old(efx)
      ensures forall i :: |old(efx)| <= i < |efx| ==> fresh(efx[i].event) && !efx[i].event.isSet
      ensures logs == old(logs) && currentScene == old(currentScene) && sceneChildren == old(sceneChildren)
    {
      var r := Start(efx, cells);
      forall w | w in r
        ensures w.event !in Events(logs)
      {
        var i :| 0 <= i < |r| && r[i] == w;
        if i < |efx| {
          assert w in efx;
        }
      }
      efx := r;
    }

    /** The logs loop of `index_select`. */
    method StartLogs(cells: seq<string>)
      requires Valid()
      modifies this
      ensures Valid()
      ensures WorkerIds(logs) == old(WorkerIds(logs)) + NonNone(cells) && logs[..|old(logs)|] == old(logs)
      ensures forall i :: |old(logs)| <= i < |logs| ==> fresh(logs[i].event) && !logs[i].event.isSet
      ensures efx == old(efx) && currentScene == old(currentScene) && sceneChildren == old(sceneChildren)
    {
      var r := Start(logs, cells);
      forall w | w in r
        ensures w.event !in Events(efx)
      {
        var i :| 0 <= i < |r| && r[i] == w;
        if i < |logs| {
          assert w in logs;
        }
      }
      logs := r;
    }
  }
}
