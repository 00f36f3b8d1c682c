/**
 * `fetchData` of the course service: the `data` body of the page with a given id.
 * Siblings are searched first; only then does the search descend, left to right,
 * into every sibling that has a `children` field, stopping at the first subtree
 * whose answer is truthy.
 */
module FetchData {
  import opened Wrappers
  import opened CourseTree

  /** Index of the first page whose id is `id` (underscore's `findWhere`). */
  function FindWhereId(ns: seq<Node>, id: string): (r: Option<nat>)
    ensures r.Some? ==> r.value < |ns| && ns[r.value].id == id
    ensures r.Some? ==> forall j :: 0 <= j < r.value ==> ns[j].id != id
    ensures r.None? ==> forall j :: 0 <= j < |ns| ==> ns[j].id != id
  {
    if ns == [] then None
    else if ns[0].id == id then Some(0)
    else match FindWhereId(ns[1..], id)
      case None => None
      case Some(k) => Some(k + 1)
  }

  /** What `fetchData(id, ns)` returns. */
  function Fetch(id: string, ns: seq<Node>): Option<string>
    decreases ns, 1
  {
    match FindWhereId(ns, id)
    case Some(k) => Some(ns[k].data)
    case None => Scan(id, ns, 0, None)
  }

  /**
   * The `Array.some` pass over `ns[i..]`, entered with `fetched` as the current
   * value of `fetchedData`: each element with a `children` field overwrites
   * `fetchedData` with its subtree's answer, and a truthy answer ends the pass.
   */
  function Scan(id: string, ns: seq<Node>, i: nat, fetched: Option<string>): Option<string>
    requires i <= |ns|
    decreases ns, 0, |ns| - i
  {
    if i == |ns| then fetched
    else match ns[i].children
      case Absent => Scan(id, ns, i + 1, fetched)
      case Present(cs) =>
        var r := Fetch(id, cs);
        if Truthy(r) then r else Scan(id, ns, i + 1, r)
  }

  /** The search as the service runs it: a recursive walk with a short-circuiting loop. */
  method FetchDataOf(id: string, ns: seq<Node>) returns (fetched: Option<string>)
    ensures fetched == Fetch(id, ns)
    decreases ns
  {
    var found := FindWhereId(ns, id);
    if found.Some? {
      return Some(ns[found.value].data);
    }
    fetched := None;
    var i := 0;
    while i < |ns|
      invariant i <= |ns|
      invariant Fetch(id, ns) == Scan(id, ns, i, fetched)
    {
      if ns[i].children.Present? {
        fetched := FetchDataOf(id, ns[i].children.nodes);
        if Truthy(fetched) {
          return;
        }
      }
      i := i + 1;
    }
  }

  // ---------------------------------------------------------------------------
  // Properties of the search

  /** A match among the siblings wins, even with an empty body, and nothing below is searched. */
  lemma SiblingMatchWins(id: string, ns: seq<Node>, k: nat)
    requires k < |ns| && ns[k].id == id
    requires forall j :: 0 <= j < k ==> ns[j].id != id
    ensures Fetch(id, ns) == Some(ns[k].data)
  {
    var r := FindWhereId(ns, id);
    assert r.Some? && r.value == k;
  }

  /** The index of the last element that has a `children` field. */
  function LastWithChildren(ns: seq<Node>): (r: Option<nat>)
    ensures r.Some? ==> r.value < |ns| && ns[r.value].children.Present?
    ensures r.Some? ==> forall j :: r.value < j < |ns| ==> ns[j].children.Absent?
    ensures r.None? ==> forall j :: 0 <= j < |ns| ==> ns[j].children.Absent?
  {
    if ns == [] then None
    else if ns[|ns| - 1].children.Present? then Some(|ns| - 1)
    else LastWithChildren(ns[..|ns| - 1])
  }

  lemma {:induction false} ScanStopsAtFirstTruthy(id: string, ns: seq<Node>, i: nat, fetched: Option<string>, k: nat)
    requires i <= k < |ns| && ns[k].children.Present?
    requires Truthy(Fetch(id, ns[k].children.nodes))
    requires forall j :: i <= j < k && ns[j].children.Present? ==> !Truthy(Fetch(id, ns[j].children.nodes))
    ensures Scan(id, ns, i, fetched) == Fetch(id, ns[k].children.nodes)
    decreases k - i
  {
    if i < k {
      var next := if ns[i].children.Present? then Fetch(id, ns[i].children.nodes) else fetched;
      ScanStopsAtFirstTruthy(id, ns, i + 1, next, k);
    }
  }

  /**
   * Without a sibling match, the answer is that of the first subtree (in order,
   * among elements with a `children` field) whose answer is truthy.
   */
  lemma FirstTruthySubtreeWins(id: string, ns: seq<Node>, k: nat)
    requires forall j :: 0 <= j < |ns| ==> ns[j].id != id
    requires k < |ns| && ns[k].children.Present?
    requires Truthy(Fetch(id, ns[k].children.nodes))
    requires forall j :: 0 <= j < k && ns[j].children.Present? ==> !Truthy(Fetch(id, ns[j].children.nodes))
    ensures Fetch(id, ns) == Fetch(id, ns[k].children.nodes)
  {
    ScanStopsAtFirstTruthy(id, ns, 0, None, k);
  }

  lemma {:induction false} ScanFallsThrough(id: string, ns: seq<Node>, i: nat, fetched: Option<string>)
    requires i <= |ns|
    requires forall j :: i <= j < |ns| && ns[j].children.Present? ==> !Truthy(Fetch(id, ns[j].children.nodes))
    ensures Scan(id, ns, i, fetched) ==
              match LastWithChildren(ns[i..])
              case None => fetched
              case Some(k) => Fetch(id, ns[i + k].children.nodes)
    decreases |ns| - i
  {
    if i < |ns| {
      var next := if ns[i].children.Present? then Fetch(id, ns[i].children.nodes) else fetched;
      ScanFallsThrough(id, ns, i + 1, next);
      var last, rest := LastWithChildren(ns[i..]), LastWithChildren(ns[i + 1..]);
      assert ns[i..][0] == ns[i];
      assert forall j :: 1 <= j < |ns| - i ==> ns[i..][j] == ns[i + 1..][j - 1];
      if rest.Some? {
        assert last.Some? && last.value == rest.value + 1;
      } else if ns[i].children.Present? {
        assert last == Some(0);
      } else {
        assert last == None;
      }
    }
  }

  /**
   * When no sibling matches and no subtree answers truthily, the result is whatever
   * the LAST element with a `children` field produced, or undefined if there is none:
   * an earlier subtree's `''` is overwritten by a later subtree's undefined.
   */
  lemma NoTruthySubtreeLastOneDecides(id: string, ns: seq<Node>)
    requires forall j :: 0 <= j < |ns| ==> ns[j].id != id
    requires forall j :: 0 <= j < |ns| && ns[j].children.Present? ==> !Truthy(Fetch(id, ns[j].children.nodes))
    ensures Fetch(id, ns) ==
              match LastWithChildren(ns)
              case None => None
              case Some(k) => Fetch(id, ns[k].children.nodes)
  {
    ScanFallsThrough(id, ns, 0, None);
    assert ns[0..] == ns;
  }

  /** A concrete case of the overwrite: the page exists, yet the lookup yields undefined. */
  lemma EmptyMatchOverwritten()
    ensures var hit := Node("t", "T", "", Absent);
            var tree := [Node("a", "A", "", Present([hit])), Node("b", "B", "x", Present([]))];
            Occurs("t", tree) && Fetch("t", tree[..1]) == Some("") && Fetch("t", tree) == None
  {
    var hit := Node("t", "T", "", Absent);
    var tree := [Node("a", "A", "", Present([hit])), Node("b", "B", "x", Present([]))];
    assert Fetch("t", [hit]) == Some("");
    assert Fetch("t", []) == None;
    var first := tree[..1];
    assert first == [tree[0]];
    assert FindWhereId(first, "t") == None;
    assert Scan("t", first, 1, Some("")) == Some("");
    assert Fetch("t", first) == Some("");
    assert FindWhereId(tree, "t") == None;
    assert Scan("t", tree, 2, None) == None;
    assert Scan("t", tree, 1, Some("")) == None;
    assert hit in Flatten(tree) by { FlattenHas(tree, 0); FlattenHas([hit], 0); }
  }

  /** Only pages of the tree with the requested id contribute answers. */
  lemma {:induction false} FetchSound(id: string, ns: seq<Node>)
    ensures Fetch(id, ns).Some? ==>
              exists n :: n in Flatten(ns) && n.id == id && n.data == Fetch(id, ns).value
    decreases ns, 1
  {
    match FindWhereId(ns, id)
    case Some(k) => FlattenHas(ns, k);
    case None => ScanSound(id, ns, 0, None);
  }

  lemma {:induction false} ScanSound(id: string, ns: seq<Node>, i: nat, fetched: Option<string>)
    requires i <= |ns|
    requires fetched.Some? ==> exists n :: n in Flatten(ns) && n.id == id && n.data == fetched.value
    ensures Scan(id, ns, i, fetched).Some? ==>
              exists n :: n in Flatten(ns) && n.id == id && n.data == Scan(id, ns, i, fetched).value
    decreases ns, 0, |ns| - i
  {
    if i < |ns| {
      match ns[i].children
      case Absent => ScanSound(id, ns, i + 1, fetched);
      case Present(cs) =>
        var r := Fetch(id, cs);
        FetchSound(id, cs);
        FlattenHas(ns, i);
        if !Truthy(r) {
          ScanSound(id, ns, i + 1, r);
        }
    }
  }

  /** An id that labels no page of the tree yields undefined. */
  lemma {:induction false} FetchMissing(id: string, ns: seq<Node>)
    requires !Occurs(id, ns)
    ensures Fetch(id, ns) == None
  {
    FetchSound(id, ns);
  }

  lemma {:induction false} ScanReachesTruthy(id: string, ns: seq<Node>, i: nat, fetched: Option<string>, k: nat)
    requires i <= k < |ns| && ns[k].children.Present?
    requires Truthy(Fetch(id, ns[k].children.nodes))
    ensures Truthy(Scan(id, ns, i, fetched))
    decreases k - i
  {
    if i < k {
      match ns[i].children
      case Absent => ScanReachesTruthy(id, ns, i + 1, fetched, k);
      case Present(cs) =>
        var r := Fetch(id, cs);
        if !Truthy(r) {
          ScanReachesTruthy(id, ns, i + 1, r, k);
        }
    }
  }

  /**
   * If some page has the id and every page with that id has a non-empty body, the
   * lookup succeeds with the body of one of those pages.
   */
  lemma {:induction false} FetchFinds(id: string, ns: seq<Node>)
    requires Occurs(id, ns)
    requires forall n :: n in Flatten(ns) && n.id == id ==> n.data != ""
    ensures Truthy(Fetch(id, ns))
    ensures exists n :: n in Flatten(ns) && n.id == id && n.data == Fetch(id, ns).value
    decreases ns
  {
    FetchSound(id, ns);
    match FindWhereId(ns, id)
    case Some(k) => FlattenHas(ns, k);
    case None =>
      var n :| n in Flatten(ns) && n.id == id;
      var k := FlattenSplit(ns, n);
      FlattenHas(ns, k);
      var cs := ns[k].children.nodes;
      FetchFinds(id, cs);
      ScanReachesTruthy(id, ns, 0, None, k);
  }
}
