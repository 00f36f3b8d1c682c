/**
 * The course document as the course service sees it: an ordered array of page
 * objects, each with an `id`, a display `name`, an HTML `data` body and, optionally,
 * a `children` array of further pages.
 */
module CourseTree {
  import opened Wrappers

  /**
   * Whether a page object carries a `children` field at all. The service tests the
   * field for truthiness, and a JavaScript array is truthy even when it is empty, so
   * `Present([])` and `Absent` behave differently.
   */
  datatype Children = Absent | Present(nodes: seq<Node>)

  datatype Node = Node(id: string, name: string, data: string, children: Children)

  /** A lookup result is truthy when it is a defined, non-empty string. */
  predicate Truthy(r: Option<string>) {
    r.Some? && r.value != ""
  }

  /** The page itself followed by all of its descendants, in document (pre-)order. */
  function FlattenNode(n: Node): (r: seq<Node>)
    ensures |r| >= 1 && r[0] == n
    decreases n
  {
    [n] + match n.children
          case Absent => []
          case Present(cs) => Flatten(cs)
  }

  /** Every page of a forest, in document (pre-)order. */
  function Flatten(ns: seq<Node>): (r: seq<Node>)
    ensures |r| >= |ns|
    decreases ns
  {
    if ns == [] then [] else FlattenNode(ns[0]) + Flatten(ns[1..])
  }

  /** Some page anywhere in the forest has the given id. */
  ghost predicate Occurs(id: string, ns: seq<Node>) {
    exists n :: n in Flatten(ns) && n.id == id
  }

  /** Each top-level page, and each page under it, is a page of the forest. */
  lemma {:induction false} FlattenHas(ns: seq<Node>, i: nat)
    requires i < |ns|
    ensures ns[i] in Flatten(ns)
    ensures ns[i].children.Present? ==>
              forall n :: n in Flatten(ns[i].children.nodes) ==> n in Flatten(ns)
  {
    if i > 0 {
      FlattenHas(ns[1..], i - 1);
      assert ns[1..][i - 1] == ns[i];
    }
  }

  /** A page of the forest is a top-level page or lies under one that has `children`. */
  lemma {:induction false} FlattenSplit(ns: seq<Node>, n: Node) returns (i: nat)
    requires n in Flatten(ns)
    ensures i < |ns|
    ensures n == ns[i] || (ns[i].children.Present? && n in Flatten(ns[i].children.nodes))
  {
    if n in FlattenNode(ns[0]) {
      i := 0;
    } else {
      var j := FlattenSplit(ns[1..], n);
      i := j + 1;
    }
  }
}
