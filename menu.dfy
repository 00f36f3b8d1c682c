/**
 * `accumMenu` and `generateMenuString` of the course service: the sidebar markup
 * of the course tree, one `<li>` per page, in document order. A page with a
 * `children` field (even an empty one) is a drawer wrapping its children's items
 * in a `<ul>`; any other page is a plain link.
 */
module Menu {
  import opened CourseTree
  import opened Text

  // The literal pieces of the markup, as the service writes them.
  const LeafOpen := "<li data-id=\""
  const DrawerOpen := "<li class=\"sidebar-drawer\" data-id=\""
  const IdClose := "\" >"
  const EmptyIdClose := "\" data-empty=\"true\">"
  const LinkOpen := "<a href=\"/courses/"
  const Slash := "/"
  const ItemLinkClose := "\" class=\"sidebar-item\">"
  const ToggleLinkClose := "\" class=\"sidebar-toggle\">"
  const ToggleAnchor := "<a href=\"#\" class=\"sidebar-toggle\">"
  const AnchorEnd := "</a>"
  const ItemEnd := "</li>"
  const ListOpen := "<ul>"
  const ListEnd := "</ul>"

  /** The drawer's opening `<li>` and its anchor: a link when the page has a body, a bare toggle otherwise. */
  function DrawerHead(n: Node, courseId: string): string {
    if n.data != "" then
      DrawerOpen + n.id + IdClose +
        LinkOpen + courseId + Slash + n.id + ToggleLinkClose +
          n.name +
        AnchorEnd
    else
      DrawerOpen + n.id + EmptyIdClose +
        ToggleAnchor +
          n.name +
        AnchorEnd
  }

  /** What `accumMenu(n, courseId)` returns. */
  function ItemMarkup(n: Node, courseId: string): string
    decreases n
  {
    match n.children
    case Present(cs) => DrawerHead(n, courseId) + (ListOpen + MenuMarkup(cs, courseId) + ListEnd) + ItemEnd
    case Absent =>
      LeafOpen + n.id + IdClose +
        LinkOpen + courseId + Slash + n.id + ItemLinkClose +
          n.name +
        AnchorEnd +
      ItemEnd
  }

  /** What `generateMenuString(ns, courseId)` returns: the items of `ns`, in order. */
  function MenuMarkup(ns: seq<Node>, courseId: string): string
    decreases ns
  {
    if ns == [] then "" else ItemMarkup(ns[0], courseId) + MenuMarkup(ns[1..], courseId)
  }

  /** The menu of a concatenation of forests is the concatenation of their menus. */
  lemma {:induction false} MenuConcat(xs: seq<Node>, ys: seq<Node>, courseId: string)
    ensures MenuMarkup(xs + ys, courseId) == MenuMarkup(xs, courseId) + MenuMarkup(ys, courseId)
    decreases |xs|
  {
    if xs == [] {
      assert xs + ys == ys;
    } else {
      assert (xs + ys)[1..] == xs[1..] + ys;
      MenuConcat(xs[1..], ys, courseId);
    }
  }

  /** `accumMenu` as the service runs it: string building with `+=` and a `forEach` over the children. */
  method AccumMenu(n: Node, courseId: string) returns (current: string)
    ensures current == ItemMarkup(n, courseId)
    decreases n
  {
    current := "";
    match n.children {
      case Present(cs) =>
        if n.data != "" {
          current := current + (
            DrawerOpen + n.id + IdClose +
              LinkOpen + courseId + Slash + n.id + ToggleLinkClose +
                n.name +
              AnchorEnd);
        } else {
          current := current + (
            DrawerOpen + n.id + EmptyIdClose +
              ToggleAnchor +
                n.name +
              AnchorEnd);
        }
        assert current == DrawerHead(n, courseId);
        var substring := AccumChildren(cs, courseId);
        current := current + substring;
        current := current + ItemEnd;
      case Absent =>
        current := current + (
          LeafOpen + n.id + IdClose +
            LinkOpen + courseId + Slash + n.id + ItemLinkClose +
              n.name +
            AnchorEnd +
          ItemEnd);
    }
  }

  /** The `<ul>` of a drawer: `accumMenu` of every child in turn, as the `forEach` appends them. */
  method AccumChildren(cs: seq<Node>, courseId: string) returns (substring: string)
    ensures substring == ListOpen + MenuMarkup(cs, courseId) + ListEnd
    decreases cs
  {
    substring := ListOpen;
    var i := 0;
    while i < |cs|
      invariant i <= |cs|
      invariant substring == ListOpen + MenuMarkup(cs[..i], courseId)
    {
      var item := AccumMenu(cs[i], courseId);
      MenuConcat(cs[..i], [cs[i]], courseId);
      assert cs[..i + 1] == cs[..i] + [cs[i]];
      substring := substring + item;
      i := i + 1;
    }
    assert cs[..i] == cs;
    substring := substring + ListEnd;
  }

  /** `generateMenuString` as the service runs it. */
  method GenerateMenuString(menuObjects: seq<Node>, courseId: string) returns (menu: string)
    ensures menu == MenuMarkup(menuObjects, courseId)
  {
    menu := "";
    var i := 0;
    while i < |menuObjects|
      invariant i <= |menuObjects|
      invariant menu == MenuMarkup(menuObjects[..i], courseId)
    {
      var item := AccumMenu(menuObjects[i], courseId);
      MenuConcat(menuObjects[..i], [menuObjects[i]], courseId);
      assert menuObjects[..i + 1] == menuObjects[..i] + [menuObjects[i]];
      menu := menu + item;
      i := i + 1;
    }
    assert menuObjects[..i] == menuObjects;
  }

  // ---------------------------------------------------------------------------
  // Every page contributes exactly one `<li` and one `</li`

  function Opens(s: string): nat { Occurrences(s, "<li") }
  function Closes(s: string): nat { Occurrences(s, "</li") }

  /**
   * No `<` among the last three characters: no `<li` or `</li` can start in the
   * string and end beyond it, so joining such strings adds their counts.
   */
  predicate Tidy(s: string) {
    && (|s| < 1 || s[|s| - 1] != '<')
    && (|s| < 2 || s[|s| - 2] != '<')
    && (|s| < 3 || s[|s| - 3] != '<')
  }

  lemma TidyNoStraddle(s: string, p: string)
    requires Tidy(s) && p != [] && p[0] == '<' && |p| <= 4
    ensures NoStraddle(s, p)
  {
    forall k | 0 <= k < |s| && |s| - k < |p|
      ensures s[k..] != p[..|s| - k]
    {
      assert s[k..][0] == s[k];
    }
  }

  lemma Join(a: string, b: string)
    requires Tidy(a) && Tidy(b)
    ensures Tidy(a + b)
    ensures Opens(a + b) == Opens(a) + Opens(b) && Closes(a + b) == Closes(a) + Closes(b)
  {
    TidyNoStraddle(a, "<li");
    TidyNoStraddle(a, "</li");
    OccurrencesConcat(a, b, "<li");
    OccurrencesConcat(a, b, "</li");
  }

  lemma PlainPiece(s: string)
    requires Plain(s)
    ensures Tidy(s) && Opens(s) == 0 && Closes(s) == 0
  {
    PlainCounts(s, "<li");
    PlainCounts(s, "</li");
  }

  /** A `<` followed by plain text. */
  predicate Tag(s: string) {
    |s| >= 4 && s[0] == '<' && forall k :: 1 <= k < |s| ==> s[k] != '<'
  }

  /** The kinds of markup piece: an opening `<li`, a closing `</li`, another tag, plain text. */
  predicate OpensItem(s: string) requires |s| >= 4 { s[1] == 'l' && s[2] == 'i' }
  predicate ClosesItem(s: string) requires |s| >= 4 { s[1] == '/' && s[2] == 'l' && s[3] == 'i' }
  predicate OpenTag(s: string) { Tag(s) && OpensItem(s) }
  predicate CloseTag(s: string) { Tag(s) && ClosesItem(s) }
  predicate OtherTag(s: string) { Tag(s) && !OpensItem(s) && !ClosesItem(s) }

  /** A tag counts as a `<li` or `</li` exactly when it begins with one. */
  lemma TagPiece(s: string)
    requires Tag(s)
    ensures Tidy(s)
    ensures Opens(s) == (if OpensItem(s) then 1 else 0)
    ensures Closes(s) == (if ClosesItem(s) then 1 else 0)
  {
    assert s == "<" + s[1..];
    assert Plain(s[1..]) by {
      forall k | 0 <= k < |s[1..]| ensures s[1..][k] != '<' {
        assert s[1..][k] == s[k + 1];
      }
    }
    TagCounts(s[1..], "<li");
    TagCounts(s[1..], "</li");
    assert s[1..][..2] == [s[1], s[2]];
    assert s[1..][..3] == [s[1], s[2], s[3]];
    assert s[|s| - 3..] == s[1..][|s| - 4..];
  }

  /** Six tidy pieces joined left to right. */
  lemma Join6(a: string, b: string, c: string, d: string, e: string, f: string)
    requires Tidy(a) && Tidy(b) && Tidy(c) && Tidy(d) && Tidy(e) && Tidy(f)
    ensures Tidy(a + b + c + d + e + f)
    ensures Opens(a + b + c + d + e + f) == Opens(a) + Opens(b) + Opens(c) + Opens(d) + Opens(e) + Opens(f)
    ensures Closes(a + b + c + d + e + f) == Closes(a) + Closes(b) + Closes(c) + Closes(d) + Closes(e) + Closes(f)
  {
    Join(a, b);
    Join(a + b, c);
    Join(a + b + c, d);
    Join(a + b + c + d, e);
    Join(a + b + c + d + e, f);
  }

  /** The shape of a leaf's `<li>` and of a linked drawer's head: one `<li` opened, none closed. */
  lemma LinkHeadShape(p0: string, p1: string, p2: string, p3: string, p4: string,
                      p5: string, p6: string, p7: string, p8: string, p9: string)
    requires OpenTag(p0) && Plain(p1) && Plain(p2) && OtherTag(p3) && Plain(p4)
    requires Plain(p5) && Plain(p6) && Plain(p7) && Plain(p8) && OtherTag(p9)
    ensures Tidy(p0 + p1 + p2 + p3 + p4 + p5 + p6 + p7 + p8 + p9)
    ensures Opens(p0 + p1 + p2 + p3 + p4 + p5 + p6 + p7 + p8 + p9) == 1
    ensures Closes(p0 + p1 + p2 + p3 + p4 + p5 + p6 + p7 + p8 + p9) == 0
  {
    TagPiece(p0);
    TagPiece(p3);
    TagPiece(p9);
    PlainPiece(p1);
    PlainPiece(p2);
    PlainPiece(p4);
    PlainPiece(p5);
    PlainPiece(p6);
    PlainPiece(p7);
    PlainPiece(p8);
    var s := p0 + p1 + p2 + p3 + p4 + p5;
    Join6(p0, p1, p2, p3, p4, p5);
    Join(s, p6);
    Join(s + p6, p7);
    Join(s + p6 + p7, p8);
    Join(s + p6 + p7 + p8, p9);
  }

  /** The shape of an empty drawer's head: one `<li` opened, none closed. */
  lemma ToggleHeadShape(p0: string, p1: string, p2: string, p3: string, p4: string, p5: string)
    requires OpenTag(p0) && Plain(p1) && Plain(p2) && OtherTag(p3) && Plain(p4) && OtherTag(p5)
    ensures Tidy(p0 + p1 + p2 + p3 + p4 + p5)
    ensures Opens(p0 + p1 + p2 + p3 + p4 + p5) == 1
    ensures Closes(p0 + p1 + p2 + p3 + p4 + p5) == 0
  {
    TagPiece(p0);
    TagPiece(p3);
    TagPiece(p5);
    PlainPiece(p1);
    PlainPiece(p2);
    PlainPiece(p4);
    Join6(p0, p1, p2, p3, p4, p5);
  }

  /** Closing an item adds one `</li` and no `<li`. */
  lemma CloseShape(s: string, e: string)
    requires Tidy(s) && CloseTag(e)
    ensures Tidy(s + e) && Opens(s + e) == Opens(s) && Closes(s + e) == Closes(s) + 1
  {
    TagPiece(e);
    Join(s, e);
  }

  /** Wrapping in a list neither opens nor closes an item. */
  lemma WrapShape(l: string, s: string, r: string)
    requires OtherTag(l) && Tidy(s) && OtherTag(r)
    ensures Tidy(l + s + r) && Opens(l + s + r) == Opens(s) && Closes(l + s + r) == Closes(s)
  {
    TagPiece(l);
    TagPiece(r);
    Join(l, s);
    Join(l + s, r);
  }

  // The literal pieces: only `LeafOpen` and `DrawerOpen` open an item, only `ItemEnd` closes one.

  lemma LeafOpenShape() ensures OpenTag(LeafOpen) { }
  lemma DrawerOpenShape() ensures OpenTag(DrawerOpen) { }
  lemma ItemEndShape() ensures CloseTag(ItemEnd) { }
  lemma LinkOpenShape() ensures OtherTag(LinkOpen) { }
  lemma ToggleAnchorShape() ensures OtherTag(ToggleAnchor) { }
  lemma AnchorEndShape() ensures OtherTag(AnchorEnd) { }
  lemma ListShapes() ensures OtherTag(ListOpen) && OtherTag(ListEnd) { }
  lemma TextLiterals()
    ensures Plain(IdClose) && Plain(EmptyIdClose) && Plain(Slash)
    ensures Plain(ItemLinkClose) && Plain(ToggleLinkClose)
  { }

  /** Page ids and names never contain `<`. */
  ghost predicate PlainLabels(ns: seq<Node>) {
    forall n :: n in Flatten(ns) ==> Plain(n.id) && Plain(n.name)
  }

  lemma LeafBalanced(n: Node, courseId: string)
    requires Plain(courseId) && Plain(n.id) && Plain(n.name) && n.children.Absent?
    ensures Tidy(ItemMarkup(n, courseId))
    ensures Opens(ItemMarkup(n, courseId)) == 1 && Closes(ItemMarkup(n, courseId)) == 1
  {
    LeafOpenShape();
    LinkOpenShape();
    AnchorEndShape();
    ItemEndShape();
    TextLiterals();
    var head := LeafOpen + n.id + IdClose + LinkOpen + courseId + Slash + n.id + ItemLinkClose + n.name + AnchorEnd;
    LinkHeadShape(LeafOpen, n.id, IdClose, LinkOpen, courseId, Slash, n.id, ItemLinkClose, n.name, AnchorEnd);
    CloseShape(head, ItemEnd);
  }

  lemma DrawerHeadBalanced(n: Node, courseId: string)
    requires Plain(courseId) && Plain(n.id) && Plain(n.name)
    ensures Tidy(DrawerHead(n, courseId))
    ensures Opens(DrawerHead(n, courseId)) == 1 && Closes(DrawerHead(n, courseId)) == 0
  {
    DrawerOpenShape();
    AnchorEndShape();
    TextLiterals();
    if n.data != "" {
      LinkOpenShape();
      LinkHeadShape(DrawerOpen, n.id, IdClose, LinkOpen, courseId, Slash, n.id, ToggleLinkClose, n.name, AnchorEnd);
    } else {
      ToggleAnchorShape();
      ToggleHeadShape(DrawerOpen, n.id, EmptyIdClose, ToggleAnchor, n.name, AnchorEnd);
    }
  }

  /** A drawer opens and closes one item more than its children's menu. */
  lemma DrawerBalanced(n: Node, courseId: string)
    requires Plain(courseId) && Plain(n.id) && Plain(n.name) && n.children.Present?
    requires Tidy(MenuMarkup(n.children.nodes, courseId))
    ensures Tidy(ItemMarkup(n, courseId))
    ensures Opens(ItemMarkup(n, courseId)) == Opens(MenuMarkup(n.children.nodes, courseId)) + 1
    ensures Closes(ItemMarkup(n, courseId)) == Closes(MenuMarkup(n.children.nodes, courseId)) + 1
  {
    var head, sub := DrawerHead(n, courseId), MenuMarkup(n.children.nodes, courseId);
    DrawerHeadBalanced(n, courseId);
    ListShapes();
    ItemEndShape();
    WrapShape(ListOpen, sub, ListEnd);
    Join(head, ListOpen + sub + ListEnd);
    CloseShape(head + (ListOpen + sub + ListEnd), ItemEnd);
  }

  lemma {:induction false} ItemBalanced(n: Node, courseId: string)
    requires Plain(courseId) && PlainLabels([n])
    ensures Tidy(ItemMarkup(n, courseId))
    ensures Opens(ItemMarkup(n, courseId)) == |FlattenNode(n)|
    ensures Closes(ItemMarkup(n, courseId)) == |FlattenNode(n)|
    decreases n
  {
    FlattenHas([n], 0);
    match n.children
    case Absent =>
      LeafBalanced(n, courseId);
    case Present(cs) =>
      assert PlainLabels(cs) by {
        forall m | m in Flatten(cs) ensures Plain(m.id) && Plain(m.name) {
          assert m in Flatten([n]);
        }
      }
      MenuBalanced(cs, courseId);
      DrawerBalanced(n, courseId);
  }

  /**
   * With `<`-free ids, names and course id, the menu holds exactly one `<li` and one
   * `</li` per page of the tree: no page is dropped or repeated.
   */
  lemma {:induction false} MenuBalanced(ns: seq<Node>, courseId: string)
    requires Plain(courseId) && PlainLabels(ns)
    ensures Tidy(MenuMarkup(ns, courseId))
    ensures Opens(MenuMarkup(ns, courseId)) == |Flatten(ns)|
    ensures Closes(MenuMarkup(ns, courseId)) == |Flatten(ns)|
    decreases ns
  {
    if ns == [] {
      PlainPiece("");
    } else {
      assert PlainLabels([ns[0]]) && PlainLabels(ns[1..]) by {
        assert Flatten([ns[0]]) == FlattenNode(ns[0]) + Flatten([]);
      }
      ItemBalanced(ns[0], courseId);
      MenuBalanced(ns[1..], courseId);
      Join(ItemMarkup(ns[0], courseId), MenuMarkup(ns[1..], courseId));
    }
  }
}
