/**
 OPML subscription lists (internal/opml/opml.go) between the outline tree and the flat list of feeds;
 the XML text itself is taken as given.
 */
module Opml {
  import opened Common
  import opened Text

  /** One row of the flat list. */
  datatype Outline = Outline(title: string, xmlUrl: string, htmlUrl: string, category: string, description: string)

  datatype Node = Node(
    text: string, title: string, kind: string, xmlUrl: string, htmlUrl: string,
    desc: string, category: string, children: seq<Node>)

  function FirstNonEmpty(a: string, b: string): string {
    if Trim(a) != "" then Trim(a) else Trim(b)
  }

  function Title(n: Node): string {
    FirstNonEmpty(n.title, n.text)
  }

  predicate IsFeed(n: Node) {
    Trim(n.xmlUrl) != ""
  }

  // ---------- flattening ----------

  function Row(n: Node, category: string): Outline {
    Outline(Title(n), Trim(n.xmlUrl), Trim(n.htmlUrl), FirstNonEmpty(n.category, category), Trim(n.desc))
  }

  /** The category handed down to the children: a titled node without a url adds its title. */
  function ChildCategory(n: Node, category: string): string {
    if IsFeed(n) || Title(n) == "" then category
    else if category == "" then Title(n)
    else category + "/" + Title(n)
  }

  function FlattenNode(n: Node, category: string): seq<Outline>
    decreases n, 1
  {
    (if IsFeed(n) then [Row(n, category)] else []) + Flatten(n.children, ChildCategory(n, category))
  }

  function Flatten(nodes: seq<Node>, category: string): seq<Outline>
    decreases nodes, 0
  {
    if nodes == [] then []
    else Flatten(nodes[..|nodes| - 1], category) + FlattenNode(nodes[|nodes| - 1], category)
  }

  ghost function Height(n: Node): nat
    decreases n, 1
  {
    1 + HeightAll(n.children)
  }

  ghost function HeightAll(nodes: seq<Node>): (h: nat)
    ensures forall i :: 0 <= i < |nodes| ==> Height(nodes[i]) <= h
    decreases nodes, 0
  {
    if nodes == [] then 0
    else
      var front, last := HeightAll(nodes[..|nodes| - 1]), Height(nodes[|nodes| - 1]);
      assert nodes == nodes[..|nodes| - 1] + [nodes[|nodes| - 1]];
      if front >= last then front else last
  }

  lemma FlattenSnoc(nodes: seq<Node>, i: nat, category: string)
    requires i < |nodes|
    ensures Flatten(nodes[..i + 1], category) == Flatten(nodes[..i], category) + FlattenNode(nodes[i], category)
  {
    assert nodes[..i + 1][..i] == nodes[..i];
  }

  lemma OneMore(out: seq<Outline>, nodes: seq<Node>, i: nat, category: string, own: seq<Outline>, all: seq<Outline>)
    requires i < |nodes|
    requires own == if IsFeed(nodes[i]) then [Row(nodes[i], category)] else []
    requires all == out + Flatten(nodes[..i], category) + own
                      + Flatten(nodes[i].children, ChildCategory(nodes[i], category))
    ensures all == out + Flatten(nodes[..i + 1], category)
  {
    FlattenSnoc(nodes, i, category);
    Regroup(out, Flatten(nodes[..i], category), own, Flatten(nodes[i].children, ChildCategory(nodes[i], category)));
  }

  lemma Regroup<T>(a: seq<T>, b: seq<T>, c: seq<T>, d: seq<T>)
    ensures a + b + c + d == a + (b + (c + d))
  {
  }

  /** The recursive walk, which appends to `out`. */
  method Walk(nodes: seq<Node>, parentCat: string, out: seq<Outline>) returns (all: seq<Outline>)
    ensures all == out + Flatten(nodes, parentCat)
    decreases HeightAll(nodes)
  {
    all := out;
    for i := 0 to |nodes|
      invariant all == out + Flatten(nodes[..i], parentCat)
    {
      var n := nodes[i];
      var cat := parentCat;
      var title := FirstNonEmpty(n.title, n.text);
      var xmlUrl := Trim(n.xmlUrl);
      ghost var own := [];
      if xmlUrl != "" {
        var c := FirstNonEmpty(n.category, cat);
        own := [Outline(title, xmlUrl, Trim(n.htmlUrl), c, Trim(n.desc))];
        all := all + [Outline(title, xmlUrl, Trim(n.htmlUrl), c, Trim(n.desc))];
      }
      assert all == out + Flatten(nodes[..i], parentCat) + own;
      var nextCat := cat;
      if xmlUrl == "" && title != "" {
        nextCat := if cat == "" then title else cat + "/" + title;
      }
      assert nextCat == ChildCategory(n, cat);
      if |n.children| > 0 {
        assert Height(nodes[i]) <= HeightAll(nodes);
        all := Walk(n.children, nextCat, all);
      }
      OneMore(out, nodes, i, parentCat, own, all);
    }
    assert nodes[..|nodes|] == nodes;
  }

  // ---------- what flattening means ----------

  /** A node met on a pre-order walk, with its ancestors from the top. */
  datatype Visit = Visit(node: Node, ancestors: seq<Node>)

  function VisitsOf(n: Node, ancestors: seq<Node>): seq<Visit>
    decreases n, 1
  {
    [Visit(n, ancestors)] + Visits(n.children, ancestors + [n])
  }

  function Visits(nodes: seq<Node>, ancestors: seq<Node>): seq<Visit>
    decreases nodes, 0
  {
    if nodes == [] then []
    else Visits(nodes[..|nodes| - 1], ancestors) + VisitsOf(nodes[|nodes| - 1], ancestors)
  }

  /** The title of a node, or its text if the title is blank. */
  function Label(n: Node): string {
    if Blank(n.title) then Trim(n.text) else Trim(n.title)
  }

  lemma TitleIsLabel(n: Node)
    ensures Title(n) == Label(n) && (IsFeed(n) <==> !Blank(n.xmlUrl))
  {
    TrimTight(n.title);
    TrimTight(n.xmlUrl);
  }

  /** Labels of the labelled ancestors without a url, joined by slashes. */
  function FolderPath(ancestors: seq<Node>): string {
    if ancestors == [] then ""
    else
      var front, n := FolderPath(ancestors[..|ancestors| - 1]), ancestors[|ancestors| - 1];
      if !Blank(n.xmlUrl) || Label(n) == "" then front
      else if front == "" then Label(n)
      else front + "/" + Label(n)
  }

  /** The path of a folder in a folder. */
  lemma TwoFolders(outer: Node, inner: Node)
    requires Blank(outer.xmlUrl) && Blank(inner.xmlUrl) && Label(outer) != "" && Label(inner) != ""
    ensures FolderPath([outer, inner]) == Label(outer) + "/" + Label(inner)
  {
    assert [outer, inner][..1] == [outer] && [outer][..0] == [];
    assert FolderPath([outer]) == Label(outer);
  }

  /** The row of a visited feed, if it is one: its own category, or else its folder path. */
  function RowOf(v: Visit): seq<Outline> {
    if Blank(v.node.xmlUrl) then []
    else
      [Outline(Label(v.node), Trim(v.node.xmlUrl), Trim(v.node.htmlUrl),
               if Blank(v.node.category) then FolderPath(v.ancestors) else Trim(v.node.category), Trim(v.node.desc))]
  }

  function RowsOf(vs: seq<Visit>): seq<Outline> {
    FlatMap(vs, RowOf)
  }

  lemma LabelTight(n: Node)
    ensures Tight(Label(n))
  {
    TrimTight(n.title);
    TrimTight(n.text);
  }

  /** A folder path never begins or ends in white space, so trimming it as a category leaves it alone. */
  lemma {:induction false} FolderPathTight(ancestors: seq<Node>)
    ensures Tight(FolderPath(ancestors))
  {
    if ancestors != [] {
      var front, n := ancestors[..|ancestors| - 1], ancestors[|ancestors| - 1];
      FolderPathTight(front);
      LabelTight(n);
      var f, path := FolderPath(front), FolderPath(ancestors);
      if path != "" && path != f && f != "" {
        assert path[0] == f[0] && path[|path| - 1] == Label(n)[|Label(n)| - 1];
      }
    }
  }

  lemma {:induction false} FlattenNodeMeans(n: Node, ancestors: seq<Node>)
    ensures FlattenNode(n, FolderPath(ancestors)) == RowsOf(VisitsOf(n, ancestors))
    decreases n, 1
  {
    FlattenMeans(n.children, ancestors + [n]);
    FlatMapConcat([Visit(n, ancestors)], Visits(n.children, ancestors + [n]), RowOf);
    assert (ancestors + [n])[..|ancestors|] == ancestors;
    TitleIsLabel(n);
    OwnRow(n, ancestors);
  }

  lemma OwnRow(n: Node, ancestors: seq<Node>)
    ensures RowsOf([Visit(n, ancestors)]) == if IsFeed(n) then [Row(n, FolderPath(ancestors))] else []
  {
    FlatMapOne(Visit(n, ancestors), RowOf);
    TitleIsLabel(n);
    TrimTight(n.category);
    FolderPathTight(ancestors);
    TrimTight(FolderPath(ancestors));
  }

  /** Flattening lists exactly the feeds, in pre-order, each under its own category or its folder path. */
  lemma {:induction false} FlattenMeans(nodes: seq<Node>, ancestors: seq<Node>)
    ensures Flatten(nodes, FolderPath(ancestors)) == RowsOf(Visits(nodes, ancestors))
    decreases nodes, 0
  {
    if nodes != [] {
      var front, last := nodes[..|nodes| - 1], nodes[|nodes| - 1];
      FlattenMeans(front, ancestors);
      FlattenNodeMeans(last, ancestors);
      FlatMapConcat(Visits(front, ancestors), VisitsOf(last, ancestors), RowOf);
    }
  }

  // ---------- export ----------

  function ExportNode(it: Outline): Node {
    Node(FirstNonEmpty(it.title, it.xmlUrl), it.title, "rss", it.xmlUrl, it.htmlUrl, it.description, it.category, [])
  }

  function Exported(items: seq<Outline>): seq<Node> {
    if items == [] then []
    else
      var front, it := Exported(items[..|items| - 1]), items[|items| - 1];
      if Trim(it.xmlUrl) == "" then front else front + [ExportNode(it)]
  }

  /** The items with a url, in order. */
  function Listed(items: seq<Outline>): seq<Outline> {
    if items == [] then []
    else
      var front, it := Listed(items[..|items| - 1]), items[|items| - 1];
      if Blank(it.xmlUrl) then front else front + [it]
  }

  /** The outline written for an item: its title, or its url for want of one, as text, and its columns as they are. */
  ghost predicate Writes(n: Node, it: Outline) {
    && n.text == (if Blank(it.title) then Trim(it.xmlUrl) else Trim(it.title))
    && n.title == it.title && n.kind == "rss" && n.xmlUrl == it.xmlUrl && n.htmlUrl == it.htmlUrl
    && n.desc == it.description && n.category == it.category && n.children == []
  }

  /** Each item with a url is written as one outline, in order. */
  lemma {:induction false} ExportWrites(items: seq<Outline>)
    ensures |Exported(items)| == |Listed(items)|
    ensures forall k :: 0 <= k < |Exported(items)| ==> Writes(Exported(items)[k], Listed(items)[k])
  {
    if items != [] {
      var it := items[|items| - 1];
      ExportWrites(items[..|items| - 1]);
      TrimTight(it.title);
      TrimTight(it.xmlUrl);
      assert Writes(ExportNode(it), it);
    }
  }

  method Export(items: seq<Outline>) returns (outlines: seq<Node>)
    ensures outlines == Exported(items) && |outlines| == |Listed(items)|
    ensures forall k :: 0 <= k < |outlines| ==> Writes(outlines[k], Listed(items)[k])
  {
    ExportWrites(items);
    outlines := [];
    for i := 0 to |items|
      invariant outlines == Exported(items[..i])
    {
      var it := items[i];
      assert items[..i + 1][..i] == items[..i];
      if Trim(it.xmlUrl) == "" { continue; }
      outlines := outlines + [Node(FirstNonEmpty(it.title, it.xmlUrl), it.title, "rss", it.xmlUrl, it.htmlUrl,
                                   it.description, it.category, [])];
    }
    assert items[..|items|] == items;
  }

  /** What an item becomes when it is exported and read back. */
  function Normal(it: Outline): Outline {
    Outline(if Blank(it.title) then Trim(it.xmlUrl) else Trim(it.title), Trim(it.xmlUrl), Trim(it.htmlUrl),
            Trim(it.category), Trim(it.description))
  }

  function NormalAll(items: seq<Outline>): seq<Outline> {
    if items == [] then []
    else
      var front, it := NormalAll(items[..|items| - 1]), items[|items| - 1];
      if Trim(it.xmlUrl) == "" then front else front + [Normal(it)]
  }

  /** Export followed by import drops items without a url, trims every field and titles untitled items by their url. */
  lemma {:induction false} RoundTrip(items: seq<Outline>)
    ensures Flatten(Exported(items), "") == NormalAll(items)
  {
    if items != [] {
      var front, it := items[..|items| - 1], items[|items| - 1];
      RoundTrip(front);
      if Trim(it.xmlUrl) != "" {
        var nodes, n := Exported(front), ExportNode(it);
        assert (nodes + [n])[..|nodes|] == nodes;
        OneRow(it);
      }
    }
  }

  lemma OneRow(it: Outline)
    requires Trim(it.xmlUrl) != ""
    ensures FlattenNode(ExportNode(it), "") == [Normal(it)]
  {
    TrimTight(it.title);
    TrimTight(it.xmlUrl);
    TrimTight(Trim(it.title));
    TrimTight(Trim(it.xmlUrl));
    TrimTight("");
  }

  /** An item that survives a round trip unchanged. */
  predicate IsNormal(it: Outline) {
    && it.xmlUrl != "" && it.title != ""
    && Tight(it.title) && Tight(it.xmlUrl) && Tight(it.htmlUrl) && Tight(it.category) && Tight(it.description)
  }

  lemma NormalIff(it: Outline)
    ensures Trim(it.xmlUrl) != "" ==> IsNormal(Normal(it))
    ensures Trim(it.xmlUrl) != "" && Normal(it) == it <==> IsNormal(it)
  {
    TrimTight(it.title);
    TrimTight(it.xmlUrl);
    TrimTight(it.htmlUrl);
    TrimTight(it.category);
    TrimTight(it.description);
  }

  /** A list survives a round trip unchanged exactly when each of its items does. */
  lemma {:induction false} NormalAllIff(items: seq<Outline>)
    ensures |NormalAll(items)| <= |items|
    ensures forall it :: it in NormalAll(items) ==> IsNormal(it)
    ensures NormalAll(items) == items <==> forall it :: it in items ==> IsNormal(it)
  {
    if items != [] {
      var front, last := items[..|items| - 1], items[|items| - 1];
      assert items == front + [last];
      NormalAllIff(front);
      NormalIff(last);
      assert forall it :: it in items <==> it in front || it == last;
      if NormalAll(items) == items {
        assert NormalAll(items)[..|front|] == front && NormalAll(items)[|front|] == last;
      }
    }
  }

  /** From the first export on nothing changes any more. */
  lemma ExportImportStable(items: seq<Outline>)
    ensures var once := Flatten(Exported(items), ""); Flatten(Exported(once), "") == once
  {
    RoundTrip(items);
    NormalAllIff(items);
    NormalAllIff(NormalAll(items));
    RoundTrip(NormalAll(items));
  }

  lemma {:induction false} RowsAreTrimmed(vs: seq<Visit>)
    ensures forall r :: r in RowsOf(vs) ==> (IsNormal(r) <==> r.title != "")
  {
    if vs != [] {
      var v := vs[|vs| - 1];
      RowsAreTrimmed(vs[..|vs| - 1]);
      LabelTight(v.node);
      FolderPathTight(v.ancestors);
      TrimTight(v.node.xmlUrl);
      TrimTight(v.node.htmlUrl);
      TrimTight(v.node.category);
      TrimTight(v.node.desc);
    }
  }

  /** An imported feed has no title exactly when its node has neither a title nor a text. */
  lemma UntitledIff(n: Node, category: string)
    ensures Row(n, category).title == "" <==> Blank(n.title) && Blank(n.text)
  {
    TrimTight(n.title);
    TrimTight(n.text);
  }

  /** The feed was given a title or at least a text. */
  predicate Titled(v: Visit) {
    !Blank(v.node.xmlUrl) ==> !Blank(v.node.title) || !Blank(v.node.text)
  }

  lemma {:induction false} RowsTitled(vs: seq<Visit>)
    ensures (forall r :: r in RowsOf(vs) ==> r.title != "") <==> (forall v :: v in vs ==> Titled(v))
  {
    if vs != [] {
      var front, last := vs[..|vs| - 1], vs[|vs| - 1];
      assert vs == front + [last];
      RowsTitled(front);
      OneTitled(last);
      assert forall v :: v in vs <==> v in front || v == last;
      assert forall r :: r in RowsOf(vs) <==> r in RowsOf(front) || r in RowOf(last);
    }
  }

  lemma OneTitled(v: Visit)
    ensures (forall r :: r in RowOf(v) ==> r.title != "") <==> Titled(v)
  {
    UntitledIff(v.node, "");
    TitleIsLabel(v.node);
    assert !Blank(v.node.xmlUrl) ==> RowOf(v)[0] in RowOf(v);
  }

  /**
   Importing, exporting and importing again gives the first import exactly when every feed in the tree has
   a title or a text.
   */
  lemma ImportExportImportIff(nodes: seq<Node>)
    ensures var rows := Flatten(nodes, "");
            Flatten(Exported(rows), "") == rows <==> forall v :: v in Visits(nodes, []) ==> Titled(v)
  {
    var rows := Flatten(nodes, "");
    FlattenMeans(nodes, []);
    RowsAreTrimmed(Visits(nodes, []));
    RowsTitled(Visits(nodes, []));
    RoundTrip(rows);
    NormalAllIff(rows);
  }

  /** One untitled feed is enough: it comes back titled by its url. */
  lemma UntitledFeedChanges(n: Node)
    requires IsFeed(n) && n.title == n.text == "" && n.children == []
    ensures var rows := Flatten([n], ""); Flatten(Exported(rows), "") != rows
  {
    TitleIsLabel(n);
    assert [n][..0] == [];
    assert VisitsOf(n, [])[0] == Visit(n, []);
    assert Visits([n], []) == [] + VisitsOf(n, []);
    assert Visit(n, []) in Visits([n], []) && !Titled(Visit(n, []));
    ImportExportImportIff([n]);
  }

  lemma UntitledFeedExists()
    ensures exists nodes :: var rows := Flatten(nodes, ""); Flatten(Exported(rows), "") != rows
  {
    var n := Node("", "", "rss", "u", "", "", "", []);
    TrimTight("u");
    assert n.xmlUrl[0] == 'u' && Tight("u");
    UntitledFeedChanges(n);
  }
}
