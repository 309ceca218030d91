/**
 * The sequential logic of droidrun/tools/actions.py: parsing `pm list packages -f` output,
 * flattening and summarising the element tree the device's UI service reports, choosing the
 * point to tap for an element index, escaping and chunking typed text, naming key codes and
 * normalising the file name of a UI-state dump.
 *
 * The device, adb, the clock and the file system stay outside: what they return is a parameter.
 */
module Actions {
  import opened Wrappers
  import opened Text
  import opened Sorting

  // ---------------------------------------------------------------------------------------------
  // Installed packages
  // ---------------------------------------------------------------------------------------------

  datatype PackageInfo = PackageInfo(package: string, path: string)

  const PackagePrefix: string := "package:"

  /**
   * The entry one output line yields. A line "package:<path>=<name>" is split at its LAST '=';
   * both halves are stripped. Any other line yields nothing.
   */
  function PackageOfLine(line: string): (r: Option<PackageInfo>)
    ensures r.Some? <==> StartsWith(line, PackagePrefix) && '=' in line[|PackagePrefix|..]
  {
    if !StartsWith(line, PackagePrefix) then None
    else
      var rest := line[|PackagePrefix|..];
      match LastIndexOf(rest, '=')
      case None => None
      case Some(k) => Some(PackageInfo(Strip(rest[k + 1..]), Strip(rest[..k])))
  }

  /** The entries of a list of lines, in line order. */
  function PackagesOfLines(lines: seq<string>): seq<PackageInfo>
    decreases |lines|
  {
    if lines == [] then [] else PackagesOfLines(lines[..|lines| - 1]) + LinePackages(lines[|lines| - 1])
  }

  function LinePackages(line: string): seq<PackageInfo> {
    match PackageOfLine(line) case Some(p) => [p] case None => []
  }

  /** `parse_package_list`: one entry per qualifying line of `output.splitlines()`. */
  method ParsePackageList(output: string) returns (apps: seq<PackageInfo>)
    ensures apps == PackagesOfLines(SplitLines(output))
  {
    var lines := SplitLines(output);
    apps := [];
    for i := 0 to |lines|
      invariant apps == PackagesOfLines(lines[..i])
    {
      PackagesOfLinesStep(lines, i);
      var entry := ParsePackageLine(lines[i]);
      if entry.Some? {
        apps := apps + [entry.value];
      }
    }
    assert lines[..|lines|] == lines;
  }

  /** The body of the loop of `parse_package_list`, for one line. */
  method ParsePackageLine(line: string) returns (entry: Option<PackageInfo>)
    ensures entry == PackageOfLine(line)
    ensures LinePackages(line) == if entry.Some? then [entry.value] else []
  {
    entry := None;
    if StartsWith(line, PackagePrefix) {
      var pathAndPackage := line[|PackagePrefix|..];
      if '=' in pathAndPackage {
        var k := LastIndexOf(pathAndPackage, '=').value;
        entry := Some(PackageInfo(Strip(pathAndPackage[k + 1..]), Strip(pathAndPackage[..k])));
      }
    }
  }

  lemma PackagesOfLinesStep(lines: seq<string>, i: nat)
    requires i < |lines|
    ensures PackagesOfLines(lines[..i + 1]) == PackagesOfLines(lines[..i]) + LinePackages(lines[i])
  {
    assert lines[..i + 1][..i] == lines[..i];
  }

  /** The entry is split at the last '=': the package name has no '=' in it, the path is everything before. */
  lemma PackageSplitsAtLastEquals(path: string, name: string)
    requires '=' !in name
    ensures PackageOfLine(PackagePrefix + path + "=" + name) == Some(PackageInfo(Strip(name), Strip(path)))
  {
    var line := PackagePrefix + path + "=" + name;
    var rest := path + "=" + name;
    assert line == PackagePrefix + rest;
    assert StartsWith(line, PackagePrefix);
    assert line[|PackagePrefix|..] == rest;
    assert rest[|path|] == '=';
    var k := LastIndexOf(rest, '=');
    assert k.Some? && k.value >= |path| by {
      assert '=' in rest;
    }
    assert k.value == |path|;
    assert rest[|path| + 1..] == name;
    assert rest[..|path|] == path;
    assert PackageOfLine(line) == Some(PackageInfo(Strip(rest[k.value + 1..]), Strip(rest[..k.value])));
  }

  /** Parsing is line by line: the entries of two blocks of lines are the entries of each, in order. */
  lemma {:induction false} PackagesOfLinesAppend(a: seq<string>, b: seq<string>)
    ensures PackagesOfLines(a + b) == PackagesOfLines(a) + PackagesOfLines(b)
    decreases |b|
  {
    if b != [] {
      var b' := b[..|b| - 1];
      var tail := LinePackages(b[|b| - 1]);
      assert (a + b)[..|a + b| - 1] == a + b';
      assert (a + b)[|a + b| - 1] == b[|b| - 1];
      assert PackagesOfLines(a + b) == PackagesOfLines(a + b') + tail;
      PackagesOfLinesAppend(a, b');
      assert PackagesOfLines(b) == PackagesOfLines(b') + tail;
      assert PackagesOfLines(a) + PackagesOfLines(b') + tail == PackagesOfLines(a) + (PackagesOfLines(b') + tail);
    } else {
      assert a + b == a;
    }
  }

  // ---------------------------------------------------------------------------------------------
  // UI elements
  // ---------------------------------------------------------------------------------------------

  /**
   * One UI element: a JSON object in which every key may be missing (`None`).
   * `kind` is the "type" key. `parentIndex` and `grandparentIndex` are keys whose value may be
   * JSON null: `Some(None)` is a present key holding null.
   */
  datatype Element = Element(
    index: Option<int>,
    kind: Option<string>,
    text: Option<string>,
    className: Option<string>,
    bounds: Option<string>,
    children: Option<seq<Element>>,
    isClickable: Option<bool>,
    isParent: Option<bool>,
    parentIndex: Option<Option<int>>,
    grandparentIndex: Option<Option<int>>)

  /** What the UI service reported: the nested list format, or the older object with "clickable_elements". */
  datatype UiData =
    | Tree(parents: seq<Element>)
    | Legacy(clickableElements: Option<seq<Element>>)

  /** `e.get('index', -1) != -1`. */
  predicate HasIndex(e: Element) {
    e.index.Some? && e.index.value != -1
  }

  /** `e.get('children', [])`. */
  function ChildrenOf(e: Element): seq<Element> {
    e.children.GetOr([])
  }

  predicate IsClickableParent(p: Element) {
    p.kind == Some("clickable") && HasIndex(p)
  }

  /** A top-level element's entry: without its "children" key, marked as a parent. */
  function ParentCopy(p: Element): Element {
    p.(children := None, isParent := Some(true))
  }

  /** A child's entry: marked as not a parent, with the parent's `index` (which may be missing). */
  function ChildCopy(c: Element, parent: Element): Element {
    c.(isParent := Some(false), parentIndex := Some(parent.index))
  }

  /** A grandchild's entry: also records the top-level element's `index`. */
  function GrandchildCopy(g: Element, child: Element, parent: Element): Element {
    g.(isParent := Some(false), parentIndex := Some(child.index), grandparentIndex := Some(parent.index))
  }

  function GrandchildEntries(parent: Element, child: Element, nested: seq<Element>): seq<Element>
    decreases |nested|
  {
    if nested == [] then []
    else
      var g := nested[|nested| - 1];
      GrandchildEntries(parent, child, nested[..|nested| - 1])
        + (if HasIndex(g) then [GrandchildCopy(g, child, parent)] else [])
  }

  function ChildEntries(parent: Element, children: seq<Element>): seq<Element>
    decreases |children|
  {
    if children == [] then []
    else
      var c := children[|children| - 1];
      ChildEntries(parent, children[..|children| - 1])
        + (if HasIndex(c) then [ChildCopy(c, parent)] + GrandchildEntries(parent, c, ChildrenOf(c)) else [])
  }

  /** The entries one top-level element contributes: itself if clickable, then its children and grandchildren. */
  function ParentEntries(p: Element): seq<Element> {
    (if IsClickableParent(p) then [ParentCopy(p)] else []) + ChildEntries(p, ChildrenOf(p))
  }

  function FlattenTree(parents: seq<Element>): seq<Element>
    decreases |parents|
  {
    if parents == [] then []
    else FlattenTree(parents[..|parents| - 1]) + ParentEntries(parents[|parents| - 1])
  }

  /** The older format: every element with an index, without its "isClickable" key. */
  function FlattenLegacy(elements: seq<Element>): seq<Element>
    decreases |elements|
  {
    if elements == [] then []
    else
      var e := elements[|elements| - 1];
      FlattenLegacy(elements[..|elements| - 1]) + (if HasIndex(e) then [e.(isClickable := None)] else [])
  }

  function Flattened(data: UiData): seq<Element> {
    match data
    case Tree(parents) => FlattenTree(parents)
    case Legacy(elements) => FlattenLegacy(elements.GetOr([]))
  }

  /** The flattening loops of `get_clickables`, before the sort. */
  method FlattenElements(data: UiData) returns (flat: seq<Element>)
    ensures flat == Flattened(data)
  {
    match data
    case Tree(parents) =>
      flat := FlattenParents(parents);
    case Legacy(found) =>
      flat := FlattenLegacyElements(found.GetOr([]));
  }

  /** The nested format: the entries of each top-level element, in order. */
  method FlattenParents(parents: seq<Element>) returns (flat: seq<Element>)
    ensures flat == FlattenTree(parents)
  {
    flat := [];
    for i := 0 to |parents|
      invariant flat == FlattenTree(parents[..i])
    {
      assert parents[..i + 1][..i] == parents[..i];
      var entries := CollectParentEntries(parents[i]);
      flat := flat + entries;
    }
    assert parents[..|parents|] == parents;
  }

  /** One top-level element: its own copy if clickable, then each child with an index and that child's children. */
  method CollectParentEntries(parent: Element) returns (entries: seq<Element>)
    ensures entries == ParentEntries(parent)
  {
    var own := if IsClickableParent(parent) then [ParentCopy(parent)] else [];
    var below := CollectChildEntries(parent, ChildrenOf(parent));
    entries := own + below;
  }

  /** The loop over one element's children: each child with an index, followed by its indexed children. */
  method CollectChildEntries(parent: Element, children: seq<Element>) returns (entries: seq<Element>)
    ensures entries == ChildEntries(parent, children)
  {
    entries := [];
    for j := 0 to |children|
      invariant entries == ChildEntries(parent, children[..j])
    {
      var child := children[j];
      ChildEntriesStep(parent, children, j);
      if HasIndex(child) {
        var nested := CollectGrandchildEntries(parent, child);
        entries := entries + ([ChildCopy(child, parent)] + nested);
      }
    }
    assert children[..|children|] == children;
  }

  lemma ChildEntriesStep(parent: Element, children: seq<Element>, j: nat)
    requires j < |children|
    ensures var c := children[j];
      ChildEntries(parent, children[..j + 1])
        == ChildEntries(parent, children[..j])
           + (if HasIndex(c) then [ChildCopy(c, parent)] + GrandchildEntries(parent, c, ChildrenOf(c)) else [])
  {
    assert children[..j + 1][..j] == children[..j];
  }

  /** The children with an index of one child, as grandchild entries. */
  method CollectGrandchildEntries(parent: Element, child: Element) returns (entries: seq<Element>)
    ensures entries == GrandchildEntries(parent, child, ChildrenOf(child))
  {
    entries := [];
    var nested := ChildrenOf(child);
    for l := 0 to |nested|
      invariant entries == GrandchildEntries(parent, child, nested[..l])
    {
      assert nested[..l + 1][..l] == nested[..l];
      if HasIndex(nested[l]) {
        entries := entries + [GrandchildCopy(nested[l], child, parent)];
      }
    }
    assert nested[..|nested|] == nested;
  }

  /** The older format: every element with an index, without its "isClickable" key. */
  method FlattenLegacyElements(elements: seq<Element>) returns (flat: seq<Element>)
    ensures flat == FlattenLegacy(elements)
  {
    flat := [];
    for i := 0 to |elements|
      invariant flat == FlattenLegacy(elements[..i])
    {
      assert elements[..i + 1][..i] == elements[..i];
      if HasIndex(elements[i]) {
        flat := flat + [elements[i].(isClickable := None)];
      }
    }
    assert elements[..|elements|] == elements;
  }

  /** The shape of every flattened entry: a clickable top-level copy, or a child or grandchild copy. */
  predicate WellFormedEntry(e: Element) {
    HasIndex(e)
    && ((e.isParent == Some(true) && e.children.None? && e.kind == Some("clickable"))
        || (e.isParent == Some(false) && e.parentIndex.Some?))
  }

  predicate AllWellFormed(s: seq<Element>) {
    forall k :: 0 <= k < |s| ==> WellFormedEntry(s[k])
  }

  lemma {:induction false} GrandchildEntriesWellFormed(p: Element, c: Element, nested: seq<Element>)
    ensures AllWellFormed(GrandchildEntries(p, c, nested))
    decreases |nested|
  {
    if nested != [] {
      GrandchildEntriesWellFormed(p, c, nested[..|nested| - 1]);
    }
  }

  lemma {:induction false} ChildEntriesWellFormed(p: Element, cs: seq<Element>)
    ensures AllWellFormed(ChildEntries(p, cs))
    decreases |cs|
  {
    if cs != [] {
      var c := cs[|cs| - 1];
      ChildEntriesWellFormed(p, cs[..|cs| - 1]);
      GrandchildEntriesWellFormed(p, c, ChildrenOf(c));
    }
  }

  /**
   * Every entry of the nested format has an index other than -1, and is either the copy of a
   * clickable top-level element (marked as parent, no children) or a child or grandchild copy
   * (marked as not a parent, with a parentIndex key).
   */
  lemma {:induction false} FlattenTreeWellFormed(parents: seq<Element>)
    ensures AllWellFormed(FlattenTree(parents))
    decreases |parents|
  {
    if parents != [] {
      var p := parents[|parents| - 1];
      FlattenTreeWellFormed(parents[..|parents| - 1]);
      ChildEntriesWellFormed(p, ChildrenOf(p));
    }
  }

  /** Every entry of the older format has an index other than -1 and no "isClickable" key. */
  lemma {:induction false} FlattenLegacyIndexed(elements: seq<Element>)
    ensures forall k :: 0 <= k < |FlattenLegacy(elements)| ==>
      HasIndex(FlattenLegacy(elements)[k]) && FlattenLegacy(elements)[k].isClickable.None?
    decreases |elements|
  {
    if elements != [] {
      FlattenLegacyIndexed(elements[..|elements| - 1]);
    }
  }

  /** Top-level elements are processed in order: flattening distributes over concatenation. */
  lemma {:induction false} FlattenTreeAppend(a: seq<Element>, b: seq<Element>)
    ensures FlattenTree(a + b) == FlattenTree(a) + FlattenTree(b)
    decreases |b|
  {
    if b == [] {
      assert a + b == a;
    } else {
      var b' := b[..|b| - 1];
      var last := b[|b| - 1];
      assert (a + b)[..|a + b| - 1] == a + b';
      assert (a + b)[|a + b| - 1] == last;
      assert FlattenTree(a + b) == FlattenTree(a + b') + ParentEntries(last);
      FlattenTreeAppend(a, b');
      assert FlattenTree(b) == FlattenTree(b') + ParentEntries(last);
      assert FlattenTree(a) + FlattenTree(b') + ParentEntries(last) == FlattenTree(a) + (FlattenTree(b') + ParentEntries(last));
    }
  }

  lemma {:induction false} ChildEntriesPrefix(p: Element, cs: seq<Element>, m: nat)
    requires m <= |cs|
    ensures ChildEntries(p, cs[..m]) <= ChildEntries(p, cs)
    decreases |cs| - m
  {
    if m < |cs| {
      ChildEntriesPrefix(p, cs[..|cs| - 1], m);
      assert cs[..|cs| - 1][..m] == cs[..m];
    } else {
      assert cs[..m] == cs;
    }
  }

  lemma {:induction false} GrandchildEntriesPrefix(p: Element, c: Element, gs: seq<Element>, m: nat)
    requires m <= |gs|
    ensures GrandchildEntries(p, c, gs[..m]) <= GrandchildEntries(p, c, gs)
    decreases |gs| - m
  {
    if m < |gs| {
      GrandchildEntriesPrefix(p, c, gs[..|gs| - 1], m);
      assert gs[..|gs| - 1][..m] == gs[..m];
    } else {
      assert gs[..m] == gs;
    }
  }

  lemma {:induction false} FlattenTreePrefix(parents: seq<Element>, m: nat)
    requires m <= |parents|
    ensures FlattenTree(parents[..m]) <= FlattenTree(parents)
    decreases |parents| - m
  {
    if m < |parents| {
      FlattenTreePrefix(parents[..|parents| - 1], m);
      assert parents[..|parents| - 1][..m] == parents[..m];
    } else {
      assert parents[..m] == parents;
    }
  }

  lemma FlattenTreeStep(parents: seq<Element>, i: nat)
    requires i < |parents|
    ensures FlattenTree(parents[..i + 1]) == FlattenTree(parents[..i]) + ParentEntries(parents[i])
  {
    assert parents[..i + 1][..i] == parents[..i];
  }

  /** The entries of `parents[i]` appear in the flattening of `parents`. */
  lemma ParentEntriesIncluded(parents: seq<Element>, i: nat, e: Element)
    requires i < |parents| && e in ParentEntries(parents[i])
    ensures e in FlattenTree(parents)
  {
    FlattenTreeStep(parents, i);
    InSuffix(FlattenTree(parents[..i]), ParentEntries(parents[i]), e);
    FlattenTreePrefix(parents, i + 1);
    InPrefix(FlattenTree(parents[..i + 1]), FlattenTree(parents), e);
  }

  lemma InSuffix<T>(x: seq<T>, y: seq<T>, e: T)
    requires e in y
    ensures e in x + y
  {
    var k :| 0 <= k < |y| && y[k] == e;
    assert (x + y)[|x| + k] == e;
  }

  lemma InPrefix<T>(x: seq<T>, y: seq<T>, e: T)
    requires x <= y && e in x
    ensures e in y
  {
    var k :| 0 <= k < |x| && x[k] == e;
    assert y[k] == e;
  }

  /** A clickable top-level element with an index enters the list, without children and marked as parent. */
  lemma ClickableParentIncluded(parents: seq<Element>, i: nat)
    requires i < |parents| && IsClickableParent(parents[i])
    ensures ParentCopy(parents[i]) in FlattenTree(parents)
    ensures ParentCopy(parents[i]).children.None? && ParentCopy(parents[i]).isParent == Some(true)
  {
    ParentEntriesIncluded(parents, i, ParentCopy(parents[i]));
  }

  /** A child with an index enters the list whatever its type, with `parentIndex` its parent's index. */
  lemma ChildIncluded(parents: seq<Element>, i: nat, j: nat)
    requires i < |parents| && j < |ChildrenOf(parents[i])|
    requires HasIndex(ChildrenOf(parents[i])[j])
    ensures ChildCopy(ChildrenOf(parents[i])[j], parents[i]) in FlattenTree(parents)
    ensures ChildCopy(ChildrenOf(parents[i])[j], parents[i]).parentIndex == Some(parents[i].index)
  {
    var p := parents[i];
    var cs := ChildrenOf(p);
    var e := ChildCopy(cs[j], p);
    assert cs[..j + 1][..j] == cs[..j];
    assert e in ChildEntries(p, cs[..j + 1]);
    ChildEntriesPrefix(p, cs, j + 1);
    ParentEntriesIncluded(parents, i, e);
  }

  /**
   * A grandchild with an index (under a child with an index) enters the list whatever its type,
   * with `parentIndex` its parent's index and `grandparentIndex` the top-level element's index.
   */
  lemma GrandchildIncluded(parents: seq<Element>, i: nat, j: nat, l: nat)
    requires i < |parents| && j < |ChildrenOf(parents[i])|
    requires HasIndex(ChildrenOf(parents[i])[j])
    requires l < |ChildrenOf(ChildrenOf(parents[i])[j])|
    requires HasIndex(ChildrenOf(ChildrenOf(parents[i])[j])[l])
    ensures
      var c := ChildrenOf(parents[i])[j];
      var e := GrandchildCopy(ChildrenOf(c)[l], c, parents[i]);
      e in FlattenTree(parents) && e.parentIndex == Some(c.index) && e.grandparentIndex == Some(parents[i].index)
  {
    var p := parents[i];
    var cs := ChildrenOf(p);
    var c := cs[j];
    var gs := ChildrenOf(c);
    var e := GrandchildCopy(gs[l], c, p);
    assert gs[..l + 1][..l] == gs[..l];
    assert e in GrandchildEntries(p, c, gs[..l + 1]);
    GrandchildEntriesPrefix(p, c, gs, l + 1);
    assert e in GrandchildEntries(p, c, gs);
    assert cs[..j + 1][..j] == cs[..j];
    assert e in ChildEntries(p, cs[..j + 1]);
    ChildEntriesPrefix(p, cs, j + 1);
    ParentEntriesIncluded(parents, i, e);
  }

  /** `e` is the copy of an indexed element of `gs`, the children of the child `c` of `p`. */
  predicate GrandchildCopyIn(p: Element, c: Element, gs: seq<Element>, e: Element) {
    exists l :: 0 <= l < |gs| && HasIndex(gs[l]) && e == GrandchildCopy(gs[l], c, p)
  }

  /** `e` is the copy of an indexed child in `cs`, or of an indexed child of one. */
  predicate ChildCopyIn(p: Element, cs: seq<Element>, e: Element) {
    exists j :: 0 <= j < |cs| && HasIndex(cs[j])
      && (e == ChildCopy(cs[j], p) || GrandchildCopyIn(p, cs[j], ChildrenOf(cs[j]), e))
  }

  /** `e` is the copy of a clickable top-level element, of a child, or of a grandchild: nothing deeper. */
  predicate TreeCopyIn(parents: seq<Element>, e: Element) {
    exists i :: 0 <= i < |parents|
      && ((IsClickableParent(parents[i]) && e == ParentCopy(parents[i])) || ChildCopyIn(parents[i], ChildrenOf(parents[i]), e))
  }

  lemma {:induction false} GrandchildEntriesOnlyCopies(p: Element, c: Element, gs: seq<Element>)
    ensures forall e :: e in GrandchildEntries(p, c, gs) ==> GrandchildCopyIn(p, c, gs, e)
    decreases |gs|
  {
    if gs != [] {
      var init := gs[..|gs| - 1];
      GrandchildEntriesOnlyCopies(p, c, init);
      forall e | e in GrandchildEntries(p, c, gs) ensures GrandchildCopyIn(p, c, gs, e) {
        if e in GrandchildEntries(p, c, init) {
          var l :| 0 <= l < |init| && HasIndex(init[l]) && e == GrandchildCopy(init[l], c, p);
          assert gs[l] == init[l];
        } else {
          assert e == GrandchildCopy(gs[|gs| - 1], c, p);
        }
      }
    }
  }

  lemma {:induction false} ChildEntriesOnlyCopies(p: Element, cs: seq<Element>)
    ensures forall e :: e in ChildEntries(p, cs) ==> ChildCopyIn(p, cs, e)
    decreases |cs|
  {
    if cs != [] {
      var init := cs[..|cs| - 1];
      var c := cs[|cs| - 1];
      ChildEntriesOnlyCopies(p, init);
      GrandchildEntriesOnlyCopies(p, c, ChildrenOf(c));
      forall e | e in ChildEntries(p, cs) ensures ChildCopyIn(p, cs, e) {
        if e in ChildEntries(p, init) {
          var j :| 0 <= j < |init| && HasIndex(init[j])
            && (e == ChildCopy(init[j], p) || GrandchildCopyIn(p, init[j], ChildrenOf(init[j]), e));
          assert cs[j] == init[j];
        } else {
          assert HasIndex(c) && (e == ChildCopy(c, p) || e in GrandchildEntries(p, c, ChildrenOf(c)));
          assert cs[|cs| - 1] == c;
        }
      }
    }
  }

  /**
   * The converse of the inclusion lemmas: every entry of the nested format is the copy of a
   * clickable top-level element, of an indexed child, or of an indexed grandchild under an
   * indexed child. Nothing deeper than two levels below the top is ever included.
   */
  lemma {:induction false} FlattenTreeOnlyCopies(parents: seq<Element>)
    ensures forall e :: e in FlattenTree(parents) ==> TreeCopyIn(parents, e)
    decreases |parents|
  {
    if parents != [] {
      var init := parents[..|parents| - 1];
      var p := parents[|parents| - 1];
      FlattenTreeOnlyCopies(init);
      ChildEntriesOnlyCopies(p, ChildrenOf(p));
      forall e | e in FlattenTree(parents) ensures TreeCopyIn(parents, e) {
        if e in FlattenTree(init) {
          var i :| 0 <= i < |init|
            && ((IsClickableParent(init[i]) && e == ParentCopy(init[i])) || ChildCopyIn(init[i], ChildrenOf(init[i]), e));
          assert parents[i] == init[i];
        } else {
          assert e in ParentEntries(p);
          assert parents[|parents| - 1] == p;
        }
      }
    }
  }

  /** The number of elements at depth 0, 1 and 2 of a tree: nothing deeper is ever an entry. */
  function Depth2Count(parents: seq<Element>): nat
    decreases |parents|
  {
    if parents == [] then 0
    else
      var p := parents[|parents| - 1];
      Depth2Count(parents[..|parents| - 1]) + 1 + ChildCount(ChildrenOf(p))
  }

  function ChildCount(children: seq<Element>): nat
    decreases |children|
  {
    if children == [] then 0
    else ChildCount(children[..|children| - 1]) + 1 + |ChildrenOf(children[|children| - 1])|
  }

  lemma {:induction false} GrandchildEntriesBound(p: Element, c: Element, gs: seq<Element>)
    ensures |GrandchildEntries(p, c, gs)| <= |gs|
    decreases |gs|
  {
    if gs != [] {
      GrandchildEntriesBound(p, c, gs[..|gs| - 1]);
    }
  }

  lemma {:induction false} ChildEntriesBound(p: Element, cs: seq<Element>)
    ensures |ChildEntries(p, cs)| <= ChildCount(cs)
    decreases |cs|
  {
    if cs != [] {
      var c := cs[|cs| - 1];
      ChildEntriesBound(p, cs[..|cs| - 1]);
      GrandchildEntriesBound(p, c, ChildrenOf(c));
    }
  }

  /** Only the first two levels below the top are visited: there are at most that many entries. */
  lemma {:induction false} FlattenTreeDepthBound(parents: seq<Element>)
    ensures |FlattenTree(parents)| <= Depth2Count(parents)
    decreases |parents|
  {
    if parents != [] {
      var p := parents[|parents| - 1];
      FlattenTreeDepthBound(parents[..|parents| - 1]);
      ChildEntriesBound(p, ChildrenOf(p));
    }
  }

  // ---------------------------------------------------------------------------------------------
  // Summary of the flattened list
  // ---------------------------------------------------------------------------------------------

  datatype Clickables = Clickables(
    elements: seq<Element>,
    count: int,
    tappableCount: int,
    tappableIndices: seq<int>,
    textSummary: seq<string>,
    message: string)

  /** Python truthiness of an optional string: present and non-empty. */
  predicate Truthy(s: Option<string>) {
    s.Some? && s.value != ""
  }

  /** Has bounds and is either of type "clickable" or marked as a parent. */
  predicate IsTappable(e: Element) {
    Truthy(e.bounds) && (e.kind == Some("clickable") || e.isParent == Some(true))
  }

  /** A text element with non-empty text. */
  predicate IsLabel(e: Element) {
    e.kind == Some("text") && Truthy(e.text)
  }

  /** `e.get('parentIndex')`: a missing key and a JSON null both read as None. */
  function ParentIdOf(e: Element): Option<int> {
    if e.parentIndex.Some? then e.parentIndex.value else None
  }

  /** The sort key `e.get('index', 0)`. */
  predicate IndexLe(a: Element, b: Element) {
    a.index.GetOr(0) <= b.index.GetOr(0)
  }

  lemma IndexLeTotal()
    ensures Total(IndexLe)
  {
  }

  predicate AllIndexed(s: seq<Element>) {
    forall e :: e in s ==> e.index.Some?
  }

  /** The indices of the tappable elements, in list order. */
  function TappableIndices(elems: seq<Element>): seq<int>
    requires AllIndexed(elems)
    decreases |elems|
  {
    if elems == [] then []
    else
      var e := elems[|elems| - 1];
      TappableIndices(elems[..|elems| - 1]) + (if IsTappable(e) then [e.index.value] else [])
  }

  /** The texts of the labels whose parentIndex is `pid`, skipping elements whose index is in `skip`. */
  function TextsWithParent(elems: seq<Element>, pid: Option<int>, skip: set<int>): seq<string>
    decreases |elems|
  {
    if elems == [] then []
    else
      var e := elems[|elems| - 1];
      TextsWithParent(elems[..|elems| - 1], pid, skip)
        + (if IsLabel(e) && ParentIdOf(e) == pid && !(e.index.Some? && e.index.value in skip)
           then [e.text.value] else [])
  }

  /** Label texts grouped by parent id, groups in order of first appearance (a Python dict of lists). */
  type TextGroups = seq<(int, seq<string>)>

  function AddText(groups: TextGroups, pid: int, t: string): TextGroups
    decreases |groups|
  {
    if groups == [] then [(pid, [t])]
    else if groups[0].0 == pid then [(pid, groups[0].1 + [t])] + groups[1..]
    else [groups[0]] + AddText(groups[1..], pid, t)
  }

  function GroupTexts(elems: seq<Element>): TextGroups
    decreases |elems|
  {
    if elems == [] then []
    else
      var e := elems[|elems| - 1];
      var groups := GroupTexts(elems[..|elems| - 1]);
      if IsLabel(e) && ParentIdOf(e).Some? then AddText(groups, ParentIdOf(e).value, e.text.value) else groups
  }

  /** The texts recorded for `pid`, or none. */
  function Lookup(groups: TextGroups, pid: int): seq<string>
    decreases |groups|
  {
    if groups == [] then [] else if groups[0].0 == pid then groups[0].1 else Lookup(groups[1..], pid)
  }

  predicate DistinctKeys(groups: TextGroups) {
    forall i, j :: 0 <= i < j < |groups| ==> groups[i].0 != groups[j].0
  }

  lemma {:induction false} AddTextSpec(groups: TextGroups, pid: int, t: string)
    requires DistinctKeys(groups)
    ensures DistinctKeys(AddText(groups, pid, t))
    ensures forall q :: Lookup(AddText(groups, pid, t), q) == Lookup(groups, q) + (if q == pid then [t] else [])
    ensures forall i :: 0 <= i < |AddText(groups, pid, t)| ==>
      AddText(groups, pid, t)[i].0 == pid || exists j :: 0 <= j < |groups| && groups[j].0 == AddText(groups, pid, t)[i].0
    decreases |groups|
  {
    if groups != [] && groups[0].0 != pid {
      var rest := groups[1..];
      assert DistinctKeys(rest) by {
        forall i, j | 0 <= i < j < |rest| ensures rest[i].0 != rest[j].0 {
          assert rest[i] == groups[i + 1] && rest[j] == groups[j + 1];
        }
      }
      AddTextSpec(rest, pid, t);
      var r := AddText(groups, pid, t);
      assert r == [groups[0]] + AddText(rest, pid, t);
      forall i | 0 <= i < |r| ensures r[i].0 == pid || exists j :: 0 <= j < |groups| && groups[j].0 == r[i].0 {
        if i > 0 {
          var ri := AddText(rest, pid, t)[i - 1];
          assert r[i] == ri;
          if ri.0 != pid {
            var j :| 0 <= j < |rest| && rest[j].0 == ri.0;
            assert groups[j + 1].0 == r[i].0;
          }
        }
      }
      assert DistinctKeys(r) by {
        forall i, j | 0 <= i < j < |r| ensures r[i].0 != r[j].0 {
          if i == 0 {
            var rj := AddText(rest, pid, t)[j - 1];
            assert r[j] == rj;
            if rj.0 != pid {
              var k :| 0 <= k < |rest| && rest[k].0 == rj.0;
              assert groups[k + 1].0 == rj.0;
            }
          } else {
            assert r[i] == AddText(rest, pid, t)[i - 1] && r[j] == AddText(rest, pid, t)[j - 1];
          }
        }
      }
    } else if groups != [] {
      var r := AddText(groups, pid, t);
      assert r[1..] == groups[1..];
      forall q ensures Lookup(r, q) == Lookup(groups, q) + (if q == pid then [t] else []) {
        if q != pid {
          assert Lookup(r, q) == Lookup(r[1..], q);
        }
      }
      assert DistinctKeys(r) by {
        forall i, j | 0 <= i < j < |r| ensures r[i].0 != r[j].0 {
          assert r[j] == groups[j];
          if i > 0 { assert r[i] == groups[i]; }
        }
      }
    }
  }

  /** Every group holds at least one text. */
  predicate NonEmptyGroups(groups: TextGroups) {
    forall i :: 0 <= i < |groups| ==> groups[i].1 != []
  }

  /** Adding a text never leaves a group empty: a key appears only with the text that created it. */
  lemma {:induction false} AddTextNonEmpty(groups: TextGroups, pid: int, t: string)
    requires NonEmptyGroups(groups)
    ensures NonEmptyGroups(AddText(groups, pid, t))
    decreases |groups|
  {
    if groups != [] && groups[0].0 != pid {
      var rest := groups[1..];
      assert NonEmptyGroups(rest) by {
        forall i | 0 <= i < |rest| ensures rest[i].1 != [] {
          assert rest[i] == groups[i + 1];
        }
      }
      AddTextNonEmpty(rest, pid, t);
      var r := AddText(groups, pid, t);
      forall i | 0 <= i < |r| ensures r[i].1 != [] {
        if i > 0 {
          assert r[i] == AddText(rest, pid, t)[i - 1];
        }
      }
    } else if groups != [] {
      var r := AddText(groups, pid, t);
      forall i | 0 <= i < |r| ensures r[i].1 != [] {
        if i > 0 {
          assert r[i] == groups[i];
        }
      }
    }
  }

  /**
   * The dictionary that groups label texts by parent holds, for every parent id, exactly the
   * texts of the labels under that parent, in list order, and no id twice. A parent gets a key only
   * with its first text, so no group is empty.
   */
  lemma {:induction false} GroupTextsSpec(elems: seq<Element>)
    ensures DistinctKeys(GroupTexts(elems))
    ensures forall pid :: Lookup(GroupTexts(elems), pid) == TextsWithParent(elems, Some(pid), {})
    ensures NonEmptyGroups(GroupTexts(elems))
    decreases |elems|
  {
    if elems != [] {
      var e := elems[|elems| - 1];
      GroupTextsSpec(elems[..|elems| - 1]);
      if IsLabel(e) && ParentIdOf(e).Some? {
        AddTextSpec(GroupTexts(elems[..|elems| - 1]), ParentIdOf(e).value, e.text.value);
        AddTextNonEmpty(GroupTexts(elems[..|elems| - 1]), ParentIdOf(e).value, e.text.value);
      }
    }
  }

  /** The first position whose element's index equals `key` (`e.get('index') == key`). */
  function FindFirst(elems: seq<Element>, key: Option<int>): (r: Option<nat>)
    ensures r.Some? ==> r.value < |elems| && elems[r.value].index == key
    ensures r.Some? ==> forall j :: 0 <= j < r.value ==> elems[j].index != key
    ensures r.None? ==> forall j :: 0 <= j < |elems| ==> elems[j].index != key
    decreases |elems|
  {
    if elems == [] then None
    else if elems[0].index == key then Some(0)
    else match FindFirst(elems[1..], key) case Some(k) => Some(k + 1) case None => None
  }

  /** The search loop: the first element whose index equals `key`. */
  method FindElement(elems: seq<Element>, key: Option<int>) returns (r: Option<nat>)
    ensures r.Some? ==> r.value < |elems| && elems[r.value].index == key
    ensures r.Some? ==> forall j :: 0 <= j < r.value ==> elems[j].index != key
    ensures r.None? ==> forall j :: 0 <= j < |elems| ==> elems[j].index != key
    ensures r == FindFirst(elems, key)
  {
    r := None;
    var i := 0;
    while i < |elems|
      invariant 0 <= i <= |elems|
      invariant forall j :: 0 <= j < i ==> elems[j].index != key
    {
      if elems[i].index == key {
        r := Some(i);
        break;
      }
      i := i + 1;
    }
  }

  /** The loop that collects label texts under `pid`, skipping elements whose index is in `skip`. */
  method CollectTexts(elems: seq<Element>, pid: Option<int>, skip: set<int>) returns (texts: seq<string>)
    ensures texts == TextsWithParent(elems, pid, skip)
  {
    texts := [];
    for i := 0 to |elems|
      invariant texts == TextsWithParent(elems[..i], pid, skip)
    {
      var e := elems[i];
      assert elems[..i + 1][..i] == elems[..i];
      if IsLabel(e) && ParentIdOf(e) == pid && !(e.index.Some? && e.index.value in skip) {
        texts := texts + [e.text.value];
      }
    }
    assert elems[..|elems|] == elems;
  }

  const TappableMarker: string := "\U{1F518}"
  const PlainMarker: string := "\U{1F4C4}"

  function SummaryLine(pid: int, parent: Element, texts: seq<string>, tappable: seq<int>): string {
    (if pid in tappable then TappableMarker else PlainMarker)
      + " Element " + IntToString(pid) + " (" + parent.className.GetOr("Unknown") + "): " + Join(texts, " | ")
  }

  /** One line per group whose parent id is the index of some element. */
  function SummaryLines(elems: seq<Element>, tappable: seq<int>, groups: TextGroups): seq<string>
    decreases |groups|
  {
    if groups == [] then []
    else
      var g := groups[|groups| - 1];
      SummaryLines(elems, tappable, groups[..|groups| - 1])
        + match FindFirst(elems, Some(g.0))
          case Some(k) => [SummaryLine(g.0, elems[k], g.1, tappable)]
          case None => []
  }

  function CountMessage(tappable: int, total: int): string {
    "Found " + IntToString(tappable) + " tappable elements out of " + IntToString(total) + " total elements"
  }

  /** `flat.sort(key=lambda x: x.get('index', 0))`. */
  function SortByIndex(flat: seq<Element>): (r: seq<Element>)
    requires AllIndexed(flat)
    ensures AllIndexed(r) && SortedBy(IndexLe, r) && multiset(r) == multiset(flat)
  {
    IndexLeTotal();
    var r := Sort(IndexLe, flat);
    assert AllIndexed(r) by {
      forall e | e in r ensures e.index.Some? {
        assert e in multiset(r);
      }
    }
    r
  }

  /** `sorted(xs)` for integers: ascending, same elements. */
  function SortInts(xs: seq<int>): (r: seq<int>)
    ensures forall i, j :: 0 <= i < j < |r| ==> r[i] <= r[j]
    ensures multiset(r) == multiset(xs)
  {
    IntLeTotal();
    var r := Sort(IntLe, xs);
    IntSortedAscending(r);
    r
  }

  /** `sorted(xs)` for strings. */
  function SortStrings(xs: seq<string>): (r: seq<string>)
    ensures SortedBy(LexLe, r) && multiset(r) == multiset(xs)
  {
    LexLeTotal();
    Sort(LexLe, xs)
  }

  /** What `get_clickables` returns for a flattened list: sorted by index, with its tappable indices and text summary. */
  function Summary(flat: seq<Element>): (c: Clickables)
    requires AllIndexed(flat)
    ensures AllIndexed(c.elements) && SortedBy(IndexLe, c.elements) && multiset(c.elements) == multiset(flat)
  {
    var sorted := SortByIndex(flat);
    var tappable := TappableIndices(sorted);
    Clickables(
      sorted, |sorted|, |tappable|, SortInts(tappable),
      SortStrings(SummaryLines(sorted, tappable, GroupTexts(sorted))),
      CountMessage(|tappable|, |sorted|))
  }

  /** The summarising loops of `get_clickables`. */
  method Summarize(flat: seq<Element>) returns (c: Clickables)
    requires AllIndexed(flat)
    ensures c == Summary(flat)
  {
    var sorted := SortByIndex(flat);
    var tappable, groups := ScanSorted(sorted);
    var lines := CollectSummaryLines(sorted, tappable, groups);
    c := Clickables(
      sorted, |sorted|, |tappable|, SortInts(tappable), SortStrings(lines),
      CountMessage(|tappable|, |sorted|));
  }

  /** The loop over the sorted list: the tappable indices, and the label texts grouped by parent id. */
  method ScanSorted(sorted: seq<Element>) returns (tappable: seq<int>, groups: TextGroups)
    requires AllIndexed(sorted)
    ensures tappable == TappableIndices(sorted)
    ensures groups == GroupTexts(sorted)
  {
    tappable := [];
    groups := [];
    AllIndexedPrefixes(sorted);
    for i := 0 to |sorted|
      invariant tappable == TappableIndices(sorted[..i])
      invariant groups == GroupTexts(sorted[..i])
    {
      var e := sorted[i];
      ScanSortedStep(sorted, i);
      if IsTappable(e) {
        tappable := tappable + [e.index.value];
      }
      if IsLabel(e) && ParentIdOf(e).Some? {
        groups := AddText(groups, ParentIdOf(e).value, e.text.value);
      }
    }
    assert sorted[..|sorted|] == sorted;
  }

  /** The loop over the groups: one line for each group whose parent id is found. */
  method CollectSummaryLines(sorted: seq<Element>, tappable: seq<int>, groups: TextGroups) returns (lines: seq<string>)
    ensures lines == SummaryLines(sorted, tappable, groups)
  {
    lines := [];
    for g := 0 to |groups|
      invariant lines == SummaryLines(sorted, tappable, groups[..g])
    {
      var (pid, texts) := groups[g];
      SummaryLinesStep(sorted, tappable, groups, g);
      var found := FindElement(sorted, Some(pid));
      if found.Some? {
        lines := lines + [SummaryLine(pid, sorted[found.value], texts, tappable)];
      }
    }
    assert groups[..|groups|] == groups;
  }

  lemma AllIndexedPrefixes(elems: seq<Element>)
    requires AllIndexed(elems)
    ensures forall i :: 0 <= i <= |elems| ==> AllIndexed(elems[..i])
  {
    forall i, e | 0 <= i <= |elems| && e in elems[..i] ensures e.index.Some? {
      assert e in elems;
    }
  }

  lemma ScanSortedStep(elems: seq<Element>, i: nat)
    requires AllIndexed(elems) && i < |elems|
    ensures AllIndexed(elems[..i]) && AllIndexed(elems[..i + 1])
    ensures var e := elems[i];
      && TappableIndices(elems[..i + 1]) == TappableIndices(elems[..i]) + (if IsTappable(e) then [e.index.value] else [])
      && GroupTexts(elems[..i + 1])
         == if IsLabel(e) && ParentIdOf(e).Some? then AddText(GroupTexts(elems[..i]), ParentIdOf(e).value, e.text.value)
            else GroupTexts(elems[..i])
  {
    AllIndexedPrefixes(elems);
    assert elems[..i + 1][..i] == elems[..i];
  }

  lemma SummaryLinesStep(elems: seq<Element>, tappable: seq<int>, groups: TextGroups, g: nat)
    requires g < |groups|
    ensures SummaryLines(elems, tappable, groups[..g + 1])
      == SummaryLines(elems, tappable, groups[..g])
         + match FindFirst(elems, Some(groups[g].0))
           case Some(k) => [SummaryLine(groups[g].0, elems[k], groups[g].1, tappable)]
           case None => []
  {
    assert groups[..g + 1][..g] == groups[..g];
  }

  /** Every flattened entry carries an index, so the summary is defined for it. */
  lemma FlattenedIndexed(data: UiData)
    ensures AllIndexed(Flattened(data))
  {
    match data
    case Tree(parents) =>
      FlattenTreeWellFormed(parents);
    case Legacy(elements) =>
      FlattenLegacyIndexed(elements.GetOr([]));
  }

  /** A tappable index belongs to a tappable element, and every tappable element's index is listed. */
  lemma {:induction false} TappableIndicesSpec(elems: seq<Element>)
    requires AllIndexed(elems)
    ensures forall x :: x in TappableIndices(elems) ==>
      exists k :: 0 <= k < |elems| && IsTappable(elems[k]) && elems[k].index == Some(x)
    ensures forall k :: 0 <= k < |elems| && IsTappable(elems[k]) ==> elems[k].index.value in TappableIndices(elems)
    decreases |elems|
  {
    if elems != [] {
      var init := elems[..|elems| - 1];
      TappableIndicesSpec(init);
      forall x | x in TappableIndices(elems)
        ensures exists k :: 0 <= k < |elems| && IsTappable(elems[k]) && elems[k].index == Some(x)
      {
        if x in TappableIndices(init) {
          var k :| 0 <= k < |init| && IsTappable(init[k]) && init[k].index == Some(x);
          assert elems[k] == init[k];
        } else {
          assert IsTappable(elems[|elems| - 1]) && elems[|elems| - 1].index == Some(x);
        }
      }
      forall k | 0 <= k < |elems| && IsTappable(elems[k])
        ensures elems[k].index.value in TappableIndices(elems)
      {
        if k < |elems| - 1 {
          assert elems[k] == init[k];
        }
      }
    }
  }

  /** Sorting the tappable indices keeps exactly the indices of the tappable elements, ascending. */
  /** `ti` holds exactly the indices of the tappable elements of `elems`. */
  predicate ListsTappable(elems: seq<Element>, ti: seq<int>)
    requires AllIndexed(elems)
  {
    && (forall x :: x in ti ==> exists k :: 0 <= k < |elems| && IsTappable(elems[k]) && elems[k].index == Some(x))
    && (forall k :: 0 <= k < |elems| && IsTappable(elems[k]) ==> elems[k].index.value in ti)
  }

  lemma SortedTappableIndices(elems: seq<Element>)
    requires AllIndexed(elems)
    ensures
      var ti := SortInts(TappableIndices(elems));
      && |ti| == |TappableIndices(elems)|
      && ListsTappable(elems, ti)
  {
    var tappable := TappableIndices(elems);
    var ti := SortInts(tappable);
    TappableIndicesSpec(elems);
    assert |ti| == |tappable| by {
      assert |multiset(ti)| == |multiset(tappable)|;
    }
    forall x | x in ti
      ensures exists k :: 0 <= k < |elems| && IsTappable(elems[k]) && elems[k].index == Some(x)
    {
      assert x in multiset(ti);
      assert x in tappable;
    }
    forall k | 0 <= k < |elems| && IsTappable(elems[k])
      ensures elems[k].index.value in ti
    {
      assert elems[k].index.value in multiset(tappable);
    }
  }

  /**
   * The result of `get_clickables`: its elements are the flattened entries sorted by index (a
   * permutation of them), `count` is their number, and the tappable indices are ascending and are
   * exactly the indices of the elements that have bounds and are clickable or parents.
   */
  lemma SummaryProperties(flat: seq<Element>)
    requires AllIndexed(flat)
    ensures
      var c := Summary(flat);
      && SortedBy(IndexLe, c.elements)
      && multiset(c.elements) == multiset(flat)
      && c.count == |c.elements|
      && c.tappableCount == |c.tappableIndices|
      && (forall i, j :: 0 <= i < j < |c.tappableIndices| ==> c.tappableIndices[i] <= c.tappableIndices[j])
      && ListsTappable(c.elements, c.tappableIndices)
      && SortedBy(LexLe, c.textSummary)
  {
    SortedTappableIndices(SortByIndex(flat));
  }

  // ---------------------------------------------------------------------------------------------
  // Tapping by index
  // ---------------------------------------------------------------------------------------------

  datatype Bounds = Bounds(left: int, top: int, right: int, bottom: int)

  /** Each of exactly four comma-separated fields reads as an integer. */
  predicate FourIntFields(parts: seq<string>) {
    && |parts| == 4
    && ParseInt(parts[0]).Some? && ParseInt(parts[1]).Some?
    && ParseInt(parts[2]).Some? && ParseInt(parts[3]).Some?
  }

  /** `left, top, right, bottom = map(int, s.split(','))`; None where that raises ValueError. */
  function ParseBounds(s: string): (r: Option<Bounds>)
    ensures |Split(s, ',')| != 4 ==> r.None?
    ensures r.Some? <==> FourIntFields(Split(s, ','))
    ensures r.Some? ==>
      var parts := Split(s, ',');
      && ParseInt(parts[0]) == Some(r.value.left) && ParseInt(parts[1]) == Some(r.value.top)
      && ParseInt(parts[2]) == Some(r.value.right) && ParseInt(parts[3]) == Some(r.value.bottom)
  {
    var parts := Split(s, ',');
    if !FourIntFields(parts) then None
    else Some(Bounds(ParseInt(parts[0]).value, ParseInt(parts[1]).value, ParseInt(parts[2]).value, ParseInt(parts[3]).value))
  }

  /** The "l,t,r,b" text of a bounds value. */
  function FormatBounds(b: Bounds): string {
    Join([IntToString(b.left), IntToString(b.top), IntToString(b.right), IntToString(b.bottom)], ",")
  }

  /** Bounds written as "l,t,r,b" parse back to themselves. */
  lemma ParseFormatBounds(b: Bounds)
    ensures ParseBounds(FormatBounds(b)) == Some(b)
  {
    var parts := [IntToString(b.left), IntToString(b.top), IntToString(b.right), IntToString(b.bottom)];
    FormatBoundsSplits(b);
    assert Split(FormatBounds(b), ',') == parts;
    ParseIntToString(b.left);
    ParseIntToString(b.top);
    ParseIntToString(b.right);
    ParseIntToString(b.bottom);
  }

  /** The four fields of formatted bounds are the four numbers' texts. */
  lemma FormatBoundsSplits(b: Bounds)
    ensures Split(FormatBounds(b), ',')
      == [IntToString(b.left), IntToString(b.top), IntToString(b.right), IntToString(b.bottom)]
  {
    var parts := [IntToString(b.left), IntToString(b.top), IntToString(b.right), IntToString(b.bottom)];
    IntToStringHasNo(b.left, ',');
    IntToStringHasNo(b.top, ',');
    IntToStringHasNo(b.right, ',');
    IntToStringHasNo(b.bottom, ',');
    assert forall i :: 0 <= i < |parts| ==> ',' !in parts[i];
    SplitJoin(parts, ',');
  }

  /** The tap point: the centre of the bounds, rounded down (Python's `//`). */
  function Centre(b: Bounds): (p: (int, int))
    ensures 2 * p.0 <= b.left + b.right < 2 * p.0 + 2
    ensures 2 * p.1 <= b.top + b.bottom < 2 * p.1 + 2
  {
    ((b.left + b.right) / 2, (b.top + b.bottom) / 2)
  }

  /** `item.get('index')` for every element that has one, in list order. */
  function KnownIndices(elems: seq<Element>): (r: seq<int>)
    ensures |r| <= |elems|
    decreases |elems|
  {
    if elems == [] then []
    else
      var e := elems[|elems| - 1];
      KnownIndices(elems[..|elems| - 1]) + (if e.index.Some? then [e.index.value] else [])
  }

  /** The known indices are exactly the indices the elements carry. */
  lemma {:induction false} KnownIndicesSpec(elems: seq<Element>)
    ensures forall v :: v in KnownIndices(elems) <==> exists k :: 0 <= k < |elems| && elems[k].index == Some(v)
    decreases |elems|
  {
    if elems != [] {
      var init := elems[..|elems| - 1];
      KnownIndicesSpec(init);
      forall v ensures v in KnownIndices(elems) <==> exists k :: 0 <= k < |elems| && elems[k].index == Some(v) {
        if v in KnownIndices(elems) {
          if v in KnownIndices(init) {
            var k :| 0 <= k < |init| && init[k].index == Some(v);
            assert elems[k] == init[k];
          } else {
            assert elems[|elems| - 1].index == Some(v);
          }
        }
        if exists k :: 0 <= k < |elems| && elems[k].index == Some(v) {
          var k :| 0 <= k < |elems| && elems[k].index == Some(v);
          if k < |init| {
            assert init[k] == elems[k];
          }
        }
      }
    }
  }

  const ListedIndices: nat := 20

  /** `str(idx)` for each index. */
  function IndexTexts(indices: seq<int>): seq<string> {
    seq(|indices|, k requires 0 <= k < |indices| => IntToString(indices[k]))
  }

  /** The first 20 indices shown, then "... and N more" when there are others. */
  function IndicesListing(indices: seq<int>): string {
    Join(IndexTexts(ShownIndices(indices)), ", ") + MoreNote(|indices|)
  }

  /** `indices[:20]`. */
  function ShownIndices(indices: seq<int>): seq<int> {
    if |indices| <= ListedIndices then indices else indices[..ListedIndices]
  }

  /** What follows the listed indices when there are more than 20. */
  function MoreNote(count: nat): string {
    if count > ListedIndices then "... and " + IntToString(count - ListedIndices) + " more" else ""
  }

  const NoCacheMessage: string := "Error: No UI elements cached. Call get_clickables first."

  function NotFoundHead(index: int): string {
    "Error: No element found with index " + IntToString(index) + ". Available indices: "
  }

  function NotFoundMessage(index: int, cache: seq<Element>): string {
    NotFoundHead(index) + IndicesListing(SortInts(KnownIndices(cache)))
  }

  /** `text` lists all of `indices` when there are at most 20; otherwise the first 20 and the number left out. */
  predicate ListsIndices(indices: seq<int>, text: string) {
    && (|indices| <= ListedIndices ==> text == Join(IndexTexts(indices), ", "))
    && (|indices| > ListedIndices ==>
          text == Join(IndexTexts(indices[..ListedIndices]), ", ") + "... and " + IntToString(|indices| - ListedIndices) + " more")
  }

  lemma IndicesListingShape(indices: seq<int>)
    ensures ListsIndices(indices, IndicesListing(indices))
  {
    var text := Join(IndexTexts(ShownIndices(indices)), ", ");
    if |indices| <= ListedIndices {
      assert ShownIndices(indices) == indices && MoreNote(|indices|) == "";
      assert text + "" == text;
    }
  }

  /** The sorted known indices are exactly the indices the cached elements carry, ascending. */
  lemma SortedKnownIndices(cache: seq<Element>)
    ensures var listed := SortInts(KnownIndices(cache));
      && (forall v :: v in listed <==> exists k :: 0 <= k < |cache| && cache[k].index == Some(v))
      && (forall i, j :: 0 <= i < j < |listed| ==> listed[i] <= listed[j])
  {
    var known := KnownIndices(cache);
    var listed := SortInts(known);
    KnownIndicesSpec(cache);
    forall v ensures v in listed <==> v in known {
      assert v in listed <==> v in multiset(listed);
      assert v in known <==> v in multiset(known);
    }
  }

  /**
   * The not-found message lists the indices the cached elements carry, ascending: all of them
   * when there are at most 20, otherwise the 20 smallest and then the number left out.
   */
  lemma NotFoundListing(index: int, cache: seq<Element>)
    ensures var listed := SortInts(KnownIndices(cache));
      && NotFoundMessage(index, cache) == NotFoundHead(index) + IndicesListing(listed)
      && ListsIndices(listed, IndicesListing(listed))
      && (forall v :: v in listed <==> exists k :: 0 <= k < |cache| && cache[k].index == Some(v))
      && (forall i, j :: 0 <= i < j < |listed| ==> listed[i] <= listed[j])
  {
    var listed := SortInts(KnownIndices(cache));
    SortedKnownIndices(cache);
    IndicesListingShape(listed);
  }

  /** Python's f-string rendering of an optional integer. */
  function OptionalIntText(v: Option<int>): string {
    match v case Some(n) => IntToString(n) case None => "None"
  }

  function NoBoundsMessage(index: int, e: Element): string {
    "Error: Element with index " + IntToString(index) + " ('" + e.text.GetOr("No text") + "', "
      + e.className.GetOr("Unknown class") + ", type: " + e.kind.GetOr("unknown")
      + ") has no bounds and cannot be tapped directly."
      + (if e.parentIndex.Some?
         then " You might want to tap its parent element with index " + OptionalIntText(ParentIdOf(e)) + " instead."
         else "")
  }

  function BadBoundsMessage(index: int, bounds: string): string {
    "Error: Invalid bounds format for element with index " + IntToString(index) + ": " + bounds
  }

  /** The description returned after a tap: the element, its role, related texts and the tap point. */
  function TapHead(index: int, e: Element): seq<string> {
    [ "Tapped element with index " + IntToString(index),
      "Text: '" + e.text.GetOr("No text") + "'",
      "Class: " + e.className.GetOr("Unknown class"),
      "Type: " + e.kind.GetOr("unknown"),
      "Role: " + (if e.isParent == Some(true) then "parent" else "child")]
  }

  /** For a parent: the texts of the labels under it. */
  function ContainsPart(cache: seq<Element>, index: int, e: Element): seq<string> {
    var childTexts := TextsWithParent(cache, Some(index), {});
    if e.isParent == Some(true) && childTexts != [] then ["Contains text: " + Join(childTexts, " | ")] else []
  }

  /** For a child whose parent is cached: the parent's text and the texts of its sibling labels. */
  function ParentPart(cache: seq<Element>, index: int, e: Element): seq<string> {
    if e.isParent != Some(true) && e.parentIndex.Some? then
      match FindFirst(cache, ParentIdOf(e))
      case None => []
      case Some(k) =>
        var siblings := TextsWithParent(cache, ParentIdOf(e), {index});
        ["Parent: " + OptionalIntText(ParentIdOf(e)) + " ('" + cache[k].text.GetOr("No text") + "')"]
          + (if siblings != [] then ["Related text: " + Join(siblings, " | ")] else [])
    else []
  }

  function CoordinatesPart(point: (int, int)): string {
    "Coordinates: (" + IntToString(point.0) + ", " + IntToString(point.1) + ")"
  }

  /** The parts of the description, in the order `tap_by_index` appends them. */
  function TapParts(cache: seq<Element>, index: int, e: Element, point: (int, int)): seq<string> {
    TapHead(index, e) + ContainsPart(cache, index, e) + ParentPart(cache, index, e) + [CoordinatesPart(point)]
  }

  /** The description returned after a tap: its parts joined by " | ". */
  function TapResponse(cache: seq<Element>, index: int, e: Element, point: (int, int)): string {
    Join(TapParts(cache, index, e, point), " | ")
  }

  /** Some part of `parts` begins with `prefix`. */
  predicate HasPart(parts: seq<string>, prefix: string) {
    exists k :: 0 <= k < |parts| && StartsWith(parts[k], prefix)
  }

  lemma HasPartAppend(a: seq<string>, b: seq<string>, prefix: string)
    ensures HasPart(a + b, prefix) <==> HasPart(a, prefix) || HasPart(b, prefix)
  {
    if HasPart(a + b, prefix) {
      var k :| 0 <= k < |a + b| && StartsWith((a + b)[k], prefix);
      if k < |a| {
        assert a[k] == (a + b)[k];
      } else {
        assert b[k - |a|] == (a + b)[k];
      }
    }
    if HasPart(a, prefix) {
      var k :| 0 <= k < |a| && StartsWith(a[k], prefix);
      assert (a + b)[k] == a[k];
    }
    if HasPart(b, prefix) {
      var k :| 0 <= k < |b| && StartsWith(b[k], prefix);
      assert (a + b)[|a| + k] == b[k];
    }
  }

  /** Text that differs from `prefix` at position `k` does not begin with it. */
  lemma DiffersAt(text: string, prefix: string, k: nat)
    requires k < |text| && k < |prefix| && text[k] != prefix[k]
    ensures !StartsWith(text, prefix)
  {
    if |prefix| <= |text| {
      assert text[..|prefix|][k] == text[k];
    }
  }

  const ContainsLead: string := "Contains text: "
  const ParentLead: string := "Parent: "

  lemma TapHeadLeads(index: int, e: Element)
    ensures !HasPart(TapHead(index, e), ContainsLead) && !HasPart(TapHead(index, e), ParentLead)
  {
    var head := TapHead(index, e);
    assert head[0][0] == 'T' && head[1][0] == 'T' && head[2][0] == 'C' && head[2][1] == 'l';
    assert head[3][0] == 'T' && head[4][0] == 'R';
    DiffersAt(head[0], ContainsLead, 0);
    DiffersAt(head[1], ContainsLead, 0);
    DiffersAt(head[2], ContainsLead, 1);
    DiffersAt(head[3], ContainsLead, 0);
    DiffersAt(head[4], ContainsLead, 0);
    DiffersAt(head[0], ParentLead, 0);
    DiffersAt(head[1], ParentLead, 0);
    DiffersAt(head[2], ParentLead, 0);
    DiffersAt(head[3], ParentLead, 0);
    DiffersAt(head[4], ParentLead, 0);
  }

  lemma ContainsPartLeads(cache: seq<Element>, index: int, e: Element)
    ensures HasPart(ContainsPart(cache, index, e), ContainsLead) <==> ContainsPart(cache, index, e) != []
    ensures !HasPart(ContainsPart(cache, index, e), ParentLead)
  {
    var part := ContainsPart(cache, index, e);
    if part != [] {
      var first := part[0];
      assert |part| == 1;
      assert first == ContainsLead + Join(TextsWithParent(cache, Some(index), {}), " | ");
      assert StartsWith(first, ContainsLead) by {
        assert first[..|ContainsLead|] == ContainsLead;
      }
      assert first[0] == 'C';
      DiffersAt(first, ParentLead, 0);
    }
  }

  lemma ParentPartLeads(cache: seq<Element>, index: int, e: Element)
    ensures HasPart(ParentPart(cache, index, e), ParentLead) <==> ParentPart(cache, index, e) != []
    ensures !HasPart(ParentPart(cache, index, e), ContainsLead)
  {
    var part := ParentPart(cache, index, e);
    if part != [] {
      var k := FindFirst(cache, ParentIdOf(e)).value;
      var siblings := TextsWithParent(cache, ParentIdOf(e), {index});
      var first := "Parent: " + OptionalIntText(ParentIdOf(e)) + " ('" + cache[k].text.GetOr("No text") + "')";
      assert part[0] == first;
      assert |part| == if siblings != [] then 2 else 1;
      assert StartsWith(first, ParentLead) by {
        assert first[..|ParentLead|] == ParentLead;
      }
      assert first[0] == 'P';
      DiffersAt(first, ContainsLead, 0);
      if siblings != [] {
        assert part[1] == "Related text: " + Join(siblings, " | ");
        assert part[1][0] == 'R';
        DiffersAt(part[1], ContainsLead, 0);
      }
    }
  }

  /**
   * The description of a tap opens with the tapped index and closes with the coordinates.
   * "Contains text: ..." is there exactly for a parent with labels under it; "Parent: ..." exactly
   * for a non-parent with a parentIndex key whose parent is cached. Never both.
   */
  lemma TapPartsShape(cache: seq<Element>, index: int, e: Element, point: (int, int))
    ensures var parts := TapParts(cache, index, e, point);
      && |parts| >= 6
      && parts[0] == "Tapped element with index " + IntToString(index)
      && parts[|parts| - 1] == CoordinatesPart(point)
      && (HasPart(parts, ContainsLead) <==>
            e.isParent == Some(true) && TextsWithParent(cache, Some(index), {}) != [])
      && (HasPart(parts, ParentLead) <==>
            e.isParent != Some(true) && e.parentIndex.Some? && FindFirst(cache, ParentIdOf(e)).Some?)
      && !(HasPart(parts, ContainsLead) && HasPart(parts, ParentLead))
  {
    var head := TapHead(index, e);
    var contains := ContainsPart(cache, index, e);
    var parent := ParentPart(cache, index, e);
    var coords := CoordinatesPart(point);
    TapHeadLeads(index, e);
    ContainsPartLeads(cache, index, e);
    ParentPartLeads(cache, index, e);
    assert coords[0] == 'C' && coords[2] == 'o';
    DiffersAt(coords, ContainsLead, 2);
    DiffersAt(coords, ParentLead, 0);
    assert !HasPart([coords], ContainsLead) && !HasPart([coords], ParentLead);
    HasPartAppend(head, contains, ContainsLead);
    HasPartAppend(head + contains, parent, ContainsLead);
    HasPartAppend(head + contains + parent, [coords], ContainsLead);
    HasPartAppend(head, contains, ParentLead);
    HasPartAppend(head + contains, parent, ParentLead);
    HasPartAppend(head + contains + parent, [coords], ParentLead);
  }

  /** The loops that build the response of a successful tap. */
  method DescribeTap(cache: seq<Element>, index: int, e: Element, point: (int, int)) returns (message: string)
    ensures message == TapResponse(cache, index, e, point)
  {
    var isParent := e.isParent == Some(true);
    var contains: seq<string> := [];
    var childTexts := CollectTexts(cache, Some(index), {});
    if isParent && childTexts != [] {
      contains := ["Contains text: " + Join(childTexts, " | ")];
    }
    assert contains == ContainsPart(cache, index, e);
    var parentParts: seq<string> := [];
    if !isParent && e.parentIndex.Some? {
      var parentIndex := ParentIdOf(e);
      var parent := FindElement(cache, parentIndex);
      if parent.Some? {
        parentParts := ["Parent: " + OptionalIntText(parentIndex) + " ('" + cache[parent.value].text.GetOr("No text") + "')"];
        var siblings := CollectTexts(cache, parentIndex, {index});
        if siblings != [] {
          parentParts := parentParts + ["Related text: " + Join(siblings, " | ")];
        }
      }
    }
    assert parentParts == ParentPart(cache, index, e);
    message := Join(TapHead(index, e) + contains + parentParts + [CoordinatesPart(point)], " | ");
  }

  /** The outcome of `tap_by_index`: the point tapped, if any, and the message returned. */
  datatype TapResult = TapResult(point: Option<(int, int)>, message: string)

  /**
   * `tap_by_index` against a cache, with the device call taken as always succeeding.
   * A tap happens only for a cached element with that index whose bounds are four comma-separated
   * integers, and it is at the centre of those bounds; with an empty cache or an unknown index
   * the answer is the matching error message.
   */
  function TapSpec(cache: seq<Element>, index: int): (r: TapResult)
    ensures cache == [] ==> r == TapResult(None, NoCacheMessage)
    ensures cache != [] && FindFirst(cache, Some(index)).None? ==>
      r == TapResult(None, NotFoundMessage(index, cache))
    ensures r.point.Some? <==>
      cache != [] && FindFirst(cache, Some(index)).Some?
      && Truthy(cache[FindFirst(cache, Some(index)).value].bounds)
      && ParseBounds(cache[FindFirst(cache, Some(index)).value].bounds.value).Some?
    ensures r.point.Some? ==>
      var e := cache[FindFirst(cache, Some(index)).value];
      e.index == Some(index) && r.point.value == Centre(ParseBounds(e.bounds.value).value)
  {
    if cache == [] then TapResult(None, NoCacheMessage)
    else
      match FindFirst(cache, Some(index))
      case None => TapResult(None, NotFoundMessage(index, cache))
      case Some(k) =>
        var e := cache[k];
        if !Truthy(e.bounds) then TapResult(None, NoBoundsMessage(index, e))
        else
          match ParseBounds(e.bounds.value)
          case None => TapResult(None, BadBoundsMessage(index, e.bounds.value))
          case Some(b) => TapResult(Some(Centre(b)), TapResponse(cache, index, e, Centre(b)))
  }

  /** A tap on an element whose bounds were written as "l,t,r,b" lands at the centre of those bounds. */
  lemma TapAtCentre(cache: seq<Element>, index: int, k: nat, b: Bounds)
    requires k < |cache| && cache[k].index == Some(index) && cache[k].bounds == Some(FormatBounds(b))
    requires forall j :: 0 <= j < k ==> cache[j].index != Some(index)
    ensures TapSpec(cache, index).point == Some(Centre(b))
  {
    ParseFormatBounds(b);
    assert FindFirst(cache, Some(index)) == Some(k);
    assert FormatBounds(b) != "";
  }

  // ---------------------------------------------------------------------------------------------
  // Typing text
  // ---------------------------------------------------------------------------------------------

  /** The characters `input text` needs escaped for the device shell (space is not among them). */
  const SpecialChars: string := "[]()|&;$<>\\`\"'{}#!?^~"

  function EscapeChar(c: char): string {
    if c == ' ' then " " else if c in SpecialChars then ['\\', c] else [c]
  }

  /** `escape_text(s)`. */
  function Escaped(s: string): (r: string)
    ensures |s| <= |r| <= 2 * |s|
    decreases |s|
  {
    if s == [] then [] else EscapeChar(s[0]) + Escaped(s[1..])
  }

  lemma {:induction false} EscapedAppend(a: string, b: string)
    ensures Escaped(a + b) == Escaped(a) + Escaped(b)
    decreases |a|
  {
    if a != [] {
      assert (a + b)[1..] == a[1..] + b;
      EscapedAppend(a[1..], b);
    } else {
      assert a + b == b;
    }
  }

  /** The character loop of `escape_text`. */
  method EscapeText(s: string) returns (escaped: string)
    ensures escaped == Escaped(s)
  {
    escaped := "";
    for i := 0 to |s|
      invariant escaped == Escaped(s[..i])
    {
      EscapedAppend(s[..i], [s[i]]);
      assert s[..i + 1] == s[..i] + [s[i]];
      escaped := escaped + EscapeChar(s[i]);
    }
    assert s[..|s|] == s;
  }

  /** What the device shell makes of escaped text: a backslash before a special character is dropped. */
  function Unescape(e: string): string
    decreases |e|
  {
    if e == [] then []
    else if |e| >= 2 && e[0] == '\\' && e[1] in SpecialChars then [e[1]] + Unescape(e[2..])
    else [e[0]] + Unescape(e[1..])
  }

  /** Escaping loses nothing: unescaping gives the original text back. */
  lemma {:induction false} UnescapeEscaped(s: string)
    ensures Unescape(Escaped(s)) == s
    decreases |s|
  {
    if s != [] {
      var c := s[0];
      var rest := Escaped(s[1..]);
      UnescapeEscaped(s[1..]);
      if c != ' ' && c in SpecialChars {
        var e := ['\\', c] + rest;
        assert Escaped(s) == e;
        assert e[0] == '\\' && e[1] == c && e[2..] == rest;
        assert Unescape(e) == [c] + Unescape(rest);
      } else {
        var e := [c] + rest;
        assert c != '\\';
        assert Escaped(s) == e;
        assert e[0] == c && e[1..] == rest;
        assert Unescape(e) == [c] + Unescape(rest);
      }
      assert s == [c] + s[1..];
    }
  }

  /** Text without special characters is sent unchanged, spaces included. */
  lemma {:induction false} EscapedPlain(s: string)
    requires forall i :: 0 <= i < |s| ==> s[i] !in SpecialChars
    ensures Escaped(s) == s
    decreases |s|
  {
    if s != [] {
      EscapedPlain(s[1..]);
      assert s == [s[0]] + s[1..];
    }
  }

  const ChunkSize: nat := 500

  /** `[text[i:i + size] for i in range(0, len(text), size)]`. */
  function Chunks(text: string, size: nat): (cs: seq<string>)
    requires size > 0
    ensures forall k :: 0 <= k < |cs| ==> 0 < |cs[k]| <= size
    ensures forall k :: 0 <= k < |cs| - 1 ==> |cs[k]| == size
    decreases |text|
  {
    if text == [] then []
    else if |text| <= size then [text]
    else [text[..size]] + Chunks(text[size..], size)
  }

  function Concat(parts: seq<string>): string
    decreases |parts|
  {
    if parts == [] then [] else parts[0] + Concat(parts[1..])
  }

  /** The chunks put back together are the text. */
  lemma {:induction false} ConcatChunks(text: string, size: nat)
    requires size > 0
    ensures Concat(Chunks(text, size)) == text
    decreases |text|
  {
    if |text| > size {
      ConcatChunks(text[size..], size);
      assert text == text[..size] + text[size..];
      assert ([text[..size]] + Chunks(text[size..], size))[1..] == Chunks(text[size..], size);
    }
  }

  function EscapedEach(parts: seq<string>): seq<string> {
    seq(|parts|, k requires 0 <= k < |parts| => Escaped(parts[k]))
  }

  lemma {:induction false} ConcatEscaped(parts: seq<string>)
    ensures Concat(EscapedEach(parts)) == Escaped(Concat(parts))
    decreases |parts|
  {
    if parts != [] {
      ConcatEscaped(parts[1..]);
      EscapedAppend(parts[0], Concat(parts[1..]));
      assert EscapedEach(parts)[1..] == EscapedEach(parts[1..]);
    }
  }

  /** Escaping chunk by chunk escapes the whole text: chunk boundaries never split an escape. */
  lemma EscapedChunks(text: string)
    ensures Concat(EscapedEach(Chunks(text, ChunkSize))) == Escaped(text)
  {
    ConcatEscaped(Chunks(text, ChunkSize));
    ConcatChunks(text, ChunkSize);
  }

  function InputCommand(escaped: string): string {
    "input text \"" + escaped + "\""
  }

  function KeyboardCommand(escaped: string): string {
    "input keyboard text \"" + escaped + "\""
  }

  /** The command that took a chunk: the plain one, else the keyboard one; None when both raised. */
  function AcceptedCommand(shellError: string -> Option<string>, chunk: string): Option<string> {
    var plain := InputCommand(Escaped(chunk));
    var keyboard := KeyboardCommand(Escaped(chunk));
    if shellError(plain).None? then Some(plain)
    else if shellError(keyboard).None? then Some(keyboard)
    else None
  }

  predicate IsAscii(text: string) {
    forall i :: 0 <= i < |text| ==> text[i] as int <= 127
  }

  /**
   * One chunk of `input_text`: escape it, then try the plain command and, if the shell raises,
   * the keyboard one. `shellError(cmd)` is the message of the exception the device shell raises
   * for `cmd`, or None when it runs.
   */
  method SendChunk(chunk: string, shellError: string -> Option<string>) returns (accepted: Option<string>, lastError: string)
    ensures accepted == AcceptedCommand(shellError, chunk)
    ensures accepted.None? ==> lastError == shellError(KeyboardCommand(Escaped(chunk))).value
  {
    var escapedChunk := EscapeText(chunk);
    var methods := [InputCommand(escapedChunk), KeyboardCommand(escapedChunk)];
    lastError := "";
    var m := 0;
    while m < |methods| && shellError(methods[m]).Some?
      invariant 0 <= m <= |methods|
      invariant forall n :: 0 <= n < m ==> shellError(methods[n]).Some?
      invariant m > 0 ==> lastError == shellError(methods[m - 1]).value
    {
      lastError := shellError(methods[m]).value;
      m := m + 1;
    }
    if m == |methods| {
      assert shellError(methods[0]).Some? && shellError(methods[1]).Some?;
      accepted := None;
    } else if m == 0 {
      accepted := Some(methods[0]);
    } else {
      assert shellError(methods[0]).Some?;
      accepted := Some(methods[1]);
    }
  }

  /** Each command in `sent` is the one the shell accepted for the chunk at the same position. */
  predicate SentInOrder(shellError: string -> Option<string>, chunks: seq<string>, sent: seq<string>) {
    |sent| <= |chunks| && forall k :: 0 <= k < |sent| ==> AcceptedCommand(shellError, chunks[k]) == Some(sent[k])
  }

  /** The chunk loop of `input_text`: chunks go in order until one is refused. `sent` lists the commands that ran. */
  method InputText(text: string, shellError: string -> Option<string>) returns (sent: seq<string>, result: string)
    requires IsAscii(text)
    ensures var cs := Chunks(text, ChunkSize);
      && SentInOrder(shellError, cs, sent)
      && (|sent| == |cs| ==> result == "Text input completed: " + text)
      && (|sent| < |cs| ==>
            && AcceptedCommand(shellError, cs[|sent|]).None?
            && result == "Error: Failed to input text chunk. Last error: "
                         + shellError(KeyboardCommand(Escaped(cs[|sent|]))).value)
  {
    var chunks := Chunks(text, ChunkSize);
    sent := [];
    for i := 0 to |chunks|
      invariant |sent| == i
      invariant SentInOrder(shellError, chunks, sent)
    {
      var accepted, lastError := SendChunk(chunks[i], shellError);
      if accepted.None? {
        result := "Error: Failed to input text chunk. Last error: " + lastError;
        return;
      }
      sent := sent + [accepted.value];
    }
    result := "Text input completed: " + text;
  }

  // ---------------------------------------------------------------------------------------------
  // Key names and dump file names
  // ---------------------------------------------------------------------------------------------

  /** The name `press_key` reports: a fixed name for six common key codes, otherwise the number. */
  function KeyName(keycode: int): (r: string)
    ensures r != []
    ensures IsNamedKey(keycode) <==> r in {"HOME", "BACK", "VOLUME UP", "VOLUME DOWN", "POWER", "MENU"}
    ensures !IsNamedKey(keycode) ==> r == IntToString(keycode)
  {
    match keycode
    case 3 => "HOME"
    case 4 => "BACK"
    case 24 => "VOLUME UP"
    case 25 => "VOLUME DOWN"
    case 26 => "POWER"
    case 82 => "MENU"
    case _ => IntToString(keycode)
  }

  predicate IsNamedKey(keycode: int) {
    keycode in {3, 4, 24, 25, 26, 82}
  }

  /** A named key's name is not a number; any other key's name reads back as its code. */
  lemma KeyNameReadsBack(keycode: int)
    ensures IsNamedKey(keycode) ==> ParseInt(KeyName(keycode)).None?
    ensures !IsNamedKey(keycode) ==> ParseInt(KeyName(keycode)) == Some(keycode)
  {
    if IsNamedKey(keycode) {
      var name := KeyName(keycode);
      StripUnchanged(name);
      assert !IsDigit(name[0]) && name[0] != '+' && name[0] != '-';
    } else {
      ParseIntToString(keycode);
    }
  }

  /** Different key codes are reported under different names. */
  lemma KeyNameInjective(a: int, b: int)
    requires KeyName(a) == KeyName(b)
    ensures a == b
  {
    KeyNameReadsBack(a);
    KeyNameReadsBack(b);
  }

  /** What `press_key` reports once the key was pressed. */
  function PressKeyMessage(keycode: int): string {
    "Pressed key " + KeyName(keycode)
  }

  /** The report names the key exactly: different key codes give different reports. */
  lemma PressKeyMessageInjective(a: int, b: int)
    requires PressKeyMessage(a) == PressKeyMessage(b)
    ensures a == b
  {
    var head := "Pressed key ";
    assert KeyName(a) == PressKeyMessage(a)[|head|..];
    assert KeyName(b) == PressKeyMessage(b)[|head|..];
    KeyNameInjective(a, b);
  }

  const JsonSuffix: string := ".json"

  /** Appends ".json" only when the name does not already end with it. */
  function WithJsonSuffix(name: string): (r: string)
    ensures EndsWith(r, JsonSuffix) && StartsWith(r, name)
    ensures EndsWith(name, JsonSuffix) <==> r == name
    ensures !EndsWith(name, JsonSuffix) ==> r == name + JsonSuffix
    ensures |r| <= |name| + |JsonSuffix|
  {
    if EndsWith(name, JsonSuffix) then name
    else
      assert (name + JsonSuffix)[..|name|] == name;
      name + JsonSuffix
  }

  /** Normalising twice is normalising once. */
  lemma WithJsonSuffixIdempotent(name: string)
    ensures WithJsonSuffix(WithJsonSuffix(name)) == WithJsonSuffix(name)
  {
  }

  /** The file `extract` writes: the given name, or "ui_state_<timestamp>.json" when none is given, ending in ".json". */
  function DumpFileName(filename: Option<string>, timestamp: int): (r: string)
    ensures EndsWith(r, JsonSuffix)
    ensures filename.Some? && filename.value != "" ==> StartsWith(r, filename.value)
    ensures filename.Some? && filename.value != "" ==> r == WithJsonSuffix(filename.value)
    ensures filename.None? || filename.value == "" ==> r == "ui_state_" + IntToString(timestamp) + JsonSuffix
  {
    var name := if filename.None? || filename.value == "" then "ui_state_" + IntToString(timestamp) + JsonSuffix else filename.value;
    WithJsonSuffix(name)
  }

  // ---------------------------------------------------------------------------------------------
  // The element cache
  // ---------------------------------------------------------------------------------------------

  /** The module-level CLICKABLE_ELEMENTS_CACHE that `get_clickables` fills and `tap_by_index` reads. */
  class ElementCache {
    var elements: seq<Element>

    constructor ()
      ensures elements == []
    {
      elements := [];
    }

    /**
     * `get_clickables` once the JSON is in hand (`None`: the device, the file or the JSON failed,
     * which raises). The cache and the returned list are one list, so the cache ends up sorted too.
     */
    method GetClickables(data: Option<UiData>) returns (r: Option<Clickables>)
      modifies this
      ensures data.None? ==> r.None? && elements == old(elements)
      ensures data.Some? ==>
        AllIndexed(Flattened(data.value)) && r == Some(Summary(Flattened(data.value))) && elements == r.value.elements
    {
      if data.None? {
        return None;
      }
      var flat := FlattenElements(data.value);
      FlattenedIndexed(data.value);
      var summary := Summarize(flat);
      elements := summary.elements;
      r := Some(summary);
    }

    /** `tap_by_index` on the cached elements; the device tap itself is outside the model. */
    method TapByIndex(index: int) returns (point: Option<(int, int)>, message: string)
      ensures TapResult(point, message) == TapSpec(elements, index)
    {
      var cache := elements;
      if cache == [] {
        return None, NoCacheMessage;
      }
      var found := FindElement(cache, Some(index));
      if found.None? {
        return None, NotFoundMessage(index, cache);
      }
      var element := cache[found.value];
      if !Truthy(element.bounds) {
        return None, NoBoundsMessage(index, element);
      }
      var bounds := ParseBounds(element.bounds.value);
      if bounds.None? {
        return None, BadBoundsMessage(index, element.bounds.value);
      }
      var centre := Centre(bounds.value);
      point := Some(centre);
      message := DescribeTap(cache, index, element, centre);
    }
  }
}
