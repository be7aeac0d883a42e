/**
 * The style-catalog inspector of a Word document: the inheritance depth of a
 * style with cycle detection, the issue report, and the filtering, grouping
 * and priority ordering of the style listing.
 *
 * A style is a record; its base style is an index into a universe `u` of
 * style nodes, so a base may be a node that is not in the document's list.
 * Style identity, as in the depth walk, is the style's name.
 */
module InspectStyles {
  import opened Wrappers
  import opened Text

  /** Values of python-docx's style-type enumeration. */
  const PARAGRAPH := 1
  const CHARACTER := 2
  const TABLE := 3
  const LIST := 4

  /** The type groups of the text listing, in the order they are printed. */
  const GroupOrder: seq<string> := ["paragraph", "character", "table", "list"]

  /** The name of a style type; every other value is "unknown". */
  function TypeName(t: int): (r: string)
    ensures r in GroupOrder <==> t in {PARAGRAPH, CHARACTER, TABLE, LIST}
    ensures r !in GroupOrder ==> r == "unknown"
  {
    if t == CHARACTER then "character"
    else if t == PARAGRAPH then "paragraph"
    else if t == LIST then "list"
    else if t == TABLE then "table"
    else "unknown"
  }

  /** The `--type` argument's lookup table: a type name to its style type. */
  function TypeFilter(name: string): (r: Option<int>)
    ensures r.Some? <==> name in GroupOrder
    ensures r.Some? ==> TypeName(r.value) == name
  {
    if name == "paragraph" then Some(PARAGRAPH)
    else if name == "character" then Some(CHARACTER)
    else if name == "table" then Some(TABLE)
    else if name == "list" then Some(LIST)
    else None
  }

  /** The lookup table inverts the naming of the four known types. */
  lemma TypeFilterInvertsTypeName(t: int)
    requires t in {PARAGRAPH, CHARACTER, TABLE, LIST}
    ensures TypeFilter(TypeName(t)) == Some(t)
  {
  }

  /**
   * How a style inherits: its type has no base attribute, it has no base, or
   * it names node `node` of the universe as its base.
   */
  datatype Base = Unsupported | NoBase | BasedOn(node: nat)

  datatype Style = Style(name: string, styleId: string, styleType: int, priority: Option<int>, base: Base)

  /** The base style object of `s`; a link that resolves to no node gives none. */
  function BaseStyle(u: seq<Style>, s: Style): (r: Option<Style>)
    ensures r.Some? ==> r.value in u
  {
    if s.base.BasedOn? && s.base.node < |u| then Some(u[s.base.node]) else None
  }

  /** The set of names of `ss`. */
  function Names(ss: seq<Style>): (r: set<string>)
    ensures forall k | 0 <= k < |ss| :: ss[k].name in r
  {
    assert forall k | 0 <= k < |ss| - 1 :: ss[..|ss| - 1][k] == ss[k];
    if ss == [] then {} else Names(ss[..|ss| - 1]) + {ss[|ss| - 1].name}
  }

  lemma {:induction false} NamesMember(ss: seq<Style>, n: string)
    ensures n in Names(ss) <==> exists k | 0 <= k < |ss| :: ss[k].name == n
  {
    if ss != [] {
      var front := ss[..|ss| - 1];
      NamesMember(front, n);
      assert forall k | 0 <= k < |front| :: front[k] == ss[k];
    }
  }

  /** The result of one depth call: the depth and the visited set as the call leaves it. */
  datatype Walk = Walk(depth: int, visited: set<string>)

  /**
   * The recursive depth walk. A name already visited gives -1; otherwise the
   * name is added to the visited set, and a style without a base gives 0
   * while a based style gives one more than its base.
   */
  function InheritanceDepth(u: seq<Style>, s: Style, visited: set<string>): (w: Walk)
    ensures w.depth >= -1
    ensures w.depth == -1 <==> s.name in visited
    decreases |Names(u) + {s.name} - visited|
  {
    if s.name in visited then Walk(-1, visited)
    else
      var v := visited + {s.name};
      match BaseStyle(u, s)
      case None => Walk(0, v)
      case Some(b) =>
        NamesMember(u, b.name);
        assert (Names(u) + {b.name} - v) + {s.name} == Names(u) + {s.name} - visited;
        var w := InheritanceDepth(u, b, v);
        Walk(1 + w.depth, w.visited)
  }

  /**
   * The depth is smaller than the number of names not yet visited, and the
   * visited set only grows: by the style's own name and names of the universe.
   */
  lemma {:induction false} DepthBounds(u: seq<Style>, s: Style, visited: set<string>)
    ensures InheritanceDepth(u, s, visited).depth < |Names(u) + {s.name} - visited|
    ensures visited + {s.name} <= InheritanceDepth(u, s, visited).visited <= visited + {s.name} + Names(u)
    ensures s.name in visited ==> InheritanceDepth(u, s, visited).visited == visited
    decreases |Names(u) + {s.name} - visited|
  {
    if s.name !in visited {
      var v := visited + {s.name};
      match BaseStyle(u, s)
      case None =>
      case Some(b) =>
        NamesMember(u, b.name);
        assert (Names(u) + {b.name} - v) + {s.name} == Names(u) + {s.name} - visited;
        DepthBounds(u, b, v);
    }
  }

  /** Each style of `c` is based on the next one. */
  predicate IsChain(u: seq<Style>, c: seq<Style>) {
    forall k | 0 <= k < |c| - 1 :: BaseStyle(u, c[k]) == Some(c[k + 1])
  }

  /** The names along `c` are pairwise distinct and none is in `visited`. */
  predicate FreshNames(c: seq<Style>, visited: set<string>) {
    (forall k | 0 <= k < |c| :: c[k].name !in visited)
    && (forall j, k | 0 <= j < k < |c| :: c[j].name != c[k].name)
  }

  /**
   * A chain of fresh, distinct names that ends in a style without a base
   * has depth equal to the number of links followed.
   */
  lemma {:induction false} RootChainDepth(u: seq<Style>, c: seq<Style>, visited: set<string>)
    requires |c| >= 1 && IsChain(u, c) && FreshNames(c, visited) && BaseStyle(u, c[|c| - 1]).None?
    ensures InheritanceDepth(u, c[0], visited).depth == |c| - 1
  {
    if |c| > 1 {
      var rest := c[1..];
      assert forall k | 0 <= k < |rest| :: rest[k] == c[k + 1];
      assert BaseStyle(u, c[0]) == Some(rest[0]);
      RootChainDepth(u, rest, visited + {c[0].name});
    }
  }

  /**
   * A chain whose names before the last are fresh and distinct, and whose
   * last name was visited before or appears earlier in the chain, has depth
   * |c| - 2: the revisit gives -1 and each of the |c| - 1 calls above it adds
   * one.
   */
  lemma {:induction false} RevisitChainDepth(u: seq<Style>, c: seq<Style>, visited: set<string>)
    requires |c| >= 1 && IsChain(u, c) && FreshNames(c[..|c| - 1], visited)
    requires c[|c| - 1].name in visited || exists j | 0 <= j < |c| - 1 :: c[j].name == c[|c| - 1].name
    ensures InheritanceDepth(u, c[0], visited).depth == |c| - 2
  {
    if |c| > 1 {
      var rest := c[1..];
      var front := c[..|c| - 1];
      assert forall k | 0 <= k < |rest| :: rest[k] == c[k + 1];
      assert forall k | 0 <= k < |front| :: front[k] == c[k];
      var restFront := rest[..|rest| - 1];
      assert forall k | 0 <= k < |restFront| :: restFront[k] == c[k + 1];
      assert BaseStyle(u, c[0]) == Some(rest[0]);
      RevisitChainDepth(u, rest, visited + {c[0].name});
    }
  }

  /**
   * A style based on a node with its own name (itself, or another style that
   * shares the name) has depth 0 with a fresh visited set.
   */
  lemma SelfBasedDepthZero(u: seq<Style>, s: Style)
    requires BaseStyle(u, s).Some? && BaseStyle(u, s).value.name == s.name
    ensures InheritanceDepth(u, s, {}).depth == 0
  {
    var c := [s, BaseStyle(u, s).value];
    assert c[..1] == [s];
    assert FreshNames(c[..1], {});
    assert c[0].name == c[1].name;
    RevisitChainDepth(u, c, {});
  }

  /** The issues the report can name. */
  datatype IssueKind = DeepInheritance(depth: int) | CircularInheritance | OrphanedBase(baseName: string)

  datatype Issue = Issue(style: string, kind: IssueKind)

  /** The name-keyed dictionary of the document's styles: the last style of each name wins. */
  function StylesByName(ss: seq<Style>): (d: map<string, Style>)
    ensures d.Keys == Names(ss)
  {
    if ss == [] then map[]
    else
      var front := ss[..|ss| - 1];
      assert forall k | 0 <= k < |front| :: front[k] == ss[k];
      StylesByName(front)[ss[|ss| - 1].name := ss[|ss| - 1]]
  }

  /** In the dictionary the last style of each name wins. */
  lemma {:induction false} StylesByNameLast(ss: seq<Style>, k: nat)
    requires k < |ss|
    requires forall j | k < j < |ss| :: ss[j].name != ss[k].name
    ensures StylesByName(ss)[ss[k].name] == ss[k]
  {
    if k < |ss| - 1 {
      var front := ss[..|ss| - 1];
      assert forall j | 0 <= j < |front| :: front[j] == ss[j];
      StylesByNameLast(front, k);
    }
  }

  /** The inheritance-depth issue of a style: with a fresh visited set the circular branch is never taken. */
  function DepthIssue(u: seq<Style>, s: Style): (r: seq<Issue>)
    ensures |r| <= 1
    ensures r != [] <==> !s.base.Unsupported? && InheritanceDepth(u, s, {}).depth > 3
    ensures r != [] ==> r[0] == Issue(s.name, DeepInheritance(InheritanceDepth(u, s, {}).depth))
  {
    if s.base.Unsupported? then []
    else
      var depth := InheritanceDepth(u, s, {}).depth;
      if depth > 3 then [Issue(s.name, DeepInheritance(depth))]
      else if depth == -1 then [Issue(s.name, CircularInheritance)]
      else []
  }

  /** The orphaned-base issue of a style: its base's name is not a key of the dictionary. */
  function OrphanIssue(u: seq<Style>, byName: map<string, Style>, s: Style): seq<Issue> {
    match BaseStyle(u, s)
    case Some(b) => if b.name !in byName then [Issue(s.name, OrphanedBase(b.name))] else []
    case None => []
  }

  /** The issues of one style, in the order they are reported. */
  function StyleIssues(u: seq<Style>, byName: map<string, Style>, s: Style): seq<Issue> {
    if s.base.Unsupported? then [] else DepthIssue(u, s) + OrphanIssue(u, byName, s)
  }

  /** The issues of the styles `ss`, style by style in their order. */
  function IssuesFor(u: seq<Style>, byName: map<string, Style>, ss: seq<Style>): seq<Issue> {
    if ss == [] then []
    else IssuesFor(u, byName, ss[..|ss| - 1]) + StyleIssues(u, byName, ss[|ss| - 1])
  }

  /** The issue report of a document's styles. */
  function Issues(u: seq<Style>, styles: seq<Style>): seq<Issue> {
    IssuesFor(u, StylesByName(styles), styles)
  }

  method FindIssues(u: seq<Style>, styles: seq<Style>) returns (issues: seq<Issue>)
    ensures issues == Issues(u, styles)
  {
    var byName := StylesByName(styles);
    issues := [];
    for i := 0 to |styles|
      invariant issues == IssuesFor(u, byName, styles[..i])
    {
      assert styles[..i + 1] == styles[..i] + [styles[i]];
      IssuesForSnoc(u, byName, styles[..i], styles[i]);
      var found := CheckStyle(u, byName, styles[i]);
      issues := issues + found;
    }
    assert styles[..|styles|] == styles;
  }

  /** The body of the loop in `FindIssues`: the checks made for one style. */
  method CheckStyle(u: seq<Style>, byName: map<string, Style>, style: Style) returns (found: seq<Issue>)
    ensures found == StyleIssues(u, byName, style)
  {
    found := [];
    if !style.base.Unsupported? {
      var depth := InheritanceDepth(u, style, {}).depth;
      if depth > 3 {
        found := [Issue(style.name, DeepInheritance(depth))];
      } else if depth == -1 {
        found := [Issue(style.name, CircularInheritance)];
      }
      var base := BaseStyle(u, style);
      if base.Some? && base.value.name !in byName {
        found := found + [Issue(style.name, OrphanedBase(base.value.name))];
      }
    }
  }

  /**
   * A style has at most two issues, all under its own name and none of them
   * circular; when it has two, the depth issue comes before the orphan one.
   */
  lemma StyleIssuesShape(u: seq<Style>, byName: map<string, Style>, s: Style)
    ensures |StyleIssues(u, byName, s)| <= 2
    ensures forall k | 0 <= k < |StyleIssues(u, byName, s)| ::
      StyleIssues(u, byName, s)[k].style == s.name && !StyleIssues(u, byName, s)[k].kind.CircularInheritance?
    ensures |StyleIssues(u, byName, s)| == 2 ==>
      StyleIssues(u, byName, s)[0].kind.DeepInheritance? && StyleIssues(u, byName, s)[1].kind.OrphanedBase?
  {
  }

  lemma IssuesForSnoc(u: seq<Style>, byName: map<string, Style>, ss: seq<Style>, x: Style)
    ensures IssuesFor(u, byName, ss + [x]) == IssuesFor(u, byName, ss) + StyleIssues(u, byName, x)
  {
    assert (ss + [x])[..|ss|] == ss;
  }

  /** The issues of two lists one after the other are the issues of their concatenation. */
  lemma {:induction false} IssuesForAppend(u: seq<Style>, byName: map<string, Style>, a: seq<Style>, b: seq<Style>)
    ensures IssuesFor(u, byName, a + b) == IssuesFor(u, byName, a) + IssuesFor(u, byName, b)
    decreases |b|
  {
    if b == [] {
      assert a + b == a;
    } else {
      var b' := b[..|b| - 1];
      var last := b[|b| - 1];
      assert a + b == (a + b') + [last];
      assert b == b' + [last];
      var head := IssuesFor(u, byName, a);
      var mid := IssuesFor(u, byName, b');
      var tail := StyleIssues(u, byName, last);
      calc {
        IssuesFor(u, byName, a + b);
        { IssuesForSnoc(u, byName, a + b', last); }
        IssuesFor(u, byName, a + b') + tail;
        { IssuesForAppend(u, byName, a, b'); }
        (head + mid) + tail;
        head + (mid + tail);
        { IssuesForSnoc(u, byName, b', last); }
        head + IssuesFor(u, byName, b);
      }
    }
  }

  /** With a fresh visited set no style ever gets a circular-inheritance issue. */
  lemma {:induction false} NoCircularIssue(u: seq<Style>, byName: map<string, Style>, ss: seq<Style>)
    ensures forall k | 0 <= k < |IssuesFor(u, byName, ss)| :: !IssuesFor(u, byName, ss)[k].kind.CircularInheritance?
  {
    if ss != [] {
      NoCircularIssue(u, byName, ss[..|ss| - 1]);
      StyleIssuesShape(u, byName, ss[|ss| - 1]);
    }
  }

  /** Style `s` supports inheritance, is named `n` and has depth `d` > 3. */
  predicate IsDeep(u: seq<Style>, s: Style, n: string, d: int) {
    s.name == n && !s.base.Unsupported? && d > 3 && InheritanceDepth(u, s, {}).depth == d
  }

  /** Style `s` supports inheritance, is named `n` and has a base style named `b`. */
  predicate HasBaseNamed(u: seq<Style>, s: Style, n: string, b: string) {
    s.name == n && !s.base.Unsupported? && BaseStyle(u, s).Some? && BaseStyle(u, s).value.name == b
  }

  lemma DeepInStyleIssues(u: seq<Style>, byName: map<string, Style>, s: Style, n: string, d: int)
    ensures Issue(n, DeepInheritance(d)) in StyleIssues(u, byName, s) <==> IsDeep(u, s, n, d)
  {
    if !s.base.Unsupported? {
      assert StyleIssues(u, byName, s) == DepthIssue(u, s) + OrphanIssue(u, byName, s);
    }
  }

  lemma OrphanInStyleIssues(u: seq<Style>, byName: map<string, Style>, s: Style, n: string, b: string)
    ensures Issue(n, OrphanedBase(b)) in StyleIssues(u, byName, s) <==> b !in byName && HasBaseNamed(u, s, n, b)
  {
    if !s.base.Unsupported? {
      assert StyleIssues(u, byName, s) == DepthIssue(u, s) + OrphanIssue(u, byName, s);
    }
  }

  /**
   * A deep-inheritance issue for name `n` with depth `d` is reported exactly
   * when some style named `n` supports inheritance and has depth `d` > 3.
   */
  lemma {:induction false} DeepIssueIff(u: seq<Style>, byName: map<string, Style>, ss: seq<Style>, n: string, d: int)
    ensures Issue(n, DeepInheritance(d)) in IssuesFor(u, byName, ss) <==>
      exists k | 0 <= k < |ss| :: IsDeep(u, ss[k], n, d)
  {
    if ss != [] {
      var front := ss[..|ss| - 1];
      var last := ss[|ss| - 1];
      assert forall k | 0 <= k < |front| :: front[k] == ss[k];
      DeepIssueIff(u, byName, front, n, d);
      DeepInStyleIssues(u, byName, last, n, d);
      assert IssuesFor(u, byName, ss) == IssuesFor(u, byName, front) + StyleIssues(u, byName, last);
    }
  }

  /**
   * An orphaned-base issue for name `n` naming base `b` is reported exactly
   * when some style named `n` has a base style named `b` and no style of the
   * document is named `b`.
   */
  lemma {:induction false} OrphanIssueIff(u: seq<Style>, byName: map<string, Style>, ss: seq<Style>, n: string, b: string)
    ensures Issue(n, OrphanedBase(b)) in IssuesFor(u, byName, ss) <==>
      b !in byName && exists k | 0 <= k < |ss| :: HasBaseNamed(u, ss[k], n, b)
  {
    if ss != [] {
      var front := ss[..|ss| - 1];
      var last := ss[|ss| - 1];
      assert forall k | 0 <= k < |front| :: front[k] == ss[k];
      OrphanIssueIff(u, byName, front, n, b);
      OrphanInStyleIssues(u, byName, last, n, b);
      assert IssuesFor(u, byName, ss) == IssuesFor(u, byName, front) + StyleIssues(u, byName, last);
    }
  }

  /**
   * In the report of a document, a style gets an orphaned-base issue exactly
   * when its base's name is the name of no style in the document.
   */
  lemma OrphanIssueInReport(u: seq<Style>, styles: seq<Style>, n: string, b: string)
    ensures Issue(n, OrphanedBase(b)) in Issues(u, styles) <==>
      b !in Names(styles) && exists k | 0 <= k < |styles| :: HasBaseNamed(u, styles[k], n, b)
  {
    OrphanIssueIff(u, StylesByName(styles), styles, n, b);
  }

  /** When every node of the universe has a name the dictionary knows, no style gets an orphaned-base issue. */
  lemma {:induction false} NoOrphanIfBasesKnown(u: seq<Style>, byName: map<string, Style>, ss: seq<Style>)
    requires forall k | 0 <= k < |u| :: u[k].name in byName
    ensures forall k | 0 <= k < |IssuesFor(u, byName, ss)| :: !IssuesFor(u, byName, ss)[k].kind.OrphanedBase?
  {
    if ss != [] {
      NoOrphanIfBasesKnown(u, byName, ss[..|ss| - 1]);
      assert OrphanIssue(u, byName, ss[|ss| - 1]) == [];
    }
  }

  /**
   * When the universe of base nodes is the document's own style list, no
   * style of the document can get an orphaned-base issue.
   */
  lemma NoOrphanInOwnDocument(styles: seq<Style>)
    ensures forall k | 0 <= k < |Issues(styles, styles)| :: !Issues(styles, styles)[k].kind.OrphanedBase?
  {
    NoOrphanIfBasesKnown(styles, StylesByName(styles), styles);
  }

  /** The listing filters: the `--type` filter (when given) and the `--name` substring filter (when given). */
  predicate Keep(s: Style, typeFilter: Option<string>, nameFilter: Option<string>) {
    (typeFilter.None? || typeFilter.value == [] || TypeFilter(typeFilter.value) == Some(s.styleType))
    && (nameFilter.None? || nameFilter.value == [] || Contains(Lower(s.name), Lower(nameFilter.value)))
  }

  /** The styles the listing shows, in document order. */
  function Listed(ss: seq<Style>, typeFilter: Option<string>, nameFilter: Option<string>): seq<Style> {
    if ss == [] then []
    else if Keep(ss[|ss| - 1], typeFilter, nameFilter) then Listed(ss[..|ss| - 1], typeFilter, nameFilter) + [ss[|ss| - 1]]
    else Listed(ss[..|ss| - 1], typeFilter, nameFilter)
  }

  method CollectStyles(styles: seq<Style>, typeFilter: Option<string>, nameFilter: Option<string>)
    returns (listed: seq<Style>)
    ensures listed == Listed(styles, typeFilter, nameFilter)
  {
    listed := [];
    for i := 0 to |styles|
      invariant listed == Listed(styles[..i], typeFilter, nameFilter)
    {
      assert styles[..i + 1][..i] == styles[..i];
      var style := styles[i];
      if typeFilter.Some? && typeFilter.value != [] && TypeFilter(typeFilter.value) != Some(style.styleType) {
        continue;
      }
      if nameFilter.Some? && nameFilter.value != [] && !Contains(Lower(style.name), Lower(nameFilter.value)) {
        continue;
      }
      listed := listed + [style];
    }
    assert styles[..|styles|] == styles;
  }

  /** The listing of a concatenation is the concatenation of the listings: document order is kept. */
  lemma {:induction false} ListedAppend(a: seq<Style>, b: seq<Style>, typeFilter: Option<string>, nameFilter: Option<string>)
    ensures Listed(a + b, typeFilter, nameFilter) == Listed(a, typeFilter, nameFilter) + Listed(b, typeFilter, nameFilter)
    decreases |b|
  {
    if b == [] {
      assert a + b == a;
    } else {
      var b' := b[..|b| - 1];
      assert (a + b)[..|a + b| - 1] == a + b';
      assert (a + b)[|a + b| - 1] == b[|b| - 1];
      ListedAppend(a, b', typeFilter, nameFilter);
    }
  }

  /** Each style that passes the filters is listed as often as it occurs, and no other style is listed. */
  lemma {:induction false} ListedCount(ss: seq<Style>, typeFilter: Option<string>, nameFilter: Option<string>, s: Style)
    ensures multiset(Listed(ss, typeFilter, nameFilter))[s] == if Keep(s, typeFilter, nameFilter) then multiset(ss)[s] else 0
  {
    if ss != [] {
      var front := ss[..|ss| - 1];
      assert ss == front + [ss[|ss| - 1]];
      ListedCount(front, typeFilter, nameFilter, s);
    }
  }

  /** The styles of `ss` whose type name is `t`, in order. */
  function OfType(ss: seq<Style>, t: string): seq<Style> {
    if ss == [] then []
    else if TypeName(ss[|ss| - 1].styleType) == t then OfType(ss[..|ss| - 1], t) + [ss[|ss| - 1]]
    else OfType(ss[..|ss| - 1], t)
  }

  /** The type-keyed grouping that the text output builds from the listed styles. */
  function Grouping(ss: seq<Style>): map<string, seq<Style>> {
    if ss == [] then map[]
    else
      var g := Grouping(ss[..|ss| - 1]);
      var t := TypeName(ss[|ss| - 1].styleType);
      var group := if t in g then g[t] else [];
      g[t := group + [ss[|ss| - 1]]]
  }

  method GroupByType(listed: seq<Style>) returns (byType: map<string, seq<Style>>)
    ensures byType == Grouping(listed)
  {
    byType := map[];
    for i := 0 to |listed|
      invariant byType == Grouping(listed[..i])
    {
      assert listed[..i + 1][..i] == listed[..i];
      var t := TypeName(listed[i].styleType);
      if t !in byType {
        byType := byType[t := []];
      }
      byType := byType[t := byType[t] + [listed[i]]];
    }
    assert listed[..|listed|] == listed;
  }

  /**
   * The groups are keyed by the type names that occur, and each group holds
   * exactly the listed styles of its type, in listing order.
   */
  lemma {:induction false} GroupingSpec(ss: seq<Style>, t: string)
    ensures t in Grouping(ss) <==> exists k | 0 <= k < |ss| :: TypeName(ss[k].styleType) == t
    ensures t in Grouping(ss) ==> Grouping(ss)[t] == OfType(ss, t)
    ensures t !in Grouping(ss) ==> OfType(ss, t) == []
  {
    if ss != [] {
      var front := ss[..|ss| - 1];
      assert forall k | 0 <= k < |front| :: front[k] == ss[k];
      GroupingSpec(front, t);
    }
  }

  /** The sort key of the text listing: a missing or zero priority counts as 99. */
  function PriorityKey(s: Style): int {
    if s.priority.None? || s.priority.value == 0 then 99 else s.priority.value
  }

  /** Insert `x` before the first element whose key is not smaller than its own. */
  function InsertByPriority(x: Style, ss: seq<Style>): seq<Style> {
    if ss == [] || PriorityKey(x) <= PriorityKey(ss[0]) then [x] + ss
    else [ss[0]] + InsertByPriority(x, ss[1..])
  }

  /** A stable sort by priority key, as Python's `sorted` with a key function. */
  function SortByPriority(ss: seq<Style>): seq<Style> {
    if ss == [] then [] else InsertByPriority(ss[0], SortByPriority(ss[1..]))
  }

  predicate SortedByPriority(ss: seq<Style>) {
    forall j, k | 0 <= j < k < |ss| :: PriorityKey(ss[j]) <= PriorityKey(ss[k])
  }

  predicate AllAtLeast(ss: seq<Style>, key: int) {
    forall k | 0 <= k < |ss| :: key <= PriorityKey(ss[k])
  }

  /** The elements of `ss` whose key is `key`, in order. */
  function WithKey(ss: seq<Style>, key: int): seq<Style> {
    if ss == [] then []
    else if PriorityKey(ss[0]) == key then [ss[0]] + WithKey(ss[1..], key)
    else WithKey(ss[1..], key)
  }

  lemma {:induction false} InsertPermutes(x: Style, ss: seq<Style>)
    ensures multiset(InsertByPriority(x, ss)) == multiset(ss) + multiset{x}
  {
    if ss == [] {
    } else if PriorityKey(x) <= PriorityKey(ss[0]) {
    } else {
      InsertPermutes(x, ss[1..]);
      assert ss == [ss[0]] + ss[1..];
    }
  }

  lemma {:induction false} InsertAtLeast(x: Style, ss: seq<Style>, key: int)
    requires AllAtLeast(ss, key) && key <= PriorityKey(x)
    ensures AllAtLeast(InsertByPriority(x, ss), key)
  {
    if ss == [] {
    } else if PriorityKey(x) <= PriorityKey(ss[0]) {
      var r := [x] + ss;
      assert forall k | 1 <= k < |r| :: r[k] == ss[k - 1];
    } else {
      InsertAtLeast(x, ss[1..], key);
      var r := [ss[0]] + InsertByPriority(x, ss[1..]);
      assert forall k | 1 <= k < |r| :: r[k] == InsertByPriority(x, ss[1..])[k - 1];
    }
  }

  lemma {:induction false} InsertSorted(x: Style, ss: seq<Style>)
    requires SortedByPriority(ss)
    ensures SortedByPriority(InsertByPriority(x, ss))
  {
    if ss == [] {
    } else if PriorityKey(x) <= PriorityKey(ss[0]) {
      var r := [x] + ss;
      assert forall k | 1 <= k < |r| :: r[k] == ss[k - 1];
    } else {
      var tail := ss[1..];
      assert forall k | 0 <= k < |tail| :: tail[k] == ss[k + 1];
      InsertSorted(x, tail);
      InsertAtLeast(x, tail, PriorityKey(ss[0]));
      var ins := InsertByPriority(x, tail);
      var r := [ss[0]] + ins;
      assert forall k | 1 <= k < |r| :: r[k] == ins[k - 1];
    }
  }

  lemma {:induction false} InsertStable(x: Style, ss: seq<Style>, key: int)
    ensures PriorityKey(x) == key ==> WithKey(InsertByPriority(x, ss), key) == [x] + WithKey(ss, key)
    ensures PriorityKey(x) != key ==> WithKey(InsertByPriority(x, ss), key) == WithKey(ss, key)
  {
    if ss == [] {
    } else if PriorityKey(x) <= PriorityKey(ss[0]) {
      var r := [x] + ss;
      assert r[0] == x && r[1..] == ss;
    } else {
      InsertStable(x, ss[1..], key);
      var r := [ss[0]] + InsertByPriority(x, ss[1..]);
      assert r[0] == ss[0] && r[1..] == InsertByPriority(x, ss[1..]);
    }
  }

  /** The priority sort orders by key and is a permutation of its input. */
  lemma {:induction false} SortByPrioritySorts(ss: seq<Style>)
    ensures SortedByPriority(SortByPriority(ss))
    ensures multiset(SortByPriority(ss)) == multiset(ss)
  {
    if ss != [] {
      SortByPrioritySorts(ss[1..]);
      InsertSorted(ss[0], SortByPriority(ss[1..]));
      InsertPermutes(ss[0], SortByPriority(ss[1..]));
      assert ss == [ss[0]] + ss[1..];
    }
  }

  /** The priority sort is stable: the styles sharing a key keep their relative order. */
  lemma {:induction false} SortByPriorityStable(ss: seq<Style>, key: int)
    ensures WithKey(SortByPriority(ss), key) == WithKey(ss, key)
  {
    if ss != [] {
      SortByPriorityStable(ss[1..], key);
      InsertStable(ss[0], SortByPriority(ss[1..]), key);
    }
  }

  /** The group of type `t` as printed: sorted by priority, or nothing when the type has no group. */
  function PrintedGroup(byType: map<string, seq<Style>>, t: string): seq<Style> {
    if t in byType then SortByPriority(byType[t]) else []
  }

  /** The styles of the text listing in print order: the groups of `GroupOrder`, one after the other. */
  function TextListing(byType: map<string, seq<Style>>): seq<Style> {
    PrintedGroup(byType, "paragraph") + PrintedGroup(byType, "character")
    + PrintedGroup(byType, "table") + PrintedGroup(byType, "list")
  }

  /** Every style falls in exactly one of the four groups or under "unknown". */
  lemma {:induction false} OfTypePartition(ss: seq<Style>)
    ensures multiset(ss) == multiset(OfType(ss, "paragraph")) + multiset(OfType(ss, "character"))
      + multiset(OfType(ss, "table")) + multiset(OfType(ss, "list")) + multiset(OfType(ss, "unknown"))
  {
    if ss != [] {
      var front := ss[..|ss| - 1];
      var last := ss[|ss| - 1];
      assert ss == front + [last];
      OfTypePartition(front);
      var t := TypeName(last.styleType);
      assert t == "paragraph" || t == "character" || t == "table" || t == "list" || t == "unknown";
    }
  }

  lemma PrintedGroupIsSortedType(ss: seq<Style>, t: string)
    ensures PrintedGroup(Grouping(ss), t) == SortByPriority(OfType(ss, t))
  {
    GroupingSpec(ss, t);
  }

  /**
   * The text listing prints the paragraph, character, table and list groups
   * in that order, each holding the listed styles of its type sorted by
   * priority.
   */
  lemma TextListingGroups(ss: seq<Style>)
    ensures TextListing(Grouping(ss)) == SortByPriority(OfType(ss, "paragraph")) + SortByPriority(OfType(ss, "character"))
      + SortByPriority(OfType(ss, "table")) + SortByPriority(OfType(ss, "list"))
  {
    PrintedGroupIsSortedType(ss, "paragraph");
    PrintedGroupIsSortedType(ss, "character");
    PrintedGroupIsSortedType(ss, "table");
    PrintedGroupIsSortedType(ss, "list");
  }

  /**
   * The text listing shows every listed style of a known type exactly once
   * and no style of unknown type: with the unknown ones it is the whole
   * listing.
   */
  lemma TextListingPermutes(ss: seq<Style>)
    ensures multiset(TextListing(Grouping(ss))) + multiset(OfType(ss, "unknown")) == multiset(ss)
  {
    TextListingGroups(ss);
    SortByPrioritySorts(OfType(ss, "paragraph"));
    SortByPrioritySorts(OfType(ss, "character"));
    SortByPrioritySorts(OfType(ss, "table"));
    SortByPrioritySorts(OfType(ss, "list"));
    OfTypePartition(ss);
  }

  /** What the inspector reports: the JSON view (count, listed styles, issues) and the text listing's order. */
  datatype Report = Report(styleCount: nat, styles: seq<Style>, issues: seq<Issue>, textOrder: seq<Style>)

  /** The main flow of the inspector once the document's styles are loaded. */
  method InspectDocument(u: seq<Style>, styles: seq<Style>, typeFilter: Option<string>, nameFilter: Option<string>)
    returns (report: Report)
    ensures report.styles == Listed(styles, typeFilter, nameFilter)
    ensures report.styleCount == |report.styles|
    ensures report.issues == Issues(u, styles)
    ensures report.textOrder == TextListing(Grouping(report.styles))
  {
    var listed := CollectStyles(styles, typeFilter, nameFilter);
    var issues := FindIssues(u, styles);
    var byType := GroupByType(listed);
    report := Report(|listed|, listed, issues, TextListing(byType));
  }
}
