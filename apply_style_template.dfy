/**
 * Copying style definitions from a template document's styles part into a
 * target document's styles part.
 *
 * A styles part is the ordered list of its `w:style` elements, each reduced to
 * its `w:styleId`, the `w:val` of its `w:name` descendants, its `w:type` and an
 * uninterpreted payload. The archive is the ordered list of its entries.
 */
module ApplyStyleTemplate {
  import opened Wrappers
  import opened Text

  /** A `w:style` element: its id, the values of its `w:name` descendants in document order, its type and the rest. */
  datatype StyleElement = StyleElement(styleId: string, nameVals: seq<string>, styleType: string, payload: string)

  /** The name of a style element: its first `w:name` value, or else its id. */
  function StyleName(e: StyleElement): string {
    if e.nameVals != [] then e.nameVals[0] else e.styleId
  }

  /** What the id-keyed dictionary holds for a style. */
  datatype StyleInfo = StyleInfo(element: StyleElement, name: string, styleType: string)

  function InfoOf(e: StyleElement): StyleInfo {
    StyleInfo(e, StyleName(e), e.styleType)
  }

  /** An insertion-ordered dictionary from style id to style info: `ids` is its key order. */
  datatype StyleTable = StyleTable(ids: seq<string>, entries: map<string, StyleInfo>)

  /** The keys are distinct, listed exactly once, never empty, and each entry carries its own id. */
  predicate ValidTable(t: StyleTable) {
    (forall i, j | 0 <= i < j < |t.ids| :: t.ids[i] != t.ids[j]) &&
    (forall i | 0 <= i < |t.ids| :: t.ids[i] in t.entries) &&
    (forall id | id in t.entries :: id in t.ids) &&
    "" !in t.entries &&
    (forall id | id in t.entries :: t.entries[id].element.styleId == id)
  }

  // ---------------------------------------------------------------------
  // Reading a styles part
  // ---------------------------------------------------------------------

  /** The ids that occur in a list of elements. */
  function Ids(elems: seq<StyleElement>): (r: set<string>)
    ensures forall k | 0 <= k < |elems| :: elems[k].styleId in r
  {
    if elems == [] then {}
    else
      var front := elems[..|elems| - 1];
      assert forall k | 0 <= k < |front| :: front[k] == elems[k];
      Ids(front) + {elems[|elems| - 1].styleId}
  }

  /** The first position whose element has id `id`, or `|elems|` when there is none. */
  function IndexOfId(elems: seq<StyleElement>, id: string): (r: nat)
    ensures r <= |elems|
    ensures forall k | 0 <= k < r :: elems[k].styleId != id
    ensures r < |elems| ==> elems[r].styleId == id
  {
    if elems == [] then 0
    else
      var front := elems[..|elems| - 1];
      var i := IndexOfId(front, id);
      if i < |front| then i
      else if elems[|elems| - 1].styleId == id then |front|
      else |elems|
  }

  /** The last position whose element has id `id`, or -1 when there is none. */
  function LastIndexOfId(elems: seq<StyleElement>, id: string): (r: int)
    ensures -1 <= r < |elems|
    ensures r >= 0 ==> elems[r].styleId == id
    ensures forall k | r < k < |elems| :: elems[k].styleId != id
  {
    if elems == [] then -1
    else if elems[|elems| - 1].styleId == id then |elems| - 1
    else LastIndexOfId(elems[..|elems| - 1], id)
  }

  /** An id occurs in a list exactly when its first position is inside the list. */
  lemma {:induction false} IndexOfIdIds(elems: seq<StyleElement>, id: string)
    ensures id in Ids(elems) <==> IndexOfId(elems, id) < |elems|
  {
    if elems != [] {
      IndexOfIdIds(elems[..|elems| - 1], id);
    }
  }

  /** One step of the parsing loop: an element with an empty id is dropped, any other is stored under its id. */
  function Record(t: StyleTable, e: StyleElement): StyleTable {
    if e.styleId == "" then t
    else if e.styleId in t.entries then StyleTable(t.ids, t.entries[e.styleId := InfoOf(e)])
    else StyleTable(t.ids + [e.styleId], t.entries[e.styleId := InfoOf(e)])
  }

  /** The dictionary built from a list of elements, element by element. */
  function Parsed(elems: seq<StyleElement>): StyleTable {
    if elems == [] then StyleTable([], map[])
    else Record(Parsed(elems[..|elems| - 1]), elems[|elems| - 1])
  }

  /** Parsing always yields a well-formed dictionary. */
  lemma {:induction false} ParsedValid(elems: seq<StyleElement>)
    ensures ValidTable(Parsed(elems))
  {
    if elems != [] {
      ParsedValid(elems[..|elems| - 1]);
    }
  }

  /** The keys of the parsed dictionary are the non-empty ids that occur. */
  lemma {:induction false} ParsedKeys(elems: seq<StyleElement>)
    ensures Parsed(elems).entries.Keys == Ids(elems) - {""}
  {
    if elems != [] {
      ParsedKeys(elems[..|elems| - 1]);
    }
  }

  /** Each key occurs in the list. */
  lemma ParsedOccur(elems: seq<StyleElement>)
    ensures forall a | 0 <= a < |Parsed(elems).ids| :: IndexOfId(elems, Parsed(elems).ids[a]) < |elems|
  {
    ParsedValid(elems);
    ParsedKeys(elems);
    forall a | 0 <= a < |Parsed(elems).ids|
      ensures IndexOfId(elems, Parsed(elems).ids[a]) < |elems|
    {
      IndexOfIdIds(elems, Parsed(elems).ids[a]);
    }
  }

  /** A key listed before another occurs first before the other does. */
  lemma {:induction false} ParsedOrder(elems: seq<StyleElement>)
    ensures forall a, b | 0 <= a < b < |Parsed(elems).ids| ::
      IndexOfId(elems, Parsed(elems).ids[a]) < IndexOfId(elems, Parsed(elems).ids[b])
  {
    if elems != [] {
      var front := elems[..|elems| - 1];
      var e := elems[|elems| - 1];
      var t := Parsed(front);
      ParsedOrder(front);
      ParsedOccur(front);
      forall a | 0 <= a < |t.ids|
        ensures IndexOfId(elems, t.ids[a]) == IndexOfId(front, t.ids[a])
      {
      }
      if e.styleId != "" && e.styleId !in t.entries {
        ParsedKeys(front);
        IndexOfIdIds(front, e.styleId);
        assert IndexOfId(elems, e.styleId) == |front|;
      }
    }
  }

  /** A duplicate id's entry holds what its last occurrence gives: its element, name and type. */
  lemma {:induction false} ParsedLast(elems: seq<StyleElement>)
    ensures forall id | id in Parsed(elems).entries ::
      LastIndexOfId(elems, id) >= 0 && Parsed(elems).entries[id] == InfoOf(elems[LastIndexOfId(elems, id)])
  {
    if elems != [] {
      var front := elems[..|elems| - 1];
      var e := elems[|elems| - 1];
      ParsedLast(front);
      ParsedValid(front);
      forall id | id in Parsed(elems).entries
        ensures LastIndexOfId(elems, id) >= 0 && Parsed(elems).entries[id] == InfoOf(elems[LastIndexOfId(elems, id)])
      {
        if id != e.styleId {
          assert Parsed(elems).entries[id] == Parsed(front).entries[id];
          assert LastIndexOfId(elems, id) == LastIndexOfId(front, id);
          assert elems[LastIndexOfId(front, id)] == front[LastIndexOfId(front, id)];
        } else {
          assert e.styleId != "";
        }
      }
    }
  }

  /** The parsing loop: each element with a non-empty id is written into the dictionary under that id. */
  method ParseStyles(elems: seq<StyleElement>) returns (t: StyleTable)
    ensures t == Parsed(elems)
    ensures ValidTable(t)
  {
    t := StyleTable([], map[]);
    for i := 0 to |elems|
      invariant t == Parsed(elems[..i])
    {
      assert elems[..i + 1][..i] == elems[..i];
      var e := elems[i];
      if e.styleId != "" {
        if e.styleId in t.entries {
          t := StyleTable(t.ids, t.entries[e.styleId := InfoOf(e)]);
        } else {
          t := StyleTable(t.ids + [e.styleId], t.entries[e.styleId := InfoOf(e)]);
        }
      }
    }
    assert elems[..|elems|] == elems;
    ParsedValid(elems);
  }

  // ---------------------------------------------------------------------
  // Looking a style up by name
  // ---------------------------------------------------------------------

  /** The style stored under `id` has `name` as its name, ignoring ASCII case. */
  predicate NameMatches(t: StyleTable, id: string, name: string) {
    id in t.entries && Lower(t.entries[id].name) == Lower(name)
  }

  /** Position `k` holds the first key, in dictionary order, whose style matches `name`. */
  predicate FirstMatchAt(t: StyleTable, name: string, k: int) {
    0 <= k < |t.ids| && NameMatches(t, t.ids[k], name) &&
    forall j | 0 <= j < k :: !NameMatches(t, t.ids[j], name)
  }

  /** The first position from `i` on whose key matches `name`, or `|t.ids|`. */
  function MatchIndex(t: StyleTable, name: string, i: nat): (k: nat)
    requires i <= |t.ids|
    ensures i <= k <= |t.ids|
    ensures forall j | i <= j < k :: !NameMatches(t, t.ids[j], name)
    ensures k < |t.ids| ==> NameMatches(t, t.ids[k], name)
    decreases |t.ids| - i
  {
    if i == |t.ids| then i
    else if NameMatches(t, t.ids[i], name) then i
    else MatchIndex(t, name, i + 1)
  }

  /** The id of the first style, in dictionary order, whose name equals `name` ignoring case. */
  function StyleIdByName(t: StyleTable, name: string): (r: Option<string>)
    ensures r.None? <==> forall j | 0 <= j < |t.ids| :: !NameMatches(t, t.ids[j], name)
    ensures r.Some? ==> exists k :: FirstMatchAt(t, name, k) && t.ids[k] == r.value
  {
    var k := MatchIndex(t, name, 0);
    if k < |t.ids| then
      assert FirstMatchAt(t, name, k);
      Some(t.ids[k])
    else None
  }

  /** The lookup loop, returning as soon as a name matches. */
  method GetStyleIdByName(t: StyleTable, name: string) returns (r: Option<string>)
    ensures r == StyleIdByName(t, name)
  {
    var nameLower := Lower(name);
    for i := 0 to |t.ids|
      invariant MatchIndex(t, name, 0) >= i
    {
      var id := t.ids[i];
      if id in t.entries && Lower(t.entries[id].name) == nameLower {
        return Some(id);
      }
    }
    return None;
  }

  // ---------------------------------------------------------------------
  // Choosing the styles to copy
  // ---------------------------------------------------------------------

  /** The ids chosen, in order, and the requested names that did not resolve. */
  datatype Selected = Selected(ids: seq<string>, warnings: seq<string>)

  function StripAll(parts: seq<string>): (r: seq<string>)
    ensures |r| == |parts|
    ensures forall k | 0 <= k < |parts| :: r[k] == Strip(parts[k])
  {
    if parts == [] then [] else StripAll(parts[..|parts| - 1]) + [Strip(parts[|parts| - 1])]
  }

  /** The names of a `--styles` argument: split on commas, each trimmed. */
  function RequestedNames(arg: string): seq<string> {
    StripAll(Split(arg, ','))
  }

  /** Resolving names in order: a name whose lookup gives no id, or an empty one, becomes a warning. */
  function Resolve(t: StyleTable, names: seq<string>): Selected {
    if names == [] then Selected([], [])
    else
      var front := Resolve(t, names[..|names| - 1]);
      var id := StyleIdByName(t, names[|names| - 1]);
      if id.Some? && id.value != "" then Selected(front.ids + [id.value], front.warnings)
      else Selected(front.ids, front.warnings + [names[|names| - 1]])
  }

  /** With a non-empty `--styles` argument the named styles, otherwise every template id in dictionary order. */
  function Selection(t: StyleTable, styles: Option<string>): Selected {
    if styles.Some? && styles.value != "" then Resolve(t, RequestedNames(styles.value))
    else Selected(t.ids, [])
  }

  /** Every requested name is either resolved or warned about. */
  lemma {:induction false} ResolveCounts(t: StyleTable, names: seq<string>)
    ensures |Resolve(t, names).ids| + |Resolve(t, names).warnings| == |names|
  {
    if names != [] {
      ResolveCounts(t, names[..|names| - 1]);
    }
  }

  /** Names are resolved one at a time and in order, duplicates included. */
  lemma {:induction false} ResolveAppend(t: StyleTable, a: seq<string>, b: seq<string>)
    ensures Resolve(t, a + b).ids == Resolve(t, a).ids + Resolve(t, b).ids
    ensures Resolve(t, a + b).warnings == Resolve(t, a).warnings + Resolve(t, b).warnings
    decreases |b|
  {
    if b == [] {
      assert a + b == a;
    } else {
      var b' := b[..|b| - 1];
      assert (a + b)[..|a + b| - 1] == a + b';
      assert (a + b)[|a + b| - 1] == b[|b| - 1];
      ResolveAppend(t, a, b');
    }
  }

  /** Every chosen id is a non-empty key of a well-formed template dictionary. */
  lemma SelectionInTable(t: StyleTable, styles: Option<string>)
    requires ValidTable(t)
    ensures forall k | 0 <= k < |Selection(t, styles).ids| ::
      Selection(t, styles).ids[k] in t.entries && Selection(t, styles).ids[k] != ""
  {
    if styles.Some? && styles.value != "" {
      ResolveInTable(t, RequestedNames(styles.value));
    }
  }

  lemma {:induction false} ResolveInTable(t: StyleTable, names: seq<string>)
    requires ValidTable(t)
    ensures forall k | 0 <= k < |Resolve(t, names).ids| :: Resolve(t, names).ids[k] in t.entries && Resolve(t, names).ids[k] != ""
  {
    if names != [] {
      ResolveInTable(t, names[..|names| - 1]);
      var id := StyleIdByName(t, names[|names| - 1]);
      if id.Some? {
        var k :| FirstMatchAt(t, names[|names| - 1], k) && t.ids[k] == id.value;
        assert id.value in t.entries;
      }
    }
  }

  /** The selection step of the program: resolve each requested name, or take every template id. */
  method SelectStyles(t: StyleTable, styles: Option<string>) returns (sel: Selected)
    ensures sel == Selection(t, styles)
  {
    if styles.Some? && styles.value != "" {
      var names := RequestedNames(styles.value);
      sel := Selected([], []);
      for i := 0 to |names|
        invariant sel == Resolve(t, names[..i])
      {
        assert names[..i + 1][..i] == names[..i];
        var id := GetStyleIdByName(t, names[i]);
        if id.Some? && id.value != "" {
          sel := sel.(ids := sel.ids + [id.value]);
        } else {
          sel := sel.(warnings := sel.warnings + [names[i]]);
        }
      }
      assert names[..|names|] == names;
    } else {
      sel := Selected(t.ids, []);
    }
  }

  // ---------------------------------------------------------------------
  // Copying one style into the target
  // ---------------------------------------------------------------------

  datatype CopyAction = Added | Replaced

  /** The target has no `w:styles` root to copy into. */
  datatype CopyError = NoStylesRoot

  datatype Copied = Copied(outcome: Result<CopyAction, CopyError>, elements: seq<StyleElement>)

  /** Copying `src` into a styles part: fail without a root, replace the first element with its id, or append. */
  function CopyInto(hasRoot: bool, elems: seq<StyleElement>, src: StyleElement): Copied {
    if !hasRoot then Copied(Failure(NoStylesRoot), elems)
    else
      var i := IndexOfId(elems, src.styleId);
      if i < |elems| then Copied(Success(Replaced), elems[i := src])
      else Copied(Success(Added), elems + [src])
  }

  /** Copying replaces in place or appends, and leaves every other element where it was. */
  lemma CopyIntoShape(hasRoot: bool, elems: seq<StyleElement>, src: StyleElement)
    ensures var c := CopyInto(hasRoot, elems, src);
      && (!hasRoot <==> c.outcome == Failure(NoStylesRoot))
      && (!hasRoot ==> c.elements == elems)
      && (c.outcome == Success(Replaced) <==> hasRoot && src.styleId in Ids(elems))
      && (c.outcome == Success(Replaced) ==>
            |c.elements| == |elems| && c.elements[IndexOfId(elems, src.styleId)] == src)
      && (c.outcome == Success(Added) ==> c.elements == elems + [src])
      && (forall k | 0 <= k < |elems| && k != IndexOfId(elems, src.styleId) :: c.elements[k] == elems[k])
      && (forall k | 0 <= k < |elems| :: c.elements[k].styleId == elems[k].styleId)
  {
    IndexOfIdIds(elems, src.styleId);
  }

  /** Replacing an element by one with the same id keeps the set of ids. */
  lemma {:induction false} IdsUpdate(elems: seq<StyleElement>, i: nat, e: StyleElement)
    requires i < |elems| && elems[i].styleId == e.styleId
    ensures Ids(elems[i := e]) == Ids(elems)
  {
    var front := elems[..|elems| - 1];
    if i < |elems| - 1 {
      assert elems[i := e][..|elems| - 1] == front[i := e];
      IdsUpdate(front, i, e);
    } else {
      assert elems[i := e][..|elems| - 1] == front;
    }
  }

  lemma IdsSnoc(elems: seq<StyleElement>, e: StyleElement)
    ensures Ids(elems + [e]) == Ids(elems) + {e.styleId}
  {
    assert (elems + [e])[..|elems|] == elems;
  }

  /** A successful copy adds the copied id to the ids of the part and removes none. */
  lemma CopyIntoIds(hasRoot: bool, elems: seq<StyleElement>, src: StyleElement)
    requires hasRoot
    ensures Ids(CopyInto(hasRoot, elems, src).elements) == Ids(elems) + {src.styleId}
  {
    var i := IndexOfId(elems, src.styleId);
    IndexOfIdIds(elems, src.styleId);
    if i < |elems| {
      IdsUpdate(elems, i, src);
    } else {
      IdsSnoc(elems, src);
    }
  }

  /** The target document's styles part, changed in place by copying. */
  class StylesPart {
    /** Whether the part has a `w:styles` root element. */
    const hasRoot: bool
    /** The `w:style` children of the root, in document order. */
    var elements: seq<StyleElement>

    constructor (hasRoot: bool, elements: seq<StyleElement>)
      ensures this.hasRoot == hasRoot && this.elements == elements
    {
      this.hasRoot := hasRoot;
      this.elements := elements;
    }

    /** Import `source`'s element: replace the first element with its id, or append it. */
    method CopyStyle(source: StyleInfo) returns (r: Result<CopyAction, CopyError>)
      modifies this
      ensures Copied(r, elements) == CopyInto(hasRoot, old(elements), source.element)
    {
      if !hasRoot {
        return Failure(NoStylesRoot);
      }
      var id := source.element.styleId;
      var i := 0;
      while i < |elements| && elements[i].styleId != id
        invariant 0 <= i <= |elements|
        invariant forall k | 0 <= k < i :: elements[k].styleId != id
      {
        i := i + 1;
      }
      assert i == IndexOfId(elements, id);
      if i < |elements| {
        elements := elements[i := source.element];
        r := Success(Replaced);
      } else {
        elements := elements + [source.element];
        r := Success(Added);
      }
    }
  }

  // ---------------------------------------------------------------------
  // Processing the selection
  // ---------------------------------------------------------------------

  /** The names reported under added, replaced and skipped. */
  datatype Tally = Tally(added: seq<string>, replaced: seq<string>, skipped: seq<string>)

  const NoTally := Tally([], [], [])

  datatype Verdict = Skip | Add | Replace

  /** Report `name` under the list `v` names. */
  function Filed(t: Tally, v: Verdict, name: string): Tally {
    match v
    case Skip => t.(skipped := t.skipped + [name])
    case Add => t.(added := t.added + [name])
    case Replace => t.(replaced := t.replaced + [name])
  }

  /** What the run reads: both dictionaries (the target's as first parsed), the flags and the shape of the target. */
  datatype Job = Job(template: StyleTable, target: StyleTable, overwrite: bool, dryRun: bool, hasRoot: bool)

  /** An id in the original target dictionary is skipped unless overwriting, and replaced when overwriting; any other is added. */
  function VerdictOf(job: Job, id: string): Verdict {
    if id in job.target.entries then (if job.overwrite then Replace else Skip) else Add
  }

  predicate InTemplate(job: Job, ids: seq<string>) {
    forall k | 0 <= k < |ids| :: ids[k] in job.template.entries
  }

  /** The report the verdicts alone give, which is what a dry run prints. */
  function Plan(job: Job, ids: seq<string>): Tally
    requires InTemplate(job, ids)
  {
    if ids == [] then NoTally
    else
      var id := ids[|ids| - 1];
      Filed(Plan(job, ids[..|ids| - 1]), VerdictOf(job, id), job.template.entries[id].name)
  }

  /** The state of the run: the report so far, the target's elements, and the error that stopped it, if any. */
  datatype Run = Run(tally: Tally, elements: seq<StyleElement>, error: Option<CopyError>)

  function Start(e0: seq<StyleElement>): Run {
    Run(NoTally, e0, None)
  }

  /** One iteration of the loop over the selection. */
  function Step(job: Job, r: Run, id: string): Run
    requires id in job.template.entries
  {
    if r.error.Some? then r
    else
      var info := job.template.entries[id];
      var v := VerdictOf(job, id);
      if v == Skip || job.dryRun then Run(Filed(r.tally, v, info.name), r.elements, None)
      else
        var c := CopyInto(job.hasRoot, r.elements, info.element);
        match c.outcome
        case Failure(e) => Run(r.tally, r.elements, Some(e))
        case Success(Replaced) => Run(Filed(r.tally, Replace, info.name), c.elements, None)
        case Success(Added) => Run(Filed(r.tally, Add, info.name), c.elements, None)
  }

  /** The run over a selection, id after id; after an error nothing more happens. */
  function RunAll(job: Job, e0: seq<StyleElement>, ids: seq<string>): Run
    requires InTemplate(job, ids)
  {
    if ids == [] then Start(e0)
    else Step(job, RunAll(job, e0, ids[..|ids| - 1]), ids[|ids| - 1])
  }

  /** The plan files every id exactly once, and files none as replaced without overwriting. */
  lemma {:induction false} PlanCounts(job: Job, ids: seq<string>)
    requires InTemplate(job, ids)
    ensures |Plan(job, ids).added| + |Plan(job, ids).replaced| + |Plan(job, ids).skipped| == |ids|
    ensures !job.overwrite ==> Plan(job, ids).replaced == []
  {
    if ids != [] {
      PlanCounts(job, ids[..|ids| - 1]);
    }
  }

  /** A dry run reports the plan, never fails, and never touches the target. */
  lemma {:induction false} DryRunIsPlan(job: Job, e0: seq<StyleElement>, ids: seq<string>)
    requires InTemplate(job, ids) && job.dryRun
    ensures RunAll(job, e0, ids) == Run(Plan(job, ids), e0, None)
  {
    if ids != [] {
      DryRunIsPlan(job, e0, ids[..|ids| - 1]);
    }
  }

  /** The run fails exactly when it really copies into a target without a root and some id is not skipped. */
  lemma {:induction false} ErrorIff(job: Job, e0: seq<StyleElement>, ids: seq<string>)
    requires InTemplate(job, ids)
    ensures RunAll(job, e0, ids).error.Some? <==>
      !job.dryRun && !job.hasRoot && |Plan(job, ids).skipped| < |ids|
    ensures RunAll(job, e0, ids).error.Some? ==> RunAll(job, e0, ids).error == Some(NoStylesRoot)
  {
    PlanCounts(job, ids);
    if ids != [] {
      var front := ids[..|ids| - 1];
      ErrorIff(job, e0, front);
      PlanCounts(job, front);
    }
  }

  /** A step that does not fail files its id once, as skipped exactly when the verdict is to skip. */
  lemma StepFiles(job: Job, p: Run, id: string)
    requires id in job.template.entries
    requires Step(job, p, id).error.None?
    ensures p.error.None?
    ensures var r := Step(job, p, id);
      && r.tally.skipped == Filed(p.tally, VerdictOf(job, id), job.template.entries[id].name).skipped
      && |r.tally.added| + |r.tally.replaced| + |r.tally.skipped| == |p.tally.added| + |p.tally.replaced| + |p.tally.skipped| + 1
  {
  }

  /** A run without error filed every id, skipping exactly what the plan skips. */
  lemma {:induction false} RunCounts(job: Job, e0: seq<StyleElement>, ids: seq<string>)
    requires InTemplate(job, ids)
    requires RunAll(job, e0, ids).error.None?
    ensures RunAll(job, e0, ids).tally.skipped == Plan(job, ids).skipped
    ensures |RunAll(job, e0, ids).tally.added| + |RunAll(job, e0, ids).tally.replaced| + |RunAll(job, e0, ids).tally.skipped| == |ids|
  {
    if ids != [] {
      var front := ids[..|ids| - 1];
      StepFiles(job, RunAll(job, e0, front), ids[|ids| - 1]);
      RunCounts(job, e0, front);
    }
  }

  /** Once the run has failed, the remaining ids change nothing. */
  lemma {:induction false} ErrorSticks(job: Job, e0: seq<StyleElement>, ids: seq<string>, i: nat)
    requires InTemplate(job, ids) && i <= |ids|
    requires RunAll(job, e0, ids[..i]).error.Some?
    ensures RunAll(job, e0, ids) == RunAll(job, e0, ids[..i])
    decreases |ids| - i
  {
    if i < |ids| {
      assert ids[..i + 1][..i] == ids[..i];
      ErrorSticks(job, e0, ids, i + 1);
    } else {
      assert ids[..i] == ids;
    }
  }

  /**
   * A job run keeps the id at every original position, and leaves the
   * element there as it was unless its id was selected and not skipped; it
   * only ever appends, one element per style reported as added.
   */
  lemma {:induction false} RunLeavesOthers(job: Job, e0: seq<StyleElement>, ids: seq<string>)
    requires InTemplate(job, ids) && ValidTable(job.template)
    ensures var r := RunAll(job, e0, ids);
      && !job.dryRun ==> |r.elements| == |e0| + |r.tally.added|
    ensures var r := RunAll(job, e0, ids);
      && |r.elements| >= |e0|
      && forall k | 0 <= k < |e0| :: r.elements[k].styleId == e0[k].styleId
    ensures var r := RunAll(job, e0, ids);
      forall k | 0 <= k < |e0| && (e0[k].styleId !in ids || VerdictOf(job, e0[k].styleId) == Skip) ::
        r.elements[k] == e0[k]
  {
    if ids != [] {
      var front := ids[..|ids| - 1];
      var id := ids[|ids| - 1];
      RunLeavesOthers(job, e0, front);
      var p := RunAll(job, e0, front);
      var r := RunAll(job, e0, ids);
      if p.error.None? && VerdictOf(job, id) != Skip && !job.dryRun {
        var src := job.template.entries[id].element;
        CopyIntoShape(job.hasRoot, p.elements, src);
        forall k | 0 <= k < |e0| && (e0[k].styleId !in ids || VerdictOf(job, e0[k].styleId) == Skip)
          ensures r.elements[k] == e0[k]
        {
          assert e0[k].styleId !in front || VerdictOf(job, e0[k].styleId) == Skip;
          assert p.elements[k].styleId != src.styleId;
        }
      } else {
        assert forall k | 0 <= k < |e0| && e0[k].styleId !in ids :: e0[k].styleId !in front;
      }
    }
  }

  /**
   * Without overwriting, every style the target dictionary already had is
   * left as it was: the copies of a well-formed template only ever append.
   */
  lemma NoOverwriteKeepsTarget(job: Job, e0: seq<StyleElement>, ids: seq<string>)
    requires InTemplate(job, ids) && ValidTable(job.template)
    requires !job.overwrite && job.target == Parsed(e0)
    ensures |RunAll(job, e0, ids).elements| >= |e0|
    ensures RunAll(job, e0, ids).elements[..|e0|] == e0
  {
    RunLeavesOthers(job, e0, ids);
    ParsedKeys(e0);
    var r := RunAll(job, e0, ids);
    forall k | 0 <= k < |e0|
      ensures r.elements[k] == e0[k]
    {
      var x := e0[k].styleId;
      if x in ids {
        assert x in job.template.entries;
        assert x in job.target.entries;
      }
    }
  }

  /** The ids of `ids` that are not skipped: the ones a job run copies. */
  function CopiedIds(job: Job, ids: seq<string>): set<string> {
    if ids == [] then {}
    else if VerdictOf(job, ids[|ids| - 1]) == Skip then CopiedIds(job, ids[..|ids| - 1])
    else CopiedIds(job, ids[..|ids| - 1]) + {ids[|ids| - 1]}
  }

  lemma {:induction false} CopiedIdsIn(job: Job, ids: seq<string>, x: string)
    requires x in CopiedIds(job, ids)
    ensures x in ids
  {
    var front := ids[..|ids| - 1];
    if x != ids[|ids| - 1] {
      CopiedIdsIn(job, front, x);
    }
  }

  /**
   * One step of a job run into a part with a root, when the target
   * dictionary and the part agree on whether the id is there: the step files
   * the verdict, and a copy adds the id to the part.
   */
  lemma RealStep(job: Job, p: Run, id: string)
    requires id in job.template.entries && ValidTable(job.template)
    requires !job.dryRun && job.hasRoot && p.error.None?
    requires id in job.target.entries <==> id in Ids(p.elements)
    ensures var r := Step(job, p, id);
      && r.error.None?
      && r.tally == Filed(p.tally, VerdictOf(job, id), job.template.entries[id].name)
      && (VerdictOf(job, id) == Skip ==> r.elements == p.elements)
      && (VerdictOf(job, id) != Skip ==> Ids(r.elements) == Ids(p.elements) + {id})
  {
    var src := job.template.entries[id].element;
    assert src.styleId == id;
    if VerdictOf(job, id) != Skip {
      CopyIntoIds(job.hasRoot, p.elements, src);
      IndexOfIdIds(p.elements, id);
    }
  }

  /**
   * With distinct ids, a root, and a target dictionary read from the target
   * part, a job run reports exactly what a dry run does: copying never
   * finds an element that the first parse did not.
   */
  lemma {:induction false} RealRunMatchesPlan(job: Job, e0: seq<StyleElement>, ids: seq<string>)
    requires InTemplate(job, ids) && ValidTable(job.template)
    requires !job.dryRun && job.hasRoot && job.target == Parsed(e0)
    requires forall i, j | 0 <= i < j < |ids| :: ids[i] != ids[j]
    ensures RunAll(job, e0, ids).error.None?
    ensures RunAll(job, e0, ids).tally == Plan(job, ids)
    ensures Ids(RunAll(job, e0, ids).elements) == Ids(e0) + CopiedIds(job, ids)
  {
    if ids != [] {
      var front := ids[..|ids| - 1];
      var id := ids[|ids| - 1];
      assert forall i, j | 0 <= i < j < |front| :: front[i] != front[j];
      RealRunMatchesPlan(job, e0, front);
      var p := RunAll(job, e0, front);
      ParsedKeys(e0);
      if id in CopiedIds(job, front) {
        CopiedIdsIn(job, front, id);
        assert false;
      }
      assert id != "";
      RealStep(job, p, id);
    }
  }

  /** After a successful copy, the first element with the copied id is the copied element, and other ids keep their first position. */
  lemma CopyIntoFirst(hasRoot: bool, elems: seq<StyleElement>, src: StyleElement, x: string)
    requires hasRoot
    requires x == src.styleId || IndexOfId(elems, x) < |elems|
    ensures var c := CopyInto(hasRoot, elems, src);
      && IndexOfId(c.elements, x) < |c.elements|
      && (x == src.styleId ==> c.elements[IndexOfId(c.elements, x)] == src)
      && (x != src.styleId ==> IndexOfId(c.elements, x) == IndexOfId(elems, x) && c.elements[IndexOfId(elems, x)] == elems[IndexOfId(elems, x)])
  {
    CopyIntoShape(hasRoot, elems, src);
    var c := CopyInto(hasRoot, elems, src);
    var i := IndexOfId(elems, x);
    if i < |elems| {
      assert c.elements[i].styleId == x;
    } else {
      assert c.elements == elems + [src];
      assert IndexOfId(c.elements, x) == |elems|;
    }
  }

  /**
   * After a job run without error, every copied style is found, by its
   * id, as the template's element.
   */
  lemma {:induction false} CopiedInPlace(job: Job, e0: seq<StyleElement>, ids: seq<string>)
    requires InTemplate(job, ids) && ValidTable(job.template) && !job.dryRun
    requires RunAll(job, e0, ids).error.None?
    ensures var r := RunAll(job, e0, ids);
      forall k | 0 <= k < |ids| && VerdictOf(job, ids[k]) != Skip ::
        IndexOfId(r.elements, ids[k]) < |r.elements| &&
        r.elements[IndexOfId(r.elements, ids[k])] == job.template.entries[ids[k]].element
  {
    if ids != [] {
      var front := ids[..|ids| - 1];
      var id := ids[|ids| - 1];
      var p := RunAll(job, e0, front);
      var r := RunAll(job, e0, ids);
      assert p.error.None?;
      CopiedInPlace(job, e0, front);
      var src := job.template.entries[id].element;
      forall k | 0 <= k < |ids| && VerdictOf(job, ids[k]) != Skip
        ensures IndexOfId(r.elements, ids[k]) < |r.elements|
        ensures r.elements[IndexOfId(r.elements, ids[k])] == job.template.entries[ids[k]].element
      {
        if VerdictOf(job, id) != Skip {
          assert job.hasRoot;
          if ids[k] == id {
            CopyIntoFirst(job.hasRoot, p.elements, src, id);
          } else {
            assert ids[k] == front[k];
            CopyIntoFirst(job.hasRoot, p.elements, src, ids[k]);
          }
        } else {
          assert ids[k] == front[k];
        }
      }
    }
  }

  /**
   * Selecting the same id twice: a dry run reports it as added twice, while
   * a job run adds it and then replaces the element it has just added,
   * because copying searches the changed part but the verdict reads the first
   * parse of the target.
   */
  lemma DuplicateSelectionDiverges()
    ensures var e := StyleElement("A", ["Alpha"], "paragraph", "");
      var job := Job(Parsed([e]), Parsed([]), false, false, true);
      && InTemplate(job, ["A", "A"])
      && RunAll(job, [], ["A", "A"]) == Run(Tally(["Alpha"], ["Alpha"], []), [e], None)
      && Plan(job, ["A", "A"]) == Tally(["Alpha", "Alpha"], [], [])
  {
    var e := StyleElement("A", ["Alpha"], "paragraph", "");
    var job := Job(Parsed([e]), Parsed([]), false, false, true);
    assert [e][..0] == [];
    assert Parsed([]) == StyleTable([], map[]);
    assert StyleName(e) == "Alpha";
    assert Parsed([e]) == StyleTable(["A"], map["A" := InfoOf(e)]);
    assert job.template.entries["A"].name == "Alpha";
    assert VerdictOf(job, "A") == Add;
    var ids := ["A", "A"];
    assert ids[..1] == ["A"] && ["A"][..0] == [];
    assert CopyInto(true, [], e) == Copied(Success(Added), [e]);
    assert RunAll(job, [], ["A"][..0]) == Start([]);
    assert Step(job, Start([]), "A") == Run(Tally(["Alpha"], [], []), [e], None);
    var p1 := RunAll(job, [], ["A"]);
    assert p1 == Run(Tally(["Alpha"], [], []), [e], None);
    assert IndexOfId([e], "A") == 0;
    assert CopyInto(true, [e], e) == Copied(Success(Replaced), [e]);
    assert Plan(job, ["A"]) == Tally(["Alpha"], [], []);
  }

  /** The loop over the selection: skip, report a dry-run action, or copy; an error ends the run. */
  method ProcessStyles(job: Job, part: StylesPart, ids: seq<string>) returns (tally: Tally, error: Option<CopyError>)
    requires InTemplate(job, ids) && job.hasRoot == part.hasRoot
    modifies part
    ensures Run(tally, part.elements, error) == RunAll(job, old(part.elements), ids)
  {
    ghost var e0 := part.elements;
    tally := NoTally;
    error := None;
    var i := 0;
    while i < |ids|
      invariant i <= |ids|
      invariant Run(tally, part.elements, error) == RunAll(job, e0, ids[..i])
      invariant error.None?
    {
      assert ids[..i + 1][..i] == ids[..i];
      var id := ids[i];
      var info := job.template.entries[id];
      var present := id in job.target.entries;
      if present && !job.overwrite {
        tally := tally.(skipped := tally.skipped + [info.name]);
      } else if job.dryRun {
        if present {
          tally := tally.(replaced := tally.replaced + [info.name]);
        } else {
          tally := tally.(added := tally.added + [info.name]);
        }
      } else {
        var action := part.CopyStyle(info);
        match action
        case Failure(e) =>
          error := Some(e);
          ErrorSticks(job, e0, ids, i + 1);
          return;
        case Success(Replaced) =>
          tally := tally.(replaced := tally.replaced + [info.name]);
        case Success(Added) =>
          tally := tally.(added := tally.added + [info.name]);
      }
      i := i + 1;
    }
    assert ids[..|ids|] == ids;
  }

  // ---------------------------------------------------------------------
  // Writing the archive
  // ---------------------------------------------------------------------

  /** The content of an archive entry: raw bytes, or a styles part serialised from its elements. */
  datatype Content = Bytes(data: seq<bv8>) | StylesXml(elements: seq<StyleElement>)

  datatype Entry = Entry(filename: string, content: Content)

  const StylesPath := "word/styles.xml"

  /**
   * The position an archive read by filename resolves to: the last entry
   * with that filename, or -1 when there is none.
   */
  function LastNamed(entries: seq<Entry>, name: string): (r: int)
    ensures -1 <= r < |entries|
    ensures r >= 0 ==> entries[r].filename == name
    ensures forall k | r < k < |entries| :: entries[k].filename != name
  {
    if entries == [] then -1
    else if entries[|entries| - 1].filename == name then |entries| - 1
    else LastNamed(entries[..|entries| - 1], name)
  }

  /**
   * Entry `k` as the rewrite writes it: with the new content when it is named
   * `path`, and otherwise with the content read back by its filename.
   */
  function Rewritten(entries: seq<Entry>, k: nat, path: string, content: Content): Entry
    requires k < |entries|
  {
    var name := entries[k].filename;
    if name == path then Entry(name, content)
    else
      var j := LastNamed(entries, name);
      assert j >= k;
      Entry(name, entries[j].content)
  }

  /** The first `n` entries of the rewritten archive. */
  function RewrittenPrefix(entries: seq<Entry>, n: nat, path: string, content: Content): (r: seq<Entry>)
    requires n <= |entries|
    ensures |r| == n
    ensures forall k | 0 <= k < n :: r[k] == Rewritten(entries, k, path, content)
  {
    if n == 0 then [] else RewrittenPrefix(entries, n - 1, path, content) + [Rewritten(entries, n - 1, path, content)]
  }

  /**
   * The rewritten archive: the same filenames in the same order; every entry
   * named `path` gets `content`, and every other entry gets the content of
   * the last entry that shares its filename.
   */
  function UpdateEntries(entries: seq<Entry>, path: string, content: Content): (r: seq<Entry>)
    ensures |r| == |entries|
    ensures forall k | 0 <= k < |entries| :: r[k].filename == entries[k].filename
    ensures forall k | 0 <= k < |entries| && entries[k].filename == path :: r[k].content == content
    ensures forall k | 0 <= k < |entries| && entries[k].filename != path ::
      LastNamed(entries, entries[k].filename) >= k &&
      r[k].content == entries[LastNamed(entries, entries[k].filename)].content
  {
    RewrittenPrefix(entries, |entries|, path, content)
  }

  predicate DistinctNames(entries: seq<Entry>) {
    forall i, j | 0 <= i < j < |entries| :: entries[i].filename != entries[j].filename
  }

  /** With distinct filenames, every entry not named `path` is copied as it was. */
  lemma UpdateEntriesDistinct(entries: seq<Entry>, path: string, content: Content)
    requires DistinctNames(entries)
    ensures forall k | 0 <= k < |entries| && entries[k].filename != path ::
      UpdateEntries(entries, path, content)[k] == entries[k]
  {
    var r := UpdateEntries(entries, path, content);
    forall k | 0 <= k < |entries| && entries[k].filename != path
      ensures r[k] == entries[k]
    {
      assert LastNamed(entries, entries[k].filename) == k;
    }
  }

  /** An archive with distinct filenames and no entry named `path` is rewritten unchanged; nothing is added. */
  lemma UpdateEntriesNoMatch(entries: seq<Entry>, path: string, content: Content)
    requires DistinctNames(entries)
    requires forall k | 0 <= k < |entries| :: entries[k].filename != path
    ensures UpdateEntries(entries, path, content) == entries
  {
    UpdateEntriesDistinct(entries, path, content);
  }

  /**
   * With a repeated filename, every entry of that name is written with the
   * content of the last of them.
   */
  lemma RepeatedNameReadsLast()
    ensures UpdateEntries([Entry("a", Bytes([1])), Entry("a", Bytes([2])), Entry(StylesPath, Bytes([3]))], StylesPath, Bytes([4]))
      == [Entry("a", Bytes([2])), Entry("a", Bytes([2])), Entry(StylesPath, Bytes([4]))]
  {
    var entries := [Entry("a", Bytes([1])), Entry("a", Bytes([2])), Entry(StylesPath, Bytes([3]))];
    assert LastNamed(entries, "a") == 1 by {
      assert entries[..2][1].filename == "a";
    }
    var r := UpdateEntries(entries, StylesPath, Bytes([4]));
    assert r[0] == Entry("a", Bytes([2]));
  }

  /** Rewriting the archive entry by entry into a fresh one, reading each other entry back by its filename. */
  method UpdateFileInDocx(entries: seq<Entry>, path: string, content: Content) returns (out: seq<Entry>)
    ensures out == UpdateEntries(entries, path, content)
  {
    out := [];
    for i := 0 to |entries|
      invariant out == RewrittenPrefix(entries, i, path, content)
    {
      var item := entries[i];
      if item.filename == path {
        out := out + [Entry(item.filename, content)];
      } else {
        var j := LastNamed(entries, item.filename);
        out := out + [Entry(item.filename, entries[j].content)];
      }
    }
  }

  // ---------------------------------------------------------------------
  // The program
  // ---------------------------------------------------------------------

  /** The `--styles`, `--overwrite` and `--dry-run` options. */
  datatype Options = Options(styles: Option<string>, overwrite: bool, dryRun: bool)

  /** How the program ends: nothing to copy, stopped by an error, or finished with a report and perhaps a new archive. */
  datatype Outcome =
    | NothingToCopy(warnings: seq<string>)
    | Aborted(warnings: seq<string>, error: CopyError)
    | Completed(warnings: seq<string>, tally: Tally, written: Option<seq<Entry>>)

  /** Whether a finished run writes the styles part back. */
  predicate Writes(dryRun: bool, t: Tally) {
    !dryRun && (t.added != [] || t.replaced != [])
  }

  /**
   * Copy the selected template styles into the target part and, when
   * something was copied for job, rewrite the archive's styles entry.
   */
  method ApplyTemplate(templateElems: seq<StyleElement>, part: StylesPart, archive: seq<Entry>, opts: Options)
    returns (outcome: Outcome)
    modifies part
    ensures var sel := Selection(Parsed(templateElems), opts.styles);
      sel.ids == [] ==> outcome == NothingToCopy(sel.warnings) && part.elements == old(part.elements)
    ensures var sel := Selection(Parsed(templateElems), opts.styles);
      var job := Job(Parsed(templateElems), Parsed(old(part.elements)), opts.overwrite, opts.dryRun, part.hasRoot);
      sel.ids != [] ==>
        && InTemplate(job, sel.ids)
        && var r := RunAll(job, old(part.elements), sel.ids);
        && part.elements == r.elements
        && (r.error.Some? ==> outcome == Aborted(sel.warnings, r.error.value))
        && (r.error.None? ==> outcome == Completed(sel.warnings, r.tally,
              if Writes(opts.dryRun, r.tally) then Some(UpdateEntries(archive, StylesPath, StylesXml(r.elements))) else None))
  {
    var template := ParseStyles(templateElems);
    var target := ParseStyles(part.elements);
    var sel := SelectStyles(template, opts.styles);
    if sel.ids == [] {
      return NothingToCopy(sel.warnings);
    }
    SelectionInTable(template, opts.styles);
    var job := Job(template, target, opts.overwrite, opts.dryRun, part.hasRoot);
    var tally, error := ProcessStyles(job, part, sel.ids);
    if error.Some? {
      return Aborted(sel.warnings, error.value);
    }
    var written := None;
    if !opts.dryRun && (tally.added != [] || tally.replaced != []) {
      var entries := UpdateFileInDocx(archive, StylesPath, StylesXml(part.elements));
      written := Some(entries);
    }
    outcome := Completed(sel.warnings, tally, written);
  }
}
