# Word style catalog: a Dafny model

This project models two command-line utilities for the styles of Word
`.docx` documents, and proves properties of the model:

- The **inspector** (`inspect_styles.py`):
  - computes a style's inheritance depth by walking its base-style links, with cycle detection;
  - reports three kinds of issues: deep inheritance, circular inheritance and orphaned base styles;
  - lists the styles after the `--type` and `--name` filters;
  - prints them grouped by type and ordered by priority.
- The **template copier** (`apply_style_template.py`):
  - reads a template's and a target's styles part into id-keyed dictionaries with insertion order;
  - picks the styles to copy, either by case-insensitive name lookup or all of them;
  - sorts each selected id into skip, add or replace;
  - copies style elements into the target's part, replacing in place or appending;
  - rewrites the archive's `word/styles.xml` entry.

Files:

- `wrappers.dfy` — `Option` and `Result`.
- `text.dfy` — module `Text`. It holds the string operations both scripts use:
  - ASCII lower-casing;
  - substring search;
  - `str.split` on a single character;
  - `str.strip` with Python's whitespace set.
- `inspect_styles.dfy` — module `InspectStyles`.
  - A style is a record: name, id, type, priority, and base link.
  - The base link is an index into a universe `u` of style nodes, or no node at all. The universe is a generalisation made by the model: the scripts only use the `base_style` object, so the model lets a base be any node, inside the document's list or not. When the universe is the document's own list, no orphaned-base issue can arise (`NoOrphanInOwnDocument`).
  - Style identity in the depth walk is the name.
  - The mutable `visited` set is threaded through the recursion. `InheritanceDepth` returns both the depth and the visited set as the call leaves it.
  - `find_issues`, the collection loop of `main` and the `by_type` grouping loop are methods with loop invariants. Each is proved equal to a specification function, and each function's properties are proved as lemmas.
- `apply_style_template.dfy` — module `ApplyStyleTemplate`.
  - A styles part is the ordered list of `w:style` elements. Each element is `(styleId, w:name values, w:type, payload)`.
  - A dictionary is `StyleTable(ids, entries)`: `ids` is the dict's key order.
  - The target part is the class `StylesPart`, whose `CopyStyle` changes its `elements` in place.
  - The parsing, lookup, selection, processing and archive-rewrite loops are methods. Each is proved against a function (`Parsed`, `StyleIdByName`, `Selection`, `RunAll`, `UpdateEntries`).
  - The archive is the ordered list of `(filename, content)` entries.

Notable behaviour captured by the model:

- The circular-inheritance branch of `find_issues` is unreachable. The top-level depth call starts with an empty visited set, so it can never return -1 (`DepthIssue`, `NoCircularIssue`). A chain that returns to a name after k links has depth k − 1, so a style based on itself has depth 0.
- Whether an id exists in the target is read from the dictionary parsed before any copy. `copy_style`, however, searches the target part as it stands after earlier copies. When the selection names the same style twice, a dry run reports "add" twice, while a real run adds it and then replaces the element it just added (`DuplicateSelectionDiverges`). With distinct ids the two agree (`RealRunMatchesPlan`).
- An empty `--styles ""` is falsy in Python, so it selects every template style, the same as giving no option (`Selection`).

## Model

Source paths are under `plugins/ms-office-suite/skills/word-styles/scripts/`.

| member | source | states |
|---|---|---|
| InspectStyles.TypeName | plugins/ms-office-suite/skills/word-styles/scripts/inspect_styles.py:29-37 | the four known style types map to the four group names; every other value maps to "unknown" |
| InspectStyles.TypeFilter | plugins/ms-office-suite/skills/word-styles/scripts/inspect_styles.py:244-249 | the `--type` table is defined exactly on the four group names, and it inverts `TypeName` on them |
| InspectStyles.BaseStyle | plugins/ms-office-suite/skills/word-styles/scripts/inspect_styles.py:183 | a base style, when there is one, is a node of the universe |
| InspectStyles.InheritanceDepth | plugins/ms-office-suite/skills/word-styles/scripts/inspect_styles.py:172-186 | the depth is at least -1, and it is -1 exactly when the style's name was already visited |
| InspectStyles.DepthBounds | plugins/ms-office-suite/skills/word-styles/scripts/inspect_styles.py:172-186 | the depth is below the number of unvisited names; the visited set only grows, by the style's own name and by names of the universe; a revisit leaves it unchanged |
| InspectStyles.RootChainDepth | plugins/ms-office-suite/skills/word-styles/scripts/inspect_styles.py:172-186 | for a chain of base links with fresh, distinct names that ends at a style with no base, the depth is the number of links followed |
| InspectStyles.RevisitChainDepth | plugins/ms-office-suite/skills/word-styles/scripts/inspect_styles.py:177-186 | a chain that reaches a visited or repeated name after k links has depth k − 1 |
| InspectStyles.SelfBasedDepthZero | plugins/ms-office-suite/skills/word-styles/scripts/inspect_styles.py:177-186 | a style whose base has its own name has depth 0 with a fresh visited set |
| InspectStyles.StylesByName | plugins/ms-office-suite/skills/word-styles/scripts/inspect_styles.py:192 | the dictionary's keys are exactly the names of the styles |
| InspectStyles.StylesByNameLast | plugins/ms-office-suite/skills/word-styles/scripts/inspect_styles.py:192 | when styles share a name, the dictionary holds the last of them |
| InspectStyles.DepthIssue | plugins/ms-office-suite/skills/word-styles/scripts/inspect_styles.py:196-212 | a style has at most one depth issue; it has one exactly when it supports inheritance and its depth exceeds 3; that issue is a deep-inheritance issue carrying the depth |
| InspectStyles.CheckStyle | plugins/ms-office-suite/skills/word-styles/scripts/inspect_styles.py:194-220 | the checks of one loop iteration produce exactly that style's issues: none for a type without inheritance; otherwise the depth issue, then the orphan issue |
| InspectStyles.FindIssues | plugins/ms-office-suite/skills/word-styles/scripts/inspect_styles.py:189-222 | the loop's issue list equals the issue report of the styles, computed against the name-keyed dictionary of all of them |
| InspectStyles.StyleIssuesShape | plugins/ms-office-suite/skills/word-styles/scripts/inspect_styles.py:194-222 | a style gets at most two issues, all under its own name and none circular; when it gets two, the depth issue comes first |
| InspectStyles.IssuesForAppend | plugins/ms-office-suite/skills/word-styles/scripts/inspect_styles.py:194-222 | issues follow the input order: the report of a concatenation is the concatenation of the reports |
| InspectStyles.NoCircularIssue | plugins/ms-office-suite/skills/word-styles/scripts/inspect_styles.py:207-212 | no report ever contains a circular-inheritance issue |
| InspectStyles.DeepInStyleIssues | plugins/ms-office-suite/skills/word-styles/scripts/inspect_styles.py:200-206 | a style's issues include a deep-inheritance issue with depth d exactly when it supports inheritance and has depth d > 3 |
| InspectStyles.OrphanInStyleIssues | plugins/ms-office-suite/skills/word-styles/scripts/inspect_styles.py:215-220 | a style's issues include an orphaned-base issue for b exactly when it has a base named b and no dictionary key is b |
| InspectStyles.DeepIssueIff | plugins/ms-office-suite/skills/word-styles/scripts/inspect_styles.py:194-206 | the report holds a deep-inheritance issue (n, d) exactly when some style named n supports inheritance and has depth d > 3 |
| InspectStyles.OrphanIssueIff | plugins/ms-office-suite/skills/word-styles/scripts/inspect_styles.py:214-220 | the report holds an orphaned-base issue (n, b) exactly when b is not a key and some style named n has a base named b |
| InspectStyles.OrphanIssueInReport | plugins/ms-office-suite/skills/word-styles/scripts/inspect_styles.py:192-220 | in a document's report, an orphaned-base issue (n, b) appears exactly when no style of the document is named b and some style named n has a base named b, whatever its depth |
| InspectStyles.CollectStyles | plugins/ms-office-suite/skills/word-styles/scripts/inspect_styles.py:252-260 | the collection loop keeps exactly the styles that pass both filters, in document order |
| InspectStyles.ListedAppend | plugins/ms-office-suite/skills/word-styles/scripts/inspect_styles.py:253-260 | filtering keeps document order: the listing of a concatenation is the concatenation of the listings |
| InspectStyles.ListedCount | plugins/ms-office-suite/skills/word-styles/scripts/inspect_styles.py:255-258 | a style is listed as often as it occurs when it matches the type filter and its lower-cased name contains the lower-cased name filter, and otherwise never |
| InspectStyles.GroupByType | plugins/ms-office-suite/skills/word-styles/scripts/inspect_styles.py:281-286 | the grouping loop builds the type-keyed grouping of the listed styles |
| InspectStyles.GroupingSpec | plugins/ms-office-suite/skills/word-styles/scripts/inspect_styles.py:281-286 | the grouping's keys are the type names that occur; each group holds exactly the listed styles of its type, in listing order |
| InspectStyles.SortByPrioritySorts | plugins/ms-office-suite/skills/word-styles/scripts/inspect_styles.py:295 | the priority sort orders by key (a missing or zero priority counts as 99) and is a permutation of its input |
| InspectStyles.SortByPriorityStable | plugins/ms-office-suite/skills/word-styles/scripts/inspect_styles.py:295 | the priority sort is stable: styles with equal keys keep their relative order |
| InspectStyles.OfTypePartition | plugins/ms-office-suite/skills/word-styles/scripts/inspect_styles.py:281-290 | every listed style falls in exactly one of the paragraph, character, table, list and unknown groups |
| InspectStyles.PrintedGroupIsSortedType | plugins/ms-office-suite/skills/word-styles/scripts/inspect_styles.py:288-295 | the printed group of a type is the listed styles of that type sorted by priority |
| InspectStyles.TextListingGroups | plugins/ms-office-suite/skills/word-styles/scripts/inspect_styles.py:288-295 | the text output prints the paragraph, character, table and list groups in that order, each sorted by priority |
| InspectStyles.TextListingPermutes | plugins/ms-office-suite/skills/word-styles/scripts/inspect_styles.py:277-295 | the text output prints each listed style of a known type exactly once, and never prints an unknown-type style, although that style is counted |
| InspectStyles.InspectDocument | plugins/ms-office-suite/skills/word-styles/scripts/inspect_styles.py:252-295 | the report's styles are the filtered styles, its count is their number, its issues are computed over all styles regardless of filters, and the text order is the grouped, sorted listing |
| InspectStyles.NoOrphanIfBasesKnown | plugins/ms-office-suite/skills/word-styles/scripts/inspect_styles.py:215-220 | when every node a base can be has a name the dictionary knows, the report has no orphaned-base issue |
| InspectStyles.NoOrphanInOwnDocument | plugins/ms-office-suite/skills/word-styles/scripts/inspect_styles.py:192-220 | when the bases are styles of the document's own list, no orphaned-base issue is reported |
| Text.Lower | plugins/ms-office-suite/skills/word-styles/scripts/inspect_styles.py:257 | lower-casing keeps the length and maps each character on its own |
| Text.ContainsIff | plugins/ms-office-suite/skills/word-styles/scripts/inspect_styles.py:257 | the substring test holds exactly when the pattern occurs at some position |
| Text.Split | plugins/ms-office-suite/skills/word-styles/scripts/apply_style_template.py:162 | splitting gives at least one part, and no part contains the separator |
| Text.JoinSplit | plugins/ms-office-suite/skills/word-styles/scripts/apply_style_template.py:162 | joining the parts with the separator gives back the string |
| Text.Strip | plugins/ms-office-suite/skills/word-styles/scripts/apply_style_template.py:162 | the stripped string is a contiguous slice, with only whitespace cut off at each end, and neither of its ends is whitespace |
| ApplyStyleTemplate.IndexOfId | plugins/ms-office-suite/skills/word-styles/scripts/apply_style_template.py:81-85 | the result is the first position holding the id, or the length when there is none |
| ApplyStyleTemplate.LastIndexOfId | plugins/ms-office-suite/skills/word-styles/scripts/apply_style_template.py:38-45 | the result is the last position holding the id, or -1 when there is none |
| ApplyStyleTemplate.IndexOfIdIds | plugins/ms-office-suite/skills/word-styles/scripts/apply_style_template.py:82-87 | an id is found exactly when it occurs in the part |
| ApplyStyleTemplate.ParsedValid | plugins/ms-office-suite/skills/word-styles/scripts/apply_style_template.py:38-45 | the parsed dictionary has distinct keys, each listed once; it has no empty key; each entry's element carries its key as its id |
| ApplyStyleTemplate.ParsedKeys | plugins/ms-office-suite/skills/word-styles/scripts/apply_style_template.py:38-41 | the keys are exactly the non-empty ids that occur: elements with an empty id are dropped |
| ApplyStyleTemplate.ParsedOccur | plugins/ms-office-suite/skills/word-styles/scripts/apply_style_template.py:38-45 | every key occurs in the element list |
| ApplyStyleTemplate.ParsedOrder | plugins/ms-office-suite/skills/word-styles/scripts/apply_style_template.py:38-45 | keys are in order of first occurrence |
| ApplyStyleTemplate.ParsedLast | plugins/ms-office-suite/skills/word-styles/scripts/apply_style_template.py:38-55 | a duplicate id's entry holds the last occurrence's element, its name (the first `w:name` value, or else the id) and its type |
| ApplyStyleTemplate.ParseStyles | plugins/ms-office-suite/skills/word-styles/scripts/apply_style_template.py:33-47 | the parsing loop builds the parsed dictionary, which is well formed |
| ApplyStyleTemplate.MatchIndex | plugins/ms-office-suite/skills/word-styles/scripts/apply_style_template.py:61-63 | the result is the first position, from the given one on, whose style name matches case-insensitively, or the end |
| ApplyStyleTemplate.StyleIdByName | plugins/ms-office-suite/skills/word-styles/scripts/apply_style_template.py:58-64 | the lookup gives nothing exactly when no name matches case-insensitively; otherwise it gives the first matching id in dictionary order |
| ApplyStyleTemplate.GetStyleIdByName | plugins/ms-office-suite/skills/word-styles/scripts/apply_style_template.py:58-64 | the loop with early return computes that lookup |
| ApplyStyleTemplate.ResolveCounts | plugins/ms-office-suite/skills/word-styles/scripts/apply_style_template.py:164-169 | every requested name is either resolved to an id or warned about |
| ApplyStyleTemplate.ResolveAppend | plugins/ms-office-suite/skills/word-styles/scripts/apply_style_template.py:164-169 | names are resolved one at a time, in order, with duplicates kept: resolving a concatenation concatenates both the ids and the warnings |
| ApplyStyleTemplate.ResolveInTable | plugins/ms-office-suite/skills/word-styles/scripts/apply_style_template.py:165-167 | in a well-formed dictionary every resolved id is a non-empty key |
| ApplyStyleTemplate.SelectionInTable | plugins/ms-office-suite/skills/word-styles/scripts/apply_style_template.py:161-172 | every selected id, by name or all of them, is a non-empty key of the template dictionary, so reading its entry at line 186 cannot fail |
| ApplyStyleTemplate.SelectStyles | plugins/ms-office-suite/skills/word-styles/scripts/apply_style_template.py:161-172 | the selection step gives the names split on commas, trimmed and resolved in order, or every template id when no non-empty `--styles` is given |
| ApplyStyleTemplate.CopyIntoShape | plugins/ms-office-suite/skills/word-styles/scripts/apply_style_template.py:73-94 | with no root the copy fails and changes nothing; otherwise it replaces the first element with the id in place (keeping the length) when there is one, and appends otherwise; every other element and every position's id are unchanged |
| ApplyStyleTemplate.CopyIntoIds | plugins/ms-office-suite/skills/word-styles/scripts/apply_style_template.py:87-94 | a successful copy adds the copied id to the part's ids and removes none |
| ApplyStyleTemplate.CopyIntoFirst | plugins/ms-office-suite/skills/word-styles/scripts/apply_style_template.py:82-94 | after a copy, the first element with the copied id is the copied element, and every other id keeps its first position and element |
| ApplyStyleTemplate.StylesPart.CopyStyle | plugins/ms-office-suite/skills/word-styles/scripts/apply_style_template.py:67-94 | the method's result and the part's new elements are those of the copy function on the old elements |
| ApplyStyleTemplate.PlanCounts | plugins/ms-office-suite/skills/word-styles/scripts/apply_style_template.py:190-204 | the plan files each id exactly once, and without `--overwrite` it files nothing as replaced |
| ApplyStyleTemplate.DryRunIsPlan | plugins/ms-office-suite/skills/word-styles/scripts/apply_style_template.py:192-204 | a dry run reports the plan, never fails, and leaves the target part untouched |
| ApplyStyleTemplate.ErrorIff | plugins/ms-office-suite/skills/word-styles/scripts/apply_style_template.py:185-212 | the run fails exactly when it is not a dry run, the target has no `w:styles` root and some id is not skipped; the error is then the missing root |
| ApplyStyleTemplate.RunCounts | plugins/ms-office-suite/skills/word-styles/scripts/apply_style_template.py:183-212 | a run without error files every id in exactly one list, so the three counts sum to the selection's length; the skipped list is exactly the plan's |
| ApplyStyleTemplate.ErrorSticks | plugins/ms-office-suite/skills/word-styles/scripts/apply_style_template.py:185-212 | once a copy has raised, the remaining ids change nothing |
| ApplyStyleTemplate.RunLeavesOthers | plugins/ms-office-suite/skills/word-styles/scripts/apply_style_template.py:185-212 | a run keeps the id at every original position and only appends, one element per added style in a real run; an original element is unchanged unless its id was selected and not skipped |
| ApplyStyleTemplate.NoOverwriteKeepsTarget | plugins/ms-office-suite/skills/word-styles/scripts/apply_style_template.py:190-196 | without `--overwrite`, every element the target already had is left as it was |
| ApplyStyleTemplate.RealRunMatchesPlan | plugins/ms-office-suite/skills/word-styles/scripts/apply_style_template.py:190-212 | with distinct selected ids and a target with a root, a real run cannot fail and reports exactly the dry run's plan; afterwards the part's ids are the original ones plus the copied ones |
| ApplyStyleTemplate.CopiedInPlace | plugins/ms-office-suite/skills/word-styles/scripts/apply_style_template.py:205-212 | after a real run without error, each copied id is found and its first element is the template's element |
| ApplyStyleTemplate.DuplicateSelectionDiverges | plugins/ms-office-suite/skills/word-styles/scripts/apply_style_template.py:190-212 | with one id selected twice into a target without it, the real run reports one add and one replace and leaves a single element, while the plan reports two adds |
| ApplyStyleTemplate.ProcessStyles | plugins/ms-office-suite/skills/word-styles/scripts/apply_style_template.py:183-212 | the classification loop's report, the part's new elements and the error that stops the loop are those of the run function |
| ApplyStyleTemplate.UpdateEntries | plugins/ms-office-suite/skills/word-styles/scripts/apply_style_template.py:113-117 | the rewritten archive has the same filenames in the same order, and nothing is added; every entry named by the path gets the new content; every other entry gets the content read back by its filename, which is that of the last entry with that filename |
| ApplyStyleTemplate.UpdateEntriesDistinct | plugins/ms-office-suite/skills/word-styles/scripts/apply_style_template.py:113-117 | with distinct filenames, every entry not named by the path is copied as it was |
| ApplyStyleTemplate.UpdateEntriesNoMatch | plugins/ms-office-suite/skills/word-styles/scripts/apply_style_template.py:113-117 | an archive with distinct filenames and no entry named by the path is rewritten unchanged |
| ApplyStyleTemplate.RepeatedNameReadsLast | plugins/ms-office-suite/skills/word-styles/scripts/apply_style_template.py:117 | with a repeated filename, each entry of that name is written with the content of the last of them |
| ApplyStyleTemplate.UpdateFileInDocx | plugins/ms-office-suite/skills/word-styles/scripts/apply_style_template.py:103-122 | the entry-by-entry rewrite loop computes the archive update |
| ApplyStyleTemplate.ApplyTemplate | plugins/ms-office-suite/skills/word-styles/scripts/apply_style_template.py:157-229 | top-level flow: an empty selection ends with its warnings and no change; an error ends the run; the styles entry is rewritten only when the run was not a dry run and something was added or replaced |

## Left out

- Zip reading and writing are not modelled: temp files, `shutil.move`, `shutil.copy2`, temp-file cleanup, and the `--output` copy. The archive is a list of entries, and only the entry-list transform is modelled.
- The existence checks on the input paths and the exit when `word/styles.xml` is missing from either archive are file I/O, so they are not modelled.
- XML parsing with minidom/defusedxml, `importNode` and `toxml` are foreign libraries. An element is a record, and the rewritten entry's content is the list of elements (`StylesXml`), not serialised bytes.
- ApplyStyleTemplate.StylesPart.CopyStyle: only the direct `w:style` children of the root are modelled. The source's `getElementsByTagName` also finds nested `w:style` descendants, and on one of those `replaceChild` would raise.
- ApplyStyleTemplate.StylesPart.CopyStyle: the target is one `w:styles` root or none. With several roots the source appends to the first one, and that case is not modelled.
- The unused `target_styles` and `namespace_uri` parameters of `copy_style`, and the unused `styles_dict` parameter of `calculate_inheritance_depth`, have no counterpart in the model.
- The python-docx `Document`, its style objects, and its font and paragraph-format objects are a library the model cannot see. A style is a record, and `base_style` is an index into the universe of style nodes.
- A `None` style name is not modelled: names are strings.
- `format_length` uses floating point, so it is not modelled. `format_color`, `extract_font_props`, `extract_paragraph_format` and `extract_style_info` read attributes and print library enums; the listing keeps the style records instead of the dictionaries they build.
- Argument parsing, `print`, the message texts and the JSON serialisation are output formatting, which is not modelled. Warnings are kept only as the list of unresolved names, and the report as lists of names.
- Text.Lower: Python's `str.lower` lower-cases all of Unicode; the model lower-cases ASCII letters only.
- ApplyStyleTemplate.StyleName: a missing `w:val` attribute reads as the empty string in minidom. The model receives the attribute values already read, so it does not model a missing `w:val`.
