# src-code-mapper core, modelled in Dafny

src-code-mapper scans a source tree and draws it as a PlantUML diagram. This
project models its two core components:

- **The line pattern engine** (`mapsrc/parse/parse.py`, module `Parse`).
  A list of declarative rules is applied to one line of source text. Each rule
  is either a regular-expression search or a string test (`contains`,
  `startswith`, `endswith`). When a rule fires:
  - optional preprocessing regexes narrow the line one capture group at a time;
  - an extraction regex lists the names;
  - property patterns attach fixed or captured properties;
  - one record per name is appended to the list field of the scanned file
    that the rule names.
- **The PlantUML generator** (`mapsrc/pumlify/pumlify.py`, module `Pumlify`).
  - The directory grouping map becomes nested `namespace { class ... }` blocks.
    A subgroup whose name clashes with an entity's name is suffixed with `_`.
  - Each file's import records become de-duplicated `a <-- b` lines.
  - Relative import paths (`./`, `../`, `@`) are resolved to dot-joined
    qualified names.

Two supporting modules complete the project:

- `Text` models the Python string operations the code uses: `replace`,
  `split`, `join`, `rsplit(_, 1)[0]`, `count`, slicing, `in`, `startswith`
  and `endswith`.
- `CodeFiles` holds the scanned-file record. Its list fields are extended in
  place, so it is a class.

Where the source works by loops and in-place updates, the model does too. Each
such method is proved equal to a recursive specification function, and the
properties are proved about that function:

- `ApplyPatterns`, `ApplyPreprocessing` and `ExtractProperties`;
- `ResolveDuplicates`, `GeneratePumlInitialization`,
  `GeneratePumlConnections` (with its inner loop `AddItemConnections`) and
  `GeneratePuml`.

Python's `re` module is not modelled. A `Parse.RegexEngine` value, holding
`search` and `findall`, is passed to every operation of the pattern engine.
Every property of that module therefore holds whatever the regular
expressions do.

A failed preprocessing stage does not suppress extraction.
`apply_preprocessing` returns `''` (`mapsrc/parse/parse.py:47`), and
`re.findall` still runs on it (`mapsrc/parse/parse.py:38`).
`Parse.FailedPreprocessingExtractsFromEmpty` states the exact condition: such
a rule yields no records exactly when `findall` finds nothing in the empty
text.

## Model

| member | source | states |
|---|---|---|
| `Parse.IsStringPatternMatch` | mapsrc/parse/parse.py:22-30 | `contains` holds iff the query occurs at some index of the line; `startswith` iff the line's prefix of the query's length is the query; `endswith` iff some suffix of the line is the query |
| `Parse.ApplyPattern` | mapsrc/parse/parse.py:11-19 | a rule that fires (regex search succeeds, or the string test passes) yields exactly the records of its `on_match` block; a rule that does not fire yields no records |
| `Parse.MakeRecord` | mapsrc/parse/parse.py:39 | a record has key `param` plus exactly the property keys; each property keeps its value; `param` is the extracted name unless a property named `param` overrides it |
| `Parse.ProcessMatch` | mapsrc/parse/parse.py:33-39 | one record per name that `findall` extracts from the (possibly preprocessed) text, in order; every record carries the properties found in the ORIGINAL line |
| `Parse.ApplyPreprocessing` | mapsrc/parse/parse.py:42-50 | the loop with early exit computes the chain of stages: each stage keeps group 1 of its search, and a failed search gives `''` |
| `Parse.PreprocessIsStages` | mapsrc/parse/parse.py:42-50 | with no stages the text is unchanged; otherwise the result is `''` when some stage failed, and otherwise the text the chain of stages produces |
| `Parse.StagesAppend` | mapsrc/parse/parse.py:44-48 | running stages `a + b` runs `b` on the output of `a`, and fails when either part fails |
| `Parse.FailedStageGivesEmpty` | mapsrc/parse/parse.py:46-47 | once a stage fails, no later stage can restore text: the result is `''` |
| `Parse.FailedPreprocessingExtractsFromEmpty` | mapsrc/parse/parse.py:36-38 | after a failed preprocessing stage the rule yields no records exactly when `findall` on `''` is empty (the extraction still runs) |
| `Parse.ExtractProperties` | mapsrc/parse/parse.py:53-66 | the loop with its early return computes the properties function `Properties` |
| `Parse.PropertiesFromSnoc` | mapsrc/parse/parse.py:62-64 | appending a regex pattern to a list without fixed values applies that pattern last |
| `Parse.LaterPatternOverwrites` | mapsrc/parse/parse.py:62-64 | a later regex pattern adds nothing when its search fails; when it succeeds it sets its property to group 1, overwriting an earlier value of the same name |
| `Parse.FixedValueStops` | mapsrc/parse/parse.py:56-60 | the first pattern with a fixed value sets that value and ends the loop; patterns after it are ignored |
| `Parse.PropertiesNamed` | mapsrc/parse/parse.py:53-66 | every property in the result is named by one of the patterns |
| `Parse.ApplyPatterns` | mapsrc/parse/parse.py:4-8 | every field ends as its old contents followed by the records of the rules that name it, in rule order |
| `Parse.GatheredUntargeted` | mapsrc/parse/parse.py:6-8 | a field that no rule names receives nothing |
| `Parse.GatheredFromFiringRules` | mapsrc/parse/parse.py:4-8 | every record a field receives comes from a rule that names the field and fires on the line |
| `CodeFiles.CodeFile.Extend` | mapsrc/parse/parse.py:8 | the named list field gets the items appended; every other field is unchanged |
| `Text.Replace` | mapsrc/pumlify/pumlify.py:46 | `replace` of one character keeps the length and changes exactly the positions holding that character |
| `Text.Split` | mapsrc/pumlify/pumlify.py:95 | `split` gives at least one piece and no piece contains the separator |
| `Text.JoinSplit` | mapsrc/pumlify/pumlify.py:111-113 | joining the pieces of a split with the same separator restores the text |
| `Text.SplitJoin` | mapsrc/pumlify/pumlify.py:112-114 | splitting a join of separator-free pieces gives the pieces back |
| `Text.JoinSplitIsReplace` | mapsrc/pumlify/pumlify.py:70 | `'.'.join(s.split('/'))` equals replacing every `/` with `.` |
| `Text.RSplitHeadCuts` | mapsrc/pumlify/pumlify.py:33 | `rsplit(c, 1)[0]` keeps a text without `c` whole; otherwise it is the prefix ending right before a `c` that has no `c` after it |
| `Text.FirstPieceIsPrefix` | mapsrc/pumlify/pumlify.py:106 | `split('/', 1)[0]` is a slash-free prefix that ends at the first `/` (or is the whole text) |
| `Text.LastPieceIsSuffix` | mapsrc/pumlify/pumlify.py:116 | `split('/')[-1]` is a slash-free suffix that starts right after the last `/`; a text without `/` is its own last piece |
| `Text.Count` | mapsrc/pumlify/pumlify.py:109 | `count` of the empty pattern is the length plus one; the occurrences of a non-empty pattern fit side by side in the text (count × pattern length ≤ text length); for the `../` marker the count is exactly its number of occurrences (`CountParentMarkers`) |
| `Text.CountParentMarkers` | mapsrc/pumlify/pumlify.py:109 | `count('../')` equals the number of indices at which `../` occurs (the independent `Occurrences`): the marker cannot overlap itself, so no occurrence is missed |
| `Text.CountZeroIff` | mapsrc/pumlify/pumlify.py:109-111 | a non-empty pattern is counted at least once exactly when it occurs in the text |
| `Pumlify.PumlifyText` | mapsrc/pumlify/pumlify.py:45-46 | sanitising keeps the length, turns every `-` into `_`, leaves every other character, and leaves no `-` |
| `Pumlify.PumlifyIdempotent` | mapsrc/pumlify/pumlify.py:45-46 | sanitising twice is sanitising once |
| `Pumlify.DeduplicatedName` | mapsrc/pumlify/pumlify.py:49-55 | the label is the subgroup name plus `_` iff some entity's name without its extension equals the subgroup name; otherwise the name is unchanged |
| `Pumlify.ResolveDuplicates` | mapsrc/pumlify/pumlify.py:49-55 | the search that stops at the first clash returns that label |
| `Pumlify.AnyStartsWith` | mapsrc/pumlify/pumlify.py:85 | true iff the path starts with one of the prefixes |
| `Pumlify.IsConnectionToBeInDrawing` | mapsrc/pumlify/pumlify.py:84-87 | an import is drawn iff it starts with one of the given prefixes and either non-code imports are included or its file name has no extension (every `.` of the path has a `/` after it) |
| `Pumlify.LastPieceHasNoDot` | mapsrc/pumlify/pumlify.py:86 | the last path piece has no `.` iff every `.` of the path is followed somewhere by a `/` |
| `Pumlify.DrawnImports` | mapsrc/pumlify/pumlify.py:84-87 | with the generator's markers, an import is drawn iff it starts with `./` or `..` and either its last path piece has no `.` or non-code imports are included; `@` and bare imports are never drawn |
| `Pumlify.ResolveCurrentDir` | mapsrc/pumlify/pumlify.py:97-101 | `./rest` resolves to the current directory dot-joined, then `.`, then `rest` with every `/` read as `.` |
| `Pumlify.ResolveRoot` | mapsrc/pumlify/pumlify.py:103-107 | `@rest` resolves to the first piece of the current directory, then `.`, then `rest` dot-joined; that first piece is a slash-free prefix of the directory |
| `Pumlify.ParentDirPieces` | mapsrc/pumlify/pumlify.py:111-113 | removing the last `n` pieces of a directory (for `n` less than its depth) keeps its first depth − `n` pieces |
| `Pumlify.ParentDirDropsOne` | mapsrc/pumlify/pumlify.py:113 | each further level up removes exactly the last remaining piece |
| `Pumlify.ResolveParent` | mapsrc/pumlify/pumlify.py:109-114 | with `n` occurrences of `../` and 0 < `n` < depth, the result is the directory `n` levels up, dot-joined, then `.`, then the path with its first `3n` characters dropped, dot-joined |
| `Pumlify.ResolveFallback` | mapsrc/pumlify/pumlify.py:116 | with no `../`, or too many for the directory, the result is the last path piece: a slash-free suffix of the path, and the whole path when it has no `/` |
| `Pumlify.ResolveConnectionToPuml` | mapsrc/pumlify/pumlify.py:91-116 | under every convention the resolved name contains no `/`; its value under each convention is stated by `ResolveCurrentDir`, `ResolveRoot`, `ResolveParent` and `ResolveFallback` |
| `Pumlify.GeneratePumlInitialization` | mapsrc/pumlify/pumlify.py:23-42 | the two loops and the recursive call produce the namespace block of the group (`Namespace`) |
| `Pumlify.NamespaceFrame` | mapsrc/pumlify/pumlify.py:24-29 | a block is empty iff its key is absent or has neither subgroups nor entities; otherwise it opens with `\n`, the indented `namespace <name> {` line, and closes with the indented `}` |
| `Pumlify.NamespaceClassesFirst` | mapsrc/pumlify/pumlify.py:28-34 | a non-empty block starts with its header followed directly by the class lines of all its entities |
| `Pumlify.ClassLinesAppend` | mapsrc/pumlify/pumlify.py:31-34 | the class lines of two lists of entities are those of the first list, then those of the second |
| `Pumlify.ClassLinesInOrder` | mapsrc/pumlify/pumlify.py:31-34 | there is one `class` line per entity, in entity order, naming the entity without its extension |
| `Pumlify.NestedHoldsChild` | mapsrc/pumlify/pumlify.py:36-39 | the nested part contains the block of every subgroup |
| `Pumlify.NamespaceHoldsChild` | mapsrc/pumlify/pumlify.py:36-39 | a block contains the block of each subgroup one level deeper; that block is looked up under `key/name` built from the ORIGINAL subgroup name and labelled with the de-duplicated name |
| `Pumlify.GeneratePumlConnections` | mapsrc/pumlify/pumlify.py:58-81 | the result is `\n` followed by the candidate lines of all files, in order, each appended only when the text does not already contain it (`AddNew`) |
| `Pumlify.AddItemConnections` | mapsrc/pumlify/pumlify.py:72-79 | for one file: one `source <-- target` line per drawn record, appended only when not already present |
| `Pumlify.AddNewAppend` | mapsrc/pumlify/pumlify.py:66-79 | de-duplicating two runs of lines is de-duplicating the first, then the second against that result |
| `Pumlify.AddNewIsKept` | mapsrc/pumlify/pumlify.py:78-79 | the result is the starting text followed by the lines that were kept, in order |
| `Pumlify.AddNewContainsEvery` | mapsrc/pumlify/pumlify.py:78-79 | every candidate line ends up in the result |
| `Pumlify.KeptOnce` | mapsrc/pumlify/pumlify.py:78-79 | every kept line is a candidate, none was already in the starting text, and no line is kept twice |
| `Pumlify.GeneratePuml` | mapsrc/pumlify/pumlify.py:1-20 | the diagram is `@startuml\n`, then (when both maps are non-empty) the root namespace block and each directory's de-duplicated lines in directory order, then `@enduml` |
| `Pumlify.PumlWrapper` | mapsrc/pumlify/pumlify.py:2-19 | the diagram always starts with `@startuml\n` and ends with `@enduml`; it is the empty diagram iff one of the two maps is empty |

## Left out

- Regular expressions: `re.search` and `re.findall` are the parameters of a `RegexEngine`. Their semantics are not modelled.
- `re.findall` with several capture groups returns tuples. The model takes its result to be a list of strings.
- `match.group(1)` on a pattern without a group raises `IndexError`; on a group that did not take part it gives `None`. Neither is modelled: group 1 is always a string.
- A rule `type` other than `regex`, `contains`, `startswith` and `endswith` goes through `getattr` to an arbitrary `str` method. Only those four types are modelled.
- A record without the `connect_path` key raises `KeyError` in `generate_puml_connections`, which `generate_puml` calls only when both source maps are non-empty. The model makes the key's presence a precondition there only (`HasPaths`, and `AllHavePaths` under a non-empty grouping map); with an empty map the empty diagram is proved whatever the records hold.
- Missing configuration keys raise `KeyError` (`add_to`, `other_property_patterns`, `extraction_regex`, `starting_point`, the mapping-scheme keys). An unknown field name raises `ValueError` in `item._fields.index` (`mapsrc/parse/parse.py:8`, `mapsrc/pumlify/pumlify.py:67-69`). Neither failure is modelled: the datatypes always carry every key, and the `ListField`/`TextField` enumerations name only existing fields.
- The mapping scheme's indirection through `data_list_to_map` and `data_grouping_map` is not modelled: `SrcData` holds the two selected entries directly.
- Dictionary iteration order of the files-by-directory map is modelled as a sequence of (directory, files) pairs.
- `include_non_code_imports` missing from the scheme (`None`) is modelled as `false`, which it behaves as.
- `Pumlify.GeneratePuml`: states its result against the file records as they were at entry (`old`). Nothing between entry and exit modifies them.
- Concrete resolution examples (e.g. `../b` from `pkg/a/c` gives `pkg.a.b`) are not stated as lemmas: evaluating the string functions on literal text is beyond the verifier's resource budget. The branch lemmas `ResolveCurrentDir`, `ResolveRoot`, `ResolveParent` and `ResolveFallback` state every such case in general.
- `Pumlify.ResolveParent`: follows the code, which counts `../` anywhere in the path but strips `3n` characters from its front. The lemma states that result; it does not claim the stripped prefix was the `../` markers.
- `Pumlify.AddNew`: de-duplication is a substring test on the whole text so far, as in the code, not line equality. `KeptOnce` states what this guarantees.
- The directory scanner, the command-line entry point (`mapsrc/__main__.py`, `mapsrc/mapsrc.py`), `setup.py` and all file reading and writing are not part of this model.
