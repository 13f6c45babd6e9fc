/**
 * PlantUML synthesis: the nested `namespace { class ... }` blocks of the
 * scanned directory tree, the `a <-- b` dependency lines between files, and
 * the resolution of a relative import path to a dot-joined qualified name.
 */
module Pumlify {
  import opened Text
  import opened CodeFiles

  // ------------------------------------------------------------ names

  /**
   * `pumlify_text`: keeps the length, turns every hyphen into an underscore
   * and leaves every other character, so no hyphen remains.
   */
  function PumlifyText(txt: string): (r: string)
    ensures |r| == |txt|
    ensures forall i :: 0 <= i < |txt| ==> r[i] == if txt[i] == '-' then '_' else txt[i]
    ensures '-' !in r
  {
    Replace(txt, '-', '_')
  }

  /** Sanitising twice is sanitising once. */
  lemma PumlifyIdempotent(txt: string)
    ensures PumlifyText(PumlifyText(txt)) == PumlifyText(txt)
  {
  }

  /**
   * The label `resolve_duplicates` gives a subgroup: a subgroup whose name
   * equals an entity's name without its extension gets a trailing underscore.
   */
  function DeduplicatedName(subgroupName: string, entities: seq<string>): (r: string)
    ensures (exists i :: 0 <= i < |entities| && RSplitHead(entities[i], '.') == subgroupName) ==> r == subgroupName + "_"
    ensures (forall i :: 0 <= i < |entities| ==> RSplitHead(entities[i], '.') != subgroupName) ==> r == subgroupName
    decreases |entities|
  {
    if entities == [] then subgroupName
    else if subgroupName == RSplitHead(entities[0], '.') then subgroupName + "_"
    else DeduplicatedName(subgroupName, entities[1..])
  }

  /** `resolve_duplicates`, as the source writes it: a search that stops at the first clash. */
  method ResolveDuplicates(subgroupName: string, entities: seq<string>) returns (r: string)
    ensures r == DeduplicatedName(subgroupName, entities)
  {
    for i := 0 to |entities|
      invariant DeduplicatedName(subgroupName, entities[i..]) == DeduplicatedName(subgroupName, entities)
    {
      if subgroupName == RSplitHead(entities[i], '.') {
        return subgroupName + "_";
      }
      assert entities[i..][1..] == entities[i + 1..];
    }
    return subgroupName;
  }

  // ------------------------------------------------------------ which imports are drawn

  /** The `starting_chars` the diagram generator passes: current- and parent-relative markers. */
  const StartingChars: seq<string> := ["./", ".."]

  /** `any([path.startswith(s) for s in prefixes])`. */
  function AnyStartsWith(path: string, prefixes: seq<string>): (r: bool)
    ensures r <==> exists i :: 0 <= i < |prefixes| && StartsWith(path, prefixes[i])
    decreases |prefixes|
  {
    if prefixes == [] then false
    else StartsWith(path, prefixes[0]) || AnyStartsWith(path, prefixes[1..])
  }

  /**
   * `is_connection_to_be_in_drawing`: the path starts with one of the
   * prefixes, and either non-code imports are included or the file name has
   * no extension (every `.` of the path has a `/` somewhere after it).
   */
  function IsConnectionToBeInDrawing(path: string, startingChars: seq<string>, includeNonCodeImports: bool): (r: bool)
    ensures r <==>
      ((exists i :: 0 <= i < |startingChars| && StartsWith(path, startingChars[i])) &&
       (includeNonCodeImports || forall j :: 0 <= j < |path| && path[j] == '.' ==> exists k :: j < k < |path| && path[k] == '/'))
  {
    LastPieceHasNoDot(path);
    if AnyStartsWith(path, startingChars) then '.' !in LastPiece(path, '/') || includeNonCodeImports
    else false
  }

  /** The last path piece has no `.` exactly when every `.` of the path is followed by a `/`. */
  lemma LastPieceHasNoDot(path: string)
    ensures '.' !in LastPiece(path, '/') <==>
      forall j :: 0 <= j < |path| && path[j] == '.' ==> exists k :: j < k < |path| && path[k] == '/'
  {
    LastPieceIsSuffix(path, '/');
    if '.' !in LastPiece(path, '/') {
      DotsBeforeLastPiece(path);
    } else {
      DotInLastPiece(path);
    }
  }

  /** Without a `.` in the last piece, every `.` lies before the last `/`. */
  lemma DotsBeforeLastPiece(path: string)
    requires '.' !in LastPiece(path, '/')
    ensures forall j :: 0 <= j < |path| && path[j] == '.' ==> exists k :: j < k < |path| && path[k] == '/'
  {
    LastPieceIsSuffix(path, '/');
    var last := LastPiece(path, '/');
    var m := |path| - |last|;
    forall i | m <= i < |path|
      ensures path[i] != '.'
    {
      assert path[i] == last[i - m];
    }
    forall j | 0 <= j < |path| && path[j] == '.'
      ensures exists k :: j < k < |path| && path[k] == '/'
    {
      assert j < m;
      assert path[m - 1] == '/';
    }
  }

  /** A `.` in the last piece has no `/` after it. */
  lemma DotInLastPiece(path: string)
    requires '.' in LastPiece(path, '/')
    ensures exists j :: 0 <= j < |path| && path[j] == '.' && forall k :: j < k < |path| ==> path[k] != '/'
  {
    LastPieceIsSuffix(path, '/');
    var last := LastPiece(path, '/');
    var m := |path| - |last|;
    var t :| 0 <= t < |last| && last[t] == '.';
    assert path[m + t] == '.';
    forall k | m + t < k < |path|
      ensures path[k] != '/'
    {
      assert path[k] == last[k - m];
    }
  }

  /**
   * With the generator's markers, an import is drawn exactly when it starts with
   * `./` or `..` and its last path piece has no `.` (or non-code imports are
   * included): root-relative (`@...`) and bare imports are never drawn.
   */
  lemma DrawnImports(path: string, includeNonCodeImports: bool)
    ensures IsConnectionToBeInDrawing(path, StartingChars, includeNonCodeImports) <==>
      (StartsWith(path, "./") || StartsWith(path, "..")) &&
      ('.' !in LastPiece(path, '/') || includeNonCodeImports)
  {
    LastPieceHasNoDot(path);
    assert StartingChars[0] == "./" && StartingChars[1] == "..";
  }

  // ------------------------------------------------------------ resolving an import path

  /** `curr_dir` with its last `n` pieces removed, one `rsplit('/', 1)[0]` at a time. */
  function ParentDir(dir: string, n: nat): string
    decreases n
  {
    if n == 0 then dir else RSplitHead(ParentDir(dir, n - 1), '/')
  }

  /**
   * `resolve_connection_to_puml`: whatever the convention, the resolved name
   * contains no `/`. The value under each convention is stated by
   * `ResolveCurrentDir`, `ResolveRoot`, `ResolveParent` and `ResolveFallback`.
   */
  function ResolveConnectionToPuml(path: string, currDir: string): (r: string)
    ensures '/' !in r
  {
    var currDirFolders := Split(currDir, '/');
    if StartsWith(path, "./") then
      var merged := currDirFolders + Split(path[2..], '/');
      JoinAvoids('.', merged, '/');
      Join('.', merged)
    else if StartsWith(path, "@") then
      var folders := Split(path[1..], '/');
      FirstPieceIsPrefix(currDir, '/');
      JoinAvoids('.', folders, '/');
      FirstPiece(currDir, '/') + "." + Join('.', folders)
    else
      var toParentCount := Count(path, "../");
      if |currDirFolders| > toParentCount > 0 then
        var merged := currDirFolders[..|currDirFolders| - toParentCount] + Split(Drop(path, 3 * toParentCount), '/');
        JoinAvoids('.', merged, '/');
        Join('.', merged)
      else
        LastPiece(path, '/')
  }

  /** Removing n < depth pieces keeps the first depth - n pieces. */
  lemma {:induction false} ParentDirPieces(dir: string, n: nat)
    requires n < |Split(dir, '/')|
    ensures ParentDir(dir, n) == Join('/', Split(dir, '/')[..|Split(dir, '/')| - n])
    decreases n
  {
    var pieces := Split(dir, '/');
    if n == 0 {
      JoinSplit(dir, '/');
      assert pieces[..|pieces|] == pieces;
    } else {
      var upper := pieces[..|pieces| - (n - 1)];
      ParentDirPieces(dir, n - 1);
      assert |upper| >= 2;
      assert forall i :: 0 <= i < |upper| ==> '/' !in upper[i] by {
        forall i | 0 <= i < |upper| ensures '/' !in upper[i] {
          assert upper[i] == pieces[i];
        }
      }
      ParentDirDropsOne(dir, n, upper);
      assert upper[..|upper| - 1] == pieces[..|pieces| - n];
    }
  }

  /** Each further level removes the last remaining piece. */
  lemma ParentDirDropsOne(dir: string, n: nat, upper: seq<string>)
    requires 0 < n && |upper| >= 2 && ParentDir(dir, n - 1) == Join('/', upper)
    requires forall i :: 0 <= i < |upper| ==> '/' !in upper[i]
    ensures ParentDir(dir, n) == Join('/', upper[..|upper| - 1])
  {
    RSplitHeadOfJoin('/', upper);
  }

  /** `./rest` from `a/b` resolves to `a.b.rest`, with every `/` of `rest` read as `.`. */
  lemma ResolveCurrentDir(path: string, currDir: string)
    requires StartsWith(path, "./")
    ensures ResolveConnectionToPuml(path, currDir) == Replace(currDir, '/', '.') + "." + Replace(path[2..], '/', '.')
  {
    JoinAppend('.', Split(currDir, '/'), Split(path[2..], '/'));
    JoinSplitIsReplace(currDir, '/', '.');
    JoinSplitIsReplace(path[2..], '/', '.');
  }

  /**
   * `@rest` (not starting with `./`) re-anchors under the first piece of the
   * current directory, the text before its first `/`.
   */
  lemma ResolveRoot(path: string, currDir: string)
    requires !StartsWith(path, "./") && StartsWith(path, "@")
    ensures ResolveConnectionToPuml(path, currDir) == FirstPiece(currDir, '/') + "." + Replace(path[1..], '/', '.')
    ensures FirstPiece(currDir, '/') <= currDir && '/' !in FirstPiece(currDir, '/')
  {
    JoinSplitIsReplace(path[1..], '/', '.');
    FirstPieceIsPrefix(currDir, '/');
  }

  /**
   * With n occurrences of `../` and 0 < n < depth of the current directory,
   * the path resolves to the directory n levels up followed by the path with
   * its first 3n characters dropped.
   */
  lemma ResolveParent(path: string, currDir: string)
    requires !StartsWith(path, "./") && !StartsWith(path, "@")
    requires 0 < Count(path, "../") < |Split(currDir, '/')|
    ensures ResolveConnectionToPuml(path, currDir) ==
      Replace(ParentDir(currDir, Count(path, "../")), '/', '.') + "." + Replace(Drop(path, 3 * Count(path, "../")), '/', '.')
  {
    var n := Count(path, "../");
    var pieces := Split(currDir, '/');
    var kept := pieces[..|pieces| - n];
    var rest := Drop(path, 3 * n);
    assert ResolveConnectionToPuml(path, currDir) == Join('.', kept + Split(rest, '/'));
    JoinAppend('.', kept, Split(rest, '/'));
    ParentDirPieces(currDir, n);
    assert forall i :: 0 <= i < |kept| ==> '/' !in kept[i] by {
      forall i | 0 <= i < |kept| ensures '/' !in kept[i] {
        assert kept[i] == pieces[i];
      }
    }
    SplitJoin(kept, '/');
    JoinSplitIsReplace(Join('/', kept), '/', '.');
    assert Replace(ParentDir(currDir, n), '/', '.') == Join('.', kept);
    JoinSplitIsReplace(rest, '/', '.');
  }

  /** Anything else (no `../`, or too many for the directory) degrades to the last path piece. */
  lemma ResolveFallback(path: string, currDir: string)
    requires !StartsWith(path, "./") && !StartsWith(path, "@")
    requires Count(path, "../") == 0 || Count(path, "../") >= |Split(currDir, '/')|
    ensures ResolveConnectionToPuml(path, currDir) == LastPiece(path, '/')
    ensures '/' !in LastPiece(path, '/')
    ensures EndsWith(path, LastPiece(path, '/'))
    ensures '/' !in path ==> ResolveConnectionToPuml(path, currDir) == path
  {
    LastPieceIsSuffix(path, '/');
  }

  // ------------------------------------------------------------ namespace blocks

  /** One entry of the grouping map: `(key, subgroups, entities)`. */
  datatype Group = Group(key: string, subgroups: seq<string>, entities: seq<string>)

  /** `grouping_map.get(key, (key, [], []))`. */
  function Lookup(groups: map<string, Group>, key: string): Group
  {
    if key in groups then groups[key] else Group(key, [], [])
  }

  /** The keys at least as long as `key`: they bound how deep the recursion can go. */
  ghost function KeysFrom(groups: map<string, Group>, key: string): set<string>
  {
    set k | k in groups && |k| >= |key|
  }

  /** A longer key leaves fewer keys to visit. */
  lemma LongerKeyFewerKeys(groups: map<string, Group>, key: string, sub: string)
    requires key in groups && |sub| > |key|
    ensures KeysFrom(groups, sub) < KeysFrom(groups, key)
  {
    assert key in KeysFrom(groups, key) - KeysFrom(groups, sub);
  }

  /** The `class` line of one entity: its name without extension, sanitised. */
  function ClassLine(entity: string, indent: string): string
  {
    indent + "class " + PumlifyText(RSplitHead(entity, '.')) + "\n"
  }

  /** The `class` lines of a list of entities, in order. */
  function ClassLines(entities: seq<string>, indent: string): string
    decreases |entities|
  {
    if entities == [] then ""
    else ClassLines(entities[..|entities| - 1], indent) + ClassLine(entities[|entities| - 1], indent)
  }

  /** `generate_puml_initialization(group_name, group_key, grouping_map, indent)`. */
  function Namespace(name: string, key: string, groups: map<string, Group>, indent: string): string
    decreases KeysFrom(groups, key), 1
  {
    var g := Lookup(groups, key);
    if g.subgroups == [] && g.entities == [] then ""
    else
      var inner := indent + "    ";
      Header(name, indent) + ClassLines(g.entities, inner) + Nested(key, g.subgroups, g.entities, groups, inner) + Footer(indent)
  }

  /** The opening line of a block. */
  function Header(name: string, indent: string): string
  {
    "\n" + (indent + "namespace " + PumlifyText(name) + " {\n")
  }

  /** The closing line of a block. */
  function Footer(indent: string): string
  {
    indent + "}\n"
  }

  /**
   * A block is empty exactly when its key is absent or has neither subgroups
   * nor entities; otherwise it opens with its header and closes with its brace.
   */
  lemma NamespaceFrame(name: string, key: string, groups: map<string, Group>, indent: string)
    ensures Namespace(name, key, groups, indent) == "" <==>
      key !in groups || (groups[key].subgroups == [] && groups[key].entities == [])
    ensures Namespace(name, key, groups, indent) != "" ==>
      StartsWith(Namespace(name, key, groups, indent), Header(name, indent)) &&
      EndsWith(Namespace(name, key, groups, indent), Footer(indent))
  {
    var r := Namespace(name, key, groups, indent);
    var g := Lookup(groups, key);
    if !(g.subgroups == [] && g.entities == []) {
      var inner := indent + "    ";
      var h, f := Header(name, indent), Footer(indent);
      var classes := ClassLines(g.entities, inner);
      var nested := Nested(key, g.subgroups, g.entities, groups, inner);
      ConcatAssoc(h, classes, nested);
      ConcatAssoc(h, classes + nested, f);
      assert r == h + (classes + nested + f);
      assert |r| >= |h| > 0;
      assert r[..|h|] == h;
      assert r[|r| - |f|..] == f;
    }
  }

  /** The blocks of the subgroups of `key`, each under its original key and its de-duplicated label. */
  function Nested(key: string, subgroups: seq<string>, entities: seq<string>, groups: map<string, Group>, indent: string): string
    requires key in groups
    decreases KeysFrom(groups, key), 0, |subgroups|
  {
    if subgroups == [] then ""
    else
      var sub := subgroups[|subgroups| - 1];
      LongerKeyFewerKeys(groups, key, key + "/" + sub);
      Nested(key, subgroups[..|subgroups| - 1], entities, groups, indent)
        + Namespace(DeduplicatedName(sub, entities), key + "/" + sub, groups, indent)
  }

  /** `generate_puml_initialization`, as the source writes it: two loops and a recursive call. */
  method GeneratePumlInitialization(groupName: string, groupKey: string, groupingMap: map<string, Group>, indent: string)
    returns (pumlStr: string)
    ensures pumlStr == Namespace(groupName, groupKey, groupingMap, indent)
    decreases KeysFrom(groupingMap, groupKey)
  {
    var g := Lookup(groupingMap, groupKey);
    if g.subgroups == [] && g.entities == [] {
      return "";
    }
    assert groupKey in groupingMap;
    pumlStr := "\n";
    pumlStr := pumlStr + (indent + "namespace " + PumlifyText(groupName) + " {\n");
    var newIndent := indent + "    ";
    for i := 0 to |g.entities|
      invariant pumlStr == Header(groupName, indent) + ClassLines(g.entities[..i], newIndent)
    {
      ClassLinesStep(g.entities, newIndent, i);
      var entityName := PumlifyText(RSplitHead(g.entities[i], '.'));
      ConcatAssoc(Header(groupName, indent), ClassLines(g.entities[..i], newIndent), ClassLine(g.entities[i], newIndent));
      pumlStr := pumlStr + (newIndent + "class " + entityName + "\n");
    }
    assert g.entities[..|g.entities|] == g.entities;
    ghost var classes := pumlStr;
    for j := 0 to |g.subgroups|
      invariant pumlStr == classes + Nested(groupKey, g.subgroups[..j], g.entities, groupingMap, newIndent)
    {
      var subgroupName := g.subgroups[j];
      var subgroupKey := groupKey + "/" + subgroupName;
      var resolvedName := ResolveDuplicates(subgroupName, g.entities);
      LongerKeyFewerKeys(groupingMap, groupKey, subgroupKey);
      var sub := GeneratePumlInitialization(resolvedName, subgroupKey, groupingMap, newIndent);
      NestedStep(groupKey, g.subgroups, g.entities, groupingMap, newIndent, j);
      ConcatAssoc(classes, Nested(groupKey, g.subgroups[..j], g.entities, groupingMap, newIndent), sub);
      pumlStr := pumlStr + sub;
    }
    assert g.subgroups[..|g.subgroups|] == g.subgroups;
    NamespaceBlock(groupName, groupKey, groupingMap, indent);
    pumlStr := pumlStr + (indent + "}\n");
  }

  /** One more entity adds its class line at the end. */
  lemma ClassLinesStep(entities: seq<string>, indent: string, i: nat)
    requires i < |entities|
    ensures ClassLines(entities[..i + 1], indent) == ClassLines(entities[..i], indent) + ClassLine(entities[i], indent)
  {
    assert entities[..i + 1][..i] == entities[..i];
  }

  /** One more subgroup adds its block at the end. */
  lemma NestedStep(key: string, subgroups: seq<string>, entities: seq<string>, groups: map<string, Group>, indent: string, j: nat)
    requires key in groups && j < |subgroups|
    ensures Nested(key, subgroups[..j + 1], entities, groups, indent) ==
      Nested(key, subgroups[..j], entities, groups, indent)
        + Namespace(DeduplicatedName(subgroups[j], entities), key + "/" + subgroups[j], groups, indent)
  {
    assert subgroups[..j + 1][..j] == subgroups[..j];
  }

  /** A block with subgroups or entities is its header, class lines, nested blocks and closing brace. */
  lemma NamespaceBlock(name: string, key: string, groups: map<string, Group>, indent: string)
    requires key in groups && (groups[key].subgroups != [] || groups[key].entities != [])
    ensures Namespace(name, key, groups, indent) == Header(name, indent)
      + ClassLines(groups[key].entities, indent + "    ")
      + Nested(key, groups[key].subgroups, groups[key].entities, groups, indent + "    ") + Footer(indent)
  {
  }

  /** The class lines of two lists are the lines of the first, then those of the second. */
  lemma {:induction false} ClassLinesAppend(a: seq<string>, b: seq<string>, indent: string)
    ensures ClassLines(a + b, indent) == ClassLines(a, indent) + ClassLines(b, indent)
    decreases |b|
  {
    if b == [] {
      assert a + b == a;
    } else {
      var n := |b|;
      assert (a + b)[..|a + b| - 1] == a + b[..n - 1];
      ClassLinesAppend(a, b[..n - 1], indent);
      ConcatAssoc(ClassLines(a, indent), ClassLines(b[..n - 1], indent), ClassLine(b[n - 1], indent));
    }
  }

  /** One `class` line per entity, in entity order. */
  lemma ClassLinesInOrder(entities: seq<string>, i: nat, indent: string)
    requires i < |entities|
    ensures ClassLines(entities, indent) ==
      ClassLines(entities[..i], indent) + ClassLine(entities[i], indent) + ClassLines(entities[i + 1..], indent)
  {
    var e := entities[i];
    assert entities == entities[..i] + [e] + entities[i + 1..];
    ClassLinesAppend(entities[..i] + [e], entities[i + 1..], indent);
    ClassLinesAppend(entities[..i], [e], indent);
    assert [e][..0] == [];
    assert ClassLines([e], indent) == ClassLine(e, indent);
  }

  /** A non-empty block opens with its header followed directly by the class lines of its entities. */
  lemma NamespaceClassesFirst(name: string, key: string, groups: map<string, Group>, indent: string)
    requires key in groups && (groups[key].subgroups != [] || groups[key].entities != [])
    ensures StartsWith(Namespace(name, key, groups, indent),
      Header(name, indent) + ClassLines(groups[key].entities, indent + "    "))
  {
    var g := groups[key];
    var inner := indent + "    ";
    var opening := Header(name, indent) + ClassLines(g.entities, inner);
    var nested := Nested(key, g.subgroups, g.entities, groups, inner);
    ConcatAssoc(opening, nested, Footer(indent));
    assert Namespace(name, key, groups, indent) == opening + (nested + Footer(indent));
  }

  /** Every subgroup's block appears among the nested blocks. */
  lemma {:induction false} NestedHoldsChild(key: string, subgroups: seq<string>, entities: seq<string>, groups: map<string, Group>, indent: string, j: nat)
    requires key in groups && j < |subgroups|
    ensures Contains(Nested(key, subgroups, entities, groups, indent),
      Namespace(DeduplicatedName(subgroups[j], entities), key + "/" + subgroups[j], groups, indent))
    decreases |subgroups|
  {
    var n := |subgroups|;
    var init := subgroups[..n - 1];
    var child := Namespace(DeduplicatedName(subgroups[j], entities), key + "/" + subgroups[j], groups, indent);
    var last := Namespace(DeduplicatedName(subgroups[n - 1], entities), key + "/" + subgroups[n - 1], groups, indent);
    assert Nested(key, subgroups, entities, groups, indent) == Nested(key, init, entities, groups, indent) + last;
    if j == n - 1 {
      ContainsInConcat(Nested(key, init, entities, groups, indent), "", child);
      assert Nested(key, init, entities, groups, indent) + child + "" == Nested(key, init, entities, groups, indent) + child;
    } else {
      NestedHoldsChild(key, init, entities, groups, indent, j);
      assert init[j] == subgroups[j];
      ContainsInConcat(Nested(key, init, entities, groups, indent), last, child);
    }
  }

  /**
   * A block contains the block of each of its subgroups, rendered one level
   * deeper, under the key `key + "/" + name` built from the ORIGINAL subgroup
   * name and labelled with the de-duplicated name.
   */
  lemma NamespaceHoldsChild(name: string, key: string, groups: map<string, Group>, indent: string, j: nat)
    requires key in groups && j < |groups[key].subgroups|
    ensures Contains(Namespace(name, key, groups, indent),
      Namespace(DeduplicatedName(groups[key].subgroups[j], groups[key].entities),
                key + "/" + groups[key].subgroups[j], groups, indent + "    "))
  {
    var g := groups[key];
    var inner := indent + "    ";
    var opening := Header(name, indent) + ClassLines(g.entities, inner);
    var nested := Nested(key, g.subgroups, g.entities, groups, inner);
    var child := Namespace(DeduplicatedName(g.subgroups[j], g.entities), key + "/" + g.subgroups[j], groups, inner);
    NestedHoldsChild(key, g.subgroups, g.entities, groups, inner, j);
    ContainsInConcat(opening, nested, child);
    ContainsInConcat(opening + nested, Footer(indent), child);
  }

  // ------------------------------------------------------------ dependency lines

  /** How a file's records become diagram edges (`entity_name`, `connect_by`, `connect_path`, `include_non_code_imports`). */
  datatype MappingScheme = MappingScheme(
    entityName: TextField,
    connectBy: ListField,
    connectPath: string,
    includeNonCodeImports: bool)

  /** Every record the scheme connects by carries the path property (otherwise the source raises `KeyError`). */
  predicate HasPaths(files: seq<CodeFile>, scheme: MappingScheme)
    reads files
  {
    forall i, j :: 0 <= i < |files| && 0 <= j < |files[i].List(scheme.connectBy)| ==>
      scheme.connectPath in files[i].List(scheme.connectBy)[j]
  }

  /** `item_puml_name`: the directory, dot-joined, then the entity name; sanitised. */
  function ItemPumlName(currDir: string, itemName: string): string
  {
    PumlifyText(Join('.', Split(currDir, '/')) + "." + itemName)
  }

  /** One `source <-- target` line. */
  function EdgeLine(source: string, target: string): string
  {
    source + " <-- " + target + "\n"
  }

  /** The lines one entity's records produce, in order, before de-duplication. */
  function ConnectionLines(itemPumlName: string, connections: seq<Record>, currDir: string, scheme: MappingScheme): seq<string>
    requires forall j :: 0 <= j < |connections| ==> scheme.connectPath in connections[j]
    decreases |connections|
  {
    if connections == [] then []
    else
      var path := connections[|connections| - 1][scheme.connectPath];
      ConnectionLines(itemPumlName, connections[..|connections| - 1], currDir, scheme)
        + if IsConnectionToBeInDrawing(path, StartingChars, scheme.includeNonCodeImports)
          then [EdgeLine(itemPumlName, PumlifyText(ResolveConnectionToPuml(path, currDir)))]
          else []
  }

  /** The lines all files of one directory produce, in order, before de-duplication. */
  function Candidates(files: seq<CodeFile>, currDir: string, scheme: MappingScheme): seq<string>
    reads files
    requires HasPaths(files, scheme)
    decreases |files|
  {
    if files == [] then []
    else
      var item := files[|files| - 1];
      Candidates(files[..|files| - 1], currDir, scheme)
        + ConnectionLines(ItemPumlName(currDir, item.Text(scheme.entityName)), item.List(scheme.connectBy), currDir, scheme)
  }

  /** Appends each line unless the text already contains it. */
  function AddNew(text: string, lines: seq<string>): string
    decreases |lines|
  {
    if lines == [] then text
    else
      var sofar := AddNew(text, lines[..|lines| - 1]);
      var line := lines[|lines| - 1];
      if Contains(sofar, line) then sofar else sofar + line
  }

  /** The lines `AddNew` actually appends, in order. */
  function Kept(text: string, lines: seq<string>): seq<string>
    decreases |lines|
  {
    if lines == [] then []
    else
      var line := lines[|lines| - 1];
      if Contains(AddNew(text, lines[..|lines| - 1]), line) then Kept(text, lines[..|lines| - 1])
      else Kept(text, lines[..|lines| - 1]) + [line]
  }

  /** The concatenation of a list of lines. */
  function Concat(lines: seq<string>): string
    decreases |lines|
  {
    if lines == [] then "" else Concat(lines[..|lines| - 1]) + lines[|lines| - 1]
  }

  /**
   * `generate_puml_connections(data_list, curr_dir, mapping_scheme)`, as the
   * source writes it: an outer loop over the files and, for each file, the
   * inner loop over its records in `AddItemConnections`.
   */
  method GeneratePumlConnections(dataList: seq<CodeFile>, currDir: string, scheme: MappingScheme) returns (pumlStr: string)
    requires HasPaths(dataList, scheme)
    ensures pumlStr == AddNew("\n", Candidates(dataList, currDir, scheme))
  {
    pumlStr := "\n";
    for i := 0 to |dataList|
      invariant pumlStr == AddNew("\n", Candidates(dataList[..i], currDir, scheme))
    {
      var item := dataList[i];
      var connectionList := item.List(scheme.connectBy);
      var itemName := item.Text(scheme.entityName);
      var itemPumlName := PumlifyText(Join('.', Split(currDir, '/')) + "." + itemName);
      CandidatesStep(dataList, currDir, scheme, i);
      AddNewAppend("\n", Candidates(dataList[..i], currDir, scheme), ConnectionLines(itemPumlName, connectionList, currDir, scheme));
      pumlStr := AddItemConnections(pumlStr, itemPumlName, connectionList, currDir, scheme);
    }
    assert dataList[..|dataList|] == dataList;
  }

  /**
   * The inner loop of `generate_puml_connections`: one `source <-- target`
   * line per drawn record of one file, each appended only when the text does
   * not already contain it.
   */
  method AddItemConnections(text: string, itemPumlName: string, connectionList: seq<Record>, currDir: string, scheme: MappingScheme)
    returns (pumlStr: string)
    requires forall k :: 0 <= k < |connectionList| ==> scheme.connectPath in connectionList[k]
    ensures pumlStr == AddNew(text, ConnectionLines(itemPumlName, connectionList, currDir, scheme))
  {
    pumlStr := text;
    for j := 0 to |connectionList|
      invariant pumlStr == AddNew(text, ConnectionLines(itemPumlName, connectionList[..j], currDir, scheme))
    {
      ConnectionLinesStep(itemPumlName, connectionList, currDir, scheme, j);
      var connectionPath := connectionList[j][scheme.connectPath];
      if IsConnectionToBeInDrawing(connectionPath, StartingChars, scheme.includeNonCodeImports) {
        var pumlLine := itemPumlName + " <-- " + PumlifyText(ResolveConnectionToPuml(connectionPath, currDir));
        pumlLine := pumlLine + "\n";
        AddNewSnoc(text, ConnectionLines(itemPumlName, connectionList[..j], currDir, scheme), pumlLine);
        if !Contains(pumlStr, pumlLine) {
          pumlStr := pumlStr + pumlLine;
        }
      } else {
        assert ConnectionLines(itemPumlName, connectionList[..j + 1], currDir, scheme)
          == ConnectionLines(itemPumlName, connectionList[..j], currDir, scheme);
      }
    }
    assert connectionList[..|connectionList|] == connectionList;
  }

  /** One more file adds its connection lines at the end. */
  lemma CandidatesStep(files: seq<CodeFile>, currDir: string, scheme: MappingScheme, i: nat)
    requires HasPaths(files, scheme) && i < |files|
    ensures HasPaths(files[..i], scheme) && HasPaths(files[..i + 1], scheme)
    ensures Candidates(files[..i + 1], currDir, scheme) == Candidates(files[..i], currDir, scheme)
      + ConnectionLines(ItemPumlName(currDir, files[i].Text(scheme.entityName)), files[i].List(scheme.connectBy), currDir, scheme)
  {
    assert files[..i + 1][..i] == files[..i];
  }

  /** One more record adds its line at the end, if it is drawn. */
  lemma ConnectionLinesStep(itemPumlName: string, connections: seq<Record>, currDir: string, scheme: MappingScheme, j: nat)
    requires forall k :: 0 <= k < |connections| ==> scheme.connectPath in connections[k]
    requires j < |connections|
    ensures ConnectionLines(itemPumlName, connections[..j + 1], currDir, scheme) ==
      ConnectionLines(itemPumlName, connections[..j], currDir, scheme)
        + if IsConnectionToBeInDrawing(connections[j][scheme.connectPath], StartingChars, scheme.includeNonCodeImports)
          then [EdgeLine(itemPumlName, PumlifyText(ResolveConnectionToPuml(connections[j][scheme.connectPath], currDir)))]
          else []
  {
    assert connections[..j + 1][..j] == connections[..j];
  }

  /** Adding two runs of lines is adding the first, then the second to the result. */
  lemma {:induction false} AddNewAppend(text: string, a: seq<string>, b: seq<string>)
    ensures AddNew(text, a + b) == AddNew(AddNew(text, a), b)
    decreases |b|
  {
    if b == [] {
      assert a + b == a;
    } else {
      assert (a + b)[..|a + b| - 1] == a + b[..|b| - 1];
      AddNewAppend(text, a, b[..|b| - 1]);
    }
  }

  /** One more candidate line is appended unless the text already contains it. */
  lemma AddNewSnoc(text: string, lines: seq<string>, line: string)
    ensures AddNew(text, lines + [line]) ==
      if Contains(AddNew(text, lines), line) then AddNew(text, lines) else AddNew(text, lines) + line
  {
    assert (lines + [line])[..|lines|] == lines;
  }

  /** Every element of a list of lines is found in their concatenation. */
  lemma {:induction false} ConcatContains(lines: seq<string>, i: nat)
    requires i < |lines|
    ensures Contains(Concat(lines), lines[i])
    decreases |lines|
  {
    var n := |lines|;
    if i == n - 1 {
      ContainsInConcat(Concat(lines[..n - 1]), "", lines[i]);
      assert Concat(lines[..n - 1]) + lines[i] + "" == Concat(lines);
    } else {
      ConcatContains(lines[..n - 1], i);
      ContainsInConcat(Concat(lines[..n - 1]), lines[n - 1], lines[i]);
    }
  }

  /** The result is the starting text followed by the lines that were kept. */
  lemma {:induction false} AddNewIsKept(text: string, lines: seq<string>)
    ensures AddNew(text, lines) == text + Concat(Kept(text, lines))
    decreases |lines|
  {
    if lines != [] {
      var init := lines[..|lines| - 1];
      AddNewIsKept(text, init);
      var k := Kept(text, init);
      var line := lines[|lines| - 1];
      if !Contains(AddNew(text, init), line) {
        assert (k + [line])[..|k|] == k;
      }
    }
  }

  /** Every candidate line ends up in the result. */
  lemma {:induction false} AddNewContainsEvery(text: string, lines: seq<string>, i: nat)
    requires i < |lines|
    ensures Contains(AddNew(text, lines), lines[i])
    decreases |lines|
  {
    var n := |lines|;
    var init := lines[..n - 1];
    var sofar := AddNew(text, init);
    if i == n - 1 {
      if !Contains(sofar, lines[i]) {
        ContainsInConcat(sofar, "", lines[i]);
        assert sofar + lines[i] + "" == sofar + lines[i];
      }
    } else {
      AddNewContainsEvery(text, init, i);
      ContainsInConcat(sofar, lines[n - 1], init[i]);
    }
  }

  /**
   * No line is appended twice: the appended lines are candidate lines, none
   * was already in the starting text, and they are pairwise distinct.
   */
  lemma {:induction false} KeptOnce(text: string, lines: seq<string>)
    ensures forall i :: 0 <= i < |Kept(text, lines)| ==> Kept(text, lines)[i] in lines
    ensures forall i :: 0 <= i < |Kept(text, lines)| ==> !Contains(text, Kept(text, lines)[i])
    ensures forall i, j :: 0 <= i < j < |Kept(text, lines)| ==> Kept(text, lines)[i] != Kept(text, lines)[j]
    decreases |lines|
  {
    if lines != [] {
      var n := |lines|;
      var init := lines[..n - 1];
      var line := lines[n - 1];
      var k := Kept(text, init);
      KeptOnce(text, init);
      assert forall i :: 0 <= i < |k| ==> k[i] in lines by {
        forall i | 0 <= i < |k| ensures k[i] in lines {
          var x :| x in init && x == k[i];
          assert x in lines;
        }
      }
      if !Contains(AddNew(text, init), line) {
        AddNewIsKept(text, init);
        ContainsInConcat(text, Concat(k), line);
        forall i | 0 <= i < |k| ensures k[i] != line {
          ConcatContains(k, i);
          ContainsInConcat(text, Concat(k), k[i]);
        }
        assert Kept(text, lines) == k + [line];
      }
    }
  }

  // ------------------------------------------------------------ the whole diagram

  /** The two entries of `src_data` the scheme names, and `starting_point`. */
  datatype SrcData = SrcData(
    filesByDir: seq<(string, seq<CodeFile>)>,
    groups: map<string, Group>,
    startingPoint: string)

  /** All files of all directories. */
  ghost function AllFiles(dirs: seq<(string, seq<CodeFile>)>): set<CodeFile>
    decreases |dirs|
  {
    if dirs == [] then {}
    else
      var files := dirs[|dirs| - 1].1;
      AllFiles(dirs[..|dirs| - 1]) + set i | 0 <= i < |files| :: files[i]
  }

  /** The files are objects of the heap, so calls that modify nothing leave them as they are. */
  lemma {:induction false} AllFilesAllocated(dirs: seq<(string, seq<CodeFile>)>)
    ensures forall f :: f in AllFiles(dirs) ==> allocated(f)
    decreases |dirs|
  {
    if dirs != [] {
      AllFilesAllocated(dirs[..|dirs| - 1]);
    }
  }

  /** Every directory's files carry the path property. */
  predicate AllHavePaths(dirs: seq<(string, seq<CodeFile>)>, scheme: MappingScheme)
    reads AllFiles(dirs)
    decreases |dirs|
  {
    dirs == [] || (AllHavePaths(dirs[..|dirs| - 1], scheme) && HasPaths(dirs[|dirs| - 1].1, scheme))
  }

  /** The dependency lines of all directories, one de-duplicated run per directory, in order. */
  function AllConnections(dirs: seq<(string, seq<CodeFile>)>, scheme: MappingScheme): string
    reads AllFiles(dirs)
    requires AllHavePaths(dirs, scheme)
    decreases |dirs|
  {
    if dirs == [] then ""
    else
      var (key, files) := dirs[|dirs| - 1];
      AllConnections(dirs[..|dirs| - 1], scheme) + AddNew("\n", Candidates(files, key, scheme))
  }

  /** `generate_puml(src_data, mapping_scheme)`. */
  function Puml(src: SrcData, scheme: MappingScheme): string
    reads AllFiles(src.filesByDir)
    requires |src.groups| > 0 ==> AllHavePaths(src.filesByDir, scheme)
  {
    "@startuml\n"
      + (if |src.filesByDir| > 0 && |src.groups| > 0
         then Namespace(src.startingPoint, src.startingPoint, src.groups, "") + AllConnections(src.filesByDir, scheme)
         else "")
      + "@enduml"
  }

  /** `generate_puml`, as the source writes it. */
  method GeneratePuml(src: SrcData, scheme: MappingScheme) returns (puml: string)
    requires |src.groups| > 0 ==> AllHavePaths(src.filesByDir, scheme)
    ensures puml == old(Puml(src, scheme))
  {
    AllFilesAllocated(src.filesByDir);
    puml := "@startuml\n";
    if |src.filesByDir| > 0 && |src.groups| > 0 {
      var rootName := src.startingPoint;
      var rootKey := src.startingPoint;
      var pumlInits := GeneratePumlInitialization(rootName, rootKey, src.groups, "");
      puml := puml + pumlInits;
      var pumlConnections := "";
      AllHavePathsPrefix(src.filesByDir, scheme, 0);
      for i := 0 to |src.filesByDir|
        invariant AllHavePaths(src.filesByDir[..i], scheme)
        invariant pumlConnections == AllConnections(src.filesByDir[..i], scheme)
      {
        AllConnectionsStep(src.filesByDir, scheme, i);
        AllFilesAllocated(src.filesByDir[..i + 1]);
        var (key, dataList) := src.filesByDir[i];
        var connections := GeneratePumlConnections(dataList, key, scheme);
        pumlConnections := pumlConnections + connections;
      }
      assert src.filesByDir[..|src.filesByDir|] == src.filesByDir;
      ConcatAssoc("@startuml\n", pumlInits, pumlConnections);
      puml := puml + pumlConnections;
    }
    puml := puml + "@enduml";
  }

  /** One more directory adds its de-duplicated lines at the end. */
  lemma AllConnectionsStep(dirs: seq<(string, seq<CodeFile>)>, scheme: MappingScheme, i: nat)
    requires AllHavePaths(dirs, scheme) && i < |dirs|
    ensures AllHavePaths(dirs[..i], scheme) && AllHavePaths(dirs[..i + 1], scheme) && HasPaths(dirs[i].1, scheme)
    ensures AllConnections(dirs[..i + 1], scheme) ==
      AllConnections(dirs[..i], scheme) + AddNew("\n", Candidates(dirs[i].1, dirs[i].0, scheme))
  {
    AllHavePathsPrefix(dirs, scheme, i);
    AllHavePathsPrefix(dirs, scheme, i + 1);
    assert dirs[..i + 1][..i] == dirs[..i];
  }

  /** The path requirement holds for every leading run of directories. */
  lemma {:induction false} AllHavePathsPrefix(dirs: seq<(string, seq<CodeFile>)>, scheme: MappingScheme, k: nat)
    requires AllHavePaths(dirs, scheme) && k <= |dirs|
    ensures AllHavePaths(dirs[..k], scheme)
    ensures 0 < k ==> HasPaths(dirs[k - 1].1, scheme)
    decreases |dirs|
  {
    if k < |dirs| {
      AllHavePathsPrefix(dirs[..|dirs| - 1], scheme, k);
      assert dirs[..|dirs| - 1][..k] == dirs[..k];
    } else {
      assert dirs[..k] == dirs;
    }
  }

  /** Each directory contributes at least its leading newline. */
  lemma AllConnectionsNonEmpty(dirs: seq<(string, seq<CodeFile>)>, scheme: MappingScheme)
    requires AllHavePaths(dirs, scheme) && dirs != []
    ensures |AllConnections(dirs, scheme)| > 0
  {
    var (key, files) := dirs[|dirs| - 1];
    AddNewIsKept("\n", Candidates(files, key, scheme));
  }

  /**
   * The diagram is always wrapped in `@startuml` / `@enduml`, and it is exactly
   * the empty diagram when one of the two source maps is empty.
   */
  lemma PumlWrapper(src: SrcData, scheme: MappingScheme)
    requires |src.groups| > 0 ==> AllHavePaths(src.filesByDir, scheme)
    ensures StartsWith(Puml(src, scheme), "@startuml\n") && EndsWith(Puml(src, scheme), "@enduml")
    ensures Puml(src, scheme) == "@startuml\n@enduml" <==> |src.filesByDir| == 0 || |src.groups| == 0
  {
    var p := Puml(src, scheme);
    if |src.filesByDir| > 0 && |src.groups| > 0 {
      AllConnectionsNonEmpty(src.filesByDir, scheme);
      assert |p| > |"@startuml\n@enduml"|;
    }
  }
}
