/**
 * The line-oriented pattern engine: a list of declarative rules is applied to
 * one line of source text, and every rule that fires contributes records to
 * one list field of the scanned file.
 *
 * Python's `re` module is not modelled: a `RegexEngine` value stands for it,
 * and every operation here takes one as a parameter, so every property below
 * holds whatever the regular expressions do.
 */
module Parse {
  import opened Text
  import opened CodeFiles

  /** A successful `re.search`; only its first capture group is ever used. */
  datatype Match = Match(group1: string)

  /** `re.search(pattern, text)` and `re.findall(pattern, text)`. */
  datatype RegexEngine = RegexEngine(
    search: (string, string) -> Option<Match>,
    findAll: (string, string) -> seq<string>)

  /** The string methods a non-regex rule may name in its `type`. */
  datatype StringTest = Contains | StartsWith | EndsWith

  /** A rule's `type`: `regex`, or one of the string tests. */
  datatype PatternType = Regex | Test(test: StringTest)

  /** One entry of `other_property_patterns`: a fixed `value`, or a `regex` whose group 1 is the value. */
  datatype PropertyPattern = PropertyPattern(propertyName: string, value: Option<string>, regex: string)

  /** A rule's `on_match` block. `preprocessing_patterns` may be absent from it. */
  datatype OnMatch = OnMatch(
    addTo: ListField,
    otherPropertyPatterns: seq<PropertyPattern>,
    preprocessingPatterns: Option<seq<string>>,
    extractionRegex: string)

  /** One rule: `type`, `query` and `on_match`. */
  datatype Pattern = Pattern(patternType: PatternType, query: string, onMatch: OnMatch)

  // ------------------------------------------------------ rule dispatch

  /** `is_string_pattern_match`: substring, prefix or suffix test of the query on the line. */
  function IsStringPatternMatch(txt: string, test: StringTest, query: string): (r: bool)
    ensures test == Contains ==>
      (r <==> exists i :: OccursAt(txt, query, i))
    ensures test == StartsWith ==> (r <==> |query| <= |txt| && txt[..|query|] == query)
    ensures test == EndsWith ==> (r <==> exists k :: 0 <= k <= |txt| && txt[k..] == query)
  {
    match test
    case Contains =>
      ContainsIffOccurs(txt, query);
      Text.Contains(txt, query)
    case StartsWith => Text.StartsWith(txt, query)
    case EndsWith => Text.EndsWith(txt, query)
  }

  /** Whether a rule fires on a line: a regex search succeeds, or the string test passes. */
  predicate Fires(re: RegexEngine, txt: string, pattern: Pattern)
  {
    match pattern.patternType
    case Regex => re.search(pattern.query, txt).Some?
    case Test(t) => IsStringPatternMatch(txt, t, pattern.query)
  }

  /** `apply_pattern`: the rule's records when it fires on the line, nothing otherwise. */
  function ApplyPattern(re: RegexEngine, txt: string, pattern: Pattern): (records: seq<Record>)
    ensures Fires(re, txt, pattern) ==> records == ProcessMatch(re, txt, pattern.onMatch)
    ensures !Fires(re, txt, pattern) ==> records == []
  {
    if pattern.patternType == Regex then
      if re.search(pattern.query, txt).Some? then ProcessMatch(re, txt, pattern.onMatch) else []
    else if IsStringPatternMatch(txt, pattern.patternType.test, pattern.query) then
      ProcessMatch(re, txt, pattern.onMatch)
    else []
  }

  // ------------------------------------------------------ record building

  /** `{'param': name, **properties}`: a property named `param` overrides the name. */
  function MakeRecord(name: string, properties: map<string, string>): (r: Record)
    ensures r.Keys == properties.Keys + {"param"}
    ensures r["param"] == if "param" in properties then properties["param"] else name
    ensures forall k :: k in properties ==> r[k] == properties[k]
  {
    map["param" := name] + properties
  }

  /** The text the extraction regex runs on: preprocessed only when the block has stages. */
  function ProcessedText(re: RegexEngine, txt: string, onMatch: OnMatch): string
  {
    match onMatch.preprocessingPatterns
    case None => txt
    case Some(stages) => Preprocess(re, txt, stages)
  }

  /** The names `re.findall` extracts from the processed text. */
  function ExtractedNames(re: RegexEngine, txt: string, onMatch: OnMatch): seq<string>
  {
    re.findAll(onMatch.extractionRegex, ProcessedText(re, txt, onMatch))
  }

  /**
   * `process_match`: one record per extracted name, in order; every record
   * carries the properties found in the ORIGINAL line.
   */
  function ProcessMatch(re: RegexEngine, txt: string, onMatch: OnMatch): (records: seq<Record>)
    ensures |records| == |ExtractedNames(re, txt, onMatch)|
    ensures forall i :: 0 <= i < |records| ==>
      records[i] == MakeRecord(ExtractedNames(re, txt, onMatch)[i], Properties(re, txt, onMatch.otherPropertyPatterns))
  {
    var properties := Properties(re, txt, onMatch.otherPropertyPatterns);
    var names := ExtractedNames(re, txt, onMatch);
    seq(|names|, i requires 0 <= i < |names| => MakeRecord(names[i], properties))
  }

  // ------------------------------------------------------ preprocessing

  /** `apply_preprocessing`: each stage keeps group 1 of its search; a failed search gives `''`. */
  function Preprocess(re: RegexEngine, txt: string, stages: seq<string>): string
    decreases |stages|
  {
    if stages == [] then txt
    else match re.search(stages[0], txt)
      case None => ""
      case Some(m) => Preprocess(re, m.group1, stages[1..])
  }

  /** The chain of stages as a partial function: `None` as soon as a stage fails. */
  function Stages(re: RegexEngine, txt: string, stages: seq<string>): Option<string>
    decreases |stages|
  {
    if stages == [] then Some(txt)
    else match re.search(stages[0], txt)
      case None => None
      case Some(m) => Stages(re, m.group1, stages[1..])
  }

  /** `apply_preprocessing`, as the source writes it: a loop with an early exit. */
  method ApplyPreprocessing(re: RegexEngine, txt: string, stages: seq<string>) returns (processed: string)
    ensures processed == Preprocess(re, txt, stages)
  {
    processed := txt;
    for i := 0 to |stages|
      invariant Preprocess(re, processed, stages[i..]) == Preprocess(re, txt, stages)
    {
      assert stages[i..][1..] == stages[i + 1..];
      var m := re.search(stages[i], processed);
      if m.None? {
        return "";
      }
      processed := m.value.group1;
    }
  }

  /** With no stages the text is unchanged; otherwise `''` stands for a failed stage. */
  lemma {:induction false} PreprocessIsStages(re: RegexEngine, txt: string, stages: seq<string>)
    ensures stages == [] ==> Preprocess(re, txt, stages) == txt
    ensures Preprocess(re, txt, stages) == match Stages(re, txt, stages) case None => "" case Some(t) => t
    decreases |stages|
  {
    if stages != [] {
      match re.search(stages[0], txt)
      case None =>
      case Some(m) => PreprocessIsStages(re, m.group1, stages[1..]);
    }
  }

  /** Running stages `a + b` runs `b` on the result of `a`, and fails if either fails. */
  lemma {:induction false} StagesAppend(re: RegexEngine, txt: string, a: seq<string>, b: seq<string>)
    ensures Stages(re, txt, a + b) ==
      match Stages(re, txt, a) case None => None case Some(t) => Stages(re, t, b)
    decreases |a|
  {
    if a == [] {
      assert a + b == b;
    } else {
      assert (a + b)[0] == a[0] && (a + b)[1..] == a[1..] + b;
      match re.search(a[0], txt)
      case None =>
      case Some(m) => StagesAppend(re, m.group1, a[1..], b);
    }
  }

  /** Once a stage fails, no later stage can bring the text back: the result is `''`. */
  lemma FailedStageGivesEmpty(re: RegexEngine, txt: string, a: seq<string>, b: seq<string>)
    requires Stages(re, txt, a).None?
    ensures Preprocess(re, txt, a + b) == ""
  {
    StagesAppend(re, txt, a, b);
    PreprocessIsStages(re, txt, a + b);
  }

  /**
   * After a failed stage the extraction regex still runs, on `''`: the rule
   * yields no records exactly when `findall` finds nothing in the empty text.
   */
  lemma FailedPreprocessingExtractsFromEmpty(re: RegexEngine, txt: string, onMatch: OnMatch)
    requires onMatch.preprocessingPatterns.Some?
    requires Stages(re, txt, onMatch.preprocessingPatterns.value).None?
    ensures ProcessMatch(re, txt, onMatch) == [] <==> re.findAll(onMatch.extractionRegex, "") == []
  {
    FailedStageGivesEmpty(re, txt, onMatch.preprocessingPatterns.value, []);
    assert onMatch.preprocessingPatterns.value + [] == onMatch.preprocessingPatterns.value;
  }

  // ------------------------------------------------------ properties

  /** No pattern of the list carries a fixed `value`. */
  predicate NoFixedValue(patterns: seq<PropertyPattern>)
  {
    forall i :: 0 <= i < |patterns| ==> patterns[i].value.None?
  }

  /** One regex property pattern: group 1 of a successful search sets the property. */
  function SearchStep(re: RegexEngine, txt: string, properties: map<string, string>, p: PropertyPattern): map<string, string>
  {
    match re.search(p.regex, txt)
    case None => properties
    case Some(m) => properties[p.propertyName := m.group1]
  }

  /** The loop of `extract_properties`, continued from the properties found so far. */
  function PropertiesFrom(re: RegexEngine, txt: string, properties: map<string, string>, patterns: seq<PropertyPattern>): map<string, string>
    decreases |patterns|
  {
    if patterns == [] then properties
    else if patterns[0].value.Some? then properties[patterns[0].propertyName := patterns[0].value.value]
    else PropertiesFrom(re, txt, SearchStep(re, txt, properties, patterns[0]), patterns[1..])
  }

  /** `extract_properties(txt, patterns)`. */
  function Properties(re: RegexEngine, txt: string, patterns: seq<PropertyPattern>): map<string, string>
  {
    PropertiesFrom(re, txt, map[], patterns)
  }

  /** `extract_properties`, as the source writes it: a loop with an early return. */
  method ExtractProperties(re: RegexEngine, txt: string, patterns: seq<PropertyPattern>) returns (properties: map<string, string>)
    ensures properties == Properties(re, txt, patterns)
  {
    properties := map[];
    for i := 0 to |patterns|
      invariant PropertiesFrom(re, txt, properties, patterns[i..]) == Properties(re, txt, patterns)
    {
      assert patterns[i..][1..] == patterns[i + 1..];
      var p := patterns[i];
      if p.value.Some? {
        properties := properties[p.propertyName := p.value.value];
        return;
      }
      var m := re.search(p.regex, txt);
      if m.Some? {
        properties := properties[p.propertyName := m.value.group1];
      }
    }
  }

  /** Appending a regex pattern to a list without fixed values applies it last. */
  lemma {:induction false} PropertiesFromSnoc(re: RegexEngine, txt: string, acc: map<string, string>, patterns: seq<PropertyPattern>, p: PropertyPattern)
    requires NoFixedValue(patterns) && p.value.None?
    ensures PropertiesFrom(re, txt, acc, patterns + [p]) == SearchStep(re, txt, PropertiesFrom(re, txt, acc, patterns), p)
    decreases |patterns|
  {
    if patterns == [] {
      assert patterns + [p] == [p];
    } else {
      assert (patterns + [p])[1..] == patterns[1..] + [p];
      PropertiesFromSnoc(re, txt, SearchStep(re, txt, acc, patterns[0]), patterns[1..], p);
    }
  }

  /**
   * A later regex pattern either adds nothing (its search fails) or sets its
   * property, overwriting a value an earlier pattern gave the same name.
   */
  lemma LaterPatternOverwrites(re: RegexEngine, txt: string, patterns: seq<PropertyPattern>, p: PropertyPattern)
    requires NoFixedValue(patterns) && p.value.None?
    ensures re.search(p.regex, txt).None? ==> Properties(re, txt, patterns + [p]) == Properties(re, txt, patterns)
    ensures re.search(p.regex, txt).Some? ==>
      Properties(re, txt, patterns + [p]) == Properties(re, txt, patterns)[p.propertyName := re.search(p.regex, txt).value.group1]
  {
    PropertiesFromSnoc(re, txt, map[], patterns, p);
  }

  /** The first pattern with a fixed value sets it and ends the loop: later patterns are ignored. */
  lemma {:induction false} FixedValueStops(re: RegexEngine, txt: string, acc: map<string, string>, patterns: seq<PropertyPattern>, i: nat, rest: seq<PropertyPattern>)
    requires i < |patterns| && patterns[i].value.Some? && NoFixedValue(patterns[..i])
    ensures PropertiesFrom(re, txt, acc, patterns + rest) == PropertiesFrom(re, txt, acc, patterns[..i + 1])
    ensures PropertiesFrom(re, txt, acc, patterns[..i + 1])
         == PropertiesFrom(re, txt, acc, patterns[..i])[patterns[i].propertyName := patterns[i].value.value]
    decreases i
  {
    if i == 0 {
      assert (patterns + rest)[0] == patterns[0] && patterns[..1][0] == patterns[0];
    } else {
      assert patterns[0] == patterns[..i][0];
      assert (patterns + rest)[1..] == patterns[1..] + rest;
      assert patterns[..i + 1][1..] == patterns[1..][..i];
      assert patterns[..i][1..] == patterns[1..][..i - 1];
      FixedValueStops(re, txt, SearchStep(re, txt, acc, patterns[0]), patterns[1..], i - 1, rest);
    }
  }

  /** Every property found is named by one of the patterns. */
  lemma {:induction false} PropertiesNamed(re: RegexEngine, txt: string, acc: map<string, string>, patterns: seq<PropertyPattern>, k: string)
    requires k in PropertiesFrom(re, txt, acc, patterns)
    ensures k in acc || exists i :: 0 <= i < |patterns| && patterns[i].propertyName == k
    decreases |patterns|
  {
    if patterns != [] && patterns[0].value.None? {
      var next := SearchStep(re, txt, acc, patterns[0]);
      PropertiesNamed(re, txt, next, patterns[1..], k);
      if exists i :: 0 <= i < |patterns[1..]| && patterns[1..][i].propertyName == k {
        var i :| 0 <= i < |patterns[1..]| && patterns[1..][i].propertyName == k;
        assert patterns[i + 1].propertyName == k;
      }
    }
  }

  // ------------------------------------------------------ applying all rules

  /** The records the rules send to field `f`, in rule order. */
  function Gathered(re: RegexEngine, txt: string, patterns: seq<Pattern>, f: ListField): seq<Record>
    decreases |patterns|
  {
    if patterns == [] then []
    else
      var last := patterns[|patterns| - 1];
      Gathered(re, txt, patterns[..|patterns| - 1], f)
        + (if last.onMatch.addTo == f then ApplyPattern(re, txt, last) else [])
  }

  /**
   * `apply_patterns`: every rule's records are appended to the field its
   * `add_to` names; what the fields held before stays in front.
   */
  method ApplyPatterns(re: RegexEngine, txt: string, patterns: seq<Pattern>, data: CodeFile)
    modifies data
    ensures forall f :: data.List(f) == old(data.List(f)) + Gathered(re, txt, patterns, f)
  {
    for i := 0 to |patterns|
      invariant forall f :: data.List(f) == old(data.List(f)) + Gathered(re, txt, patterns[..i], f)
    {
      assert patterns[..i + 1][..i] == patterns[..i];
      var pattern := patterns[i];
      var matches := ApplyPattern(re, txt, pattern);
      data.Extend(pattern.onMatch.addTo, matches);
    }
    assert patterns[..|patterns|] == patterns;
  }

  /** A field no rule names receives nothing. */
  lemma {:induction false} GatheredUntargeted(re: RegexEngine, txt: string, patterns: seq<Pattern>, f: ListField)
    requires forall i :: 0 <= i < |patterns| ==> patterns[i].onMatch.addTo != f
    ensures Gathered(re, txt, patterns, f) == []
    decreases |patterns|
  {
    if patterns != [] {
      GatheredUntargeted(re, txt, patterns[..|patterns| - 1], f);
    }
  }

  /** Every record a field receives comes from a rule that names it and fires on the line. */
  lemma {:induction false} GatheredFromFiringRules(re: RegexEngine, txt: string, patterns: seq<Pattern>, f: ListField, r: Record)
    requires r in Gathered(re, txt, patterns, f)
    ensures exists i :: 0 <= i < |patterns| && patterns[i].onMatch.addTo == f && Fires(re, txt, patterns[i]) &&
                        r in ProcessMatch(re, txt, patterns[i].onMatch)
    decreases |patterns|
  {
    var n := |patterns|;
    var last := patterns[n - 1];
    var init := patterns[..n - 1];
    if r in Gathered(re, txt, init, f) {
      GatheredFromFiringRules(re, txt, init, f, r);
      var i :| 0 <= i < |init| && init[i].onMatch.addTo == f && Fires(re, txt, init[i])
        && r in ProcessMatch(re, txt, init[i].onMatch);
      assert patterns[i] == init[i];
    } else {
      assert patterns[n - 1] == last;
    }
  }
}
