/** The pattern registry and the incident classifier. Categories are tried in
    their configured order and, inside a category, its patterns in order; the
    first pattern that finds a match anywhere in the line decides the line's
    category, and a line that no pattern matches is not an incident. */
module Classifier {
  import opened LogTypes

  /** One category and its ordered pattern list. */
  datatype CategoryPatterns = CategoryPatterns(category: Category, patterns: seq<Pattern>)

  /** The compiled patterns in configuration order; `matches(p, line)` stands
      for a case-insensitive regular-expression search of p in line. */
  datatype Registry = Registry(entries: seq<CategoryPatterns>, matches: (Pattern, string) -> bool)

  /** Position of a pattern in the registry: category index, pattern index. */
  datatype Hit = Hit(cat: nat, pat: nat)

  /** The result of classifying a line: the winning category and pattern. */
  datatype Match = Match(category: Category, pattern: Pattern)

  /** The category names in registry order (the order of the source's
      counter dictionaries). */
  function Categories(entries: seq<CategoryPatterns>): (names: seq<Category>)
    ensures |names| == |entries|
    ensures forall i :: 0 <= i < |entries| ==> names[i] == entries[i].category
  {
    if entries == [] then [] else [entries[0].category] + Categories(entries[1..])
  }

  /** Category names are distinct, as the keys of a dictionary are. */
  predicate WellFormed(reg: Registry)
  {
    forall i, j :: 0 <= i < j < |reg.entries| ==> reg.entries[i].category != reg.entries[j].category
  }

  /** Pattern j of category i matches the line. */
  predicate Hits(reg: Registry, line: string, i: nat, j: nat)
  {
    i < |reg.entries| && j < |reg.entries[i].patterns| && reg.matches(reg.entries[i].patterns[j], line)
  }

  /** No pattern of the registry matches the line. */
  ghost predicate NoHit(reg: Registry, line: string)
  {
    forall i: nat, j: nat :: !Hits(reg, line, i, j)
  }

  /** (i, j) is the first hit in category-then-pattern order. */
  ghost predicate IsFirstHit(reg: Registry, line: string, i: nat, j: nat)
  {
    && Hits(reg, line, i, j)
    && (forall i': nat, j': nat :: i' < i ==> !Hits(reg, line, i', j'))
    && (forall j': nat :: j' < j ==> !Hits(reg, line, i, j'))
  }

  /** The first pattern of category i, from index j on, that matches. */
  function FirstPatternFrom(reg: Registry, line: string, i: nat, j: nat): (r: Option<nat>)
    requires i < |reg.entries| && j <= |reg.entries[i].patterns|
    ensures r.Some? ==> j <= r.value && Hits(reg, line, i, r.value)
                        && forall k: nat :: j <= k < r.value ==> !Hits(reg, line, i, k)
    ensures r.None? ==> forall k: nat :: j <= k ==> !Hits(reg, line, i, k)
    decreases |reg.entries[i].patterns| - j
  {
    if j == |reg.entries[i].patterns| then None
    else if reg.matches(reg.entries[i].patterns[j], line) then Some(j)
    else FirstPatternFrom(reg, line, i, j + 1)
  }

  /** The first hit in categories i, i+1, ... */
  function FirstHitFrom(reg: Registry, line: string, i: nat): (r: Option<Hit>)
    requires i <= |reg.entries|
    ensures r.Some? ==> i <= r.value.cat && Hits(reg, line, r.value.cat, r.value.pat)
                        && (forall c: nat, p: nat :: i <= c < r.value.cat ==> !Hits(reg, line, c, p))
                        && (forall p: nat :: p < r.value.pat ==> !Hits(reg, line, r.value.cat, p))
    ensures r.None? ==> forall c: nat, p: nat :: i <= c ==> !Hits(reg, line, c, p)
    decreases |reg.entries| - i
  {
    if i == |reg.entries| then None
    else match FirstPatternFrom(reg, line, i, 0)
      case Some(j) => Some(Hit(i, j))
      case None => FirstHitFrom(reg, line, i + 1)
  }

  /** The winning position of a line, if any. */
  function FirstHit(reg: Registry, line: string): (r: Option<Hit>)
    ensures r.Some? ==> IsFirstHit(reg, line, r.value.cat, r.value.pat)
    ensures r.None? <==> NoHit(reg, line)
  {
    FirstHitFrom(reg, line, 0)
  }

  /** Classification of one line: the category and pattern text of the first hit. */
  function Classify(reg: Registry, line: string): (r: Option<Match>)
    ensures r.None? <==> NoHit(reg, line)
    ensures r.Some? ==> exists i: nat, j: nat :: IsFirstHit(reg, line, i, j)
                          && r.value == Match(reg.entries[i].category, reg.entries[i].patterns[j])
  {
    match FirstHit(reg, line)
    case None => None
    case Some(h) =>
      assert IsFirstHit(reg, line, h.cat, h.pat);
      Some(Match(reg.entries[h.cat].category, reg.entries[h.cat].patterns[h.pat]))
  }

  /** There is only one first hit: classification is deterministic. */
  lemma FirstHitUnique(reg: Registry, line: string, i: nat, j: nat, i': nat, j': nat)
    requires IsFirstHit(reg, line, i, j) && IsFirstHit(reg, line, i', j')
    ensures i == i' && j == j'
  {
  }

  /** A line that matches a pattern of category a is classified as category a
      or as an earlier one; with distinct names it is never given a later
      category b, even if it also matches one of b's patterns. */
  lemma EarlierCategoryWins(reg: Registry, line: string, a: nat, p: nat, b: nat)
    requires WellFormed(reg)
    requires Hits(reg, line, a, p) && a < b < |reg.entries|
    ensures Classify(reg, line).Some?
    ensures Classify(reg, line).value.category != reg.entries[b].category
  {
    var h := FirstHit(reg, line).value;
    assert h.cat <= a;
    assert Classify(reg, line).value.category == reg.entries[h.cat].category;
  }

  /** The source's nested loop: walk categories, then patterns, stop at the
      first search that succeeds. */
  method ClassifyLine(reg: Registry, line: string) returns (r: Option<Match>)
    ensures r == Classify(reg, line)
  {
    r := None;
    var i := 0;
    var matched := false;
    while i < |reg.entries| && !matched
      invariant 0 <= i <= |reg.entries|
      invariant !matched ==> r == None && FirstHitFrom(reg, line, 0) == FirstHitFrom(reg, line, i)
      invariant matched ==> r == Classify(reg, line)
      decreases |reg.entries| - i, !matched
    {
      var patterns := reg.entries[i].patterns;
      var j := 0;
      while j < |patterns|
        invariant 0 <= j <= |patterns|
        invariant FirstPatternFrom(reg, line, i, 0) == FirstPatternFrom(reg, line, i, j)
      {
        if reg.matches(patterns[j], line) {
          matched := true;
          r := Some(Match(reg.entries[i].category, patterns[j]));
          break;
        }
        j := j + 1;
      }
      if !matched {
        i := i + 1;
      }
    }
  }
}
