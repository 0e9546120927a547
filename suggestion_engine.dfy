/**
 * The completion hints of the visual modelling interface: a fixed catalogue of four lists, one of
 * which the editing context selects, filtered case-insensitively by what the user has typed so far
 * and cut to five entries.
 */
module SuggestionEngine {
  import opened Seqs
  import opened Strings

  const ELEMENT_TYPES: seq<string> := ["类", "接口", "组件", "服务", "数据库", "队列"]
  const RELATIONSHIPS: seq<string> := ["继承", "实现", "依赖", "关联", "组合", "聚合"]
  const PATTERNS: seq<string> := ["MVC", "MVVM", "Repository", "Factory", "Observer", "Strategy"]
  const LANGUAGES: seq<string> := ["Python", "Java", "TypeScript", "Rust", "Go", "C#"]

  /** How many hints are offered at most. */
  const SUGGESTION_LIMIT: nat := 5

  /** The catalogue list the context selects: the first keyword of element, relationship, pattern, language it contains. */
  function Chosen(context: string): seq<string> {
    if Contains(context, "element") then ELEMENT_TYPES
    else if Contains(context, "relationship") then RELATIONSHIPS
    else if Contains(context, "pattern") then PATTERNS
    else if Contains(context, "language") then LANGUAGES
    else []
  }

  /** `partial_input.lower() in s.lower()`. */
  predicate Matches(s: string, partial: string) {
    Contains(Lower(s), Lower(partial))
  }

  /** The entries of `list` an input keeps: all of them for an empty input, the matching ones otherwise. */
  function Candidates(list: seq<string>, partial: string): seq<string> {
    if partial == [] then list else Filter(list, (s: string) => Matches(s, partial))
  }

  /**
   * The hints drawn from one catalogue list: the first five entries an input keeps, in list order, or
   * all of them when fewer are kept.
   */
  function Suggest(list: seq<string>, partial: string): (r: seq<string>)
    ensures |r| == Min(|Candidates(list, partial)|, SUGGESTION_LIMIT)
    ensures exists n: nat :: n <= |list| && r == Candidates(list[..n], partial)
    ensures |r| <= SUGGESTION_LIMIT
    ensures partial != [] ==> forall s :: s in r ==> Matches(s, partial)
    ensures forall s :: s in r ==> s in list
    ensures partial == [] ==> r == list[..Min(|list|, SUGGESTION_LIMIT)]
    ensures |r| < SUGGESTION_LIMIT ==> forall s :: s in list && (partial == [] || Matches(s, partial)) ==> s in r
  {
    var c := Candidates(list, partial);
    assert forall s :: s in Take(c, SUGGESTION_LIMIT) ==> s in c;
    var n := if partial == [] then |Take(c, SUGGESTION_LIMIT)|
             else FilterCut(list, (s: string) => Matches(s, partial), |Take(c, SUGGESTION_LIMIT)|);
    assert Take(c, SUGGESTION_LIMIT) == Candidates(list[..n], partial);
    Take(c, SUGGESTION_LIMIT)
  }

  /** get_suggestions. */
  function GetSuggestions(context: string, partial: string): (r: seq<string>)
    ensures |r| == Min(|Candidates(Chosen(context), partial)|, SUGGESTION_LIMIT)
    ensures exists n: nat :: n <= |Chosen(context)| && r == Candidates(Chosen(context)[..n], partial)
    ensures |r| <= SUGGESTION_LIMIT
    ensures partial != [] ==> forall s :: s in r ==> Matches(s, partial)
    ensures forall s :: s in r ==> s in Chosen(context)
    ensures partial == [] ==> r == Chosen(context)[..Min(|Chosen(context)|, SUGGESTION_LIMIT)]
    ensures |r| < SUGGESTION_LIMIT ==>
      forall s :: s in Chosen(context) && (partial == [] || Matches(s, partial)) ==> s in r
  {
    Suggest(Chosen(context), partial)
  }

  /** The hints keep the order of the catalogue list: they are a subsequence of it. */
  lemma SuggestionsAreSubsequence(context: string, partial: string)
    ensures IsSubsequence(GetSuggestions(context, partial), Chosen(context))
  {
    var list := Chosen(context);
    if partial == [] {
      SubsequenceReflexive(list);
      PrefixOfSubsequence(list, list, |Suggest(list, partial)|);
    } else {
      TakeOfFilterIsSubsequence(list, (s: string) => Matches(s, partial), SUGGESTION_LIMIT);
    }
  }

  /** The keyword precedence: element before relationship before pattern before language; none gives no hints. */
  lemma ChosenPrecedence(context: string, partial: string)
    ensures Contains(context, "element") ==> Chosen(context) == ELEMENT_TYPES
    ensures (!Contains(context, "element") && Contains(context, "relationship")) ==> Chosen(context) == RELATIONSHIPS
    ensures (!Contains(context, "element") && !Contains(context, "relationship") && Contains(context, "pattern")) ==>
      Chosen(context) == PATTERNS
    ensures (!Contains(context, "element") && !Contains(context, "relationship") && !Contains(context, "pattern")
             && Contains(context, "language")) ==> Chosen(context) == LANGUAGES
    ensures (!Contains(context, "element") && !Contains(context, "relationship") && !Contains(context, "pattern")
             && !Contains(context, "language")) ==> GetSuggestions(context, partial) == []
  {
  }
}
