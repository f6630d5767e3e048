/**
 * The reports page's logic: the search-and-category filter over the list of
 * reports, the status badge style, and the rule that decides whether a
 * report can be exported.
 */
module Reports {

  datatype Report = Report(
    id: int,
    title: string,
    category: string,
    status: string,
    date: string,
    size: string,
    downloads: int,
    trend: string,
    change: string,
    description: string)

  /** `toLowerCase` restricted to ASCII: A-Z map to a-z, every other character is kept. */
  function LowerChar(ch: char): (r: char)
    ensures 'A' <= ch <= 'Z' ==> 'a' <= r <= 'z' && r as int - ch as int == 32
    ensures !('A' <= ch <= 'Z') ==> r == ch
  {
    if 'A' <= ch <= 'Z' then (ch as int + 32) as char else ch
  }

  function ToLower(s: string): (r: string)
    ensures |r| == |s|
    ensures forall i :: 0 <= i < |s| ==> r[i] == LowerChar(s[i])
  {
    seq(|s|, i requires 0 <= i < |s| => LowerChar(s[i]))
  }

  predicate OccursAt(hay: string, needle: string, i: int) {
    0 <= i && i + |needle| <= |hay| && hay[i..i + |needle|] == needle
  }

  /** `hay.includes(needle)`. */
  predicate Includes(hay: string, needle: string) {
    exists i | 0 <= i <= |hay| - |needle| :: OccursAt(hay, needle, i)
  }

  /** The search predicate: the lowered term occurs in the lowered title or description. */
  predicate MatchesSearch(r: Report, term: string) {
    Includes(ToLower(r.title), ToLower(term)) || Includes(ToLower(r.description), ToLower(term))
  }

  /**
   * Reference definition of what the page shows: a report passes when the
   * search term is empty or matches it, and when the category is "all" or
   * equals its category.
   */
  predicate Selected(r: Report, term: string, category: string) {
    && (term == "" || MatchesSearch(r, term))
    && (category == "all" || r.category == category)
  }

  /** `a` occurs in `b` with its order kept, possibly with elements of `b` skipped. */
  ghost predicate SubsequenceOf<T>(a: seq<T>, b: seq<T>)
    decreases |b|
  {
    || |a| == 0
    || (&& |b| > 0
        && ((a[0] == b[0] && SubsequenceOf(a[1..], b[1..])) || SubsequenceOf(a, b[1..])))
  }

  /** `Array.prototype.filter`: the elements that pass, in order, each as often as it occurs. */
  function Filter<T(!new)>(s: seq<T>, p: T -> bool): (r: seq<T>)
    ensures SubsequenceOf(r, s)
    ensures forall x :: x in r <==> x in s && p(x)
    ensures forall x :: multiset(r)[x] == if p(x) then multiset(s)[x] else 0
  {
    if |s| == 0 then []
    else
      assert s == [s[0]] + s[1..];
      if p(s[0]) then [s[0]] + Filter(s[1..], p) else Filter(s[1..], p)
  }

  /** A filter every element passes returns its input. */
  lemma {:induction false} FilterKeepsAll<T(!new)>(s: seq<T>, p: T -> bool)
    requires forall i :: 0 <= i < |s| ==> p(s[i])
    ensures Filter(s, p) == s
  {
    if |s| > 0 {
      FilterKeepsAll(s[1..], p);
    }
  }

  /** The filter effect: the search filter when the term is non-empty, then the category filter unless "all". */
  function FilterReports(reports: seq<Report>, term: string, category: string): (shown: seq<Report>)
    ensures SubsequenceOf(shown, reports)
    ensures forall r :: r in shown <==> r in reports && Selected(r, term, category)
    ensures forall r :: multiset(shown)[r] == if Selected(r, term, category) then multiset(reports)[r] else 0
  {
    var bySearch := if term != "" then Filter(reports, (r: Report) => MatchesSearch(r, term)) else reports;
    var shown := if category != "all" then Filter(bySearch, (r: Report) => r.category == category) else bySearch;
    SubsequenceReflexive(reports);
    SubsequenceReflexive(bySearch);
    SubsequenceTransitive(shown, bySearch, reports);
    shown
  }

  lemma {:induction false} SubsequenceReflexive<T>(s: seq<T>)
    ensures SubsequenceOf(s, s)
    decreases |s|
  {
    if |s| > 0 {
      SubsequenceReflexive(s[1..]);
    }
  }

  lemma {:induction false} SubsequenceTransitive<T>(a: seq<T>, b: seq<T>, c: seq<T>)
    requires SubsequenceOf(a, b) && SubsequenceOf(b, c)
    ensures SubsequenceOf(a, c)
    decreases |c|
  {
    if |a| > 0 {
      assert |b| > 0 && |c| > 0;
      if b[0] == c[0] && SubsequenceOf(b[1..], c[1..]) {
        if a[0] == b[0] && SubsequenceOf(a[1..], b[1..]) {
          SubsequenceTransitive(a[1..], b[1..], c[1..]);
        } else {
          SubsequenceTransitive(a, b[1..], c[1..]);
        }
      } else {
        SubsequenceTransitive(a, b, c[1..]);
      }
    }
  }

  /** With no search term and the category "all", every report is shown, in order. */
  lemma ShowAll(reports: seq<Report>)
    ensures FilterReports(reports, "", "all") == reports
  {
  }

  /** Filtering what is shown, with the same term and category, shows the same list. */
  lemma {:induction false} FilterReportsIdempotent(reports: seq<Report>, term: string, category: string)
    ensures var shown := FilterReports(reports, term, category);
            FilterReports(shown, term, category) == shown
  {
    var shown := FilterReports(reports, term, category);
    assert forall i :: 0 <= i < |shown| ==> shown[i] in shown;
    if term != "" {
      FilterKeepsAll(shown, (r: Report) => MatchesSearch(r, term));
    }
    if category != "all" {
      FilterKeepsAll(shown, (r: Report) => r.category == category);
    }
  }

  const CompletedBadge := "bg-green-500/20 text-green-400 border-green-500/30"
  const ProcessingBadge := "bg-blue-500/20 text-blue-400 border-blue-500/30"
  const DraftBadge := "bg-yellow-500/20 text-yellow-400 border-yellow-500/30"
  const DefaultBadge := "bg-gray-500/20 text-gray-400 border-gray-500/30"

  /** The status badge style; unknown statuses get the gray default. */
  function StatusColor(status: string): (style: string)
    ensures style == CompletedBadge <==> status == "completed"
    ensures style == ProcessingBadge <==> status == "processing"
    ensures style == DraftBadge <==> status == "draft"
    ensures style == DefaultBadge <==> status != "completed" && status != "processing" && status != "draft"
  {
    match status
    case "completed" => CompletedBadge
    case "processing" => ProcessingBadge
    case "draft" => DraftBadge
    case _ => DefaultBadge
  }

  /** The PDF and Excel buttons are disabled unless the report is completed. */
  function ExportEnabled(r: Report): (enabled: bool)
    ensures enabled <==> StatusColor(r.status) == CompletedBadge
  {
    !(r.status != "completed")
  }
}
