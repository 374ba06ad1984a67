/** The knowledge pages (components/KnowledgePages.tsx): topic pages made of sections, a search
    across all pages, the anchor slugs of section titles, the scenarios tagged with a page, and
    the per-scenario quiz answers. The pages and the scenario bank are static content and are
    parameters here. */
module KnowledgePages {
  import opened Seqs
  import opened Types
  import Text

  // ---------------------------------------------------------------------------------------
  // `slugify` (lines 9-10).

  /** The characters `[a-z0-9]` that survive the first replacement. */
  predicate IsSlugChar(c: char)
  {
    'a' <= c <= 'z' || '0' <= c <= '9'
  }

  /** `.replace(/[^a-z0-9]+/g, '-')`: every maximal run of other characters becomes a single
      '-'. `inRun` says that the character before `s` already belonged to such a run. */
  function Dashify(s: string, inRun: bool): (r: string)
    ensures forall i :: 0 <= i < |r| ==> IsSlugChar(r[i]) || r[i] == '-'
    decreases |s|
  {
    if s == [] then []
    else if IsSlugChar(s[0]) then [s[0]] + Dashify(s[1..], false)
    else if inRun then Dashify(s[1..], true)
    else "-" + Dashify(s[1..], true)
  }

  /** `.replace(/(^-|-$)/g, '')`: one '-' is dropped at the start and one at the end. */
  function StripEnds(t: string): string
  {
    var a := if |t| > 0 && t[0] == '-' then t[1..] else t;
    if |a| > 0 && a[|a| - 1] == '-' then a[..|a| - 1] else a
  }

  function Slugify(value: string): string
  {
    StripEnds(Dashify(Text.Lower(value), false))
  }

  predicate NoAdjacentDashes(r: string)
  {
    forall i :: 0 < i < |r| ==> !(r[i - 1] == '-' && r[i] == '-')
  }

  /** The shape of a slug: only `[a-z0-9-]`, no "--", and no '-' at either end. */
  predicate IsSlug(w: string)
  {
    (forall i :: 0 <= i < |w| ==> IsSlugChar(w[i]) || w[i] == '-')
    && NoAdjacentDashes(w)
    && (w != [] ==> w[0] != '-' && w[|w| - 1] != '-')
  }

  /** A run never yields two dashes, and inside a run the output does not start with one. */
  lemma {:induction false} DashifyNoDoubleDash(s: string, inRun: bool)
    ensures NoAdjacentDashes(Dashify(s, inRun))
    ensures inRun && Dashify(s, inRun) != [] ==> Dashify(s, inRun)[0] != '-'
    decreases |s|
  {
    if s != [] {
      var r := Dashify(s, inRun);
      if IsSlugChar(s[0]) {
        DashifyNoDoubleDash(s[1..], false);
        var t := Dashify(s[1..], false);
        assert r == [s[0]] + t;
        forall i | 0 < i < |r| ensures !(r[i - 1] == '-' && r[i] == '-') {
          if i > 1 {
            assert r[i - 1] == t[i - 2] && r[i] == t[i - 1];
          }
        }
      } else if inRun {
        DashifyNoDoubleDash(s[1..], true);
      } else {
        DashifyNoDoubleDash(s[1..], true);
        var t := Dashify(s[1..], true);
        assert r == "-" + t;
        forall i | 0 < i < |r| ensures !(r[i - 1] == '-' && r[i] == '-') {
          if i > 1 {
            assert r[i - 1] == t[i - 2] && r[i] == t[i - 1];
          }
        }
      }
    }
  }

  /** Every slug has the shape of a slug. */
  lemma SlugifyIsSlug(value: string)
    ensures IsSlug(Slugify(value))
  {
    var t := Dashify(Text.Lower(value), false);
    DashifyNoDoubleDash(Text.Lower(value), false);
    var a := if |t| > 0 && t[0] == '-' then t[1..] else t;
    assert NoAdjacentDashes(a) by {
      forall i | 0 < i < |a| ensures !(a[i - 1] == '-' && a[i] == '-') {
        if |t| > 0 && t[0] == '-' {
          assert a[i - 1] == t[i] && a[i] == t[i + 1];
        }
      }
    }
    assert a != [] ==> a[0] != '-' by {
      if a != [] && |t| > 0 && t[0] == '-' {
        assert a[0] == t[1];
      }
    }
    var b := Slugify(value);
    assert b == if |a| > 0 && a[|a| - 1] == '-' then a[..|a| - 1] else a;
    if |a| > 0 && a[|a| - 1] == '-' {
      assert |a| >= 2;
      assert b[..] == a[..|a| - 1];
      if b != [] {
        assert b[|b| - 1] == a[|a| - 2];
      }
    }
  }

  /** Inside a slug nothing changes: each '-' is a run of one, not part of a longer run. */
  lemma {:induction false} DashifyKeepsSlug(w: string, inRun: bool)
    requires forall i :: 0 <= i < |w| ==> IsSlugChar(w[i]) || w[i] == '-'
    requires NoAdjacentDashes(w)
    requires inRun && w != [] ==> w[0] != '-'
    ensures Dashify(w, inRun) == w
    decreases |w|
  {
    if w != [] {
      var rest := w[1..];
      assert forall i :: 0 <= i < |rest| ==> rest[i] == w[i + 1];
      assert NoAdjacentDashes(rest) by {
        forall i | 0 < i < |rest| ensures !(rest[i - 1] == '-' && rest[i] == '-') {
          assert rest[i - 1] == w[i] && rest[i] == w[i + 1];
        }
      }
      if IsSlugChar(w[0]) {
        DashifyKeepsSlug(rest, false);
      } else {
        if rest != [] {
          assert rest[0] == w[1];
        }
        DashifyKeepsSlug(rest, true);
      }
      assert w == [w[0]] + rest;
    }
  }

  /** A slug is its own slug. */
  lemma SlugFixedPoint(w: string)
    requires IsSlug(w)
    ensures Slugify(w) == w
  {
    assert Text.Lower(w) == w;
    DashifyKeepsSlug(w, false);
  }

  /** `slugify` is idempotent. */
  lemma SlugifyIdempotent(value: string)
    ensures Slugify(Slugify(value)) == Slugify(value)
  {
    SlugifyIsSlug(value);
    SlugFixedPoint(Slugify(value));
  }

  // ---------------------------------------------------------------------------------------
  // The page search (lines 12-25).

  /** A section of a page. A missing title or text is the empty string and a missing list is
      the empty list, as `|| ''` and `|| []` read them. */
  datatype PageSection = PageSection(
    title: string,
    text: string,
    bullets: seq<string>,
    checklist: seq<string>,
    pitfalls: seq<string>
  )

  datatype Page = Page(id: string, title: string, summary: string, sections: seq<PageSection>)

  /** `list.some(b => b.toLowerCase().includes(q))`. */
  predicate AnyContains(list: seq<string>, q: string)
  {
    exists b :: b in list && Text.Contains(Text.Lower(b), q)
  }

  /** The section filter of lines 17-23. */
  predicate SectionMatches(s: PageSection, q: string)
  {
    Text.Contains(Text.Lower(s.title), q) || Text.Contains(Text.Lower(s.text), q)
    || AnyContains(s.bullets, q) || AnyContains(s.checklist, q) || AnyContains(s.pitfalls, q)
  }

  /** `{ ...page, sections: page.sections.filter(...) }`. */
  function Restrict(p: Page, q: string): (r: Page)
    ensures r.id == p.id && r.title == p.title && r.summary == p.summary
    ensures IsSubsequence(r.sections, p.sections)
    ensures forall s :: s in r.sections <==> s in p.sections && SectionMatches(s, q)
  {
    FilterIsSubsequence(p.sections, (s: PageSection) => SectionMatches(s, q));
    p.(sections := Filter(p.sections, (s: PageSection) => SectionMatches(s, q)))
  }

  function RestrictAll(pages: seq<Page>, q: string): (r: seq<Page>)
    ensures |r| == |pages|
    ensures forall i :: 0 <= i < |r| ==> r[i] == Restrict(pages[i], q)
  {
    seq(|pages|, i requires 0 <= i < |pages| => Restrict(pages[i], q))
  }

  predicate HasSections(p: Page)
  {
    |p.sections| > 0
  }

  /** `filteredPages`. The query is lowercased but not trimmed for matching. */
  function FilteredPages(pages: seq<Page>, query: string): (r: seq<Page>)
    ensures Text.Trim(query) == [] ==> r == pages
    ensures forall p :: p in r && Text.Trim(query) != [] ==> HasSections(p)
  {
    if Text.Trim(query) == [] then pages
    else Filter(RestrictAll(pages, Text.Lower(query)), HasSections)
  }

  /** A whitespace-only query returns every page unchanged. */
  lemma BlankQueryShowsAllPages(pages: seq<Page>, query: string)
    requires Text.IsBlank(query)
    ensures FilteredPages(pages, query) == pages
  {
    Text.TrimEmptyIffBlank(query);
  }

  /** After a search every kept section matches the lowercased query, every kept page has a
      section, and the kept pages are restrictions of the originals, in their order. */
  lemma PageSearchResults(pages: seq<Page>, query: string)
    requires !Text.IsBlank(query)
    ensures var r := FilteredPages(pages, query);
            (forall p, s :: p in r && s in p.sections ==> SectionMatches(s, Text.Lower(query)))
            && (forall p :: p in r ==> HasSections(p))
            && IsSubsequence(r, RestrictAll(pages, Text.Lower(query)))
            && (forall i, s ::
                  0 <= i < |pages| && s in pages[i].sections && SectionMatches(s, Text.Lower(query))
                  ==> exists p :: p in r && p.id == pages[i].id && s in p.sections)
  {
    Text.TrimEmptyIffBlank(query);
    var q := Text.Lower(query);
    var all := RestrictAll(pages, q);
    var r := FilteredPages(pages, query);
    FilterIsSubsequence(all, HasSections);
    forall p, s | p in r && s in p.sections ensures SectionMatches(s, q) {
      var i :| 0 <= i < |all| && all[i] == p;
    }
    forall i, s | 0 <= i < |pages| && s in pages[i].sections && SectionMatches(s, q)
      ensures exists p :: p in r && p.id == pages[i].id && s in p.sections
    {
      MatchingSectionShown(pages, query, i, s);
    }
  }

  /** A section matching the query is shown, under the page it belongs to. */
  lemma MatchingSectionShown(pages: seq<Page>, query: string, i: nat, s: PageSection)
    requires !Text.IsBlank(query)
    requires i < |pages| && s in pages[i].sections && SectionMatches(s, Text.Lower(query))
    ensures exists p :: p in FilteredPages(pages, query) && p.id == pages[i].id && s in p.sections
  {
    Text.TrimEmptyIffBlank(query);
    var p := RestrictAll(pages, Text.Lower(query))[i];
    assert s in p.sections;
    assert p in RestrictAll(pages, Text.Lower(query));
    assert p in FilteredPages(pages, query);
  }

  // ---------------------------------------------------------------------------------------
  // Scenarios (lines 27-30) and the quiz (lines 228-246).

  datatype Scenario = Scenario(
    id: string,
    title: string,
    tags: seq<string>,
    choices: seq<string>,
    correctIndex: Option<int>
  )

  /** `KNOWLEDGE_PAGES.find(p => p.id === tab)`. */
  function FindPage(pages: seq<Page>, tab: string): (r: Option<Page>)
    ensures r.Some? ==> r.value in pages && r.value.id == tab
    ensures r.None? <==> forall p :: p in pages ==> p.id != tab
  {
    if pages == [] then None
    else if pages[0].id == tab then Some(pages[0])
    else FindPage(pages[1..], tab)
  }

  /** `scenariosForActivePage`. */
  function ScenariosFor(bank: seq<Scenario>, pages: seq<Page>, tab: string)
    : (r: seq<Scenario>)
    ensures IsSubsequence(r, bank)
    ensures forall s :: s in r <==> s in bank && FindPage(pages, tab).Some? && tab in s.tags
  {
    match FindPage(pages, tab)
    case None => []
    case Some(p) =>
      FilterIsSubsequence(bank, (s: Scenario) => p.id in s.tags);
      Filter(bank, (s: Scenario) => p.id in s.tags)
  }

  /** No page is called "hub", so the hub tab lists no scenarios. */
  lemma HubHasNoScenarios(bank: seq<Scenario>, pages: seq<Page>)
    requires forall p :: p in pages ==> p.id != "hub"
    ensures ScenariosFor(bank, pages, "hub") == []
  {
  }

  /** What the quiz shows under a scenario: nothing until it has a correct index and an
      answer is stored, then "Correct" (true) or "Not quite" (false). */
  function Feedback(s: Scenario, answers: map<string, int>): (r: Option<bool>)
    ensures r.Some? <==> s.correctIndex.Some? && s.id in answers
    ensures r == Some(true) <==>
      s.correctIndex.Some? && s.id in answers && answers[s.id] == s.correctIndex.value
  {
    if s.correctIndex.Some? && s.id in answers then Some(answers[s.id] == s.correctIndex.value)
    else None
  }

  /** Choosing an answer (line 236) decides the feedback of its own scenario and leaves all
      other scenarios' feedback alone. */
  lemma ChoiceAffectsOnlyItsScenario(answers: map<string, int>, s: Scenario, t: Scenario,
                                     idx: int)
    ensures s.correctIndex.Some? ==>
      Feedback(s, answers[s.id := idx]) == Some(idx == s.correctIndex.value)
    ensures t.id != s.id ==> Feedback(t, answers[s.id := idx]) == Feedback(t, answers)
  {
  }

  class View {
    var query: string
    /** `pageQuizAnswers`. */
    var answers: map<string, int>
    var activeTab: string

    constructor ()
      ensures query == "" && answers == map[] && activeTab == "hub"
    {
      query := "";
      answers := map[];
      activeTab := "hub";
    }

    method SetQuery(text: string)
      modifies this
      ensures query == text && answers == old(answers) && activeTab == old(activeTab)
    {
      query := text;
    }

    /** A tab button, a page card of the hub, or "Back to Hub". */
    method SelectTab(tab: string)
      modifies this
      ensures activeTab == tab && query == old(query) && answers == old(answers)
    {
      activeTab := tab;
    }

    /** A quiz radio button: only the scenario's own entry changes. */
    method Choose(scenarioId: string, idx: int)
      modifies this
      ensures answers == old(answers)[scenarioId := idx]
      ensures forall id :: id != scenarioId ==>
        (id in answers <==> id in old(answers))
        && (id in answers ==> answers[id] == old(answers)[id])
      ensures query == old(query) && activeTab == old(activeTab)
    {
      answers := answers[scenarioId := idx];
    }
  }
}
