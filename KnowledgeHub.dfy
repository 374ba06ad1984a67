/** The knowledge hub (components/KnowledgeHub.tsx): a searchable catalogue of sections, each
    listing items with a title and a summary. The catalogue itself is static content and is a
    parameter here. */
module KnowledgeHub {
  import opened Seqs
  import Text

  datatype HubItem = HubItem(title: string, summary: string, url: string)

  datatype HubSection = HubSection(id: string, title: string, items: seq<HubItem>)

  /** `match` (lines 20-21): the lowercased title or summary contains the lowercased
      query. */
  predicate Matches(item: HubItem, q: string)
  {
    Text.Contains(Text.Lower(item.title), q) || Text.Contains(Text.Lower(item.summary), q)
  }

  /** A section with only its matching items. */
  function Narrow(section: HubSection, q: string): (r: HubSection)
    ensures r.id == section.id && r.title == section.title
    ensures IsSubsequence(r.items, section.items)
    ensures forall it :: it in r.items <==> it in section.items && Matches(it, q)
  {
    FilterIsSubsequence(section.items, (it: HubItem) => Matches(it, q));
    section.(items := Filter(section.items, (it: HubItem) => Matches(it, q)))
  }

  /** Every section narrowed to its matching items, in catalogue order. */
  function NarrowAll(sections: seq<HubSection>, q: string): (r: seq<HubSection>)
    ensures |r| == |sections|
    ensures forall i :: 0 <= i < |r| ==> r[i] == Narrow(sections[i], q)
  {
    seq(|sections|, i requires 0 <= i < |sections| => Narrow(sections[i], q))
  }

  predicate HasItems(section: HubSection)
  {
    |section.items| > 0
  }

  /** `filtered` (lines 15-27). */
  function Filtered(sections: seq<HubSection>, query: string): (r: seq<HubSection>)
    ensures Text.Trim(query) == [] ==> r == sections
    ensures forall s :: s in r && Text.Trim(query) != [] ==> HasItems(s)
  {
    if Text.Trim(query) == [] then sections
    else Filter(NarrowAll(sections, Text.Lower(query)), HasItems)
  }

  /** A blank or whitespace-only query shows the whole catalogue. */
  lemma BlankQueryShowsAll(sections: seq<HubSection>, query: string)
    requires Text.IsBlank(query)
    ensures Filtered(sections, query) == sections
  {
    Text.TrimEmptyIffBlank(query);
  }

  /** After a search, every shown item matches, every shown section has an item, and the
      sections shown are narrowings of catalogue sections, in catalogue order. */
  lemma SearchResults(sections: seq<HubSection>, query: string)
    requires !Text.IsBlank(query)
    ensures var r := Filtered(sections, query);
            (forall s, it :: s in r && it in s.items ==> Matches(it, Text.Lower(query)))
            && (forall s :: s in r ==> HasItems(s))
            && IsSubsequence(r, NarrowAll(sections, Text.Lower(query)))
  {
    Text.TrimEmptyIffBlank(query);
    var q := Text.Lower(query);
    var all := NarrowAll(sections, q);
    var r := Filtered(sections, query);
    FilterIsSubsequence(all, HasItems);
    forall s, it | s in r && it in s.items ensures Matches(it, q) {
      var i :| 0 <= i < |all| && all[i] == s;
    }
  }

  /** A matching item of the catalogue is shown, in its own section. */
  lemma MatchingItemShown(sections: seq<HubSection>, query: string, i: nat, it: HubItem)
    requires !Text.IsBlank(query)
    requires i < |sections| && it in sections[i].items && Matches(it, Text.Lower(query))
    ensures exists s :: s in Filtered(sections, query) && s.id == sections[i].id && it in s.items
  {
    Text.TrimEmptyIffBlank(query);
    var s := NarrowAll(sections, Text.Lower(query))[i];
    assert it in s.items;
    assert s in NarrowAll(sections, Text.Lower(query));
    assert s in Filtered(sections, query);
  }

  /** The number of items over all sections. */
  function TotalItems(sections: seq<HubSection>): nat
  {
    if sections == [] then 0 else |sections[0].items| + TotalItems(sections[1..])
  }

  /** Searching never shows more items than the catalogue holds. */
  lemma {:induction false} SearchNeverGrows(sections: seq<HubSection>, query: string)
    ensures TotalItems(Filtered(sections, query)) <= TotalItems(sections)
  {
    if Text.Trim(query) != [] {
      var q := Text.Lower(query);
      NarrowedTotal(sections, q);
      DroppingKeepsTotal(NarrowAll(sections, q));
    }
  }

  lemma {:induction false} NarrowedTotal(sections: seq<HubSection>, q: string)
    ensures TotalItems(NarrowAll(sections, q)) <= TotalItems(sections)
  {
    if sections != [] {
      NarrowedTotal(sections[1..], q);
      assert NarrowAll(sections, q)[1..] == NarrowAll(sections[1..], q);
    }
  }

  /** Dropping the empty sections removes no item. */
  lemma {:induction false} DroppingKeepsTotal(sections: seq<HubSection>)
    ensures TotalItems(Filter(sections, HasItems)) == TotalItems(sections)
  {
    if sections != [] {
      DroppingKeepsTotal(sections[1..]);
    }
  }
}
