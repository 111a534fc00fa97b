/**
 * The FAQ section (components/faq-section.tsx): the category-and-search filter over the
 * question list and the accordion that keeps at most one answer open.
 */
module Faq {
  import opened Wrappers
  import opened Seqs
  import opened Text

  datatype FaqItem = FaqItem(id: string, question: string, answer: string, category: string, tags: seq<string>)

  /** `selectedCategory === "all" || faq.category === selectedCategory`. */
  predicate MatchesCategory(faq: FaqItem, selected: string) {
    selected == "all" || faq.category == selected
  }

  /** `faq.tags.some(tag => tag.toLowerCase().includes(term.toLowerCase()))`. */
  predicate SomeTagContains(tags: seq<string>, term: string) {
    exists i :: 0 <= i < |tags| && ContainsIgnoringCase(tags[i], term)
  }

  /** The search test: an empty term, or the term inside the question, the answer or a tag. */
  predicate MatchesSearch(faq: FaqItem, term: string) {
    term == ""
    || ContainsIgnoringCase(faq.question, term)
    || ContainsIgnoringCase(faq.answer, term)
    || SomeTagContains(faq.tags, term)
  }

  function Shown(selected: string, term: string): FaqItem -> bool {
    (faq: FaqItem) => MatchesCategory(faq, selected) && MatchesSearch(faq, term)
  }

  /** `filteredFAQs`. */
  function FilteredFaqs(faqs: seq<FaqItem>, selected: string, term: string): (r: seq<FaqItem>)
    ensures Selects(r, faqs, Shown(selected, term))
    ensures SubsequenceOf(r, faqs)
  {
    FilterSelects(Shown(selected, term), faqs);
    Filter(Shown(selected, term), faqs)
  }

  /** An FAQ is listed iff its category is selected (or "all" is) and the search matches it. */
  lemma FilteredFaqsMembership(faqs: seq<FaqItem>, selected: string, term: string, faq: FaqItem)
    ensures faq in FilteredFaqs(faqs, selected, term) <==>
              faq in faqs && MatchesCategory(faq, selected) && MatchesSearch(faq, term)
  {
    var r := FilteredFaqs(faqs, selected, term);
    if faq in r {
      var i :| 0 <= i < |r| && r[i] == faq;
    }
    if faq in faqs && MatchesCategory(faq, selected) && MatchesSearch(faq, term) {
      var i :| 0 <= i < |faqs| && faqs[i] == faq;
    }
  }

  /** With the initial state (category "all", empty search) every FAQ is listed, in order. */
  lemma InitialShowsAll(faqs: seq<FaqItem>)
    ensures FilteredFaqs(faqs, "all", "") == faqs
  {
    FilterKeepsAll(Shown("all", ""), faqs);
  }

  /** An empty search narrows by category alone. */
  lemma EmptySearchFiltersByCategory(faqs: seq<FaqItem>, selected: string, faq: FaqItem)
    ensures faq in FilteredFaqs(faqs, selected, "") <==> faq in faqs && MatchesCategory(faq, selected)
  {
    FilteredFaqsMembership(faqs, selected, "", faq);
  }

  lemma LowerOfUpper(c: char)
    ensures LowerChar(UpperChar(c)) == LowerChar(c)
  {
  }

  lemma ToLowerOfToUpper(s: string)
    ensures ToLower(ToUpper(s)) == ToLower(s)
  {
    forall i | 0 <= i < |s| ensures ToLower(ToUpper(s))[i] == ToLower(s)[i] {
      LowerOfUpper(s[i]);
    }
  }

  /** Typing the search in upper case lists the same FAQs: the search ignores case. */
  lemma SearchIgnoresCase(faqs: seq<FaqItem>, selected: string, term: string)
    ensures FilteredFaqs(faqs, selected, ToUpper(term)) == FilteredFaqs(faqs, selected, term)
  {
    ToLowerOfToUpper(term);
    forall i | 0 <= i < |faqs|
      ensures Shown(selected, ToUpper(term))(faqs[i]) == Shown(selected, term)(faqs[i])
    {
      var faq := faqs[i];
      assert ToUpper(term) == "" <==> term == "";
      assert SomeTagContains(faq.tags, ToUpper(term)) == SomeTagContains(faq.tags, term) by {
        if SomeTagContains(faq.tags, ToUpper(term)) {
          var k :| 0 <= k < |faq.tags| && ContainsIgnoringCase(faq.tags[k], ToUpper(term));
          assert ContainsIgnoringCase(faq.tags[k], term);
        }
        if SomeTagContains(faq.tags, term) {
          var k :| 0 <= k < |faq.tags| && ContainsIgnoringCase(faq.tags[k], term);
          assert ContainsIgnoringCase(faq.tags[k], ToUpper(term));
        }
      }
    }
    FilterExtensional(Shown(selected, ToUpper(term)), Shown(selected, term), faqs);
  }

  /** `toggleFAQ`: close the open item when it is clicked again, otherwise open the clicked one. */
  function Toggled(expanded: Option<string>, id: string): (r: Option<string>)
    ensures r == None <==> expanded == Some(id)
    ensures r != None ==> r == Some(id)
  {
    if expanded == Some(id) then None else Some(id)
  }

  /**
   * Toggling the same item twice restores the previous state exactly when nothing else
   * was open: toggling an item while another is open replaces the other.
   */
  lemma ToggleTwice(expanded: Option<string>, id: string)
    ensures Toggled(Toggled(expanded, id), id) == expanded <==> expanded == None || expanded == Some(id)
  {
  }

  class FaqSection {
    var expandedFAQ: Option<string>
    var searchTerm: string
    var selectedCategory: string

    constructor ()
      ensures expandedFAQ == None && searchTerm == "" && selectedCategory == "all"
    {
      expandedFAQ, searchTerm, selectedCategory := None, "", "all";
    }

    /** The answer of `faq` is shown iff it is the expanded one; so at most one is shown. */
    predicate IsExpanded(faqId: string)
      reads this
    {
      expandedFAQ == Some(faqId)
    }

    function Visible(faqs: seq<FaqItem>): seq<FaqItem>
      reads this
    {
      FilteredFaqs(faqs, selectedCategory, searchTerm)
    }

    method ToggleFaq(id: string)
      modifies this`expandedFAQ
      ensures expandedFAQ == Toggled(old(expandedFAQ), id)
      ensures IsExpanded(id) <==> !old(IsExpanded(id))
      ensures forall other :: other != id ==> !IsExpanded(other)
    {
      expandedFAQ := if expandedFAQ == Some(id) then None else Some(id);
    }

    method SetSearchTerm(term: string)
      modifies this`searchTerm
      ensures searchTerm == term
    {
      searchTerm := term;
    }

    method SelectCategory(category: string)
      modifies this`selectedCategory
      ensures selectedCategory == category
    {
      selectedCategory := category;
    }
  }
}
