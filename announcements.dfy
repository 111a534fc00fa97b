/**
 * The announcements board (components/announcements-section.tsx): the category filter,
 * its empty-state notice, and the category and priority colours.
 */
module Announcements {
  import opened Seqs

  datatype Announcement = Announcement(
    id: string,
    title: string,
    content: string,
    date: string,
    category: string,
    priority: string,
    author: string)

  function InCategory(category: string): Announcement -> bool {
    (a: Announcement) => a.category == category
  }

  /** `filteredAnnouncements`: "all" shows the list itself, any other category narrows it. */
  function FilteredAnnouncements(announcements: seq<Announcement>, selected: string): (r: seq<Announcement>)
    ensures selected == "all" ==> r == announcements
    ensures selected != "all" ==> Selects(r, announcements, InCategory(selected))
    ensures SubsequenceOf(r, announcements)
  {
    FilterSelects(InCategory(selected), announcements);
    if selected == "all" then
      SubsequenceOfSelf(announcements);
      announcements
    else Filter(InCategory(selected), announcements)
  }

  /** "No announcements found" is rendered iff the selection is empty: no announcement at all
    * under "all", none of the chosen category otherwise. */
  function ShowsEmptyNotice(announcements: seq<Announcement>, selected: string): (shown: bool)
    ensures selected == "all" ==> (shown <==> announcements == [])
    ensures selected != "all" ==>
              (shown <==> forall i :: 0 <= i < |announcements| ==> announcements[i].category != selected)
  {
    if selected != "all" then
      EmptySelection(announcements, selected);
      |FilteredAnnouncements(announcements, selected)| == 0
    else
      |FilteredAnnouncements(announcements, selected)| == 0
  }

  lemma EmptySelection(announcements: seq<Announcement>, selected: string)
    requires selected != "all"
    ensures FilteredAnnouncements(announcements, selected) == [] <==>
              forall i :: 0 <= i < |announcements| ==> announcements[i].category != selected
  {
    var r := Filter(InCategory(selected), announcements);
    assert r == FilteredAnnouncements(announcements, selected);
    if r != [] {
      var i :| 0 <= i < |announcements| && announcements[i] == r[0];
      assert announcements[i].category == selected;
    }
  }

  /** Choosing the same category again shows the same list. */
  lemma FilterAgain(announcements: seq<Announcement>, selected: string)
    ensures FilteredAnnouncements(FilteredAnnouncements(announcements, selected), selected)
            == FilteredAnnouncements(announcements, selected)
  {
    FilterIdempotent(InCategory(selected), announcements);
  }

  const AcademicColor := "bg-blue-100 text-blue-800 border-blue-200"
  const EventColor := "bg-purple-100 text-purple-800 border-purple-200"
  const SystemColor := "bg-green-100 text-green-800 border-green-200"
  const OtherCategoryColor := "bg-gray-100 text-gray-800 border-gray-200"

  /** `getCategoryColor`: blue, purple and green for the three named categories, gray otherwise. */
  function CategoryColor(category: string): (c: string)
    ensures c == AcademicColor <==> category == "academic"
    ensures c == EventColor <==> category == "event"
    ensures c == SystemColor <==> category == "system"
    ensures c == OtherCategoryColor <==> category != "academic" && category != "event" && category != "system"
  {
    // The four colours already differ in their sixth character.
    assert AcademicColor[5] == 'u' && EventColor[5] == 'r' && SystemColor[5] == 'e' && OtherCategoryColor[5] == 'a';
    match category
    case "academic" => AcademicColor
    case "event" => EventColor
    case "system" => SystemColor
    case _ => OtherCategoryColor
  }

  /** `getPriorityColor`: the left border is red for "high", orange for "medium", blue otherwise. */
  function PriorityColor(priority: string): (c: string)
    ensures c == "border-l-red-500" <==> priority == "high"
    ensures c == "border-l-orange-500" <==> priority == "medium"
    ensures c == "border-l-blue-500" <==> priority != "high" && priority != "medium"
  {
    match priority
    case "high" => "border-l-red-500"
    case "medium" => "border-l-orange-500"
    case _ => "border-l-blue-500"
  }
}
