/**
 * The resources page (components/resources-page.tsx): the student/admin tab filter, the
 * icon and colour chosen for each resource type, and which buttons a resource card shows.
 */
module Resources {
  import opened Wrappers
  import opened Seqs

  /** `category: "student" | "admin"`; the selected tab ranges over the same two values. */
  datatype Category = StudentResources | AdminResources

  datatype Icon = VideoIcon | FileTextIcon | DownloadIcon | BookOpenIcon

  /** `type` is a keyword here, so the resource type is `kind`; the optional URLs are `Option`s. */
  datatype Resource = Resource(
    id: string,
    title: string,
    description: string,
    kind: string,
    category: Category,
    downloadUrl: Option<string>,
    externalUrl: Option<string>,
    tags: seq<string>)

  function InCategory(c: Category): Resource -> bool {
    (r: Resource) => r.category == c
  }

  /** `filteredResources`: the resources of the selected tab, in list order. */
  function FilteredResources(resources: seq<Resource>, selected: Category): (r: seq<Resource>)
    ensures Selects(r, resources, InCategory(selected))
    ensures forall i :: 0 <= i < |r| ==> r[i].category == selected
  {
    FilterSelects(InCategory(selected), resources);
    Filter(InCategory(selected), resources)
  }

  /** The two tabs split the list: every resource appears under exactly one of them. */
  lemma TabsPartition(resources: seq<Resource>)
    ensures multiset(FilteredResources(resources, StudentResources))
            + multiset(FilteredResources(resources, AdminResources)) == multiset(resources)
    ensures multiset(FilteredResources(resources, StudentResources))
            !! multiset(FilteredResources(resources, AdminResources))
  {
    FilterPartition(InCategory(StudentResources), InCategory(AdminResources), resources);
    var s := FilteredResources(resources, StudentResources);
    var a := FilteredResources(resources, AdminResources);
    forall x ensures multiset(s)[x] == 0 || multiset(a)[x] == 0 {
      FilterMultiset(InCategory(StudentResources), resources, x);
      FilterMultiset(InCategory(AdminResources), resources, x);
    }
  }

  /** `getTypeIcon`: video, document and template have their own icons; any other type gets the book. */
  function TypeIcon(kind: string): (icon: Icon)
    ensures icon == VideoIcon <==> kind == "video"
    ensures icon == FileTextIcon <==> kind == "document"
    ensures icon == DownloadIcon <==> kind == "template"
    ensures icon == BookOpenIcon <==> kind != "video" && kind != "document" && kind != "template"
  {
    match kind
    case "video" => VideoIcon
    case "document" => FileTextIcon
    case "template" => DownloadIcon
    case _ => BookOpenIcon
  }

  const VideoColor := "bg-red-100 text-red-800 border-red-200"
  const DocumentColor := "bg-blue-100 text-blue-800 border-blue-200"
  const TemplateColor := "bg-green-100 text-green-800 border-green-200"
  const OtherTypeColor := "bg-purple-100 text-purple-800 border-purple-200"

  /** `getTypeColor`: red, blue and green for video, document and template; purple otherwise. */
  function TypeColor(kind: string): (c: string)
    ensures c == VideoColor <==> kind == "video"
    ensures c == DocumentColor <==> kind == "document"
    ensures c == TemplateColor <==> kind == "template"
    ensures c == OtherTypeColor <==> kind != "video" && kind != "document" && kind != "template"
  {
    // The four colours already differ in their sixth character.
    assert VideoColor[5] == 'd' && DocumentColor[5] == 'u' && TemplateColor[5] == 'e' && OtherTypeColor[5] == 'r';
    match kind
    case "video" => VideoColor
    case "document" => DocumentColor
    case "template" => TemplateColor
    case _ => OtherTypeColor
  }

  /** JavaScript truthiness of an optional string: present and not empty. */
  predicate Truthy(url: Option<string>) {
    url.Some? && url.value != ""
  }

  /** The card's buttons: Download when `downloadUrl` is truthy, View Guide when `externalUrl` is. */
  function CardButtons(r: Resource): (buttons: seq<string>)
    ensures "Download" in buttons <==> Truthy(r.downloadUrl)
    ensures "View Guide" in buttons <==> Truthy(r.externalUrl)
    ensures |buttons| <= 2
    ensures Truthy(r.downloadUrl) && Truthy(r.externalUrl) ==> buttons == ["Download", "View Guide"]
  {
    (if Truthy(r.downloadUrl) then ["Download"] else []) + (if Truthy(r.externalUrl) then ["View Guide"] else [])
  }
}
