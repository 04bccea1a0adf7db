/** The logic of the sources node component: the list of search results it
    shows, each numbered and titled, or a placeholder when there are none. */
module SourcesNode {
  import opened Wrappers
  import opened Graph

  const DefaultPlaceholder: string := "Sources will appear here"

  /** `data.sources || []`: a missing list is the empty list. */
  function SourcesOf(data: NodeData): (sources: seq<Source>)
    ensures data.sources.None? ==> sources == []
    ensures data.sources.Some? ==> sources == data.sources.value
  {
    data.sources.GetOr([])
  }

  /** `source.title || source.url`: the title when it is present and
      non-empty, the url otherwise, so the text is empty only when the url
      is. */
  function DisplayText(source: Source): (text: string)
    ensures source.title.Some? && source.title.value != "" ==> text == source.title.value
    ensures source.title.None? || source.title == Some("") ==> text == source.url
    ensures text == "" ==> source.url == ""
  {
    match source.title
    case Some(t) => if t != "" then t else source.url
    case None => source.url
  }

  /** One rendered link: its number, its text and its target. */
  datatype Entry = Entry(number: nat, text: string, href: string)

  /** `sources.map((source, index) => ...)` with numbering starting at
      `first`: one entry per source, in order. */
  function Entries(sources: seq<Source>, first: nat): (entries: seq<Entry>)
    ensures |entries| == |sources|
    ensures forall i :: 0 <= i < |sources| ==>
      entries[i].number == first + i && entries[i].text == DisplayText(sources[i]) &&
      entries[i].href == sources[i].url
  {
    if sources == [] then []
    else [Entry(first, DisplayText(sources[0]), sources[0].url)] + Entries(sources[1..], first + 1)
  }

  /** Rendering a list in two parts renders the first part, then the second
      numbered on from where the first stopped. */
  lemma EntriesAppend(a: seq<Source>, b: seq<Source>, first: nat)
    ensures Entries(a + b, first) == Entries(a, first) + Entries(b, first + |a|)
  {
    var whole, parts := Entries(a + b, first), Entries(a, first) + Entries(b, first + |a|);
    forall i | 0 <= i < |whole| ensures whole[i] == parts[i] {
      if i < |a| {
        assert (a + b)[i] == a[i];
      } else {
        assert (a + b)[i] == b[i - |a|];
      }
    }
  }

  /** What the node's content area shows. */
  datatype View = Listing(entries: seq<Entry>) | Placeholder(text: string)

  /** The content area: the numbered entries when there is at least one
      source, otherwise `data.label || 'Sources will appear here'`. */
  function Render(data: NodeData): (view: View)
    ensures view.Listing? <==> |SourcesOf(data)| > 0
    ensures view.Listing? ==>
      |view.entries| == |SourcesOf(data)| &&
      forall i :: 0 <= i < |view.entries| ==>
        view.entries[i].number == i + 1 &&
        view.entries[i].text == DisplayText(SourcesOf(data)[i]) &&
        view.entries[i].href == SourcesOf(data)[i].url
    ensures view.Placeholder? ==>
      view.text == if data.nodeLabel.Some? && data.nodeLabel.value != "" then data.nodeLabel.value else DefaultPlaceholder
  {
    var sources := SourcesOf(data);
    if |sources| > 0 then
      Listing(Entries(sources, 1))
    else
      match data.nodeLabel
      case Some(l) => Placeholder(if l != "" then l else DefaultPlaceholder)
      case None => Placeholder(DefaultPlaceholder)
  }

  /** A sources node whose search found nothing shows the placeholder. */
  lemma NoResultsShowPlaceholder(data: NodeData)
    requires data.sources.None? || data.sources == Some([])
    ensures Render(data).Placeholder?
  {
  }
}
