/** The host CMS's values that the start-node layer reads and rewrites, and the
    per-user start-node lookup it consults. The lookup itself (a shared cache) is
    not modelled: its result is passed in as a StartNodeCollection. */
module Host {
  import opened Runtime

  /** The two independent hierarchies a node can belong to. */
  datatype Hierarchy = Content | Media

  /** The id of the synthetic root of both hierarchies; in a start-node set it
      means "the whole hierarchy". */
  const RootId: int := -1

  /** A user's start nodes: an array per hierarchy, or None where the source's
      array is null (no start nodes configured). */
  datatype StartNodeCollection = StartNodeCollection(content: Option<seq<int>>, media: Option<seq<int>>)
  {
    /** The start nodes for hierarchy h. */
    function Of(h: Hierarchy): Option<seq<int>>
    {
      match h
      case Content => content
      case Media => media
    }
  }

  /** An entry of an AdditionalData dictionary: the values stored there are strings or booleans. */
  datatype Data = Str(s: string) | Flag(b: bool)

  /** `object.ToString()` of a dictionary value: a boolean prints as "True" or "False". */
  function DataToString(d: Data): string
  {
    match d
    case Str(s) => s
    case Flag(b) => if b then "True" else "False"
  }

  /** An entity summary as the host's entity API returns it (breadcrumbs, search results). */
  datatype EntityBasic = EntityBasic(id: int, name: string, path: string, additionalData: map<string, Data>)

  /** A media item as the host's media service returns it. */
  datatype IMedia = IMedia(id: int, hasIdentity: bool, path: string, contentTypeId: int)

  /** A media type: its id and its alias. */
  datatype MediaType = MediaType(id: int, alias: string)
}
