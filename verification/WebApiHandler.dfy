/** The response-rewriting message handler. Every back-office API call passes
    through SendAsync; a lower-cased absolute path from a fixed table selects a
    rewrite, anything else goes on unchanged. Each rewrite first decides, from the
    user's admin flag, the user's start nodes and the query string, whether to
    rewrite at all (a "gate"), and then, once the host has produced its response,
    rewrites that response (the continuation). A continuation catches every
    exception and returns the response as it stands at that point. */
module WebApiHandler {
  import opened Runtime
  import opened Host
  import opened Paths

  const StatusOk: int := 200
  const Forbidden: int := 403

  // ---------------------------------------------------------------- responses

  /** An HTTP response: its status and its content (null, an object, or text). */
  datatype Response = Response(statusCode: int, content: HttpContent)

  datatype HttpContent = NoContent | ObjectContent(value: Value) | StringContent(text: string)

  /** An enumerable of entities: a materialised list, or a lazily filtered one whose
      enumeration throws (its filter meets a path that does not parse). */
  datatype Entities = Listed(items: seq<EntityBasic>) | Faulting(error: Exception)

  /** One entity type's group in the result of a global search. */
  datatype EntityTypeSearchResult = EntityTypeSearchResult(entityType: string, results: Entities)

  /** A list-view item, as the mapper makes it from a media item. */
  datatype ContentItemBasic = ContentItemBasic(id: int, name: string)

  /** One page of a paged list. */
  datatype PagedResult = PagedResult(totalItems: int, pageNumber: int, pageSize: int, items: seq<ContentItemBasic>)

  /** The object an ObjectContent carries. */
  datatype Value =
    | NullValue
    | ItemDisplay(hierarchy: Hierarchy, id: int, path: string)   // ContentItemDisplay or MediaItemDisplay
    | EntityList(entities: Entities)                             // IEnumerable<EntityBasic>
    | SearchResults(groups: seq<EntityTypeSearchResult>)         // IEnumerable<EntityTypeSearchResult>
    | PagedItems(page: PagedResult)
    | ItemList(items: seq<ContentItemBasic>)

  /** The parts of the request the handler reads. */
  datatype Request = Request(absolutePath: string, query: string)

  /** The host services the media rewrites call: the media service's lookup by ids,
      the media types, and the mapper to list-view items. */
  datatype MediaServices = MediaServices(
    getByIds: seq<int> -> seq<IMedia>,
    mediaTypes: seq<MediaType>,
    mapper: IMedia -> ContentItemBasic)

  // ---------------------------------------------------------------- routing

  /** The rewrite strategies, one per handler method, and the pass-through. */
  datatype Rewrite =
    | ContentItemPath | MediaItemPath | Breadcrumbs | SearchAll | ContentSearch
    | ListViewStartNodes | RootChildFolders | MovedOrCopiedPath | PassThrough

  const ContentGetById := "/umbraco/backoffice/umbracoapi/content/getbyid"
  const ContentPostSave := "/umbraco/backoffice/umbracoapi/content/postsave"
  const MediaGetById := "/umbraco/backoffice/umbracoapi/media/getbyid"
  const MediaPostSave := "/umbraco/backoffice/umbracoapi/media/postsave"
  const EntityGetAncestors := "/umbraco/backoffice/umbracoapi/entity/getancestors"
  const EntitySearchAll := "/umbraco/backoffice/umbracoapi/entity/searchall"
  const EntitySearch := "/umbraco/backoffice/umbracoapi/entity/search"
  const MediaGetChildren := "/umbraco/backoffice/umbracoapi/media/getchildren"
  const MediaGetChildFolders := "/umbraco/backoffice/umbracoapi/media/getchildfolders"
  const ContentPostMove := "/umbraco/backoffice/umbracoapi/content/postmove"
  const ContentPostCopy := "/umbraco/backoffice/umbracoapi/content/postcopy"
  const MediaPostMove := "/umbraco/backoffice/umbracoapi/media/postmove"
  const MediaPostCopy := "/umbraco/backoffice/umbracoapi/media/postcopy"

  /** The twelve paths that reach a rewrite. */
  const RoutedPaths: set<string> := {
    ContentGetById, ContentPostSave, MediaGetById, MediaPostSave, EntityGetAncestors,
    EntitySearchAll, EntitySearch, MediaGetChildren, MediaGetChildFolders,
    ContentPostMove, ContentPostCopy, MediaPostMove }

  /** The switch of SendAsync on `request.RequestUri.AbsolutePath.ToLower()`. */
  function Route(absolutePath: string): (r: Rewrite)
    ensures r != PassThrough <==> Lower(absolutePath) in RoutedPaths
    ensures r == MovedOrCopiedPath <==> Lower(absolutePath) in {ContentPostMove, ContentPostCopy, MediaPostMove}
  {
    var p := Lower(absolutePath);
    if p == ContentGetById || p == ContentPostSave then ContentItemPath
    else if p == MediaGetById || p == MediaPostSave then MediaItemPath
    else if p == EntityGetAncestors then Breadcrumbs
    else if p == EntitySearchAll then SearchAll
    else if p == EntitySearch then ContentSearch
    else if p == MediaGetChildren then ListViewStartNodes
    else if p == MediaGetChildFolders then RootChildFolders
    else if p == ContentPostMove || p == ContentPostCopy || p == MediaPostMove then MovedOrCopiedPath
    else PassThrough
  }

  /** Routing ignores the case of the path. */
  lemma RouteIgnoresCase(absolutePath: string)
    ensures Route(absolutePath) == Route(Lower(absolutePath))
  {
    LowerIdempotent(absolutePath);
  }

  /** Copying a media item is not routed: its response is never rewritten. */
  lemma MediaPostCopyNotRouted(absolutePath: string)
    requires Lower(absolutePath) == MediaPostCopy
    ensures Route(absolutePath) == PassThrough
  {
    assert MediaPostCopy !in RoutedPaths;
  }

  /** The three move/copy paths name their hierarchy. */
  lemma MoveCopyPathsNameHierarchy()
    ensures Contains(ContentPostMove, "/content/") && Contains(ContentPostCopy, "/content/")
    ensures Contains(MediaPostMove, "/media/")
  {
    assert ContentPostMove[30..39] == "/content/";
    ContainsAt(ContentPostMove, "/content/", 30);
    assert ContentPostCopy[30..39] == "/content/";
    ContainsAt(ContentPostCopy, "/content/", 30);
    assert MediaPostMove[30..37] == "/media/";
    ContainsAt(MediaPostMove, "/media/", 30);
  }

  /** Every path routed to the move/copy rewrite names its hierarchy, so that
      rewrite never takes its own pass-through branch. */
  lemma MovedOrCopiedPathNamesHierarchy(absolutePath: string)
    requires Route(absolutePath) == MovedOrCopiedPath
    ensures Contains(Lower(absolutePath), "/content/") || Contains(Lower(absolutePath), "/media/")
  {
    MoveCopyPathsNameHierarchy();
  }

  // ---------------------------------------------------------------- gates

  /** The start nodes the item-path rewrite of hierarchy h runs with: none (pass
      through) for an admin or when the user's start nodes are null. */
  function ItemPathGate(h: Hierarchy, isAdmin: bool, startNodes: StartNodeCollection): (r: Option<seq<int>>)
    ensures r.None? <==> isAdmin || startNodes.Of(h).None?
    ensures r.Some? ==> r == startNodes.Of(h)
  {
    if isAdmin || startNodes.Of(h).None? then None else startNodes.Of(h)
  }

  /** The start nodes the breadcrumb rewrite runs with: the content ones when the
      query contains "type=document", else the media ones when it contains
      "type=media" (both case-sensitive), and none for an admin or a null set. */
  function BreadcrumbsGate(query: string, isAdmin: bool, startNodes: StartNodeCollection): (r: Option<seq<int>>)
    ensures !Contains(query, "type=document") && !Contains(query, "type=media") ==> r.None?
    ensures isAdmin ==> r.None?
    ensures !isAdmin && Contains(query, "type=document") ==> r == startNodes.content
    ensures !isAdmin && !Contains(query, "type=document") && Contains(query, "type=media") ==> r == startNodes.media
  {
    if Contains(query, "type=document") then (if isAdmin then None else startNodes.content)
    else if Contains(query, "type=media") then (if isAdmin then None else startNodes.media)
    else None
  }

  /** The start nodes the picker search rewrite runs with: only when the lower-cased
      query contains "type=document", and not for an admin or a null content set. */
  function ContentSearchGate(query: string, isAdmin: bool, startNodes: StartNodeCollection): (r: Option<seq<int>>)
    ensures r.Some? <==> Contains(Lower(query), "type=document") && !isAdmin && startNodes.content.Some?
    ensures r.Some? ==> r == startNodes.content
  {
    if !Contains(Lower(query), "type=document") then None
    else if isAdmin || startNodes.content.None? then None
    else startNodes.content
  }

  /** The start nodes the list-view rewrite runs with: only when the query contains
      "id=-1" and either "pageNumber=1" or pickers are limited to start nodes, and
      not for an admin or a null media set. */
  function ListViewGate(query: string, limitPickers: bool, isAdmin: bool, startNodes: StartNodeCollection): (r: Option<seq<int>>)
    ensures r.Some? <==> Contains(query, "id=-1") && (Contains(query, "pageNumber=1") || limitPickers) &&
                         !isAdmin && startNodes.media.Some?
    ensures r.Some? ==> r == startNodes.media
  {
    if Contains(query, "id=-1") && (Contains(query, "pageNumber=1") || limitPickers) then
      (if isAdmin || startNodes.media.None? then None else startNodes.media)
    else None
  }

  /** The start nodes the child-folder rewrite runs with: only when the query
      contains "id=-1", and not for an admin or a null media set. */
  function RootChildFoldersGate(query: string, isAdmin: bool, startNodes: StartNodeCollection): (r: Option<seq<int>>)
    ensures r.Some? <==> Contains(query, "id=-1") && !isAdmin && startNodes.media.Some?
    ensures r.Some? ==> r == startNodes.media
  {
    if Contains(query, "id=-1") then
      (if isAdmin || startNodes.media.None? then None else startNodes.media)
    else None
  }

  /** The start nodes the move/copy rewrite runs with: the content ones when the
      lower-cased path contains "/content/", else the media ones when it contains
      "/media/", and none for an admin or a null set. */
  function MovedOrCopiedPathGate(absolutePath: string, isAdmin: bool, startNodes: StartNodeCollection): (r: Option<seq<int>>)
    ensures isAdmin ==> r.None?
    ensures !isAdmin && Contains(Lower(absolutePath), "/content/") ==> r == startNodes.content
    ensures !isAdmin && !Contains(Lower(absolutePath), "/content/") && Contains(Lower(absolutePath), "/media/") ==>
            r == startNodes.media
    ensures !Contains(Lower(absolutePath), "/content/") && !Contains(Lower(absolutePath), "/media/") ==> r.None?
  {
    var p := Lower(absolutePath);
    if Contains(p, "/content/") then (if isAdmin then None else startNodes.content)
    else if Contains(p, "/media/") then (if isAdmin then None else startNodes.media)
    else None
  }

  // ---------------------------------------------------------------- item paths (getbyid, postsave)

  /** The path of the display the handler for h reads: `Value as ContentItemDisplay`
      (or MediaItemDisplay) after the `(ObjectContent)` cast; None where that cast
      throws or the `as` yields null. */
  function DisplayPath(h: Hierarchy, response: Response): Option<string>
  {
    match response.content
    case ObjectContent(ItemDisplay(k, _, path)) => if k == h then Some(path) else None
    case _ => None
  }

  function WithDisplayPath(response: Response, path: string): Response
    requires response.content.ObjectContent? && response.content.value.ItemDisplay?
  {
    response.(content := ObjectContent(response.content.value.(path := path)))
  }

  /** The continuation of the item handlers: Forbidden when the path contains no
      start node, then the path with the start node's ancestors removed. */
  function ItemPathRewritten(h: Hierarchy, startNodes: seq<int>, upstream: Response): (response: Response)
    ensures DisplayPath(h, upstream).None? ==> response == upstream
    ensures DisplayPath(h, upstream).Some? ==>
              var path := DisplayPath(h, upstream).value;
              match PathContainsAStartNode(path, startNodes)
              case Err(_) => response == upstream
              case Ok(false) => response == upstream.(statusCode := Forbidden)
              case Ok(true) =>
                match AncestorsRemoved(path, startNodes, 1)
                case Err(_) => response == upstream
                case Ok(q) => response == WithDisplayPath(upstream, q)
    ensures response.statusCode ==
              if DisplayPath(h, upstream).Some? &&
                 PathContainsAStartNode(DisplayPath(h, upstream).value, startNodes) == Ok(false)
              then Forbidden else upstream.statusCode
  {
    match DisplayPath(h, upstream)
    case None => upstream
    case Some(path) =>
      match PathContainsAStartNode(path, startNodes)
      case Err(_) => upstream
      case Ok(contains) =>
        var marked := if contains then upstream else upstream.(statusCode := Forbidden);
        if !contains then
          AncestorsRemovedWithoutMatch(path, ParsePath(path).value, startNodes);
          assert WithDisplayPath(marked, path) == marked;
          WithDisplayPath(marked, path)
        else
          match AncestorsRemoved(path, startNodes, 1)
          case Err(_) => marked
          case Ok(q) => WithDisplayPath(marked, q)
  }

  /** The item rewrite of a path that contains a start node and truncates to q. */
  lemma ItemPathRewrittenTo(h: Hierarchy, startNodes: seq<int>, upstream: Response, q: string)
    requires DisplayPath(h, upstream).Some?
    requires PathContainsAStartNode(DisplayPath(h, upstream).value, startNodes) == Ok(true)
    requires AncestorsRemoved(DisplayPath(h, upstream).value, startNodes, 1) == Ok(q)
    ensures ItemPathRewritten(h, startNodes, upstream) == WithDisplayPath(upstream, q)
  {
  }

  /** A first start node below the root: the status is kept and the path becomes
      the root, the start node and what follows it. */
  lemma ItemPathTruncated(h: Hierarchy, startNodes: seq<int>, upstream: Response, ids: seq<int>, i: nat)
    requires DisplayPath(h, upstream).Some? && ParsePath(DisplayPath(h, upstream).value) == Ok(ids)
    requires FirstStartNodeIndex(ids, startNodes) == Some(i) && 1 <= i && ids[i] != 0
    ensures ItemPathRewritten(h, startNodes, upstream).statusCode == upstream.statusCode
    ensures DisplayPath(h, ItemPathRewritten(h, startNodes, upstream)) == Some(JoinPath([ids[0]] + ids[i..]))
  {
    var path := DisplayPath(h, upstream).value;
    var q := JoinPath([ids[0]] + ids[i..]);
    assert FirstStartNodeIsNonZero(ids, startNodes);
    assert PathContainsAStartNode(path, startNodes) == Ok(true);
    AncestorsRemovedBelowRoot(path, ids, startNodes, i);
    ItemPathRewrittenTo(h, startNodes, upstream, q);
    assert DisplayPath(h, WithDisplayPath(upstream, q)) == Some(q);
  }

  /** A first start node at index 0 (the root is a start node): RemoveRange throws,
      and the response comes back exactly as it was, status included. */
  lemma ItemPathUntouchedAtRoot(h: Hierarchy, startNodes: seq<int>, upstream: Response, ids: seq<int>)
    requires DisplayPath(h, upstream).Some? && ParsePath(DisplayPath(h, upstream).value) == Ok(ids)
    requires FirstStartNodeIndex(ids, startNodes) == Some(0) && ids[0] != 0
    ensures ItemPathRewritten(h, startNodes, upstream) == upstream
  {
    AncestorsRemovedAtRoot(DisplayPath(h, upstream).value, ids, startNodes);
  }

  /** Rewriting an already rewritten item response changes nothing more. */
  lemma ItemPathRewriteIdempotent(h: Hierarchy, startNodes: seq<int>, upstream: Response)
    ensures ItemPathRewritten(h, startNodes, ItemPathRewritten(h, startNodes, upstream)) ==
            ItemPathRewritten(h, startNodes, upstream)
  {
    var once := ItemPathRewritten(h, startNodes, upstream);
    if DisplayPath(h, upstream).Some? {
      var path := DisplayPath(h, upstream).value;
      var contains := PathContainsAStartNode(path, startNodes);
      if contains == Ok(true) {
        var removed := AncestorsRemoved(path, startNodes, 1);
        if removed.Ok? {
          var q := removed.value;
          ItemPathRewrittenTo(h, startNodes, upstream, q);
          assert DisplayPath(h, once) == Some(q);
          AncestorsRemovedKeepsContainment(path, startNodes, q);
          AncestorsRemovedIdempotent(path, startNodes, q);
          ItemPathRewrittenTo(h, startNodes, once, q);
          assert WithDisplayPath(once, q) == once;
        }
      } else if contains == Ok(false) {
        assert once == upstream.(statusCode := Forbidden);
        assert DisplayPath(h, once) == Some(path);
      }
    }
  }

  // ---------------------------------------------------------------- filters over entities

  /** The filter `e => PathContainsAStartNode(e.Path, startNodes)`. */
  function InScope(startNodes: seq<int>): EntityBasic -> bool
  {
    (e: EntityBasic) => PathContainsAStartNode(e.path, startNodes) == Ok(true)
  }

  /** `entities.Where(e => PathContainsAStartNode(e.Path, startNodes))` fully
      enumerated: the first path that does not parse throws. */
  function WhereContainsAStartNode(es: seq<EntityBasic>, startNodes: seq<int>): (r: Result<seq<EntityBasic>>)
    ensures r.Ok? <==> forall i :: 0 <= i < |es| ==> PathContainsAStartNode(es[i].path, startNodes).Ok?
    ensures r.Ok? ==> r.value == Where(es, InScope(startNodes))
  {
    if es == [] then Ok([])
    else
      match PathContainsAStartNode(es[0].path, startNodes)
      case Err(x) => Err(x)
      case Ok(contains) =>
        match WhereContainsAStartNode(es[1..], startNodes)
        case Err(x) =>
          ghost var k :| 0 <= k < |es[1..]| && PathContainsAStartNode(es[1..][k].path, startNodes).Err?;
          assert es[1..][k] == es[k + 1];
          Err(x)
        case Ok(rest) =>
          assert forall k :: 1 <= k < |es| ==> es[k] == es[1..][k - 1];
          assert InScope(startNodes)(es[0]) == contains;
          Ok((if contains then [es[0]] else []) + rest)
  }

  /** The same filter left lazy, as `Where` without `ToList` leaves it: a path that
      does not parse throws only when the sequence is enumerated. */
  function LazyWhereContains(es: seq<EntityBasic>, startNodes: seq<int>): (r: Entities)
    ensures r.Listed? <==> forall i :: 0 <= i < |es| ==> PathContainsAStartNode(es[i].path, startNodes).Ok?
    ensures r.Listed? ==> r.items == Where(es, InScope(startNodes))
  {
    match WhereContainsAStartNode(es, startNodes)
    case Ok(kept) => Listed(kept)
    case Err(x) => Faulting(x)
  }

  /** The entity list of the response as `Value as IEnumerable<EntityBasic>` and
      `ToList()` see it; None where they throw. */
  function EntityListOf(response: Response): Option<seq<EntityBasic>>
  {
    match response.content
    case ObjectContent(EntityList(Listed(es))) => Some(es)
    case _ => None
  }

  function WithEntities(response: Response, entities: Entities): Response
  {
    response.(content := ObjectContent(EntityList(entities)))
  }

  // ---------------------------------------------------------------- breadcrumbs (getancestors)

  /** One step of the breadcrumb loop: `e.AdditionalData.Add("Hidden", !contains)`,
      which throws when the path does not parse or "Hidden" is already there. */
  function MarkedHidden(e: EntityBasic, startNodes: seq<int>): Result<EntityBasic>
  {
    match PathContainsAStartNode(e.path, startNodes)
    case Err(x) => Err(x)
    case Ok(contains) =>
      if "Hidden" in e.additionalData then Err(ArgumentException)
      else Ok(e.(additionalData := e.additionalData["Hidden" := Flag(!contains)]))
  }

  /** The index of the first entity, from index `from` on, that the breadcrumb loop fails on. */
  function FirstUnmarkable(es: seq<EntityBasic>, startNodes: seq<int>, from: nat := 0): (r: Option<nat>)
    requires from <= |es|
    ensures r.Some? ==> from <= r.value < |es| && MarkedHidden(es[r.value], startNodes).Err?
    ensures r.Some? ==> forall j :: from <= j < r.value ==> MarkedHidden(es[j], startNodes).Ok?
    ensures r.None? <==> forall j :: from <= j < |es| ==> MarkedHidden(es[j], startNodes).Ok?
    decreases |es| - from
  {
    if from == |es| then None
    else if MarkedHidden(es[from], startNodes).Err? then Some(from)
    else FirstUnmarkable(es, startNodes, from + 1)
  }

  /** The entities with the first k marked, as far as each can be marked. */
  function MarkedBefore(es: seq<EntityBasic>, startNodes: seq<int>, k: nat): (marked: seq<EntityBasic>)
    ensures |marked| == |es|
    ensures forall j :: 0 <= j < |es| && j < k && MarkedHidden(es[j], startNodes).Ok? ==>
              marked[j] == MarkedHidden(es[j], startNodes).value
    ensures forall j :: 0 <= j < |es| && !(j < k && MarkedHidden(es[j], startNodes).Ok?) ==> marked[j] == es[j]
  {
    seq(|es|, j requires 0 <= j < |es| =>
      if j < k && MarkedHidden(es[j], startNodes).Ok? then MarkedHidden(es[j], startNodes).value else es[j])
  }

  /** Marking one more entity extends the marked prefix by one. */
  lemma MarkedBeforeStep(es: seq<EntityBasic>, startNodes: seq<int>, k: nat)
    requires k < |es| && MarkedHidden(es[k], startNodes).Ok?
    ensures MarkedBefore(es, startNodes, k)[k := MarkedHidden(es[k], startNodes).value] ==
            MarkedBefore(es, startNodes, k + 1)
  {
  }

  /** The entities after the breadcrumb loop: those before the first failure carry
      Hidden = !contains, the rest are as they were (the loop stopped there). */
  function HiddenMarked(es: seq<EntityBasic>, startNodes: seq<int>): (marked: seq<EntityBasic>)
    ensures |marked| == |es|
    ensures forall j :: 0 <= j < |es| ==>
              marked[j].id == es[j].id && marked[j].name == es[j].name && marked[j].path == es[j].path
    ensures FirstUnmarkable(es, startNodes).None? ==>
              forall j :: 0 <= j < |es| ==>
                marked[j].additionalData ==
                es[j].additionalData["Hidden" := Flag(PathContainsAStartNode(es[j].path, startNodes) == Ok(false))]
    ensures FirstUnmarkable(es, startNodes).Some? ==>
              forall j :: 0 <= j < FirstUnmarkable(es, startNodes).value ==>
                marked[j].additionalData ==
                es[j].additionalData["Hidden" := Flag(PathContainsAStartNode(es[j].path, startNodes) == Ok(false))]
    ensures FirstUnmarkable(es, startNodes).Some? ==>
              forall j :: FirstUnmarkable(es, startNodes).value <= j < |es| ==> marked[j] == es[j]
  {
    match FirstUnmarkable(es, startNodes)
    case None => MarkedBefore(es, startNodes, |es|)
    case Some(k) => MarkedBefore(es, startNodes, k)
  }

  /** The continuation of the breadcrumb handler as a function of the host's response. */
  function BreadcrumbsRewritten(startNodes: seq<int>, limitPickers: bool, upstream: Response): (response: Response)
    ensures response.statusCode == upstream.statusCode
    ensures EntityListOf(upstream).None? ==> response == upstream
    ensures EntityListOf(upstream).Some? && limitPickers ==>
              var es := EntityListOf(upstream).value;
              match WhereContainsAStartNode(es, startNodes)
              case Err(_) => response == upstream
              case Ok(_) => EntityListOf(response) == Some(Where(es, InScope(startNodes)))
    ensures EntityListOf(upstream).Some? && !limitPickers ==>
              EntityListOf(response) == Some(HiddenMarked(EntityListOf(upstream).value, startNodes))
  {
    match EntityListOf(upstream)
    case None => upstream
    case Some(es) =>
      if limitPickers then
        match WhereContainsAStartNode(es, startNodes)
        case Err(_) => upstream
        case Ok(kept) => WithEntities(upstream, Listed(kept))
      else WithEntities(upstream, Listed(HiddenMarked(es, startNodes)))
  }

  /** The loop of the breadcrumb continuation when pickers are not limited: each
      entity in turn gets "Hidden" added, until one fails. The entities are shared
      with the response, so a failure part way leaves the earlier ones marked. */
  method MarkHidden(es: seq<EntityBasic>, startNodes: seq<int>) returns (entitiesList: seq<EntityBasic>)
    ensures entitiesList == HiddenMarked(es, startNodes)
  {
    entitiesList := es;
    var i := 0;
    while i < |entitiesList|
      invariant 0 <= i <= |es|
      invariant FirstUnmarkable(es, startNodes) == FirstUnmarkable(es, startNodes, i)
      invariant entitiesList == MarkedBefore(es, startNodes, i)
    {
      assert entitiesList[i] == es[i];
      var marked := MarkedHidden(entitiesList[i], startNodes);
      if marked.Err? {
        return;
      }
      MarkedBeforeStep(es, startNodes, i);
      entitiesList := entitiesList[i := marked.value];
      i := i + 1;
    }
  }

  // ---------------------------------------------------------------- global search (searchall)

  /** `groups.FirstOrDefault(e => e.EntityType == entityType)`, as an index. */
  function FirstGroupIndex(groups: seq<EntityTypeSearchResult>, entityType: string): (r: Option<nat>)
    ensures r.Some? ==> r.value < |groups| && groups[r.value].entityType == entityType
    ensures r.Some? ==> forall j :: 0 <= j < r.value ==> groups[j].entityType != entityType
    ensures r.None? <==> forall j :: 0 <= j < |groups| ==> groups[j].entityType != entityType
  {
    if groups == [] then None
    else if groups[0].entityType == entityType then Some(0)
    else
      match FirstGroupIndex(groups[1..], entityType)
      case None => None
      case Some(k) => Some(k + 1)
  }

  /** One filtering step of the global search:
      `if (set != null && group.Results.Any()) group.Results = group.Results.Where(...)`.
      A missing group with a non-null set throws. */
  function GroupFiltered(groups: seq<EntityTypeSearchResult>, entityType: string, startNodes: Option<seq<int>>)
    : (r: Result<seq<EntityTypeSearchResult>>)
    ensures startNodes.None? ==> r == Ok(groups)
    ensures startNodes.Some? && FirstGroupIndex(groups, entityType).None? ==> r.Err?
    ensures r.Ok? ==> |r.value| == |groups|
    ensures r.Ok? ==> forall j :: 0 <= j < |groups| && Some(j) != FirstGroupIndex(groups, entityType) ==>
                        r.value[j] == groups[j]
    ensures r.Ok? && startNodes.Some? ==>
              var k := FirstGroupIndex(groups, entityType).value;
              r.value[k].entityType == entityType &&
              (groups[k].results == Listed([]) ==> r.value[k] == groups[k]) &&
              (groups[k].results.Listed? && groups[k].results != Listed([]) ==>
                 r.value[k].results == LazyWhereContains(groups[k].results.items, startNodes.value))
  {
    if startNodes.None? then Ok(groups)
    else
      match FirstGroupIndex(groups, entityType)
      case None => Err(NullReference)
      case Some(k) =>
        match groups[k].results
        case Faulting(x) => Err(x)
        case Listed(rs) =>
          if |rs| == 0 then Ok(groups)
          else Ok(groups[k := groups[k].(results := LazyWhereContains(rs, startNodes.value))])
  }

  /** The groups of the response as `Value as IEnumerable<EntityTypeSearchResult>` sees them. */
  function SearchGroupsOf(response: Response): Option<seq<EntityTypeSearchResult>>
  {
    match response.content
    case ObjectContent(SearchResults(groups)) => Some(groups)
    case _ => None
  }

  function WithGroups(response: Response, groups: seq<EntityTypeSearchResult>): Response
  {
    response.(content := ObjectContent(SearchResults(groups)))
  }

  /** The continuation of the global search handler: the first "Document" group is
      filtered with the content start nodes, then the first "Media" group with the
      media ones. A failure in the second step keeps the first step's filtering,
      since the groups are shared with the response. */
  function SearchResultsRewritten(startNodes: StartNodeCollection, upstream: Response): (response: Response)
    ensures response.statusCode == upstream.statusCode
    ensures SearchGroupsOf(upstream).None? ==> response == upstream
    ensures startNodes.content.None? && startNodes.media.None? ==> response == upstream
    ensures SearchGroupsOf(upstream).Some? ==>
              var groups := SearchGroupsOf(upstream).value;
              SearchGroupsOf(response).Some? && |SearchGroupsOf(response).value| == |groups| &&
              forall j :: 0 <= j < |groups| && groups[j].entityType != "Document" && groups[j].entityType != "Media" ==>
                SearchGroupsOf(response).value[j] == groups[j]
    ensures SearchGroupsOf(upstream).Some? ==>
              var groups := SearchGroupsOf(upstream).value;
              match GroupFiltered(groups, "Document", startNodes.content)
              case Err(_) => response == upstream
              case Ok(afterContent) =>
                match GroupFiltered(afterContent, "Media", startNodes.media)
                case Err(_) => SearchGroupsOf(response) == Some(afterContent)
                case Ok(afterMedia) => SearchGroupsOf(response) == Some(afterMedia)
  {
    match SearchGroupsOf(upstream)
    case None => upstream
    case Some(groups) =>
      match GroupFiltered(groups, "Document", startNodes.content)
      case Err(_) => upstream
      case Ok(afterContent) =>
        match GroupFiltered(afterContent, "Media", startNodes.media)
        case Err(_) => WithGroups(upstream, afterContent)
        case Ok(afterMedia) =>
          assert startNodes.content.None? && startNodes.media.None? ==> WithGroups(upstream, afterMedia) == upstream;
          WithGroups(upstream, afterMedia)
  }

  // ---------------------------------------------------------------- picker search (search)

  /** The continuation of the picker search handler: the entity list is replaced by
      its lazy filter on the content start nodes. */
  function ContentSearchRewritten(startNodes: seq<int>, upstream: Response): (response: Response)
    ensures response.statusCode == upstream.statusCode
    ensures EntityListOf(upstream).None? ==> response == upstream
    ensures EntityListOf(upstream).Some? ==>
              var es := EntityListOf(upstream).value;
              ((forall i :: 0 <= i < |es| ==> PathContainsAStartNode(es[i].path, startNodes).Ok?) ==>
                 EntityListOf(response) == Some(Where(es, InScope(startNodes)))) &&
              ((exists i :: 0 <= i < |es| && PathContainsAStartNode(es[i].path, startNodes).Err?) ==>
                 response.content.ObjectContent? && response.content.value.EntityList? &&
                 response.content.value.entities.Faulting?)
  {
    match EntityListOf(upstream)
    case None => upstream
    case Some(es) => WithEntities(upstream, LazyWhereContains(es, startNodes))
  }

  // ---------------------------------------------------------------- list view (getchildren)

  /** `items.Select(Mapper.Map)`. */
  function MapAll(items: seq<IMedia>, mapper: IMedia -> ContentItemBasic): (r: seq<ContentItemBasic>)
    ensures |r| == |items|
    ensures forall i :: 0 <= i < |items| ==> r[i] == mapper(items[i])
  {
    seq(|items|, i requires 0 <= i < |items| => mapper(items[i]))
  }

  /** The continuation of the list-view handler: whatever the object content was,
      it becomes page 1 of a list of the start nodes, fetched by id and mapped,
      whose total and page size are the number of start nodes. */
  function ListViewRewritten(startNodes: seq<int>, services: MediaServices, upstream: Response): (response: Response)
    ensures response.statusCode == upstream.statusCode
    ensures !upstream.content.ObjectContent? ==> response == upstream
    ensures upstream.content.ObjectContent? ==>
              response.content.ObjectContent? && response.content.value.PagedItems? &&
              var page := response.content.value.page;
              page.pageNumber == 1 && page.totalItems == |startNodes| && page.pageSize == |startNodes| &&
              |page.items| == |services.getByIds(startNodes)| &&
              forall i :: 0 <= i < |page.items| ==> page.items[i] == services.mapper(services.getByIds(startNodes)[i])
  {
    match upstream.content
    case ObjectContent(_) =>
      var itemCount := |startNodes|;
      var startIMedia := services.getByIds(startNodes);
      upstream.(content := ObjectContent(PagedItems(PagedResult(itemCount, 1, itemCount, MapAll(startIMedia, services.mapper)))))
    case _ => upstream
  }

  // ---------------------------------------------------------------- root child folders (getchildfolders)

  /** The ids of the media types whose alias ends with "Folder". */
  function FolderTypeIds(mediaTypes: seq<MediaType>): (r: seq<int>)
    ensures forall id :: id in r <==> exists t :: t in mediaTypes && t.id == id && EndsWith(t.alias, "Folder")
  {
    if mediaTypes == [] then []
    else (if EndsWith(mediaTypes[0].alias, "Folder") then [mediaTypes[0].id] else []) + FolderTypeIds(mediaTypes[1..])
  }

  function IsOfType(typeIds: seq<int>): IMedia -> bool
  {
    (m: IMedia) => m.contentTypeId in typeIds
  }

  /** The start-node media whose type is a folder type, in lookup order. */
  function FolderStartNodes(startNodes: seq<int>, services: MediaServices): (r: seq<IMedia>)
    ensures forall m :: m in r <==>
              m in services.getByIds(startNodes) &&
              exists t :: t in services.mediaTypes && t.id == m.contentTypeId && EndsWith(t.alias, "Folder")
  {
    Where(services.getByIds(startNodes), IsOfType(FolderTypeIds(services.mediaTypes)))
  }

  /** The continuation of the child-folder handler: whatever the object content
      was, it becomes the mapped folder start nodes. */
  function RootChildFoldersRewritten(startNodes: seq<int>, services: MediaServices, upstream: Response): (response: Response)
    ensures response.statusCode == upstream.statusCode
    ensures !upstream.content.ObjectContent? ==> response == upstream
    ensures upstream.content.ObjectContent? ==>
              response.content == ObjectContent(ItemList(MapAll(FolderStartNodes(startNodes, services), services.mapper)))
  {
    match upstream.content
    case ObjectContent(_) =>
      upstream.(content := ObjectContent(ItemList(MapAll(FolderStartNodes(startNodes, services), services.mapper))))
    case _ => upstream
  }

  // ---------------------------------------------------------------- move and copy (postmove, postcopy)

  /** The continuation of the move/copy handler: the text body is a path, and it is
      replaced by that path with the start node's ancestors removed. */
  function MovedOrCopiedPathRewritten(startNodes: seq<int>, upstream: Response): (response: Response)
    ensures response.statusCode == upstream.statusCode
    ensures !upstream.content.StringContent? ==> response == upstream
    ensures upstream.content.StringContent? ==>
              match AncestorsRemoved(upstream.content.text, startNodes, 1)
              case Err(_) => response == upstream
              case Ok(q) => response.content == StringContent(q)
  {
    match upstream.content
    case StringContent(path) =>
      (match AncestorsRemoved(path, startNodes, 1)
       case Err(_) => upstream
       case Ok(q) => upstream.(content := StringContent(q)))
    case _ => upstream
  }

  /** Rewriting a moved path twice is rewriting it once. */
  lemma MovedOrCopiedPathRewriteIdempotent(startNodes: seq<int>, upstream: Response)
    ensures MovedOrCopiedPathRewritten(startNodes, MovedOrCopiedPathRewritten(startNodes, upstream)) ==
            MovedOrCopiedPathRewritten(startNodes, upstream)
  {
    if upstream.content.StringContent? {
      match AncestorsRemoved(upstream.content.text, startNodes, 1)
      case Err(_) =>
      case Ok(q) => AncestorsRemovedIdempotent(upstream.content.text, startNodes, q);
    }
  }

  // ---------------------------------------------------------------- the dispatcher

  function Rewritten(gate: Option<seq<int>>, upstream: Response, rewrite: seq<int> -> Response): Response
  {
    match gate
    case None => upstream
    case Some(s) => rewrite(s)
  }

  /** SendAsync: route on the path, let the selected handler's gate decide, and
      rewrite the host's response with the selected continuation. */
  function SendAsync(request: Request, isAdmin: bool, startNodes: StartNodeCollection, limitPickers: bool,
                     services: MediaServices, upstream: Response): (response: Response)
    ensures Route(request.absolutePath) == PassThrough ==> response == upstream
    ensures isAdmin ==> response == upstream
  {
    match Route(request.absolutePath)
    case ContentItemPath =>
      Rewritten(ItemPathGate(Content, isAdmin, startNodes), upstream, s => ItemPathRewritten(Content, s, upstream))
    case MediaItemPath =>
      Rewritten(ItemPathGate(Media, isAdmin, startNodes), upstream, s => ItemPathRewritten(Media, s, upstream))
    case Breadcrumbs =>
      Rewritten(BreadcrumbsGate(request.query, isAdmin, startNodes), upstream,
                s => BreadcrumbsRewritten(s, limitPickers, upstream))
    case SearchAll =>
      if isAdmin then upstream else SearchResultsRewritten(startNodes, upstream)
    case ContentSearch =>
      Rewritten(ContentSearchGate(request.query, isAdmin, startNodes), upstream, s => ContentSearchRewritten(s, upstream))
    case ListViewStartNodes =>
      Rewritten(ListViewGate(request.query, limitPickers, isAdmin, startNodes), upstream,
                s => ListViewRewritten(s, services, upstream))
    case RootChildFolders =>
      Rewritten(RootChildFoldersGate(request.query, isAdmin, startNodes), upstream,
                s => RootChildFoldersRewritten(s, services, upstream))
    case MovedOrCopiedPath =>
      Rewritten(MovedOrCopiedPathGate(request.absolutePath, isAdmin, startNodes), upstream,
                s => MovedOrCopiedPathRewritten(s, upstream))
    case PassThrough => upstream
  }

  /** A user with neither content nor media start nodes configured gets every
      response as the host produced it: no gate opens without a start-node set,
      and the global search filters only groups whose set is configured. */
  lemma UnsetStartNodesPassThrough(request: Request, isAdmin: bool, startNodes: StartNodeCollection, limitPickers: bool,
                                   services: MediaServices, upstream: Response)
    requires startNodes.content.None? && startNodes.media.None?
    ensures SendAsync(request, isAdmin, startNodes, limitPickers, services, upstream) == upstream
  {
    match Route(request.absolutePath)
    case SearchAll =>
    case Breadcrumbs => assert BreadcrumbsGate(request.query, isAdmin, startNodes).None?;
    case MovedOrCopiedPath => assert MovedOrCopiedPathGate(request.absolutePath, isAdmin, startNodes).None?;
    case _ =>
  }

  /** Only the item routes change the status code, and only to Forbidden. */
  lemma OnlyItemRoutesForbid(request: Request, isAdmin: bool, startNodes: StartNodeCollection, limitPickers: bool,
                             services: MediaServices, upstream: Response)
    ensures var response := SendAsync(request, isAdmin, startNodes, limitPickers, services, upstream);
            response.statusCode != upstream.statusCode ==>
              response.statusCode == Forbidden &&
              (Route(request.absolutePath) == ContentItemPath || Route(request.absolutePath) == MediaItemPath)
  {
    var response := SendAsync(request, isAdmin, startNodes, limitPickers, services, upstream);
    match Route(request.absolutePath)
    case ContentItemPath =>
      var gate := ItemPathGate(Content, isAdmin, startNodes);
      if gate.Some? {
        assert response == ItemPathRewritten(Content, gate.value, upstream);
      }
    case MediaItemPath =>
      var gate := ItemPathGate(Media, isAdmin, startNodes);
      if gate.Some? {
        assert response == ItemPathRewritten(Media, gate.value, upstream);
      }
    case Breadcrumbs =>
      var gate := BreadcrumbsGate(request.query, isAdmin, startNodes);
      if gate.Some? {
        assert response == BreadcrumbsRewritten(gate.value, limitPickers, upstream);
      }
    case SearchAll =>
      if !isAdmin {
        assert response == SearchResultsRewritten(startNodes, upstream);
      }
    case ContentSearch =>
      var gate := ContentSearchGate(request.query, isAdmin, startNodes);
      if gate.Some? {
        assert response == ContentSearchRewritten(gate.value, upstream);
      }
    case ListViewStartNodes =>
      var gate := ListViewGate(request.query, limitPickers, isAdmin, startNodes);
      if gate.Some? {
        assert response == ListViewRewritten(gate.value, services, upstream);
      }
    case RootChildFolders =>
      var gate := RootChildFoldersGate(request.query, isAdmin, startNodes);
      if gate.Some? {
        assert response == RootChildFoldersRewritten(gate.value, services, upstream);
      }
    case MovedOrCopiedPath =>
      var gate := MovedOrCopiedPathGate(request.absolutePath, isAdmin, startNodes);
      if gate.Some? {
        assert response == MovedOrCopiedPathRewritten(gate.value, upstream);
      }
    case PassThrough =>
  }
}
