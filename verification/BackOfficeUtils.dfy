/** The back-office event hooks: rendering a user's start nodes as the roots of
    the content and media trees, hiding delete/move/copy on a start node's menu,
    and refusing an upload outside the user's media start nodes. The per-user
    start-node lookup is passed in, as are the host's entity lookup by ids. */
module BackOfficeUtils {
  import opened Runtime
  import opened Host
  import opened Paths

  // ---------------------------------------------------------------- values

  /** One query-string parameter of the tree request. */
  datatype QueryString = QueryString(key: string, value: string)

  /** A tree node as the tree controller creates it and the hooks then adjust.
      `routePath` is None until a hook sets it; `containerStyle` records whether
      the node was given the container style. */
  datatype TreeNode = TreeNode(
    id: string,
    parentId: string,
    name: string,
    icon: string,
    hasChildren: bool,
    routePath: Option<string>,
    containerStyle: bool,
    additionalData: map<string, Data>)

  /** A start node as the entity service's GetAll returns it. */
  datatype UmbracoEntity = UmbracoEntity(
    id: int,
    name: string,
    contentTypeIcon: string,
    contentTypeAlias: string,
    hasChildren: bool,
    additionalData: map<string, Data>)

  /** An entry of a node's context menu. */
  datatype MenuItem = MenuItem(alias: string, name: string)

  /** A message attached to a cancelled save. */
  datatype EventMessage = EventMessage(category: string, message: string)

  const PermissionDenied: EventMessage :=
    EventMessage("Permission Denied", "You do not have permission to upload files to this folder.")

  // ---------------------------------------------------------------- event arguments and services

  /** The arguments of the tree-rendering event: the nodes about to be rendered,
      which a hook may replace, and the request's query string. */
  class TreeNodesRenderingEventArgs {
    var nodes: seq<TreeNode>
    const queryStrings: seq<QueryString>

    constructor (nodes: seq<TreeNode>, queryStrings: seq<QueryString>)
      ensures this.nodes == nodes && this.queryStrings == queryStrings
    {
      this.nodes := nodes;
      this.queryStrings := queryStrings;
    }
  }

  /** The arguments of the menu-rendering event: the node's id as text and its menu items. */
  class MenuRenderingEventArgs {
    const nodeId: string
    var menuItems: seq<MenuItem>

    constructor (nodeId: string, menuItems: seq<MenuItem>)
      ensures this.nodeId == nodeId && this.menuItems == menuItems
    {
      this.nodeId := nodeId;
      this.menuItems := menuItems;
    }
  }

  /** The arguments of the media service's Saving event. */
  class SaveEventArgs {
    const savedEntities: seq<IMedia>
    var canCancel: bool
    var cancel: bool
    var messages: seq<EventMessage>

    constructor (savedEntities: seq<IMedia>)
      ensures this.savedEntities == savedEntities
      ensures !canCancel && !cancel && messages == []
    {
      this.savedEntities := savedEntities;
      canCancel := false;
      cancel := false;
      messages := [];
    }

    /** Cancels the save with a message; only a cancellable event can be cancelled. */
    method CancelOperation(message: EventMessage)
      requires canCancel
      modifies this
      ensures canCancel && cancel && messages == old(messages) + [message]
    {
      cancel := true;
      messages := messages + [message];
    }
  }

  /** The media service, as far as the hooks use it: the items deleted through it, in order. */
  class MediaService {
    var deleted: seq<IMedia>

    constructor ()
      ensures deleted == []
    {
      deleted := [];
    }

    method Delete(media: IMedia)
      modifies this
      ensures deleted == old(deleted) + [media]
    {
      deleted := deleted + [media];
    }
  }

  // ---------------------------------------------------------------- query strings

  /** The values of the parameters named key, compared without regard to case, in order. */
  function QueryValues(queryStrings: seq<QueryString>, key: string): (r: seq<string>)
    ensures forall v :: v in r <==> exists q :: q in queryStrings && Lower(q.key) == Lower(key) && q.value == v
  {
    if queryStrings == [] then []
    else
      (if Lower(queryStrings[0].key) == Lower(key) then [queryStrings[0].value] else []) +
      QueryValues(queryStrings[1..], key)
  }

  /** `queryStrings.Get(key)`: null when no parameter has that name, otherwise its
      values joined with ','. */
  function QueryGet(queryStrings: seq<QueryString>, key: string): (r: Option<string>)
    ensures r.None? <==> forall q :: q in queryStrings ==> Lower(q.key) != Lower(key)
  {
    var values := QueryValues(queryStrings, key);
    if values == [] then
      assert forall q :: q in queryStrings ==> Lower(q.key) != Lower(key) by {
        forall q | q in queryStrings ensures Lower(q.key) != Lower(key) {
          assert q.value !in values;
        }
      }
      None
    else
      assert values[0] in values;
      Some(Join(',', values))
  }

  /** `Get("isDialog") == "true"` holds exactly when there is one isDialog
      parameter, in any case, and its value is "true": a second one, even "true",
      makes the joined value "true,true". */
  lemma IsDialogExactlyOne(queryStrings: seq<QueryString>)
    ensures QueryGet(queryStrings, "isDialog") == Some("true") <==> QueryValues(queryStrings, "isDialog") == ["true"]
  {
    var values := QueryValues(queryStrings, "isDialog");
    if |values| >= 2 {
      var joined := Join(',', values);
      assert joined == values[0] + [','] + Join(',', values[1..]);
      assert joined[|values[0]|] == ',';
      assert ',' !in "true";
      assert joined != "true";
    }
  }

  /** The AdditionalData of a node after AddQueryStringsToAdditionalData: each
      parameter in order is added unless its key is already there. */
  function QueryStringsAdded(data: map<string, Data>, queryStrings: seq<QueryString>): (r: map<string, Data>)
    ensures r.Keys == data.Keys + set q | q in queryStrings :: q.key
    ensures forall k :: k in data ==> r[k] == data[k]
    decreases |queryStrings|
  {
    if queryStrings == [] then data
    else
      var q := queryStrings[0];
      var next := if q.key in data then data else data[q.key := Str(q.value)];
      assert (set x | x in queryStrings :: x.key) == {q.key} + set x | x in queryStrings[1..] :: x.key;
      QueryStringsAdded(next, queryStrings[1..])
  }

  /** A key that was absent takes the value of the first parameter with that key. */
  lemma {:induction false} QueryStringsAddedFirstWins(data: map<string, Data>, queryStrings: seq<QueryString>, i: nat)
    requires i < |queryStrings| && queryStrings[i].key !in data
    requires forall j :: 0 <= j < i ==> queryStrings[j].key != queryStrings[i].key
    ensures QueryStringsAdded(data, queryStrings)[queryStrings[i].key] == Str(queryStrings[i].value)
    decreases i
  {
    var q := queryStrings[0];
    var next := if q.key in data then data else data[q.key := Str(q.value)];
    if i == 0 {
      assert next[q.key] == Str(q.value);
    } else {
      assert queryStrings[1..][i - 1] == queryStrings[i];
      QueryStringsAddedFirstWins(next, queryStrings[1..], i - 1);
    }
  }

  /** AddQueryStringsToAdditionalData: adds each parameter not yet present to the
      node's AdditionalData, checking presence again before each one. */
  method AddQueryStringsToAdditionalData(node: TreeNode, queryStrings: seq<QueryString>) returns (updated: TreeNode)
    ensures updated == node.(additionalData := updated.additionalData)
    ensures updated.additionalData == QueryStringsAdded(node.additionalData, queryStrings)
  {
    updated := node;
    var i := 0;
    while i < |queryStrings|
      invariant 0 <= i <= |queryStrings|
      invariant updated == node.(additionalData := updated.additionalData)
      invariant QueryStringsAdded(updated.additionalData, queryStrings[i..]) ==
                QueryStringsAdded(node.additionalData, queryStrings)
    {
      var q := queryStrings[i];
      if q.key !in updated.additionalData {
        updated := updated.(additionalData := updated.additionalData[q.key := Str(q.value)]);
      }
      assert queryStrings[i..][1..] == queryStrings[i + 1..];
      i := i + 1;
    }
    assert queryStrings[i..] == [];
  }

  // ---------------------------------------------------------------- tree nodes

  /** An entity is a container when its AdditionalData has "IsContainer" printing as "True". */
  predicate IsContainer(entity: UmbracoEntity)
  {
    "IsContainer" in entity.additionalData && DataToString(entity.additionalData["IsContainer"]) == "True"
  }

  /** The node the tree controller's CreateTreeNode returns: no AdditionalData,
      no route path, no container style. */
  function NewTreeNode(id: string, parentId: string, name: string, icon: string, hasChildren: bool): TreeNode
  {
    TreeNode(id, parentId, name, icon, hasChildren, None, false, map[])
  }

  /** The content-tree node rendered for a start-node entity. */
  function ContentTreeNode(entity: UmbracoEntity, queryStrings: seq<QueryString>): (node: TreeNode)
    ensures node.id == IntToString(entity.id) && node.parentId == "-1"
    ensures node.name == entity.name && node.icon == entity.contentTypeIcon
    ensures node.hasChildren <==> entity.hasChildren && !IsContainer(entity)
    ensures node.routePath == Some("#") <==> QueryValues(queryStrings, "isDialog") == ["true"]
    ensures node.routePath.Some? ==> node.routePath == Some("#")
    ensures node.additionalData.Keys == set q | q in queryStrings :: q.key
    ensures node.additionalData == QueryStringsAdded(map[], queryStrings)
    ensures !node.containerStyle
  {
    var created := NewTreeNode(IntToString(entity.id), "-1", entity.name, entity.contentTypeIcon,
                               entity.hasChildren && !IsContainer(entity));
    var node := created.(additionalData := QueryStringsAdded(created.additionalData, queryStrings));
    IsDialogExactlyOne(queryStrings);
    if QueryGet(queryStrings, "isDialog") == Some("true") then node.(routePath := Some("#")) else node
  }

  /** The media-tree node rendered for a start-node entity: its content type is
      recorded, and a container gets the container style and an "isContainer" flag. */
  function MediaTreeNode(entity: UmbracoEntity): (node: TreeNode)
    ensures node.id == IntToString(entity.id) && node.parentId == "-1"
    ensures node.name == entity.name && node.icon == entity.contentTypeIcon
    ensures node.hasChildren <==> entity.hasChildren && !IsContainer(entity)
    ensures node.routePath.None?
    ensures node.containerStyle <==> IsContainer(entity)
    ensures "contentType" in node.additionalData && node.additionalData["contentType"] == Str(entity.contentTypeAlias)
    ensures "isContainer" in node.additionalData <==> IsContainer(entity)
    ensures IsContainer(entity) ==> node.additionalData["isContainer"] == Flag(true)
    ensures node.additionalData.Keys <= {"contentType", "isContainer"}
  {
    var isContainer := IsContainer(entity);
    var created := NewTreeNode(IntToString(entity.id), "-1", entity.name, entity.contentTypeIcon,
                               entity.hasChildren && !isContainer);
    var typed := created.(additionalData := created.additionalData["contentType" := Str(entity.contentTypeAlias)]);
    if isContainer then
      var styled := typed.(containerStyle := true);
      styled.(additionalData := styled.additionalData["isContainer" := Flag(true)])
    else typed
  }

  /** RenderContentStartNodes: a user without content start nodes sees an empty
      tree; one whose start nodes include the root, or are empty, sees the tree as
      it was; anyone else sees exactly their start nodes as top-level nodes, in the
      order the entity service returns them. */
  method RenderContentStartNodes(startNodes: Option<seq<int>>, getAll: seq<int> -> seq<UmbracoEntity>,
                                 e: TreeNodesRenderingEventArgs)
    modifies e
    ensures startNodes.None? ==> e.nodes == []
    ensures startNodes.Some? && (RootId in startNodes.value || startNodes.value == []) ==> e.nodes == old(e.nodes)
    ensures startNodes.Some? && RootId !in startNodes.value && startNodes.value != [] ==>
              var entities := getAll(startNodes.value);
              |e.nodes| == |entities| &&
              forall i :: 0 <= i < |entities| ==> e.nodes[i] == ContentTreeNode(entities[i], e.queryStrings)
  {
    if startNodes.None? {
      e.nodes := [];
      return;
    }
    if RootId in startNodes.value {
      return;
    }
    if |startNodes.value| > 0 {
      e.nodes := [];
      var startNodesEntities := getAll(startNodes.value);
      var i := 0;
      while i < |startNodesEntities|
        invariant 0 <= i <= |startNodesEntities| && |e.nodes| == i
        invariant forall j :: 0 <= j < i ==> e.nodes[j] == ContentTreeNode(startNodesEntities[j], e.queryStrings)
      {
        var entity := startNodesEntities[i];
        var isContainer := IsContainer(entity);
        var node := NewTreeNode(IntToString(entity.id), "-1", entity.name, entity.contentTypeIcon,
                                entity.hasChildren && !isContainer);
        node := AddQueryStringsToAdditionalData(node, e.queryStrings);
        if QueryGet(e.queryStrings, "isDialog") == Some("true") {
          node := node.(routePath := Some("#"));
        }
        assert node == ContentTreeNode(entity, e.queryStrings);
        e.nodes := e.nodes + [node];
        i := i + 1;
      }
    }
  }

  /** RenderMediaStartNodes: the same three cases for the media tree. */
  method RenderMediaStartNodes(startNodes: Option<seq<int>>, getAll: seq<int> -> seq<UmbracoEntity>,
                               e: TreeNodesRenderingEventArgs)
    modifies e
    ensures startNodes.None? ==> e.nodes == []
    ensures startNodes.Some? && (RootId in startNodes.value || startNodes.value == []) ==> e.nodes == old(e.nodes)
    ensures startNodes.Some? && RootId !in startNodes.value && startNodes.value != [] ==>
              var entities := getAll(startNodes.value);
              |e.nodes| == |entities| &&
              forall i :: 0 <= i < |entities| ==> e.nodes[i] == MediaTreeNode(entities[i])
  {
    if startNodes.None? {
      e.nodes := [];
      return;
    }
    if RootId in startNodes.value {
      return;
    }
    if |startNodes.value| > 0 {
      e.nodes := [];
      var startNodesEntities := getAll(startNodes.value);
      var i := 0;
      while i < |startNodesEntities|
        invariant 0 <= i <= |startNodesEntities| && |e.nodes| == i
        invariant forall j :: 0 <= j < i ==> e.nodes[j] == MediaTreeNode(startNodesEntities[j])
      {
        var entity := startNodesEntities[i];
        var isContainer := IsContainer(entity);
        var node := NewTreeNode(IntToString(entity.id), "-1", entity.name, entity.contentTypeIcon,
                                entity.hasChildren && !isContainer);
        node := node.(additionalData := node.additionalData["contentType" := Str(entity.contentTypeAlias)]);
        if isContainer {
          node := node.(containerStyle := true);
          node := node.(additionalData := node.additionalData["isContainer" := Flag(true)]);
        }
        assert node == MediaTreeNode(entity);
        e.nodes := e.nodes + [node];
        i := i + 1;
      }
    }
  }

  // ---------------------------------------------------------------- context menus

  const ContentPreventedActions: seq<string> := ["delete", "move", "copy"]
  const MediaPreventedActions: seq<string> := ["delete", "move"]

  /** `items.RemoveAll(i => aliases.Contains(i.Alias))`: the items whose alias is not
      one of aliases, in their order. */
  function WithoutActions(items: seq<MenuItem>, aliases: seq<string>): (r: seq<MenuItem>)
    ensures |r| <= |items|
    ensures forall m :: m in r <==> m in items && m.alias !in aliases
  {
    Where(items, (m: MenuItem) => m.alias !in aliases)
  }

  /** RemoveAll keeps the order of the remaining items: removing from a menu
      split in two is removing from each part, and one item is kept exactly when
      its alias is not prevented. */
  lemma WithoutActionsKeepsOrder(front: seq<MenuItem>, back: seq<MenuItem>, m: MenuItem, aliases: seq<string>)
    ensures WithoutActions(front + back, aliases) == WithoutActions(front, aliases) + WithoutActions(back, aliases)
    ensures WithoutActions([m], aliases) == if m.alias in aliases then [] else [m]
  {
    WhereAppend(front, back, (m: MenuItem) => m.alias !in aliases);
    assert [m][1..] == [];
  }

  /** Whether a node's menu is restricted: the start nodes are set and include the
      node's id; the id is parsed only when the start nodes are set. */
  function IsStartNodeMenu(startNodes: Option<seq<int>>, nodeId: string): (r: Result<bool>)
    ensures startNodes.None? ==> r == Ok(false)
    ensures startNodes.Some? && ParseInt(nodeId).Err? ==> r == Err(ParseInt(nodeId).error)
    ensures startNodes.Some? && ParseInt(nodeId).Ok? ==> r == Ok(ParseInt(nodeId).value in startNodes.value)
  {
    if startNodes.None? then Ok(false)
    else
      match ParseInt(nodeId)
      case Err(x) => Err(x)
      case Ok(id) => Ok(id in startNodes.value)
  }

  /** RestrictContentStartNodeOptions: on a content start node's menu, delete, move
      and copy are removed; elsewhere the menu is untouched. A node id that does not
      parse throws. */
  method RestrictContentStartNodeOptions(startNodes: Option<seq<int>>, e: MenuRenderingEventArgs)
    returns (thrown: Option<Exception>)
    modifies e
    ensures thrown.Some? <==> IsStartNodeMenu(startNodes, e.nodeId).Err?
    ensures thrown.Some? ==> thrown.value == IsStartNodeMenu(startNodes, e.nodeId).error
    ensures e.menuItems == if IsStartNodeMenu(startNodes, e.nodeId) == Ok(true)
                           then WithoutActions(old(e.menuItems), ContentPreventedActions)
                           else old(e.menuItems)
  {
    thrown := None;
    match IsStartNodeMenu(startNodes, e.nodeId)
    case Err(x) => thrown := Some(x);
    case Ok(restricted) =>
      if restricted {
        e.menuItems := WithoutActions(e.menuItems, ContentPreventedActions);
      }
  }

  /** RestrictMediaStartNodeOptions: on a media start node's menu, delete and move
      are removed (copy stays); elsewhere the menu is untouched. */
  method RestrictMediaStartNodeOptions(startNodes: Option<seq<int>>, e: MenuRenderingEventArgs)
    returns (thrown: Option<Exception>)
    modifies e
    ensures thrown.Some? <==> IsStartNodeMenu(startNodes, e.nodeId).Err?
    ensures thrown.Some? ==> thrown.value == IsStartNodeMenu(startNodes, e.nodeId).error
    ensures e.menuItems == if IsStartNodeMenu(startNodes, e.nodeId) == Ok(true)
                           then WithoutActions(old(e.menuItems), MediaPreventedActions)
                           else old(e.menuItems)
  {
    thrown := None;
    match IsStartNodeMenu(startNodes, e.nodeId)
    case Err(x) => thrown := Some(x);
    case Ok(restricted) =>
      if restricted {
        e.menuItems := WithoutActions(e.menuItems, MediaPreventedActions);
      }
  }

  // ---------------------------------------------------------------- uploads

  /** Whether ValidateNodeAcess refuses a save: Ok(true) to refuse, Ok(false) to let
      it through, Err where it throws. Only the first saved item is examined: an
      empty save dereferences null, an item that already exists is let through, a
      null media set throws in Contains, the root as a start node lets everything
      through, and otherwise the item's path decides. */
  function UploadRefused(startNodes: Option<seq<int>>, saved: seq<IMedia>): (r: Result<bool>)
    ensures saved == [] ==> r == Err(NullReference)
    ensures saved != [] && saved[0].hasIdentity ==> r == Ok(false)
    ensures saved != [] && !saved[0].hasIdentity && startNodes.None? ==> r == Err(ArgumentNull)
    ensures r == Ok(true) <==>
              saved != [] && !saved[0].hasIdentity && startNodes.Some? && RootId !in startNodes.value &&
              PathContainsAStartNode(saved[0].path, startNodes.value) == Ok(false)
    ensures r.Err? && saved != [] && !saved[0].hasIdentity && startNodes.Some? ==>
              RootId !in startNodes.value && PathContainsAStartNode(saved[0].path, startNodes.value).Err?
  {
    if saved == [] then Err(NullReference)
    else
      var firstItem := saved[0];
      if firstItem.hasIdentity then Ok(false)
      else if startNodes.None? then Err(ArgumentNull)
      else if RootId in startNodes.value then Ok(false)
      else
        match PathContainsAStartNode(firstItem.path, startNodes.value)
        case Err(x) => Err(x)
        case Ok(contains) => Ok(!contains)
  }

  /** A new upload into a folder below one of the user's media start nodes is let
      through (0, which the source reads as "no match", not being a start node). */
  lemma UploadBelowStartNodeAllowed(startNodes: seq<int>, saved: seq<IMedia>, ids: seq<int>, i: nat)
    requires saved != [] && !saved[0].hasIdentity
    requires ParsePath(saved[0].path) == Ok(ids)
    requires 0 !in startNodes && i < |ids| && ids[i] in startNodes
    ensures UploadRefused(Some(startNodes), saved) == Ok(false)
  {
    ContainsAnyStartNode(saved[0].path, ids, startNodes);
  }

  /** ValidateNodeAcess: when the save is refused it is cancelled with a
      "Permission Denied" message and every saved item is deleted; otherwise
      nothing changes. */
  method ValidateNodeAcess(startNodes: Option<seq<int>>, sender: MediaService, e: SaveEventArgs)
    returns (thrown: Option<Exception>)
    modifies sender, e
    ensures thrown.Some? <==> UploadRefused(startNodes, e.savedEntities).Err?
    ensures thrown.Some? ==> thrown.value == UploadRefused(startNodes, e.savedEntities).error
    ensures UploadRefused(startNodes, e.savedEntities) == Ok(true) ==>
              e.canCancel && e.cancel && e.messages == old(e.messages) + [PermissionDenied] &&
              sender.deleted == old(sender.deleted) + e.savedEntities
    ensures UploadRefused(startNodes, e.savedEntities) != Ok(true) ==>
              e.canCancel == old(e.canCancel) && e.cancel == old(e.cancel) && e.messages == old(e.messages) &&
              sender.deleted == old(sender.deleted)
  {
    thrown := None;
    match UploadRefused(startNodes, e.savedEntities)
    case Err(x) => thrown := Some(x);
    case Ok(refused) =>
      if refused {
        e.canCancel := true;
        e.CancelOperation(PermissionDenied);
        var i := 0;
        while i < |e.savedEntities|
          invariant 0 <= i <= |e.savedEntities|
          invariant sender.deleted == old(sender.deleted) + e.savedEntities[..i]
          invariant e.canCancel && e.cancel && e.messages == old(e.messages) + [PermissionDenied]
        {
          sender.Delete(e.savedEntities[i]);
          assert e.savedEntities[..i + 1] == e.savedEntities[..i] + [e.savedEntities[i]];
          i := i + 1;
        }
        assert e.savedEntities[..i] == e.savedEntities;
      }
  }
}
