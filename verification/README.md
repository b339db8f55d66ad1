# Multiple start nodes — access-control core in Dafny

This project models the start-node access control of the MultipleStartNodes
add-on for the Umbraco back office. A user may be given several start nodes in
the content tree and in the media tree. Two pieces of code enforce them:

- **The response-rewriting message handler** (`WebApiHandler`). Every
  back-office API call passes through it. Twelve lower-cased paths select one
  of eight rewrites; every other path goes on unchanged. Each rewrite first
  checks the admin flag, the user's start nodes and the query string. When
  the host has answered, the rewrite then:
  - marks an item Forbidden and shortens its ancestor path;
  - filters or marks breadcrumbs;
  - filters search results;
  - replaces a media list-view page or a child-folder list;
  - shortens a moved or copied item's path.
- **The back-office event hooks** (`BackOfficeUtils`). They:
  - render a user's start nodes as the roots of the content and media trees;
  - remove delete/move/copy from a start node's context menu;
  - cancel media uploads outside the user's media start nodes.

A node's path is the comma-separated list of its ancestors' ids, root (`-1`)
first. A path *contains a start node* when the first id on it that is also a
start node is not 0. Removing the ancestors keeps the root and joins it to that
start node and everything after it.

Modules:

- `Runtime.dfy`: the .NET library behaviour the code relies on. This covers
  `int.Parse`, `int.ToString`, `string.Split`/`Join`, `ToLower`, ordinal
  `Contains`/`StartsWith`, `EndsWith` (also ordinal in the model), LINQ `Where`/`Intersect`/`FirstOrDefault`,
  `List.RemoveRange`, and the exceptions these throw, as a `Result`.
- `Host.dfy`: the host's values. These are entity summaries, media items and
  media types, and a user's `StartNodeCollection`, where `None` stands for a
  null array.
- `Paths.dfy`: the path helpers `PathContainsAStartNode`,
  `RemoveStartNodeAncestors` and `IndexOfInt`. The two methods are proved
  equal to specification functions, and the properties are proved about those
  functions.
- `WebApiHandler.dfy`: the routing switch, the gate of each handler, each
  continuation as a function from the host's response to the rewritten
  response, and `SendAsync` composing them. The breadcrumb continuation's
  marking loop is a method, proved equal to the function the continuation uses.
- `BackOfficeUtils.dfy`: the event arguments (`TreeNodesRenderingEventArgs`,
  `MenuRenderingEventArgs`, `SaveEventArgs`) and the media service are classes
  whose fields the hooks update. The hooks are methods with `modifies` clauses.

An exception that a continuation catches is modelled as "return the response as
it stands at that point". Where objects shared with the response were already
changed before the exception, those changes are kept.

Quirks of the code that the model keeps:

- **Tree order.** Content start nodes are rendered in the order the entity
  service returns them; nothing sorts them.
- **Zero as "no match".** Containment is decided by the *first* shared id. If
  that id is 0, the answer is "not contained" even when a later id matches
  (`Paths.PathExampleZeroFirst`).
- **The root `-1` is not special-cased by the handler.** With `-1` among the
  start nodes, an item's first match is at index 0. `RemoveRange(1, -1)` then
  throws, and the item response comes back untouched (`WebApiHandler.ItemPathUntouchedAtRoot`).
- **Partly rewritten responses.** A failing rewrite does not always return the
  original response:
  - the breadcrumb loop keeps the "Hidden" flags it added before the failure;
  - the global search keeps its filtered "Document" group when the "Media"
    group is missing.
- **Lazy filters.** The global and picker searches filter lazily. A path that
  does not parse therefore throws only when the response is serialised, outside
  the handler. The model records this as `Entities.Faulting`.
- **No null-set gate on the global search.** It has no gate for null start-node
  sets. It filters a group only when that group's set is non-null.
- **Upload guard.** Only the first saved item is examined. A null media set
  throws at `Contains(-1)` instead of cancelling.
- **`media/postcopy` is not routed.**

## Model

| member | source | states |
|---|---|---|
| Runtime.Lower | Src/MultipleStartNodes/Utilities/WebApiHandler.cs:25 | the lower-cased string has the same length and lowers each character |
| Runtime.LowerChar | Src/MultipleStartNodes/Utilities/WebApiHandler.cs:25 | an upper-case ASCII letter becomes its lower-case letter; every other character is kept |
| Runtime.LowerIdempotent | Src/MultipleStartNodes/Utilities/WebApiHandler.cs:25 | lower-casing twice is lower-casing once |
| Runtime.ParseInt | Src/MultipleStartNodes/Utilities/WebApiHandler.cs:366 | `int.Parse` succeeds only with a value inside 32 bits |
| Runtime.IntToString | Src/MultipleStartNodes/Utilities/WebApiHandler.cs:375 | the decimal text of an id is non-empty and holds only digits and '-' |
| Runtime.ParseIntToString | Src/MultipleStartNodes/Utilities/WebApiHandler.cs:375 | parsing the decimal text of a 32-bit id gives the id back |
| Runtime.Split | Src/MultipleStartNodes/Utilities/WebApiHandler.cs:366 | `Split` yields at least one piece, and no piece holds the separator |
| Runtime.SplitJoin | Src/MultipleStartNodes/Utilities/WebApiHandler.cs:375 | splitting a join of separator-free pieces gives the pieces back |
| Runtime.ContainsAt | Src/MultipleStartNodes/Utilities/WebApiHandler.cs:329 | a string holding the pattern at some position `Contains` it |
| Runtime.Where | Src/MultipleStartNodes/Utilities/WebApiHandler.cs:150-153 | `Where` keeps exactly the elements that satisfy the filter, and never more than the input |
| Runtime.WhereAppend | Src/MultipleStartNodes/Utilities/WebApiHandler.cs:150-153 | `Where` keeps the input order: filtering a concatenation filters each part |
| Runtime.Intersect | Src/MultipleStartNodes/Utilities/WebApiHandler.cs:368 | `Intersect` holds exactly the values in both sequences |
| Runtime.RemoveRange | Src/MultipleStartNodes/Utilities/WebApiHandler.cs:374 | `RemoveRange` succeeds iff index and count are non-negative and the range lies inside the list |
| Paths.IdStrings | Src/MultipleStartNodes/Utilities/WebApiHandler.cs:375 | one decimal string per id, in order |
| Paths.ParseAll | Src/MultipleStartNodes/Utilities/WebApiHandler.cs:366 | converting all tokens succeeds iff every token parses, giving one value per token |
| Paths.ParsePath | Src/MultipleStartNodes/Utilities/WebApiHandler.cs:382 | a parsed path has at least one id and every id fits 32 bits |
| Paths.ParseAllIdStrings | Src/MultipleStartNodes/Utilities/WebApiHandler.cs:366 | converting the decimal texts of 32-bit ids gives the ids back |
| Paths.ParseJoinPath | Src/MultipleStartNodes/Utilities/WebApiHandler.cs:366-375 | the comma-joined text of a non-empty list of 32-bit ids parses back to the same ids |
| Paths.FirstStartNodeIndex | Src/MultipleStartNodes/Utilities/WebApiHandler.cs:383 | the least index of the path whose id is a start node, or none when no id is one |
| Paths.FirstIntersection | Src/MultipleStartNodes/Utilities/WebApiHandler.cs:383 | `Intersect(...).FirstOrDefault()` is the first path id that is a start node, or 0 |
| Paths.PathContainsAStartNode | Src/MultipleStartNodes/Utilities/WebApiHandler.cs:381-386 | a parse error propagates; otherwise true iff the first path id that is a start node exists and is not 0; the upload guard's copy in BackOfficeUtils.cs:149-155 is the same helper |
| Paths.ContainsAnyStartNode | Src/MultipleStartNodes/Utilities/WebApiHandler.cs:381-386 | when 0 is not a start node, a parsed path contains a start node iff some id on it is one |
| Paths.IndexOfFirst | Src/MultipleStartNodes/Utilities/WebApiHandler.cs:388-398 | the least index holding the value, or -1 iff the value is absent |
| Paths.IndexOfInt | Src/MultipleStartNodes/Utilities/WebApiHandler.cs:388-398 | the loop returns the least index holding the value, or -1 iff it is absent |
| Paths.RemoveStartNodeAncestors | Src/MultipleStartNodes/Utilities/WebApiHandler.cs:364-379 | the method returns or throws exactly what the truncation specification `AncestorsRemoved` gives |
| Paths.TruncatedIdsCases | Src/MultipleStartNodes/Utilities/WebApiHandler.cs:368-375 | with start index 1 there are three outcomes: no non-zero first match leaves the ids alone; a match at index 0 throws ArgumentOutOfRange; a match at i >= 1 keeps `ids[0]` and `ids[i..]` |
| Paths.AncestorsRemovedWithoutMatch | Src/MultipleStartNodes/Utilities/WebApiHandler.cs:368-378 | no start node on the path, or 0 first: the path string comes back unchanged, character for character |
| Paths.AncestorsRemovedBelowRoot | Src/MultipleStartNodes/Utilities/WebApiHandler.cs:370-375 | first match at index i >= 1: the result is the root joined to the ids from i on |
| Paths.AncestorsRemovedAtRoot | Src/MultipleStartNodes/Utilities/WebApiHandler.cs:374 | first match at index 0 (the root is a start node): `RemoveRange(1, -1)` throws |
| Paths.TruncatedPathStartsAtStartNode | Src/MultipleStartNodes/Utilities/WebApiHandler.cs:370-375 | a truncated path parses back and has its first start node at index 1 |
| Paths.AncestorsRemovedIdempotent | Src/MultipleStartNodes/Utilities/WebApiHandler.cs:364-379 | removing ancestors from an already shortened path returns it unchanged |
| Paths.AncestorsRemovedKeepsContainment | Src/MultipleStartNodes/Utilities/WebApiHandler.cs:364-386 | shortening a path does not change whether it contains a start node |
| Paths.IdStringsExamples | Src/MultipleStartNodes/Utilities/WebApiHandler.cs:375 | the decimal texts of -1, 0, 1, 5 and 12 |
| Paths.JoinPathExampleFull | Src/MultipleStartNodes/Utilities/WebApiHandler.cs:375 | joining -1, 1, 5, 12 gives "-1,1,5,12" |
| Paths.JoinPathExampleTruncated | Src/MultipleStartNodes/Utilities/WebApiHandler.cs:375 | joining -1, 5, 12 gives "-1,5,12" |
| Paths.JoinPathExampleZero | Src/MultipleStartNodes/Utilities/WebApiHandler.cs:375 | joining -1, 0, 5 gives "-1,0,5" |
| Paths.PathExampleContained | Src/MultipleStartNodes/Utilities/WebApiHandler.cs:381-386 | "-1,1,5,12" contains start node 5 |
| Paths.PathExampleTruncated | Src/MultipleStartNodes/Utilities/WebApiHandler.cs:364-379 | with start node 5, "-1,1,5,12" becomes "-1,5,12" |
| Paths.PathExampleNotContained | Src/MultipleStartNodes/Utilities/WebApiHandler.cs:381-386 | "-1,1,5,12" does not contain start node 99 |
| Paths.PathExampleUntouched | Src/MultipleStartNodes/Utilities/WebApiHandler.cs:364-379 | with start node 99, "-1,1,5,12" is returned unchanged |
| Paths.PathExampleOnTheWire | Src/MultipleStartNodes/Utilities/WebApiHandler.cs:364-379 | the strings themselves: "-1,1,5,12" with start node 5 becomes "-1,5,12", and with start node 99 comes back unchanged |
| Paths.PathExampleZeroFirst | Src/MultipleStartNodes/Utilities/WebApiHandler.cs:383-385 | with start nodes 0 and 5, path "-1,0,5" is "not contained": the 0 found first reads as no match |
| WebApiHandler.Route | Src/MultipleStartNodes/Utilities/WebApiHandler.cs:25-49 | a path is rewritten iff its lower-cased form is one of the twelve routed paths; move/copy iff it is content postmove, content postcopy or media postmove |
| WebApiHandler.RouteIgnoresCase | Src/MultipleStartNodes/Utilities/WebApiHandler.cs:25 | routing depends only on the lower-cased path |
| WebApiHandler.MediaPostCopyNotRouted | Src/MultipleStartNodes/Utilities/WebApiHandler.cs:43-48 | media postcopy falls through to the default branch |
| WebApiHandler.MoveCopyPathsNameHierarchy | Src/MultipleStartNodes/Utilities/WebApiHandler.cs:43-45 | the content move/copy paths contain "/content/", and media postmove contains "/media/" |
| WebApiHandler.MovedOrCopiedPathNamesHierarchy | Src/MultipleStartNodes/Utilities/WebApiHandler.cs:329-340 | a path routed to the move/copy rewrite always names a hierarchy, so its own pass-through branch is unreachable |
| WebApiHandler.ItemPathGate | Src/MultipleStartNodes/Utilities/WebApiHandler.cs:54-91 | the item rewrite runs iff the user is not an admin and the hierarchy's set is non-null (content set for the content handler, media set for the media handler) |
| WebApiHandler.BreadcrumbsGate | Src/MultipleStartNodes/Utilities/WebApiHandler.cs:123-137 | "type=document" (case-sensitive) selects the content set, else "type=media" the media set, else pass through; admins and null sets pass through |
| WebApiHandler.ContentSearchGate | Src/MultipleStartNodes/Utilities/WebApiHandler.cs:215-224 | the picker search rewrite runs iff the lower-cased query has "type=document", the user is not an admin and the content set is non-null |
| WebApiHandler.ListViewGate | Src/MultipleStartNodes/Utilities/WebApiHandler.cs:252-258 | the list-view rewrite runs iff the query has "id=-1" and either "pageNumber=1" or the limit flag, the user is not an admin and the media set is non-null |
| WebApiHandler.RootChildFoldersGate | Src/MultipleStartNodes/Utilities/WebApiHandler.cs:291-297 | the child-folder rewrite runs iff the query has "id=-1", the user is not an admin and the media set is non-null |
| WebApiHandler.MovedOrCopiedPathGate | Src/MultipleStartNodes/Utilities/WebApiHandler.cs:329-343 | "/content/" in the lower-cased path selects the content set, else "/media/" the media set; admins pass through |
| WebApiHandler.ItemPathRewritten | Src/MultipleStartNodes/Utilities/WebApiHandler.cs:60-115 | wrong content shape or unparsable path: unchanged. No start node: status Forbidden and path unchanged. Otherwise the path becomes its truncation, or stays unchanged if truncation throws. The status becomes Forbidden iff the path contains no start node. The content and media handlers share it |
| WebApiHandler.ItemPathRewrittenTo | Src/MultipleStartNodes/Utilities/WebApiHandler.cs:67-74 | a contained path that truncates to q leaves the status and sets the path to q |
| WebApiHandler.ItemPathTruncated | Src/MultipleStartNodes/Utilities/WebApiHandler.cs:69-74 | first match below the root: status kept, path becomes the root joined to the start node and its descendants |
| WebApiHandler.ItemPathUntouchedAtRoot | Src/MultipleStartNodes/Utilities/WebApiHandler.cs:74-79 | first match at the root: the thrown `RemoveRange` error is caught and the response is returned exactly as it was, not Forbidden |
| WebApiHandler.ItemPathRewriteIdempotent | Src/MultipleStartNodes/Utilities/WebApiHandler.cs:60-82 | rewriting a rewritten item response changes nothing more |
| WebApiHandler.WhereContainsAStartNode | Src/MultipleStartNodes/Utilities/WebApiHandler.cs:150-153 | the eager filter succeeds iff every path parses, and then keeps exactly the contained entities in order |
| WebApiHandler.LazyWhereContains | Src/MultipleStartNodes/Utilities/WebApiHandler.cs:196-201 | the lazy filter is a list iff every path parses (then the contained entities in order), and otherwise a faulting sequence |
| WebApiHandler.FirstUnmarkable | Src/MultipleStartNodes/Utilities/WebApiHandler.cs:156-159 | the least index at which adding "Hidden" throws (unparsable path or key already present), or none |
| WebApiHandler.MarkedBefore | Src/MultipleStartNodes/Utilities/WebApiHandler.cs:156-159 | after the first k steps, each entity before k that can be marked carries its Hidden flag; every other entity is as it was |
| WebApiHandler.MarkedBeforeStep | Src/MultipleStartNodes/Utilities/WebApiHandler.cs:156-159 | marking the next entity extends the marked prefix by one |
| WebApiHandler.HiddenMarked | Src/MultipleStartNodes/Utilities/WebApiHandler.cs:154-164 | same length and identities. Every entity before the first failure (all of them if none fails) gains Hidden = not contained; the marks stay in the response when a later entity fails. Entities from the first failure on are unchanged |
| WebApiHandler.MarkHidden | Src/MultipleStartNodes/Utilities/WebApiHandler.cs:156-159 | the marking loop produces exactly `HiddenMarked` |
| WebApiHandler.BreadcrumbsRewritten | Src/MultipleStartNodes/Utilities/WebApiHandler.cs:139-170 | status kept; non-list content unchanged. With the limit flag: exactly the contained entities in order, or unchanged if a path does not parse. Without it: the list with Hidden marks |
| WebApiHandler.FirstGroupIndex | Src/MultipleStartNodes/Utilities/WebApiHandler.cs:191-192 | the index of the first group of the entity type, or none iff no group has it |
| WebApiHandler.GroupFiltered | Src/MultipleStartNodes/Utilities/WebApiHandler.cs:194-202 | null set: unchanged. Missing group with a non-null set: throws. Otherwise only the first group of the type changes, and a non-empty one becomes its lazy filter |
| WebApiHandler.SearchResultsRewritten | Src/MultipleStartNodes/Utilities/WebApiHandler.cs:181-209 | status kept; group count kept; groups other than Document and Media untouched. Document is filtered, then Media, and a Media failure keeps the Document filtering. Both sets null: unchanged |
| WebApiHandler.ContentSearchRewritten | Src/MultipleStartNodes/Utilities/WebApiHandler.cs:227-245 | status kept. If every path parses, exactly the contained entities in order. Otherwise a faulting sequence. Non-list content unchanged |
| WebApiHandler.MapAll | Src/MultipleStartNodes/Utilities/WebApiHandler.cs:273-274 | one mapped item per media item, in order |
| WebApiHandler.ListViewRewritten | Src/MultipleStartNodes/Utilities/WebApiHandler.cs:263-282 | object content becomes page 1, with total = page size = number of start nodes, and the start nodes looked up and mapped in order; other content unchanged |
| WebApiHandler.FolderTypeIds | Src/MultipleStartNodes/Utilities/WebApiHandler.cs:309 | exactly the ids of media types whose alias ends with "Folder" |
| WebApiHandler.FolderStartNodes | Src/MultipleStartNodes/Utilities/WebApiHandler.cs:309-311 | exactly the looked-up start nodes whose type is a folder type |
| WebApiHandler.RootChildFoldersRewritten | Src/MultipleStartNodes/Utilities/WebApiHandler.cs:302-317 | object content becomes the mapped folder start nodes; other content unchanged |
| WebApiHandler.MovedOrCopiedPathRewritten | Src/MultipleStartNodes/Utilities/WebApiHandler.cs:348-359 | a text body becomes its truncated path, or stays unchanged when truncation throws; other content and the status are kept |
| WebApiHandler.MovedOrCopiedPathRewriteIdempotent | Src/MultipleStartNodes/Utilities/WebApiHandler.cs:348-359 | rewriting a rewritten move/copy response changes nothing more |
| WebApiHandler.SendAsync | Src/MultipleStartNodes/Utilities/WebApiHandler.cs:23-50 | unrouted paths and admins get the host's response unchanged |
| WebApiHandler.UnsetStartNodesPassThrough | Src/MultipleStartNodes/Utilities/WebApiHandler.cs:23-362 | a user with neither content nor media start nodes configured gets every response unchanged (the tree hooks instead deny everything) |
| WebApiHandler.OnlyItemRoutesForbid | Src/MultipleStartNodes/Utilities/WebApiHandler.cs:23-362 | only the item routes change the status code, and only to Forbidden |
| BackOfficeUtils.QueryValues | Src/MultipleStartNodes/Utilities/BackOfficeUtils.cs:62 | exactly the values of the parameters whose name matches the key ignoring case |
| BackOfficeUtils.QueryGet | Src/MultipleStartNodes/Utilities/BackOfficeUtils.cs:62 | `Get` is null iff no parameter has the name |
| BackOfficeUtils.IsDialogExactlyOne | Src/MultipleStartNodes/Utilities/BackOfficeUtils.cs:62 | `Get("isDialog") == "true"` iff there is exactly one isDialog parameter and its value is "true" |
| BackOfficeUtils.QueryStringsAdded | Src/MultipleStartNodes/Utilities/BackOfficeUtils.cs:159-165 | the keys become the old keys plus the parameter names, and existing entries are never overwritten |
| BackOfficeUtils.QueryStringsAddedFirstWins | Src/MultipleStartNodes/Utilities/BackOfficeUtils.cs:159-165 | a key that was absent takes the value of its first parameter |
| BackOfficeUtils.AddQueryStringsToAdditionalData | Src/MultipleStartNodes/Utilities/BackOfficeUtils.cs:159-165 | the loop changes only AdditionalData, and leaves it equal to `QueryStringsAdded` |
| BackOfficeUtils.ContentTreeNode | Src/MultipleStartNodes/Utilities/BackOfficeUtils.cs:45-65 | id is the entity id, parent "-1", name and icon from the entity. hasChildren = HasChildren and not container. Route "#" iff the single isDialog is "true". AdditionalData is exactly the query parameters, the first value winning for a repeated name. No container style |
| BackOfficeUtils.MediaTreeNode | Src/MultipleStartNodes/Utilities/BackOfficeUtils.cs:99-118 | id, parent "-1", name, icon and hasChildren as for content. Always "contentType" = the type alias. Containers, and only containers, get "isContainer" = true and the container style. No other data and no route |
| BackOfficeUtils.RenderContentStartNodes | Src/MultipleStartNodes/Utilities/BackOfficeUtils.cs:17-72 | null set: no nodes. Set with -1, or empty: nodes unchanged. Otherwise exactly one content node per looked-up entity, in lookup order |
| BackOfficeUtils.RenderMediaStartNodes | Src/MultipleStartNodes/Utilities/BackOfficeUtils.cs:74-125 | the same three cases for the media tree, with media nodes |
| BackOfficeUtils.WithoutActions | Src/MultipleStartNodes/Utilities/BackOfficeUtils.cs:175 | `RemoveAll` keeps exactly the items whose alias is not prevented |
| BackOfficeUtils.WithoutActionsKeepsOrder | Src/MultipleStartNodes/Utilities/BackOfficeUtils.cs:175 | the remaining menu items keep their order: removal distributes over concatenation, and a single item stays iff its alias is not prevented |
| BackOfficeUtils.IsStartNodeMenu | Src/MultipleStartNodes/Utilities/BackOfficeUtils.cs:171 | null set: not restricted, and the id is not parsed. Otherwise a parse error propagates, or restricted iff the id is a start node |
| BackOfficeUtils.RestrictContentStartNodeOptions | Src/MultipleStartNodes/Utilities/BackOfficeUtils.cs:167-176 | on a content start node's menu, delete, move and copy are removed; otherwise the menu is unchanged; a parse failure is reported |
| BackOfficeUtils.RestrictMediaStartNodeOptions | Src/MultipleStartNodes/Utilities/BackOfficeUtils.cs:178-187 | on a media start node's menu, delete and move are removed and copy stays; otherwise unchanged |
| BackOfficeUtils.UploadRefused | Src/MultipleStartNodes/Utilities/BackOfficeUtils.cs:127-147 | empty save: NullReference. Existing first item: allowed. Null set: ArgumentNull. Refused iff the first item is new, the set lacks -1 and the path contains no start node |
| BackOfficeUtils.UploadBelowStartNodeAllowed | Src/MultipleStartNodes/Utilities/BackOfficeUtils.cs:138 | a new upload whose path passes through a start node (0 not being one) is allowed |
| BackOfficeUtils.ValidateNodeAcess | Src/MultipleStartNodes/Utilities/BackOfficeUtils.cs:127-147 | when refused, the save is cancelled with "Permission Denied" and every saved item is deleted in order; otherwise nothing changes; an exception is reported |

## Left out

- Asynchronous plumbing is not modelled. This covers `Task`, `ContinueWith`, the message-handler base class and cancellation tokens. Each continuation is a function of the host's response. A failing host call is not modelled.
- The per-user start-node cache (`StartNodeRepository`) is not modelled. Its result is a parameter.
- The admin test is the boolean `isAdmin`, and the "limit pickers to start nodes" setting is `limitPickers`.
- Host services are parameters: entity lookup by ids, media lookup by ids, media types and the list-item mapper. `CreateTreeNode` is modelled only by the node fields it sets; tree and menu URLs are not modelled. Logging is left out.
- `SetContainerStyle` is modelled as a flag on the node. The CSS class it adds is not modelled.
- Objects are values. Tree nodes, entities and search groups are datatypes, so aliasing between them is not captured. The one visible aliasing effect, updates kept after a caught exception, is modelled explicitly.
- `EndsWith("Folder")` on media type aliases compares with the current culture in the source; the model compares ordinally, so culture-specific equivalences of characters are not modelled.
- `ToLower`, and the case-insensitive query-parameter names, are modelled for ASCII only. Culture-specific case mappings are not modelled.
- `int.Parse` is modelled for the invariant number format: white space, an optional '+' or '-', and ASCII digits. Thousands separators, trailing NUL characters and other cultures' signs are not modelled.
- Move/copy responses whose body is not text are left unchanged by the model. The source would serialise them to JSON before parsing.
- `PagedResult`'s derived page count, and the JSON and content-type headers of rewritten responses, are not modelled.
- A cast from a host entity to the concrete entity type that fails is not modelled; the lookup returns concrete entities.
- `Src/MultipleStartNodes/Trees/UserStartNodesController.cs` and `Src/Site/App_Plugins/MultipleStartNodes/httpinterceptors.js` are not part of this model. They are UI wiring with no access-control decision.
- WebApiHandler.SendAsync: its own contract states only the pass-through cases. The route-by-route behaviour is its body, built from the gates and continuations listed above. The cross-route properties are the lemmas `UnsetStartNodesPassThrough` and `OnlyItemRoutesForbid`.
