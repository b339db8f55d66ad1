/** The path helpers of the web API handler. A node's path is the comma-separated
    list of its ancestors' ids and its own, root first ("-1,1050,1062"). A path
    "contains a start node" when the first of its ids that is a start node is not
    0, and removing the start node's ancestors collapses everything between the
    root and that start node. */
module Paths {
  import opened Runtime

  // ---------------------------------------------------------------- the wire format

  /** The decimal strings of the ids, in order. */
  function IdStrings(ids: seq<int>): (r: seq<string>)
    ensures |r| == |ids|
    ensures forall i :: 0 <= i < |ids| ==> r[i] == IntToString(ids[i])
  {
    if ids == [] then [] else [IntToString(ids[0])] + IdStrings(ids[1..])
  }

  /** `string.Join(",", ids)`. */
  function JoinPath(ids: seq<int>): string
  {
    Join(',', IdStrings(ids))
  }

  /** `Array.ConvertAll(tokens, int.Parse)`: the first token that does not parse
      raises its exception. */
  function ParseAll(tokens: seq<string>): (r: Result<seq<int>>)
    ensures r.Ok? <==> forall i :: 0 <= i < |tokens| ==> ParseInt(tokens[i]).Ok?
    ensures r.Ok? ==> |r.value| == |tokens|
    ensures r.Ok? ==> forall i :: 0 <= i < |tokens| ==> ParseInt(tokens[i]) == Ok(r.value[i])
  {
    if tokens == [] then Ok([])
    else
      match ParseInt(tokens[0])
      case Err(x) => Err(x)
      case Ok(n) =>
        match ParseAll(tokens[1..])
        case Err(x) => Err(x)
        case Ok(ns) => Ok([n] + ns)
  }

  /** `Array.ConvertAll(path.Split(','), int.Parse)`. */
  function ParsePath(path: string): (r: Result<seq<int>>)
    ensures r.Ok? ==> |r.value| >= 1
    ensures r.Ok? ==> forall i :: 0 <= i < |r.value| ==> IsInt32(r.value[i])
  {
    ParseAll(Split(path, ','))
  }

  lemma {:induction false} ParseAllIdStrings(ids: seq<int>)
    requires forall i :: 0 <= i < |ids| ==> IsInt32(ids[i])
    ensures ParseAll(IdStrings(ids)) == Ok(ids)
  {
    if ids != [] {
      var tokens := IdStrings(ids);
      ParseIntToString(ids[0]);
      ParseAllIdStrings(ids[1..]);
      assert tokens[0] == IntToString(ids[0]);
      assert tokens[1..] == IdStrings(ids[1..]);
      assert ParseAll(tokens) == Ok([ids[0]] + ids[1..]);
      assert [ids[0]] + ids[1..] == ids;
    }
  }

  /** Joining 32-bit ids and parsing the result gives the ids back. */
  lemma ParseJoinPath(ids: seq<int>)
    requires |ids| >= 1
    requires forall i :: 0 <= i < |ids| ==> IsInt32(ids[i])
    ensures ParsePath(JoinPath(ids)) == Ok(ids)
  {
    var parts := IdStrings(ids);
    forall i | 0 <= i < |parts|
      ensures ',' !in parts[i]
    {
      assert forall j :: 0 <= j < |parts[i]| ==> parts[i][j] != ',';
    }
    SplitJoin(',', parts);
    ParseAllIdStrings(ids);
  }

  // ---------------------------------------------------------------- the first start node

  /** The index of the first id of the path, root first, that is a start node. */
  function FirstStartNodeIndex(ids: seq<int>, startNodes: seq<int>): (r: Option<nat>)
    ensures r.Some? ==> r.value < |ids| && ids[r.value] in startNodes
    ensures r.Some? ==> forall j :: 0 <= j < r.value ==> ids[j] !in startNodes
    ensures r.None? <==> forall j :: 0 <= j < |ids| ==> ids[j] !in startNodes
  {
    if ids == [] then None
    else if ids[0] in startNodes then Some(0)
    else
      match FirstStartNodeIndex(ids[1..], startNodes)
      case None => None
      case Some(i) => Some(i + 1)
  }

  /** The first id of the path that is a start node exists and is not 0
      (0 is what FirstOrDefault answers for "none"). */
  predicate FirstStartNodeIsNonZero(ids: seq<int>, startNodes: seq<int>)
  {
    match FirstStartNodeIndex(ids, startNodes)
    case None => false
    case Some(i) => ids[i] != 0
  }

  /** `ids.Intersect(startNodes).FirstOrDefault()` is the first id of the path that
      is a start node, or 0 when there is none. */
  lemma {:induction false} FirstIntersection(ids: seq<int>, startNodes: seq<int>)
    ensures FirstOrDefault(Intersect(ids, startNodes)) ==
            match FirstStartNodeIndex(ids, startNodes)
            case None => 0
            case Some(i) => ids[i]
  {
    if ids != [] && ids[0] !in startNodes {
      FirstIntersection(ids[1..], startNodes);
    }
  }

  // ---------------------------------------------------------------- PathContainsAStartNode

  /** `PathContainsAStartNode(path, startNodes)`: None of the exceptions of parsing
      are caught here. */
  function PathContainsAStartNode(path: string, startNodes: seq<int>): (r: Result<bool>)
    ensures ParsePath(path).Err? ==> r == Err(ParsePath(path).error)
    ensures ParsePath(path).Ok? ==> r == Ok(FirstStartNodeIsNonZero(ParsePath(path).value, startNodes))
  {
    match ParsePath(path)
    case Err(x) => Err(x)
    case Ok(pathArray) =>
      FirstIntersection(pathArray, startNodes);
      Ok(FirstOrDefault(Intersect(pathArray, startNodes)) != 0)
  }

  /** When 0 is not a start node, a path contains a start node iff one of its ids is one. */
  lemma ContainsAnyStartNode(path: string, ids: seq<int>, startNodes: seq<int>)
    requires ParsePath(path) == Ok(ids)
    requires 0 !in startNodes
    ensures PathContainsAStartNode(path, startNodes) == Ok(true) <==>
            exists i :: 0 <= i < |ids| && ids[i] in startNodes
  {
    match FirstStartNodeIndex(ids, startNodes)
    case None =>
    case Some(i) => assert ids[i] in startNodes;
  }

  // ---------------------------------------------------------------- IndexOfInt

  /** The least index of arr holding value, or -1 when there is none. */
  function IndexOfFirst(arr: seq<int>, value: int): (r: int)
    ensures -1 <= r < |arr|
    ensures 0 <= r ==> arr[r] == value && forall j :: 0 <= j < r ==> arr[j] != value
    ensures r == -1 <==> value !in arr
  {
    if arr == [] then -1
    else if arr[0] == value then 0
    else
      var k := IndexOfFirst(arr[1..], value);
      if k == -1 then -1 else k + 1
  }

  /** `IndexOfInt(arr, value)`: a scan from the front that returns at the first hit. */
  method IndexOfInt(arr: seq<int>, value: int) returns (r: int)
    ensures 0 <= r ==> r < |arr| && arr[r] == value && forall j :: 0 <= j < r ==> arr[j] != value
    ensures r == -1 <==> value !in arr
    ensures r == IndexOfFirst(arr, value)
  {
    var i := 0;
    while i < |arr|
      invariant 0 <= i <= |arr|
      invariant forall j :: 0 <= j < i ==> arr[j] != value
    {
      if arr[i] == value {
        return i;
      }
      i := i + 1;
    }
    return -1;
  }

  // ---------------------------------------------------------------- RemoveStartNodeAncestors

  /** The id list `RemoveStartNodeAncestors` computes from a parsed path: None when
      no start node is found (the path string is then returned as it was), the list
      after `RemoveRange(removeStartIndex, index - 1)` otherwise. */
  function TruncatedIds(pathArray: seq<int>, startNodes: seq<int>, removeStartIndex: int): Result<Option<seq<int>>>
  {
    var firstIntersectionValue := FirstOrDefault(Intersect(pathArray, startNodes));
    if firstIntersectionValue == 0 then Ok(None)
    else
      var index := IndexOfFirst(pathArray, firstIntersectionValue);
      match RemoveRange(pathArray, removeStartIndex, index - 1)
      case Err(x) => Err(x)
      case Ok(pathIntList) => Ok(Some(pathIntList))
  }

  /** What `RemoveStartNodeAncestors(path, startNodes, removeStartIndex)` returns or throws. */
  function AncestorsRemoved(path: string, startNodes: seq<int>, removeStartIndex: int): Result<string>
  {
    match ParsePath(path)
    case Err(x) => Err(x)
    case Ok(pathArray) =>
      match TruncatedIds(pathArray, startNodes, removeStartIndex)
      case Err(x) => Err(x)
      case Ok(None) => Ok(path)
      case Ok(Some(pathIntList)) => Ok(JoinPath(pathIntList))
  }

  /** `RemoveStartNodeAncestors`: parse the path, find the first start node on it,
      remove the ids between the root and it, and join the rest again. */
  method RemoveStartNodeAncestors(path: string, startNodes: seq<int>, removeStartIndex: int := 1)
    returns (r: Result<string>)
    ensures r == AncestorsRemoved(path, startNodes, removeStartIndex)
  {
    var parsed := ParsePath(path);
    if parsed.Err? {
      return Err(parsed.error);
    }
    var pathArray := parsed.value;
    var firstIntersectionValue := FirstOrDefault(Intersect(pathArray, startNodes));
    if firstIntersectionValue != 0 {
      var index := IndexOfInt(pathArray, firstIntersectionValue);
      var pathIntList := RemoveRange(pathArray, removeStartIndex, index - 1);
      if pathIntList.Err? {
        return Err(pathIntList.error);
      }
      return Ok(JoinPath(pathIntList.value));
    }
    return Ok(path);
  }

  /** The three outcomes of the truncation on a parsed path, with the default
      `removeStartIndex` of 1. */
  lemma TruncatedIdsCases(ids: seq<int>, startNodes: seq<int>)
    ensures !FirstStartNodeIsNonZero(ids, startNodes) ==> TruncatedIds(ids, startNodes, 1) == Ok(None)
    ensures FirstStartNodeIndex(ids, startNodes) == Some(0) && ids[0] != 0 ==>
            TruncatedIds(ids, startNodes, 1) == Err(ArgumentOutOfRange)
    ensures FirstStartNodeIndex(ids, startNodes).Some? && FirstStartNodeIndex(ids, startNodes).value >= 1 &&
            FirstStartNodeIsNonZero(ids, startNodes) ==>
            var i := FirstStartNodeIndex(ids, startNodes).value;
            TruncatedIds(ids, startNodes, 1) == Ok(Some([ids[0]] + ids[i..]))
  {
    FirstIntersection(ids, startNodes);
    match FirstStartNodeIndex(ids, startNodes)
    case None =>
    case Some(i) =>
      assert IndexOfFirst(ids, ids[i]) == i;
      if i >= 1 {
        assert ids[..1] + ids[1 + (i - 1)..] == [ids[0]] + ids[i..];
      }
  }

  /** No start node on the path, or 0 first: the string comes back character for character. */
  lemma AncestorsRemovedWithoutMatch(path: string, ids: seq<int>, startNodes: seq<int>)
    requires ParsePath(path) == Ok(ids)
    requires !FirstStartNodeIsNonZero(ids, startNodes)
    ensures AncestorsRemoved(path, startNodes, 1) == Ok(path)
  {
    TruncatedIdsCases(ids, startNodes);
  }

  /** The first start node at index i >= 1: the path becomes the root followed by
      the start node and its descendants. */
  lemma AncestorsRemovedBelowRoot(path: string, ids: seq<int>, startNodes: seq<int>, i: nat)
    requires ParsePath(path) == Ok(ids)
    requires FirstStartNodeIndex(ids, startNodes) == Some(i)
    requires 1 <= i && ids[i] != 0
    ensures AncestorsRemoved(path, startNodes, 1) == Ok(JoinPath([ids[0]] + ids[i..]))
  {
    TruncatedIdsCases(ids, startNodes);
  }

  /** The first start node at index 0 (the root itself is a start node):
      `RemoveRange(1, -1)` throws. */
  lemma AncestorsRemovedAtRoot(path: string, ids: seq<int>, startNodes: seq<int>)
    requires ParsePath(path) == Ok(ids)
    requires FirstStartNodeIndex(ids, startNodes) == Some(0)
    requires ids[0] != 0
    ensures AncestorsRemoved(path, startNodes, 1) == Err(ArgumentOutOfRange)
  {
    TruncatedIdsCases(ids, startNodes);
  }

  /** A truncated path: the root, then the first start node, then what follows it. */
  lemma TruncatedPathStartsAtStartNode(ids: seq<int>, startNodes: seq<int>, i: nat)
    requires forall j :: 0 <= j < |ids| ==> IsInt32(ids[j])
    requires FirstStartNodeIndex(ids, startNodes) == Some(i)
    requires 1 <= i && ids[i] != 0
    ensures var kept := [ids[0]] + ids[i..];
            ParsePath(JoinPath(kept)) == Ok(kept) &&
            FirstStartNodeIndex(kept, startNodes) == Some(1) &&
            kept == [kept[0]] + kept[1..] && kept[1] != 0
  {
    var kept := [ids[0]] + ids[i..];
    assert kept[0] !in startNodes && kept[1] in startNodes;
    ParseJoinPath(kept);
  }

  /** Removing the ancestors again changes nothing: the start node now sits at
      index 1, and `RemoveRange(1, 0)` removes nothing. */
  lemma AncestorsRemovedIdempotent(path: string, startNodes: seq<int>, q: string)
    requires AncestorsRemoved(path, startNodes, 1) == Ok(q)
    ensures AncestorsRemoved(q, startNodes, 1) == Ok(q)
  {
    var ids := ParsePath(path).value;
    if !FirstStartNodeIsNonZero(ids, startNodes) {
      AncestorsRemovedWithoutMatch(path, ids, startNodes);
    } else {
      var i := FirstStartNodeIndex(ids, startNodes).value;
      if i == 0 {
        AncestorsRemovedAtRoot(path, ids, startNodes);
        assert false;
      }
      AncestorsRemovedBelowRoot(path, ids, startNodes, i);
      var kept := [ids[0]] + ids[i..];
      TruncatedPathStartsAtStartNode(ids, startNodes, i);
      AncestorsRemovedBelowRoot(q, kept, startNodes, 1);
    }
  }

  /** Removing the ancestors does not change whether the path contains a start node. */
  lemma AncestorsRemovedKeepsContainment(path: string, startNodes: seq<int>, q: string)
    requires AncestorsRemoved(path, startNodes, 1) == Ok(q)
    ensures PathContainsAStartNode(q, startNodes) == PathContainsAStartNode(path, startNodes)
  {
    var ids := ParsePath(path).value;
    if !FirstStartNodeIsNonZero(ids, startNodes) {
      AncestorsRemovedWithoutMatch(path, ids, startNodes);
    } else {
      var i := FirstStartNodeIndex(ids, startNodes).value;
      if i == 0 {
        AncestorsRemovedAtRoot(path, ids, startNodes);
        assert false;
      }
      AncestorsRemovedBelowRoot(path, ids, startNodes, i);
      TruncatedPathStartsAtStartNode(ids, startNodes, i);
    }
  }

  lemma IdStringsExamples()
    ensures IntToString(-1) == "-1" && IntToString(0) == "0" && IntToString(1) == "1"
    ensures IntToString(5) == "5" && IntToString(12) == "12"
  {
    assert NatToString(1) == "1";
    assert NatToString(12) == NatToString(1) + "2";
  }

  lemma JoinPathExampleFull()
    ensures JoinPath([-1, 1, 5, 12]) == "-1,1,5,12"
  {
    IdStringsExamples();
    assert IdStrings([-1, 1, 5, 12]) == ["-1", "1", "5", "12"];
    assert Join(',', ["12"]) == "12";
    assert Join(',', ["5", "12"]) == "5,12";
    assert Join(',', ["1", "5", "12"]) == "1,5,12";
  }

  lemma JoinPathExampleTruncated()
    ensures JoinPath([-1, 5, 12]) == "-1,5,12"
  {
    IdStringsExamples();
    assert IdStrings([-1, 5, 12]) == ["-1", "5", "12"];
    assert Join(',', ["12"]) == "12";
    assert Join(',', ["5", "12"]) == "5,12";
  }

  lemma JoinPathExampleZero()
    ensures JoinPath([-1, 0, 5]) == "-1,0,5"
  {
    IdStringsExamples();
    assert IdStrings([-1, 0, 5]) == ["-1", "0", "5"];
    assert Join(',', ["5"]) == "5";
    assert Join(',', ["0", "5"]) == "0,5";
  }

  /** A path that parses to -1,1,5,12, such as "-1,1,5,12" (JoinPathExampleFull and
      ParseJoinPath), contains start node 5. */
  lemma PathExampleContained(path: string)
    requires ParsePath(path) == Ok([-1, 1, 5, 12])
    ensures PathContainsAStartNode(path, [5]) == Ok(true)
  {
    var ids := [-1, 1, 5, 12];
    assert FirstStartNodeIndex(ids, [5]) == Some(2);
  }

  /** With start node 5, "-1,1,5,12" becomes "-1,5,12". */
  lemma PathExampleTruncated(path: string)
    requires ParsePath(path) == Ok([-1, 1, 5, 12])
    ensures AncestorsRemoved(path, [5], 1) == Ok(JoinPath([-1, 5, 12]))
  {
    var ids := [-1, 1, 5, 12];
    assert FirstStartNodeIndex(ids, [5]) == Some(2);
    AncestorsRemovedBelowRoot(path, ids, [5], 2);
    assert [ids[0]] + ids[2..] == [-1, 5, 12];
  }

  /** The path "-1,1,5,12" does not contain start node 99. */
  lemma PathExampleNotContained(path: string)
    requires ParsePath(path) == Ok([-1, 1, 5, 12])
    ensures PathContainsAStartNode(path, [99]) == Ok(false)
  {
    var ids := [-1, 1, 5, 12];
    assert FirstStartNodeIndex(ids, [99]) == None;
  }

  /** With start node 99, "-1,1,5,12" stays as it is. */
  lemma PathExampleUntouched(path: string)
    requires ParsePath(path) == Ok([-1, 1, 5, 12])
    ensures AncestorsRemoved(path, [99], 1) == Ok(path)
  {
    var ids := [-1, 1, 5, 12];
    assert FirstStartNodeIndex(ids, [99]) == None;
    AncestorsRemovedWithoutMatch(path, ids, [99]);
  }

  /** With start nodes 0 and 5, the 0 of "-1,0,5" comes first and hides the 5. */
  lemma PathExampleZeroFirst(path: string)
    requires ParsePath(path) == Ok([-1, 0, 5])
    ensures PathContainsAStartNode(path, [0, 5]) == Ok(false)
  {
    var ids := [-1, 0, 5];
    assert FirstStartNodeIndex(ids, [0, 5]) == Some(1);
  }

  /** The scenario on the wire: with start node 5 the path "-1,1,5,12" becomes
      "-1,5,12", and with start node 99 it comes back as it was. */
  lemma PathExampleOnTheWire()
    ensures AncestorsRemoved("-1,1,5,12", [5], 1) == Ok("-1,5,12")
    ensures AncestorsRemoved("-1,1,5,12", [99], 1) == Ok("-1,1,5,12")
  {
    JoinPathExampleFull();
    JoinPathExampleTruncated();
    ParseJoinPath([-1, 1, 5, 12]);
    PathExampleTruncated("-1,1,5,12");
    PathExampleUntouched("-1,1,5,12");
  }
}
