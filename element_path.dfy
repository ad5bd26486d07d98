/**
 * The structural path of a DOM element, as the browser extension's content
 * script computes it: an element with an id is named by that id alone;
 * otherwise the path lists, from the root down, one step per element on the
 * ancestor chain, each step carrying the element's qualified name and, when
 * the element has a same-named sibling, its 1-based position among them.
 *
 * The DOM is seen only along that chain. `chain[0]` is the element itself,
 * `chain[k + 1]` is the parent node of `chain[k]`, and the parent of the last
 * node is null; an empty chain stands for a null element. Each node carries its
 * previous and its next siblings, nearest first.
 */
module ElementPath {
  import opened Wrappers
  import opened Strings

  /** `Node.ELEMENT_NODE` and `Node.DOCUMENT_TYPE_NODE`. */
  const ElementNode: int := 1
  const DocumentTypeNode: int := 10

  /** What the walk reads of a sibling node. */
  datatype Sibling = Sibling(nodeType: int, nodeName: string)

  /** What the walk reads of a node on the ancestor chain. */
  datatype DomNode = DomNode(
    nodeType: int,
    nodeName: string,
    localName: string,
    prefix: string,                 // "" for a null prefix
    id: string,                     // "" for no id
    previousSiblings: seq<Sibling>, // previousSibling, its previousSibling, ...
    nextSiblings: seq<Sibling>)     // nextSibling, its nextSibling, ...

  // ---------------------------------------------------------------------
  // The path, as a specification

  /** A previous sibling that shares the element's position count. */
  predicate CountsAsPrevious(s: Sibling, name: string)
  {
    s.nodeType != DocumentTypeNode && s.nodeName == name
  }

  /** The number of previous siblings named `name` that are not doctype nodes. */
  function PreviousSameName(siblings: seq<Sibling>, name: string): (n: nat)
    ensures n <= |siblings|
  {
    if siblings == [] then 0
    else
      PreviousSameName(siblings[..|siblings| - 1], name)
        + (if CountsAsPrevious(siblings[|siblings| - 1], name) then 1 else 0)
  }

  /** Whether some next sibling is named `name`. */
  predicate HasNextSameName(siblings: seq<Sibling>, name: string)
  {
    exists t :: 0 <= t < |siblings| && siblings[t].nodeName == name
  }

  /** The position suffix of a step: omitted when the element has no same-named sibling. */
  function PositionSuffix(previous: nat, hasNext: bool): (suffix: string)
    ensures suffix == "" <==> previous == 0 && !hasNext
    ensures '/' !in suffix && ':' !in suffix
  {
    if previous != 0 || hasNext then "[" + NatToString(previous + 1) + "]" else ""
  }

  /** The step of one element: `prefix:` when it has a prefix, the local name, the position. */
  function Step(node: DomNode): string
  {
    (if node.prefix != "" then node.prefix + ":" else "")
      + node.localName
      + PositionSuffix(PreviousSameName(node.previousSiblings, node.nodeName),
                       HasNextSameName(node.nextSiblings, node.nodeName))
  }

  /** The steps of the walk up the chain, leaf first, up to the first node that is not an element. */
  function Steps(chain: seq<DomNode>): (steps: seq<string>)
    ensures |steps| <= |chain|
  {
    if chain == [] || chain[0].nodeType != ElementNode then []
    else [Step(chain[0])] + Steps(chain[1..])
  }

  const IdPathStart := "//*[@id=\""
  const IdPathEnd := "\"]"

  /** The path naming an element by its id: an XPath attribute test on `id`. */
  function IdPath(id: string): string
  {
    IdPathStart + id + IdPathEnd
  }

  /** An id path starts with "//" and holds exactly the id between its fixed ends. */
  lemma {:induction false} IdPathRoundTrip(id: string)
    ensures |IdPath(id)| >= 2 && IdPath(id)[..2] == "//"
    ensures Between(IdPath(id), IdPathStart, IdPathEnd) == Some(id)
  {
    BetweenConcat(IdPathStart, id, IdPathEnd);
  }

  /** The path of the element at the bottom of `chain`. */
  function ElementPathOf(chain: seq<DomNode>): (path: string)
    ensures path == "" <==> chain == [] || (chain[0].id == "" && |Steps(chain)| == 0)
  {
    if chain == [] then ""
    else if chain[0].id != "" then IdPath(chain[0].id)
    else
      var parts := Steps(chain);
      if |parts| != 0 then "/" + Join(Reverse(parts), '/') else ""
  }

  // ---------------------------------------------------------------------
  // The walk

  /** The walk over the previous siblings, counting those that share the element's position count. */
  method CountPreviousSiblings(node: DomNode) returns (nbOfPreviousSiblings: nat)
    ensures nbOfPreviousSiblings == PreviousSameName(node.previousSiblings, node.nodeName)
  {
    nbOfPreviousSiblings := 0;
    var j := 0;
    while j < |node.previousSiblings|
      invariant 0 <= j <= |node.previousSiblings|
      invariant nbOfPreviousSiblings == PreviousSameName(node.previousSiblings[..j], node.nodeName)
    {
      var sibling := node.previousSiblings[j];
      if sibling.nodeType != DocumentTypeNode && sibling.nodeName == node.nodeName {
        nbOfPreviousSiblings := nbOfPreviousSiblings + 1;
      }
      assert node.previousSiblings[..j + 1][..j] == node.previousSiblings[..j];
      j := j + 1;
    }
    assert node.previousSiblings[..j] == node.previousSiblings;
  }

  /** The walk over the next siblings, stopping at the first one with the element's name. */
  method FindNextSibling(node: DomNode) returns (hasNextSiblings: bool)
    ensures hasNextSiblings == HasNextSameName(node.nextSiblings, node.nodeName)
  {
    hasNextSiblings := false;
    var j := 0;
    while j < |node.nextSiblings|
      invariant 0 <= j <= |node.nextSiblings|
      invariant !hasNextSiblings
      invariant forall t :: 0 <= t < j ==> node.nextSiblings[t].nodeName != node.nodeName
    {
      if node.nextSiblings[j].nodeName == node.nodeName {
        hasNextSiblings := true;
        break;
      }
      j := j + 1;
    }
  }

  /** The walk at an element adds its step, then goes on from the parent. */
  lemma {:induction false} StepsAt(chain: seq<DomNode>, k: nat)
    requires k < |chain| && chain[k].nodeType == ElementNode
    ensures Steps(chain[k..]) == [Step(chain[k])] + Steps(chain[k + 1..])
  {
    assert chain[k..][1..] == chain[k + 1..];
  }

  /** The content script's path computation, loop for loop. */
  method GetElementNode(chain: seq<DomNode>) returns (path: string)
    ensures path == ElementPathOf(chain)
  {
    if chain == [] {
      return "";
    }
    if chain[0].id != "" {
      return IdPathStart + chain[0].id + IdPathEnd;
    }
    var parts: seq<string> := [];
    var k := 0;  // the walk is at chain[k]; k == |chain| is the null parent
    while k < |chain| && chain[k].nodeType == ElementNode
      invariant 0 <= k <= |chain|
      invariant parts + Steps(chain[k..]) == Steps(chain)
      decreases |chain| - k
    {
      var node := chain[k];
      var nbOfPreviousSiblings := CountPreviousSiblings(node);
      var hasNextSiblings := FindNextSibling(node);
      var prefix := if node.prefix != "" then node.prefix + ":" else "";
      var nth := if nbOfPreviousSiblings != 0 || hasNextSiblings
                 then "[" + NatToString(nbOfPreviousSiblings + 1) + "]" else "";
      var step := prefix + node.localName + nth;
      assert step == Step(node);
      assert parts + [step] + Steps(chain[k + 1..]) == Steps(chain) by {
        StepsAt(chain, k);
        ConcatAssoc(parts, [step], Steps(chain[k + 1..]));
      }
      parts := parts + [step];
      k := k + 1;
    }
    assert parts == Steps(chain) by {
      assert Steps(chain[k..]) == [];
    }
    path := if |parts| != 0 then "/" + Join(Reverse(parts), '/') else "";
  }

  // ---------------------------------------------------------------------
  // What the walk visits

  /** The i-th step of the walk, and its view, belong to the i-th node of the chain, an element. */
  lemma {:induction false} WalkAt(chain: seq<DomNode>, i: nat)
    requires i < |Steps(chain)|
    ensures chain[i].nodeType == ElementNode
    ensures Steps(chain)[i] == Step(chain[i]) && WalkViews(chain)[i] == StepViewOf(chain[i])
  {
    var rest := chain[1..];
    assert Steps(chain) == [Step(chain[0])] + Steps(rest);
    assert WalkViews(chain) == [StepViewOf(chain[0])] + WalkViews(rest);
    if i > 0 {
      WalkAt(rest, i - 1);
      assert rest[i - 1] == chain[i];
    }
  }

  /** The walk stops at the first node that is not an element, or at the end of the chain. */
  lemma {:induction false} WalkStops(chain: seq<DomNode>)
    ensures |Steps(chain)| < |chain| ==> chain[|Steps(chain)|].nodeType != ElementNode
  {
    if chain != [] && chain[0].nodeType == ElementNode {
      WalkStops(chain[1..]);
      assert |Steps(chain)| == 1 + |Steps(chain[1..])|;
    }
  }

  /** One step per element from the start up to, and not past, the first node that is not an element. */
  lemma {:induction false} StepsAlongChain(chain: seq<DomNode>)
    ensures |Steps(chain)| <= |chain|
    ensures forall i :: 0 <= i < |Steps(chain)| ==>
              chain[i].nodeType == ElementNode && Steps(chain)[i] == Step(chain[i])
    ensures |Steps(chain)| < |chain| ==> chain[|Steps(chain)|].nodeType != ElementNode
  {
    forall i | 0 <= i < |Steps(chain)|
      ensures chain[i].nodeType == ElementNode && Steps(chain)[i] == Step(chain[i])
    {
      WalkAt(chain, i);
    }
    WalkStops(chain);
  }

  /** The view of each element the walk visits, leaf first, as the steps list them. */
  lemma {:induction false} WalkViewsAlongChain(chain: seq<DomNode>)
    ensures forall i :: 0 <= i < |Steps(chain)| ==> WalkViews(chain)[i] == StepViewOf(chain[i])
  {
    forall i | 0 <= i < |Steps(chain)|
      ensures WalkViews(chain)[i] == StepViewOf(chain[i])
    {
      WalkAt(chain, i);
    }
  }

  /** The steps never read an id: only the start element's id matters, and only for the shortcut. */
  lemma {:induction false} StepsIgnoreIds(c1: seq<DomNode>, c2: seq<DomNode>)
    requires |c1| == |c2|
    requires forall i :: 0 <= i < |c1| ==> c1[i].(id := "") == c2[i].(id := "")
    ensures Steps(c1) == Steps(c2)
  {
    if c1 != [] {
      assert c1[0].(id := "") == c2[0].(id := "");
      StepsIgnoreIds(c1[1..], c2[1..]);
    }
  }

  /** Ancestors' ids never change the path: the id shortcut applies to the start element alone. */
  lemma {:induction false} AncestorIdsIgnored(c1: seq<DomNode>, c2: seq<DomNode>)
    requires |c1| == |c2| && |c1| >= 1 && c1[0] == c2[0]
    requires forall i :: 1 <= i < |c1| ==> c1[i].(id := "") == c2[i].(id := "")
    ensures ElementPathOf(c1) == ElementPathOf(c2)
  {
    StepsIgnoreIds(c1, c2);
  }

  // ---------------------------------------------------------------------
  // The position of a step

  /** The position count, read as the size of the set of counted previous siblings. */
  lemma {:induction false} PreviousSameNameIsCount(siblings: seq<Sibling>, name: string)
    ensures PreviousSameName(siblings, name)
            == |set i | 0 <= i < |siblings| && CountsAsPrevious(siblings[i], name)|
  {
    var all := set i | 0 <= i < |siblings| && CountsAsPrevious(siblings[i], name);
    if siblings != [] {
      var n := |siblings| - 1;
      var init := siblings[..n];
      PreviousSameNameIsCount(init, name);
      var before := set i | 0 <= i < |init| && CountsAsPrevious(init[i], name);
      assert before == set i | 0 <= i < n && CountsAsPrevious(siblings[i], name);
      if CountsAsPrevious(siblings[n], name) {
        assert all == before + {n};
        assert n !in before;
      } else {
        assert all == before;
      }
    } else {
      assert all == {};
    }
  }

  /** No counted previous sibling exactly when the count is zero. */
  lemma {:induction false} PreviousSameNameZero(siblings: seq<Sibling>, name: string)
    ensures PreviousSameName(siblings, name) == 0
            <==> forall i :: 0 <= i < |siblings| ==> !CountsAsPrevious(siblings[i], name)
  {
    if siblings != [] {
      var n := |siblings| - 1;
      PreviousSameNameZero(siblings[..n], name);
      assert forall i :: 0 <= i < n ==> siblings[..n][i] == siblings[i];
    }
  }

  /**
   * The position is left out exactly when no previous sibling (other than a
   * doctype) and no next sibling shares the element's name.
   */
  lemma {:induction false} PositionOmittedIff(node: DomNode)
    ensures PositionSuffix(PreviousSameName(node.previousSiblings, node.nodeName),
                           HasNextSameName(node.nextSiblings, node.nodeName)) == ""
            <==> (forall i :: 0 <= i < |node.previousSiblings| ==>
                    !CountsAsPrevious(node.previousSiblings[i], node.nodeName))
                 && (forall t :: 0 <= t < |node.nextSiblings| ==>
                    node.nextSiblings[t].nodeName != node.nodeName)
  {
    PreviousSameNameZero(node.previousSiblings, node.nodeName);
  }

  // ---------------------------------------------------------------------
  // The shape of the path

  /** Text usable in a name: none of the characters a path or a step gives meaning to. */
  predicate PlainName(s: string)
  {
    forall c :: c in s ==> c != '/' && c != ':' && c != '['
  }

  /** An element whose local name and prefix are names in the XML sense. */
  predicate NameSafe(node: DomNode)
  {
    node.localName != "" && PlainName(node.localName) && PlainName(node.prefix)
  }

  /** Every element on the chain carries XML names. */
  predicate ElementNamesSafe(chain: seq<DomNode>)
  {
    forall i :: 0 <= i < |chain| && chain[i].nodeType == ElementNode ==> NameSafe(chain[i])
  }

  /** An element whose names can stand in a path: a local name, and no "/" in it or in the prefix. */
  predicate SlashFree(node: DomNode)
  {
    node.localName != "" && '/' !in node.localName && '/' !in node.prefix
  }

  /** Every element on the chain has names that can stand in a path. */
  predicate ElementsSlashFree(chain: seq<DomNode>)
  {
    forall i :: 0 <= i < |chain| && chain[i].nodeType == ElementNode ==> SlashFree(chain[i])
  }

  lemma {:induction false} NamesSafeSlashFree(chain: seq<DomNode>)
    requires ElementNamesSafe(chain)
    ensures ElementsSlashFree(chain)
  {
    forall i | 0 <= i < |chain| && chain[i].nodeType == ElementNode
      ensures SlashFree(chain[i])
    {
      assert NameSafe(chain[i]);
    }
  }

  lemma {:induction false} StepIsPlain(node: DomNode)
    requires SlashFree(node)
    ensures Step(node) != "" && '/' !in Step(node)
  {
    var suffix := PositionSuffix(PreviousSameName(node.previousSiblings, node.nodeName),
                                 HasNextSameName(node.nextSiblings, node.nodeName));
    assert '/' !in suffix;
  }

  /** The j-th step of the walk is that of the j-th node, non-empty and free of "/". */
  lemma {:induction false} WalkStepPlain(chain: seq<DomNode>, j: nat)
    requires ElementsSlashFree(chain)
    requires j < |Steps(chain)|
    ensures Steps(chain)[j] == Step(chain[j]) && Step(chain[j]) != "" && '/' !in Step(chain[j])
  {
    StepsAlongChain(chain);
    assert chain[j].nodeType == ElementNode;
    assert SlashFree(chain[j]);
    StepIsPlain(chain[j]);
  }

  /** Root first, the i-th step is that of the element i levels below the root; none is empty or holds "/". */
  lemma {:induction false} RootFirstSteps(chain: seq<DomNode>)
    requires ElementsSlashFree(chain)
    ensures var steps := Steps(chain); var k := |steps|;
      forall i :: 0 <= i < k ==>
        Reverse(steps)[i] == Step(chain[k - 1 - i]) && Reverse(steps)[i] != ""
        && '/' !in Reverse(steps)[i]
  {
    var steps := Steps(chain);
    var k := |steps|;
    forall i | 0 <= i < k
      ensures Reverse(steps)[i] == Step(chain[k - 1 - i]) && Reverse(steps)[i] != ""
      ensures '/' !in Reverse(steps)[i]
    {
      var j := k - 1 - i;
      assert Reverse(steps)[i] == steps[j];
      WalkStepPlain(chain, j);
    }
  }

  /** Without the id shortcut, the path after its leading "/" splits back into the steps, root first. */
  lemma {:induction false} WalkPathSplits(chain: seq<DomNode>)
    requires chain != [] && chain[0].id == "" && |Steps(chain)| > 0
    requires ElementsSlashFree(chain)
    ensures |ElementPathOf(chain)| >= 1 && ElementPathOf(chain)[0] == '/'
    ensures Split(ElementPathOf(chain)[1..], '/') == Reverse(Steps(chain))
  {
    var rootFirst := Reverse(Steps(chain));
    RootFirstSteps(chain);
    SplitJoin(rootFirst, '/');
    assert ElementPathOf(chain) == "/" + Join(rootFirst, '/');
    assert ElementPathOf(chain)[1..] == Join(rootFirst, '/');
  }

  /**
   * Without the id shortcut, the path is "/" and then the steps joined by "/",
   * root first: splitting it back gives exactly one non-empty step per element,
   * the i-th from the root being the step of the element i levels below it.
   */
  lemma {:induction false} WalkPathShape(chain: seq<DomNode>)
    requires chain != [] && chain[0].id == "" && |Steps(chain)| > 0
    requires ElementsSlashFree(chain)
    ensures var path, k := ElementPathOf(chain), |Steps(chain)|;
      |path| >= 2 && path[0] == '/' && path[1] != '/'
      && |Split(path[1..], '/')| == k
      && forall i :: 0 <= i < k ==>
           Split(path[1..], '/')[i] == Step(chain[k - 1 - i]) && Split(path[1..], '/')[i] != ""
  {
    var rootFirst := Reverse(Steps(chain));
    RootFirstSteps(chain);
    SplitJoin(rootFirst, '/');
    JoinFirst(rootFirst, '/');
    assert rootFirst[0][0] in rootFirst[0];
    assert ElementPathOf(chain) == "/" + Join(rootFirst, '/');
    assert ElementPathOf(chain)[1..] == Join(rootFirst, '/');
  }

  // ---------------------------------------------------------------------
  // Reading a path back

  /** What one step names: prefix ("" for none), local name and 1-based position, if given. */
  datatype StepView = StepView(prefix: string, localName: string, position: Option<nat>)

  /** What a path names. */
  datatype PathView = NoElement | ById(id: string) | ByWalk(steps: seq<StepView>)

  /** What the step of `node` should name. */
  function StepViewOf(node: DomNode): StepView
  {
    var previous := PreviousSameName(node.previousSiblings, node.nodeName);
    var hasNext := HasNextSameName(node.nextSiblings, node.nodeName);
    StepView(node.prefix, node.localName,
             if previous != 0 || hasNext then Some(previous + 1) else None)
  }

  /** What the path of the element at the bottom of `chain` should name. */
  function PathViewOf(chain: seq<DomNode>): PathView
  {
    if chain == [] then NoElement
    else if chain[0].id != "" then ById(chain[0].id)
    else
      var views := WalkViews(chain);
      if |views| == 0 then NoElement else ByWalk(Reverse(views))
  }

  /** The views of the elements the walk visits, leaf first. */
  function WalkViews(chain: seq<DomNode>): (views: seq<StepView>)
    ensures |views| == |Steps(chain)|
  {
    if chain == [] || chain[0].nodeType != ElementNode then []
    else [StepViewOf(chain[0])] + WalkViews(chain[1..])
  }

  /** Reads one step: an optional `prefix:`, then a local name and position. */
  function DecodeStep(text: string): Option<StepView>
  {
    var colon := Split(text, ':');
    if |colon| > 2 then None
    else DecodeNameAndPosition(if |colon| == 2 then colon[0] else "", colon[|colon| - 1])
  }

  /** Reads a local name and an optional `[n]`. */
  function DecodeNameAndPosition(prefix: string, rest: string): Option<StepView>
  {
    var bracket := Split(rest, '[');
    if |bracket| == 1 then Some(StepView(prefix, rest, None))
    else if |bracket| == 2 && |bracket[1]| >= 1 && bracket[1][|bracket[1]| - 1] == ']' then
      match ParseNat(bracket[1][..|bracket[1]| - 1])
      case Some(n) => Some(StepView(prefix, bracket[0], Some(n)))
      case None => None
    else None
  }

  /** Reads every step, failing if one fails. */
  function DecodeSteps(parts: seq<string>): (r: Option<seq<StepView>>)
    ensures r.Some? <==> forall i :: 0 <= i < |parts| ==> DecodeStep(parts[i]).Some?
    ensures r.Some? ==> |r.value| == |parts|
                        && forall i :: 0 <= i < |parts| ==> r.value[i] == DecodeStep(parts[i]).value
  {
    if parts == [] then Some([])
    else
      match (DecodeStep(parts[0]), DecodeSteps(parts[1..]))
      case (Some(v), Some(vs)) => Some([v] + vs)
      case _ => None
  }

  /** Reads a path back: nothing, an id, or the steps from the root down. */
  function ParseElementPath(path: string): Option<PathView>
  {
    if path == "" then Some(NoElement)
    else if |path| >= 2 && path[..2] == "//" then
      match Between(path, IdPathStart, IdPathEnd)
      case Some(id) => Some(ById(id))
      case None => None
    else if path[0] == '/' then
      match DecodeSteps(Split(path[1..], '/'))
      case Some(steps) => Some(ByWalk(steps))
      case None => None
    else None
  }

  lemma {:induction false} DecodeNameAndPositionRoundTrip(prefix: string, localName: string, previous: nat, hasNext: bool)
    requires PlainName(localName)
    ensures DecodeNameAndPosition(prefix, localName + PositionSuffix(previous, hasNext))
            == Some(StepView(prefix, localName,
                             if previous != 0 || hasNext then Some(previous + 1) else None))
  {
    if previous != 0 || hasNext {
      var digits := NatToString(previous + 1);
      var tail := digits + "]";
      assert localName + PositionSuffix(previous, hasNext) == localName + ['['] + tail;
      assert '[' !in tail;
      JoinTwo(localName, tail, '[');
      SplitJoin([localName, tail], '[');
      assert tail[..|tail| - 1] == digits;
      ParseNatToString(previous + 1);
    } else {
      assert localName + PositionSuffix(previous, hasNext) == localName;
      SplitWithoutSeparator(localName, '[');
    }
  }

  /** A step names exactly the element's prefix, local name and position. */
  lemma {:induction false} DecodeStepRoundTrip(node: DomNode)
    requires NameSafe(node)
    ensures DecodeStep(Step(node)) == Some(StepViewOf(node))
  {
    var previous := PreviousSameName(node.previousSiblings, node.nodeName);
    var hasNext := HasNextSameName(node.nextSiblings, node.nodeName);
    var suffix := PositionSuffix(previous, hasNext);
    var rest := node.localName + suffix;
    assert ':' !in suffix;
    assert ':' !in rest;
    if node.prefix != "" {
      assert Step(node) == node.prefix + [':'] + rest;
      JoinTwo(node.prefix, rest, ':');
      SplitJoin([node.prefix, rest], ':');
    } else {
      assert Step(node) == rest;
      SplitWithoutSeparator(rest, ':');
    }
    DecodeNameAndPositionRoundTrip(node.prefix, node.localName, previous, hasNext);
  }

  /** The j-th element the walk visits has a step that reads back as its view. */
  lemma {:induction false} DecodeWalkStep(chain: seq<DomNode>, j: nat)
    requires ElementNamesSafe(chain)
    requires j < |Steps(chain)|
    ensures DecodeStep(Steps(chain)[j]) == Some(WalkViews(chain)[j])
  {
    StepsAlongChain(chain);
    WalkViewsAlongChain(chain);
    assert chain[j].nodeType == ElementNode;
    assert NameSafe(chain[j]);
    DecodeStepRoundTrip(chain[j]);
  }

  /** Parts that each read back as a view read back, together, as those views. */
  lemma {:induction false} DecodeAll(parts: seq<string>, views: seq<StepView>)
    requires |parts| == |views|
    requires forall i :: 0 <= i < |parts| ==> DecodeStep(parts[i]) == Some(views[i])
    ensures DecodeSteps(parts) == Some(views)
  {
    var r := DecodeSteps(parts);
    assert r.Some?;
    assert |r.value| == |views|;
    assert forall i :: 0 <= i < |views| ==> r.value[i] == views[i];
    assert r.value == views;
  }

  /** The steps, root first, read back as the views of the elements, root first. */
  lemma {:induction false} DecodeEachStep(chain: seq<DomNode>)
    requires ElementNamesSafe(chain)
    ensures DecodeSteps(Reverse(Steps(chain))) == Some(Reverse(WalkViews(chain)))
  {
    var steps, views := Steps(chain), WalkViews(chain);
    var k := |steps|;
    forall i | 0 <= i < k
      ensures DecodeStep(Reverse(steps)[i]) == Some(Reverse(views)[i])
    {
      var j := k - 1 - i;
      DecodeWalkStep(chain, j);
      assert Reverse(steps)[i] == steps[j];
      assert Reverse(views)[i] == views[j];
    }
    DecodeAll(Reverse(steps), Reverse(views));
  }

  /** Read back step by step, the walk gives each element's view, root first. */
  lemma {:induction false} WalkStepsDecode(chain: seq<DomNode>)
    requires chain != [] && chain[0].id == "" && |Steps(chain)| > 0
    requires ElementNamesSafe(chain)
    ensures DecodeSteps(Split(ElementPathOf(chain)[1..], '/')) == Some(Reverse(WalkViews(chain)))
  {
    assert Split(ElementPathOf(chain)[1..], '/') == Reverse(Steps(chain)) by {
      NamesSafeSlashFree(chain);
      WalkPathSplits(chain);
    }
    DecodeEachStep(chain);
  }

  /** The id shortcut reads back as the id. */
  lemma {:induction false} IdPathDecodes(chain: seq<DomNode>)
    requires chain != [] && chain[0].id != ""
    ensures ParseElementPath(ElementPathOf(chain)) == Some(PathViewOf(chain))
  {
    var id := chain[0].id;
    assert ElementPathOf(chain) == IdPath(id);
    assert PathViewOf(chain) == ById(id);
    IdPathRoundTrip(id);
    var path := IdPath(id);
    assert path != "" && |path| >= 2 && path[..2] == "//";
    assert ParseElementPath(path) == Some(ById(id));
  }

  /** The walk's path reads back as the views of its elements, root first. */
  lemma {:induction false} WalkPathDecodes(chain: seq<DomNode>)
    requires chain != [] && chain[0].id == "" && |Steps(chain)| > 0
    requires ElementNamesSafe(chain)
    ensures ParseElementPath(ElementPathOf(chain)) == Some(PathViewOf(chain))
  {
    var path := ElementPathOf(chain);
    NamesSafeSlashFree(chain);
    WalkPathShape(chain);
    WalkStepsDecode(chain);
    assert path != "" && path[..2] != "//" && path[0] == '/' by {
      assert path[1] != '/' && path[..2][1] == path[1];
    }
    assert ParseElementPath(path) == Some(ByWalk(Reverse(WalkViews(chain))));
    assert PathViewOf(chain) == ByWalk(Reverse(WalkViews(chain)));
  }

  /**
   * Reading the path back gives what it should name: nothing for no element,
   * the id when the start element has one, and otherwise each element's
   * prefix, local name and position, root first.
   */
  lemma {:induction false} ParseElementPathRoundTrip(chain: seq<DomNode>)
    requires ElementNamesSafe(chain)
    ensures ParseElementPath(ElementPathOf(chain)) == Some(PathViewOf(chain))
  {
    if chain != [] && chain[0].id != "" {
      IdPathDecodes(chain);
    } else if chain != [] && |Steps(chain)| > 0 {
      WalkPathDecodes(chain);
    } else {
      assert ElementPathOf(chain) == "";
      assert PathViewOf(chain) == NoElement;
    }
  }

  /**
   * Why the round trip asks for names without ':': an HTML element written
   * `<o:p>` has the local name "o:p" and no prefix, and its step "o:p" reads
   * back as the prefix "o" with the local name "p".
   */
  lemma {:induction false} ColonInLocalNameMisread()
    ensures var node := DomNode(ElementNode, "O:P", "o:p", "", "", [], []);
      Step(node) == "o:p"
      && DecodeStep(Step(node)) == Some(StepView("o", "p", None))
      && StepViewOf(node) == StepView("", "o:p", None)
  {
    var node := DomNode(ElementNode, "O:P", "o:p", "", "", [], []);
    assert Step(node) == "o:p";
    JoinTwo("o", "p", ':');
    assert "o:p" == "o" + [':'] + "p";
    assert ':' !in "o" && ':' !in "p";
    SplitJoin(["o", "p"], ':');
    SplitWithoutSeparator("p", '[');
  }

  /** The shape of the path still holds for `<o:p>` inside `<p>`: it splits into "p" and "o:p". */
  lemma {:induction false} ColonNameWalkSplits()
    ensures var chain := [DomNode(ElementNode, "O:P", "o:p", "", "", [], []),
                          DomNode(ElementNode, "P", "p", "", "", [], [])];
      ElementsSlashFree(chain)
      && ElementPathOf(chain)[0] == '/'
      && Split(ElementPathOf(chain)[1..], '/') == ["p", "o:p"]
  {
    var leaf := DomNode(ElementNode, "O:P", "o:p", "", "", [], []);
    var parent := DomNode(ElementNode, "P", "p", "", "", [], []);
    var chain := [leaf, parent];
    assert Step(leaf) == "o:p";
    assert Step(parent) == "p";
    assert chain[1..][1..] == [];
    assert Steps(chain[1..]) == ["p"];
    assert Steps(chain) == ["o:p", "p"];
    assert Reverse(Steps(chain)) == ["p", "o:p"];
    assert ElementsSlashFree(chain);
    WalkPathSplits(chain);
  }
}
