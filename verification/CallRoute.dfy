/**
 Call contexts and the private route: senders append themselves, receivers
 validate the peer and advance.
 */
module CallRoute {
  import opened Basics
  import opened Tokens

  const MAX_CALL_HOP: int := 3
  const MAX_ROUTE_LENGTH: int := 256

  const ARROW: GoString := [0xE2, 0x86, 0x92]
  const MS: GoString := [0x6D, 0x73]
  const AGENT: GoString := [0x61, 0x67, 0x65, 0x6E, 0x74]
  const PRODUCT: GoString := [0x70, 0x72, 0x6F, 0x64, 0x75, 0x63, 0x74]

  datatype CallContext = CallContext(
    chainId: GoString,
    rootOperationId: GoString,
    parentCallId: GoString,
    hop: int,
    route: GoString,
    deadline: int64)

  predicate ValidNode(node: GoString) {
    node == MS || node == AGENT || node == PRODUCT
  }

  predicate AllNodes(nodes: seq<GoString>) {
    forall i :: 0 <= i < |nodes| ==> ValidNode(nodes[i])
  }

  function ParseRoute(route: GoString): (r: Result<seq<GoString>>)
    ensures r.Ok? ==> AllNodes(r.value) && (r.value == [] <==> route == [])
  {
    if route == [] then Ok([])
    else if 0x20 in route || 0x09 in route || 0x0A in route then Err(InvalidCallPath)
    else if AllNodes(Split(route, ARROW)) then Ok(Split(route, ARROW))
    else Err(InvalidCallPath)
  }

  function RouteText(nodes: seq<GoString>): GoString {
    Join(nodes, ARROW)
  }

  lemma {:induction false} RouteTextPlain(nodes: seq<GoString>)
    requires AllNodes(nodes)
    ensures 0x20 !in RouteText(nodes) && 0x09 !in RouteText(nodes) && 0x0A !in RouteText(nodes)
    ensures nodes != [] ==> RouteText(nodes) != []
    decreases |nodes|
  {
    if |nodes| > 1 {
      RouteTextPlain(nodes[1..]);
    }
  }

  /** Parsing and joining are inverse, both ways. */
  lemma ParseInverse(nodes: seq<GoString>, route: GoString)
    ensures AllNodes(nodes) ==> ParseRoute(RouteText(nodes)) == Ok(nodes)
    ensures ParseRoute(route).Ok? ==> RouteText(ParseRoute(route).value) == route
  {
    if AllNodes(nodes) && nodes != [] {
      RouteTextPlain(nodes);
      SplitJoin(nodes, ARROW);
    }
    JoinSplit(route, ARROW);
  }

  predicate NoRepeat(nodes: seq<GoString>) {
    forall i, j :: 0 <= i < j < |nodes| ==> nodes[i] != nodes[j]
  }

  /** `DetectCycle`, without its parsing: the nodes seen so far are kept in a set. */
  method DetectCycle(route: GoString) returns (error: Option<Error>)
    ensures error == match ParseRoute(route)
                     case Err(e) => Some(e)
                     case Ok(nodes) => if NoRepeat(nodes) then None else Some(CycleDetected)
  {
    var parsed := ParseRoute(route);
    if parsed.Err? {
      return Some(parsed.error);
    }
    var nodes := parsed.value;
    var seen: set<GoString> := {};
    for i := 0 to |nodes|
      invariant seen == set j | 0 <= j < i :: nodes[j]
      invariant forall j, k :: 0 <= j < k < i ==> nodes[j] != nodes[k]
    {
      if nodes[i] in seen {
        return Some(CycleDetected);
      }
      seen := seen + {nodes[i]};
    }
    return None;
  }

  /** `ValidateCallContext`: structure only. */
  function ValidateCallContext(c: CallContext): Option<Error> {
    if !ContextToken(c.chainId) || !ContextToken(c.rootOperationId) then Some(InvalidContext)
    else if c.parentCallId != [] && !ContextToken(c.parentCallId) then Some(InvalidContext)
    else if c.hop < 0 then Some(InvalidContext)
    else if c.hop > MAX_CALL_HOP then Some(CycleDetected)
    else if |c.route| > MAX_ROUTE_LENGTH || c.deadline <= 0 then Some(InvalidContext)
    else if c.route == [] then (if c.hop != 0 then Some(InvalidContext) else None)
    else match ParseRoute(c.route)
      case Err(e) => Some(e)
      case Ok(nodes) =>
        if |nodes| != c.hop then Some(InvalidContext)
        else if NoRepeat(nodes) then None else Some(CycleDetected)
  }

  /** What structural validation means: proper tokens, and a route of distinct known nodes, one per hop. */
  lemma ContextMeaning(c: CallContext)
    ensures ValidateCallContext(c).None? <==>
              && ContextToken(c.chainId) && ContextToken(c.rootOperationId)
              && (c.parentCallId == [] || ContextToken(c.parentCallId))
              && c.deadline > 0 && 0 <= c.hop <= 3
              && exists nodes: seq<GoString> ::
                   AllNodes(nodes) && NoRepeat(nodes) && |nodes| == c.hop && RouteText(nodes) == c.route
  {
    hide ContextToken, RouteText, ParseRoute, NoRepeat, AllNodes;
    EmptyRoute();
    if ValidateCallContext(c).None? {
      var nodes := ParseRoute(c.route).value;
      ParseInverse(nodes, c.route);
    }
    forall nodes: seq<GoString> | AllNodes(nodes) && NoRepeat(nodes) && |nodes| == c.hop && RouteText(nodes) == c.route
      ensures ParseRoute(c.route) == Ok(nodes) && (c.route == [] <==> nodes == []) && |c.route| <= 10 * |nodes|
    {
      ParseInverse(nodes, c.route);
      ShortRoute(nodes);
    }
  }

  lemma EmptyRoute()
    ensures ParseRoute([]) == Ok([]) && RouteText([]) == [] && NoRepeat([])
  {
  }

  /** `ValidateStrictCallContext`: identifiers are UUIDs. */
  function ValidateStrictCallContext(c: CallContext): Option<Error> {
    if ValidateCallContext(c).Some? then ValidateCallContext(c)
    else if !OperationId(c.chainId) || !OperationId(c.rootOperationId) then Some(InvalidContext)
    else if c.parentCallId != [] && !OperationId(c.parentCallId) then Some(InvalidContext)
    else None
  }

  predicate AllowedTransition(from: GoString, to: GoString) {
    (from == MS && to == AGENT) || (from == AGENT && to == PRODUCT)
  }

  /** `ValidateCallPath`: may `node` be appended? */
  function ValidateCallPath(c: CallContext, node: GoString): Option<Error> {
    if ValidateCallContext(c).Some? then ValidateCallContext(c)
    else if !ValidNode(node) then Some(InvalidCallPath)
    else if c.route == [] then (if node == MS || node == AGENT then None else Some(InvalidCallPath))
    else
      var nodes := ParseRoute(c.route).value;
      var previous := nodes[|nodes| - 1];
      if previous == PRODUCT then Some(InvalidCallPath)
      else if node in nodes then Some(CycleDetected)
      else if !AllowedTransition(previous, node) then Some(InvalidCallPath)
      else if c.hop >= MAX_CALL_HOP then Some(CycleDetected)
      else None
  }

  /** `AppendCallNode`: re-appending the last node is a no-op. */
  function AppendCallNode(c: CallContext, node: GoString): Result<CallContext> {
    if c.route != [] && ParseRoute(c.route).Err? then Err(ParseRoute(c.route).error)
    else
      var nodes := ParseRoute(c.route).value;
      if nodes != [] && nodes[|nodes| - 1] == node then Ok(c)
      else match ValidateCallPath(c, node)
        case Some(e) => Err(e)
        case None =>
          Ok(c.(hop := c.hop + 1, route := if c.route == [] then node else c.route + ARROW + node))
  }

  /** `ValidateAndAdvanceCallContext`. */
  function Advance(c: CallContext, receiver: GoString): Result<CallContext> {
    if c.route == [] then Err(InvalidCallPath)
    else match ValidateCallPath(c, receiver)
      case Some(e) => Err(e)
      case None => AppendCallNode(c, receiver)
  }

  /** `validatePeerBoundary`: the last node must be the expected peer. */
  function PeerBoundary(c: CallContext, peer: GoString): Option<Error> {
    if c.route == [] then Some(InvalidCallPath)
    else if ValidateStrictCallContext(c).Some? then ValidateStrictCallContext(c)
    else
      var nodes := ParseRoute(c.route).value;
      if nodes[|nodes| - 1] != peer then Some(InvalidCallPath) else None
  }

  /** `ValidateAndAdvanceAgentCallContext` and its Product counterpart. */
  function AdvancePast(c: CallContext, peer: GoString, receiver: GoString): Result<CallContext> {
    if PeerBoundary(c, peer).Some? then Err(PeerBoundary(c, peer).value)
    else if ValidateCallPath(c, receiver).Some? then Err(ValidateCallPath(c, receiver).value)
    else AppendCallNode(c, receiver)
  }

  function NewCallContext(chainId: GoString, rootOperationId: GoString, deadline: int64): CallContext {
    CallContext(chainId, if rootOperationId == [] then chainId else rootOperationId, [], 0, [], deadline)
  }

  // ---------- whole runs ----------

  datatype Move =
    | Send(node: GoString)
    | Receive(node: GoString)
    | EnterAgent
    | EnterProduct

  function Attempt(c: CallContext, m: Move): Result<CallContext> {
    match m
    case Send(node) => AppendCallNode(c, node)
    case Receive(node) => Advance(c, node)
    case EnterAgent => AdvancePast(c, MS, AGENT)
    case EnterProduct => AdvancePast(c, AGENT, PRODUCT)
  }

  /** A refused move leaves the caller with the context it had. */
  function Step(c: CallContext, m: Move): CallContext {
    match Attempt(c, m) case Ok(next) => next case Err(_) => c
  }

  function Run(c: CallContext, moves: seq<Move>): CallContext
    decreases moves
  {
    if moves == [] then c else Run(Step(c, moves[0]), moves[1..])
  }

  /** The six routes of the protocol. */
  predicate LegalPath(nodes: seq<GoString>) {
    || nodes == [] || nodes == [MS] || nodes == [AGENT]
    || nodes == [MS, AGENT] || nodes == [AGENT, PRODUCT] || nodes == [MS, AGENT, PRODUCT]
  }

  /** `c` stands at the path `nodes` of a call that started as `origin`. */
  predicate Stands(c: CallContext, origin: CallContext, nodes: seq<GoString>) {
    && LegalPath(nodes)
    && c == origin.(hop := |nodes|, route := RouteText(nodes))
  }

  predicate ValidOrigin(origin: CallContext) {
    && ContextToken(origin.chainId) && ContextToken(origin.rootOperationId)
    && origin.parentCallId == [] && origin.hop == 0 && origin.route == [] && origin.deadline > 0
  }

  /** A new context is a proper origin exactly when its identifiers are tokens and its deadline positive. */
  lemma NewContextIsOrigin(chainId: GoString, rootOperationId: GoString, deadline: int64)
    ensures var c := NewCallContext(chainId, rootOperationId, deadline);
            && (ValidOrigin(c) <==> && ContextToken(chainId)
                                    && (rootOperationId == [] || ContextToken(rootOperationId))
                                    && deadline > 0)
            && (ValidOrigin(c) <==> ValidateCallContext(c).None?)
            && Stands(c, c, [])
  {
    hide ContextToken;
    assert RouteText([]) == [];
  }

  lemma RouteTextAppend(nodes: seq<GoString>, node: GoString)
    ensures RouteText(nodes + [node]) == if nodes == [] then node else RouteText(nodes) + ARROW + node
    decreases |nodes|
  {
    if nodes != [] {
      RouteTextAppend(nodes[1..], node);
      assert (nodes + [node])[1..] == nodes[1..] + [node];
      assert (nodes + [node])[0] == nodes[0];
      if |nodes| > 1 {
        var t := RouteText(nodes[1..]);
        assert nodes[0] + ARROW + (t + ARROW + node) == nodes[0] + ARROW + t + ARROW + node;
      }
    }
  }

  lemma LegalRoute(nodes: seq<GoString>)
    requires LegalPath(nodes)
    ensures AllNodes(nodes) && NoRepeat(nodes) && |nodes| <= 3
    ensures |RouteText(nodes)| <= 30 && (RouteText(nodes) == [] <==> nodes == [])
    ensures ParseRoute(RouteText(nodes)) == Ok(nodes)
  {
    LegalNodes(nodes);
    hide LegalPath;
    ParseInverse(nodes, []);
    ShortRoute(nodes);
  }

  lemma LegalNodes(nodes: seq<GoString>)
    requires LegalPath(nodes)
    ensures AllNodes(nodes) && NoRepeat(nodes) && |nodes| <= 3
  {
  }

  lemma StandsValid(c: CallContext, origin: CallContext, nodes: seq<GoString>)
    requires ValidOrigin(origin) && Stands(c, origin, nodes)
    ensures ValidateCallContext(c).None?
  {
    LegalRoute(nodes);
  }

  lemma LegalExtends(nodes: seq<GoString>, node: GoString)
    requires LegalPath(nodes)
    requires if nodes == [] then node == MS || node == AGENT else AllowedTransition(nodes[|nodes| - 1], node)
    requires node !in nodes
    ensures LegalPath(nodes + [node])
  {
  }

  /** Appending moves along a legal path by one node or not at all. */
  lemma AppendStands(c: CallContext, origin: CallContext, nodes: seq<GoString>, node: GoString)
    requires ValidOrigin(origin) && Stands(c, origin, nodes) && AppendCallNode(c, node).Ok?
    ensures var next := AppendCallNode(c, node).value;
            next == c || Stands(next, origin, nodes + [node])
  {
    LegalRoute(nodes);
    StandsValid(c, origin, nodes);
    RouteTextAppend(nodes, node);
    hide ContextToken, RouteText, ParseRoute, LegalPath, AllowedTransition, ValidNode, ValidateCallContext;
    if AppendCallNode(c, node).value != c {
      LegalExtends(nodes, node);
    }
  }

  /** Every step keeps the context on a legal path; a change is one hop forward. */
  lemma StepStands(c: CallContext, origin: CallContext, nodes: seq<GoString>, m: Move) returns (next: seq<GoString>)
    requires ValidOrigin(origin) && Stands(c, origin, nodes)
    ensures Stands(Step(c, m), origin, next)
    ensures Step(c, m) == c || (|next| == |nodes| + 1 && nodes <= next && Step(c, m).hop == c.hop + 1)
  {
    hide LegalPath, RouteText, ParseRoute, ContextToken, ValidateCallPath, PeerBoundary, AppendCallNode;
    var node := match m case Send(n) => n case Receive(n) => n case EnterAgent => AGENT case EnterProduct => PRODUCT;
    if Attempt(c, m).Ok? && Attempt(c, m).value != c {
      AppendStands(c, origin, nodes, node);
      next := nodes + [node];
    } else {
      next := nodes;
    }
  }

  /**
   Whatever calls are attempted, the context stays on one of the six legal
   routes with its hop equal to the node count, its identifiers and deadline
   unchanged, and at most three changes in all.
   */
  lemma {:induction false} RunStands(c: CallContext, origin: CallContext, nodes: seq<GoString>, moves: seq<Move>)
    returns (final: seq<GoString>)
    requires ValidOrigin(origin) && Stands(c, origin, nodes)
    ensures Stands(Run(c, moves), origin, final) && nodes <= final
    ensures ValidateCallContext(Run(c, moves)).None?
    ensures Changes(c, moves) == |final| - |nodes| <= MAX_CALL_HOP - c.hop
    decreases |moves|
  {
    if moves == [] {
      final := nodes;
    } else {
      var next := StepStands(c, origin, nodes, moves[0]);
      LegalRoute(nodes);
      LegalRoute(next);
      final := RunStands(Step(c, moves[0]), origin, next, moves[1..]);
      if Step(c, moves[0]) == c {
        assert |next| == |nodes|;
        SameRoute(nodes, next);
      }
    }
    LegalRoute(final);
    StandsValid(Run(c, moves), origin, final);
  }

  /** The same for every call that starts with a new context. */
  lemma NewContextRuns(chainId: GoString, rootOperationId: GoString, deadline: int64, moves: seq<Move>)
    returns (final: seq<GoString>)
    requires ValidateCallContext(NewCallContext(chainId, rootOperationId, deadline)).None?
    ensures var origin := NewCallContext(chainId, rootOperationId, deadline);
            && Stands(Run(origin, moves), origin, final)
            && ValidateCallContext(Run(origin, moves)).None?
            && Changes(origin, moves) == |final| <= MAX_CALL_HOP
  {
    hide ValidateCallContext, ValidOrigin, Stands, Run, Changes;
    var origin := NewCallContext(chainId, rootOperationId, deadline);
    NewContextIsOrigin(chainId, rootOperationId, deadline);
    final := RunStands(origin, origin, [], moves);
  }

  lemma SameRoute(a: seq<GoString>, b: seq<GoString>)
    requires LegalPath(a) && LegalPath(b) && RouteText(a) == RouteText(b)
    ensures a == b
  {
    LegalRoute(a);
    LegalRoute(b);
  }

  /** How many moves of a run change the context. */
  function Changes(c: CallContext, moves: seq<Move>): nat
    decreases moves
  {
    if moves == [] then 0
    else (if Step(c, moves[0]) == c then 0 else 1) + Changes(Step(c, moves[0]), moves[1..])
  }

  lemma {:induction false} RunAppend(c: CallContext, moves: seq<Move>, m: Move)
    ensures Run(c, moves + [m]) == Step(Run(c, moves), m)
    decreases |moves|
  {
    if moves == [] {
      assert [m][1..] == [];
    } else {
      RunAppend(Step(c, moves[0]), moves[1..], m);
      assert (moves + [m])[1..] == moves[1..] + [m];
    }
  }

  /** The moves that build a path node by node. */
  function MovesFor(nodes: seq<GoString>): seq<Move> {
    seq(|nodes|, i requires 0 <= i < |nodes| => Send(nodes[i]))
  }

  lemma LegalNext(nodes: seq<GoString>, node: GoString)
    requires LegalPath(nodes) && LegalPath(nodes + [node])
    ensures ValidNode(node) && node !in nodes && |nodes| < 3
    ensures nodes == [] ==> node == MS || node == AGENT
    ensures nodes != [] ==> AllowedTransition(nodes[|nodes| - 1], node) && nodes[|nodes| - 1] != PRODUCT
  {
    var path := nodes + [node];
    assert path[|path| - 1] == node;
    assert path[..|nodes|] == nodes;
    assert |nodes| == 1 ==> path[0] == nodes[0];
    assert |nodes| == 2 ==> path[0] == nodes[0] && path[1] == nodes[1];
  }

  lemma LegalStep(origin: CallContext, nodes: seq<GoString>, node: GoString)
    requires ValidOrigin(origin) && LegalPath(nodes) && LegalPath(nodes + [node])
    ensures Step(origin.(hop := |nodes|, route := RouteText(nodes)), Send(node))
            == origin.(hop := |nodes| + 1, route := RouteText(nodes + [node]))
  {
    var c := origin.(hop := |nodes|, route := RouteText(nodes));
    StandsValid(c, origin, nodes);
    LegalRoute(nodes);
    RouteTextAppend(nodes, node);
    LegalNext(nodes, node);
    hide ContextToken, RouteText, ParseRoute, LegalPath, ValidNode, AllowedTransition, ValidateCallContext;
    assert ValidateCallPath(c, node).None?;
  }

  /** Each of the six routes is reached by some run. */
  lemma {:induction false} EveryLegalRouteReached(origin: CallContext, nodes: seq<GoString>)
    requires ValidOrigin(origin) && LegalPath(nodes)
    ensures Stands(Run(origin, MovesFor(nodes)), origin, nodes)
    decreases |nodes|
  {
    if nodes == [] {
      assert RouteText([]) == [];
    } else {
      var front, last := nodes[..|nodes| - 1], nodes[|nodes| - 1];
      assert nodes == front + [last];
      EveryLegalRouteReached(origin, front);
      assert MovesFor(nodes) == MovesFor(front) + [Send(last)];
      RunAppend(origin, MovesFor(front), Send(last));
      LegalStep(origin, front, last);
    }
  }

  /** `ValidateCallContext` alone accepts every route of distinct known nodes. */
  lemma DistinctRoutesValidate(origin: CallContext, nodes: seq<GoString>)
    requires ValidOrigin(origin) && AllNodes(nodes) && NoRepeat(nodes) && |nodes| <= 3
    ensures ValidateCallContext(origin.(hop := |nodes|, route := RouteText(nodes))).None?
  {
    ShortRoute(nodes);
    ParseInverse(nodes, []);
    hide ContextToken, RouteText, ParseRoute;
  }

  /** So validation is weaker than reachability: `agent→ms` passes it and no run reaches it. */
  lemma ValidationIsWeaker(origin: CallContext, moves: seq<Move>)
    requires ValidOrigin(origin)
    ensures var stray := origin.(hop := 2, route := RouteText([AGENT, MS]));
            ValidateCallContext(stray).None? && Run(origin, moves) != stray
  {
    var stray := origin.(hop := 2, route := RouteText([AGENT, MS]));
    StrayRoute();
    DistinctRoutesValidate(origin, [AGENT, MS]);
    assert RouteText([]) == [];
    var final := RunStands(origin, origin, [], moves);
    LegalRoute(final);
    hide ContextToken, Run, RouteText, ParseRoute, ValidateCallContext;
  }

  lemma StrayRoute()
    ensures ParseRoute(RouteText([AGENT, MS])) == Ok([AGENT, MS]) && !LegalPath([AGENT, MS])
    ensures AllNodes([AGENT, MS]) && NoRepeat([AGENT, MS])
  {
    ParseInverse([AGENT, MS], []);
  }

  lemma {:induction false} ShortRoute(nodes: seq<GoString>)
    requires AllNodes(nodes)
    ensures |RouteText(nodes)| <= 10 * |nodes|
    ensures RouteText(nodes) == [] <==> nodes == []
    decreases |nodes|
  {
    if |nodes| > 1 {
      ShortRoute(nodes[1..]);
    }
  }
}
