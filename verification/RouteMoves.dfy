/**
 What each move of a call does: when it succeeds, and to which route it leads.
 */
module RouteMoves {
  import opened Basics
  import opened CallRoute
  import opened Tokens

  lemma LegalExtension(nodes: seq<GoString>, node: GoString)
    requires LegalPath(nodes)
    ensures LegalPath(nodes + [node]) <==>
              if nodes == [] then node == MS || node == AGENT
              else node !in nodes && nodes[|nodes| - 1] != PRODUCT && AllowedTransition(nodes[|nodes| - 1], node)
  {
    if LegalPath(nodes + [node]) {
      LegalNext(nodes, node);
    } else if nodes == [] {
      assert [] + [node] == [node];
    }
    if nodes != [] && node !in nodes && AllowedTransition(nodes[|nodes| - 1], node) {
      LegalExtends(nodes, node);
    }
  }

  /** A node may be appended exactly when the path stays legal. */
  lemma PathExtends(c: CallContext, origin: CallContext, nodes: seq<GoString>, node: GoString)
    requires ValidOrigin(origin) && Stands(c, origin, nodes)
    ensures ValidateCallPath(c, node).None? <==> LegalPath(nodes + [node])
  {
    LegalRoute(nodes);
    StandsValid(c, origin, nodes);
    LegalExtension(nodes, node);
    ShortLegalPaths(nodes);
    hide ContextToken, RouteText, ParseRoute, LegalPath, ValidateCallContext;
  }

  /** A legal path of three nodes has reached Product. */
  lemma ShortLegalPaths(nodes: seq<GoString>)
    requires LegalPath(nodes)
    ensures |nodes| <= 3 && (|nodes| == 3 ==> nodes[2] == PRODUCT)
    ensures forall node :: AllowedTransition(if nodes == [] then [] else nodes[|nodes| - 1], node) ==> ValidNode(node)
  {
  }

  lemma AppendLeads(c: CallContext, origin: CallContext, nodes: seq<GoString>, node: GoString)
    requires ValidOrigin(origin) && Stands(c, origin, nodes) && LegalPath(nodes + [node])
    ensures var r := AppendCallNode(c, node); r.Ok? && Stands(r.value, origin, nodes + [node])
  {
    LegalRoute(nodes);
    RouteTextAppend(nodes, node);
    PathExtends(c, origin, nodes, node);
    LegalNext(nodes, node);
    hide ContextToken, RouteText, ParseRoute, LegalPath, ValidateCallPath, ValidNode, AllowedTransition;
  }

  /** Sending appends the sender when the path stays legal, and does nothing when the sender already stands last. */
  lemma SendLeads(c: CallContext, origin: CallContext, nodes: seq<GoString>, node: GoString)
    requires ValidOrigin(origin) && Stands(c, origin, nodes)
    ensures var r := Attempt(c, Send(node));
            if nodes != [] && nodes[|nodes| - 1] == node then r == Ok(c)
            else && (r.Ok? <==> LegalPath(nodes + [node]))
                 && (r.Ok? ==> Stands(r.value, origin, nodes + [node]))
  {
    LegalRoute(nodes);
    PathExtends(c, origin, nodes, node);
    hide ContextToken, RouteText, ParseRoute, LegalPath, ValidateCallPath;
    if LegalPath(nodes + [node]) {
      AppendLeads(c, origin, nodes, node);
    }
  }

  /** A receiver of a call that is under way advances it, exactly when the path stays legal. */
  lemma ReceiveLeads(c: CallContext, origin: CallContext, nodes: seq<GoString>, node: GoString)
    requires ValidOrigin(origin) && Stands(c, origin, nodes)
    ensures var r := Attempt(c, Receive(node));
            && (r.Ok? <==> nodes != [] && LegalPath(nodes + [node]))
            && (r.Ok? ==> Stands(r.value, origin, nodes + [node]))
  {
    LegalRoute(nodes);
    PathExtends(c, origin, nodes, node);
    hide ContextToken, RouteText, ParseRoute, LegalPath, ValidateCallPath, AppendCallNode;
    if LegalPath(nodes + [node]) {
      AppendLeads(c, origin, nodes, node);
    }
  }

  /** The identifiers of the call are UUIDs. */
  predicate StrictIds(origin: CallContext) {
    OperationId(origin.chainId) && OperationId(origin.rootOperationId)
  }

  lemma PeerMeans(c: CallContext, origin: CallContext, nodes: seq<GoString>, peer: GoString)
    requires ValidOrigin(origin) && Stands(c, origin, nodes)
    ensures PeerBoundary(c, peer).None? <==> nodes != [] && nodes[|nodes| - 1] == peer && StrictIds(origin)
  {
    LegalRoute(nodes);
    StandsValid(c, origin, nodes);
    hide ContextToken, RouteText, ParseRoute, LegalPath, ValidateCallContext, OperationId;
  }

  lemma EntryPaths(nodes: seq<GoString>)
    requires LegalPath(nodes) && nodes != []
    ensures nodes[|nodes| - 1] == MS <==> nodes == [MS]
    ensures nodes[|nodes| - 1] == AGENT <==> nodes == [AGENT] || nodes == [MS, AGENT]
    ensures nodes[|nodes| - 1] == MS ==> LegalPath(nodes + [AGENT])
    ensures nodes[|nodes| - 1] == AGENT ==> LegalPath(nodes + [PRODUCT])
  {
    assert |MS| == 2 && |AGENT| == 5 && |PRODUCT| == 7;
    assert [MS] + [AGENT] == [MS, AGENT] && [AGENT] + [PRODUCT] == [AGENT, PRODUCT];
    assert [MS, AGENT] + [PRODUCT] == [MS, AGENT, PRODUCT];
  }

  /** The Agent's entry accepts exactly strict calls that stand at ms, and leads to agent. */
  lemma EnterAgentLeads(c: CallContext, origin: CallContext, nodes: seq<GoString>)
    requires ValidOrigin(origin) && Stands(c, origin, nodes)
    ensures var r := Attempt(c, EnterAgent);
            && (r.Ok? <==> nodes == [MS] && StrictIds(origin))
            && (r.Ok? ==> Stands(r.value, origin, [MS, AGENT]))
  {
    hide ContextToken, RouteText, ParseRoute, LegalPath, ValidateCallPath, AppendCallNode, PeerBoundary, StrictIds;
    PeerMeans(c, origin, nodes, MS);
    PathExtends(c, origin, nodes, AGENT);
    if nodes != [] {
      EntryPaths(nodes);
    }
    if nodes == [MS] {
      AppendLeads(c, origin, nodes, AGENT);
      assert [MS] + [AGENT] == [MS, AGENT];
    }
  }

  /** The Product's entry accepts exactly strict calls that stand at agent, and leads to product. */
  lemma EnterProductLeads(c: CallContext, origin: CallContext, nodes: seq<GoString>)
    requires ValidOrigin(origin) && Stands(c, origin, nodes)
    ensures var r := Attempt(c, EnterProduct);
            && (r.Ok? <==> (nodes == [AGENT] || nodes == [MS, AGENT]) && StrictIds(origin))
            && (r.Ok? ==> Stands(r.value, origin, nodes + [PRODUCT]))
  {
    hide ContextToken, RouteText, ParseRoute, LegalPath, ValidateCallPath, AppendCallNode, PeerBoundary, StrictIds;
    PeerMeans(c, origin, nodes, AGENT);
    PathExtends(c, origin, nodes, PRODUCT);
    if nodes != [] {
      EntryPaths(nodes);
      if nodes[|nodes| - 1] == AGENT {
        AppendLeads(c, origin, nodes, PRODUCT);
      }
    }
  }

  /** The protocol's own moves: each sender appends itself, each receiver enters behind its peer. */
  const FROM_MESSAGE_SERVER: seq<Move> := [Send(MS), EnterAgent, Send(AGENT), EnterProduct]
  const FROM_AGENT_ITSELF: seq<Move> := [Send(AGENT), EnterProduct]

  lemma RunUnrolls(c: CallContext, moves: seq<Move>)
    requires moves != []
    ensures Run(c, moves) == Run(Step(c, moves[0]), moves[1..])
  {
  }

  /** They lead every strict call to Product by way of every node of its route. */
  lemma ProtocolReachesProduct(origin: CallContext)
    requires ValidOrigin(origin) && StrictIds(origin)
    ensures Stands(Run(origin, FROM_MESSAGE_SERVER), origin, [MS, AGENT, PRODUCT])
    ensures Stands(Run(origin, FROM_AGENT_ITSELF), origin, [AGENT, PRODUCT])
  {
    hide ValidOrigin, StrictIds, Attempt, LegalPath, RouteText, Run;
    OriginStands(origin);
    assert [] + [MS] == [MS] && [] + [AGENT] == [AGENT] && [AGENT] + [PRODUCT] == [AGENT, PRODUCT];
    assert [MS, AGENT] + [PRODUCT] == [MS, AGENT, PRODUCT];
    SendLeads(origin, origin, [], MS);
    LegalStarts();
    var atMs := Step(origin, Send(MS));
    EnterAgentLeads(atMs, origin, [MS]);
    var atAgent := Step(atMs, EnterAgent);
    SendLeads(atAgent, origin, [MS, AGENT], AGENT);
    EnterProductLeads(atAgent, origin, [MS, AGENT]);
    var m := FROM_MESSAGE_SERVER;
    RunUnrolls(origin, m);
    RunUnrolls(atMs, m[1..]);
    RunUnrolls(atAgent, m[2..]);
    RunUnrolls(atAgent, m[3..]);
    RunEnds(Step(atAgent, EnterProduct), m[4..]);
    SendLeads(origin, origin, [], AGENT);
    var started := Step(origin, Send(AGENT));
    EnterProductLeads(started, origin, [AGENT]);
    var n := FROM_AGENT_ITSELF;
    RunUnrolls(origin, n);
    RunUnrolls(started, n[1..]);
    RunEnds(Step(started, EnterProduct), n[2..]);
  }

  lemma RunEnds(c: CallContext, moves: seq<Move>)
    requires moves == []
    ensures Run(c, moves) == c
  {
  }

  lemma LegalStarts()
    ensures LegalPath([MS]) && LegalPath([AGENT])
  {
  }

  lemma OriginStands(origin: CallContext)
    requires ValidOrigin(origin)
    ensures Stands(origin, origin, [])
  {
  }
}
