/**
 The route that a grant predicts at a boundary is the route that the call
 machine builds from the grant's entry node.
 */
module BoundaryRoutes {
  import opened Basics
  import opened CallRoute
  import opened Grants
  import opened GrantWire
  import opened Tokens

  /** The path from `entry` to `terminal`, when there is one. */
  function PathBetween(entry: GoString, terminal: GoString): seq<GoString> {
    if terminal == AGENT then [MS, AGENT]
    else if entry == MS then [MS, AGENT, PRODUCT] else [AGENT, PRODUCT]
  }

  lemma EntryNode(route: GoString, hop: int)
    requires ValidEntry(route, hop)
    ensures (route == MS || route == AGENT) && hop == 1
  {
    ParseInverse([], route);
    var nodes := ParseRoute(route).value;
    assert RouteText(nodes) == nodes[0];
  }

  lemma PathTexts()
    ensures RouteText([MS, AGENT]) == MS + ARROW + AGENT
    ensures RouteText([AGENT, PRODUCT]) == AGENT + ARROW + PRODUCT
    ensures RouteText([MS, AGENT, PRODUCT]) == MS + ARROW + AGENT + ARROW + PRODUCT
  {
    RouteTextAppend([], MS);
    RouteTextAppend([], AGENT);
    RouteTextAppend([MS], AGENT);
    RouteTextAppend([AGENT], PRODUCT);
    RouteTextAppend([MS, AGENT], PRODUCT);
    assert [] + [MS] == [MS] && [] + [AGENT] == [AGENT];
    assert [MS] + [AGENT] == [MS, AGENT] && [AGENT] + [PRODUCT] == [AGENT, PRODUCT];
    assert [MS, AGENT] + [PRODUCT] == [MS, AGENT, PRODUCT];
  }

  /** A call at `nodes` runs from the entry node to the boundary's own node. */
  predicate Joins(nodes: seq<GoString>, entry: GoString, terminal: GoString) {
    |nodes| >= 2 && nodes[0] == entry && nodes[|nodes| - 1] == terminal
  }

  lemma LegalJoins(nodes: seq<GoString>, entry: GoString, terminal: GoString)
    requires LegalPath(nodes) && (entry == MS || entry == AGENT) && (terminal == AGENT || terminal == PRODUCT)
    ensures Joins(nodes, entry, terminal)
            <==> nodes == PathBetween(entry, terminal) && !(entry == AGENT && terminal == AGENT)
  {
    NodesDiffer();
  }

  lemma NodesDiffer()
    ensures MS != AGENT && AGENT != PRODUCT && MS != PRODUCT
  {
    assert |MS| == 2 && |AGENT| == 5 && |PRODUCT| == 7;
  }

  /**
   For a call standing on a legal route, the boundary check accepts exactly the
   routes from the grant's entry to this boundary within the grant's budget.
   */
  lemma FitsMeansJoins(c: GrantClaims, ctx: CallContext, origin: CallContext, nodes: seq<GoString>, terminal: GoString)
    requires ValidEntry(c.entryRoute, c.entryHop) && (terminal == AGENT || terminal == PRODUCT)
    requires Stands(ctx, origin, nodes)
    ensures RouteFits(c, ctx, terminal)
            <==> Joins(nodes, c.entryRoute, terminal) && ctx.hop <= c.maxHop && |ctx.route| <= c.maxRouteLength
  {
    hide LegalPath, RouteText, ValidEntry, Joins;
    EntryNode(c.entryRoute, c.entryHop);
    LegalJoins(nodes, c.entryRoute, terminal);
    PathTexts();
    NodesDiffer();
    var path := PathBetween(c.entryRoute, terminal);
    assert LegalPath(path) by {
      PathIsLegal(c.entryRoute, terminal);
    }
    if RouteText(nodes) == RouteText(path) {
      SameRoute(nodes, path);
    }
  }

  lemma PathIsLegal(entry: GoString, terminal: GoString)
    ensures LegalPath(PathBetween(entry, terminal))
  {
  }

  /** Over whole runs: what the boundary accepts is what the machine built, and nothing shorter or longer. */
  lemma BoundaryMeetsRun(c: GrantClaims, origin: CallContext, moves: seq<Move>, terminal: GoString)
    requires ValidEntry(c.entryRoute, c.entryHop) && (terminal == AGENT || terminal == PRODUCT)
    requires ValidOrigin(origin)
    ensures var ctx := Run(origin, moves);
            && ParseRoute(ctx.route).Ok?
            && (RouteFits(c, ctx, terminal)
                <==> Joins(ParseRoute(ctx.route).value, c.entryRoute, terminal)
                     && ctx.hop <= c.maxHop && |ctx.route| <= c.maxRouteLength)
  {
    hide ContextToken, Run, ParseRoute, LegalPath, ValidEntry, Joins, RouteFits, ValidateCallContext;
    EmptyIsLegal();
    var nodes := RunStands(origin, origin, [], moves);
    LegalRoute(nodes);
    FitsMeansJoins(c, Run(origin, moves), origin, nodes, terminal);
  }

  lemma EmptyIsLegal()
    ensures LegalPath([]) && RouteText([]) == []
  {
  }

  /** Some run reaches every boundary that a grant's entry allows. */
  lemma BoundaryReached(c: GrantClaims, origin: CallContext, terminal: GoString) returns (moves: seq<Move>)
    requires ValidEntry(c.entryRoute, c.entryHop) && BoundaryRoute(c, terminal).Ok?
    requires ValidOrigin(origin)
    ensures BoundaryRoute(c, terminal) == Ok((Run(origin, moves).route, Run(origin, moves).hop))
  {
    hide LegalPath, RouteText, ValidEntry, Run, ContextToken;
    EntryNode(c.entryRoute, c.entryHop);
    var path := PathBetween(c.entryRoute, terminal);
    PathIsLegal(c.entryRoute, terminal);
    PathTexts();
    NodesDiffer();
    EveryLegalRouteReached(origin, path);
    moves := MovesFor(path);
  }
}
