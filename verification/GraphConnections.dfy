/** What translated connections deliver, and what the steps of a translated graph run. */
module GraphConnections {
  import opened Lists
  import opened Graph
  import opened GraphMeaning
  import opened Options

  // ---- Connections ------------------------------------------------------------------------------

  /** What a connection makes of an output of its agent, told from its own fields: nothing, if
      its stop condition holds of the output or its filter does not hold of the transformed
      one; a connection without a filter lets everything through. */
  function Delivered<V>(w: World<V>, c: Connection, x: V): Option<V>
    requires c.NodeConnection?
  {
    var y := match c.transform case Some(f) => w.apply(f, x) case None => x;
    if c.stopCondition.Some? && w.holds(c.stopCondition.value, x) then None
    else if c.filterCondition.Some? && !w.holds(c.filterCondition.value, y) then None
    else Some(y)
  }

  /** What it delivers of a sequence of outputs: its stop condition ends it for good. */
  function DeliveredUntilStop<V>(w: World<V>, c: Connection, xs: seq<V>): seq<V>
    requires c.NodeConnection?
  {
    if xs == [] || (c.stopCondition.Some? && w.holds(c.stopCondition.value, xs[0])) then []
    else
      (match Delivered(w, c, xs[0]) case Some(y) => [y] case None => []) + DeliveredUntilStop(w, c, xs[1..])
  }

  /** The edge of a connection, told from the fields of both: absent ones mean mode `run`, not
      async and priority 0. */
  predicate Translates(e: Edge, agent: string, c: Connection)
    requires c.NodeConnection?
  {
    && e.source == One(agent) && e.target == One(c.name)
    && e.condition == c.filterCondition && e.stopCondition == c.stopCondition && e.transform == c.transform
    && e.mode == (match c.connectionType case Some(mode) => mode case None => "run")
    && e.isAsync == (match c.isAsync case Some(b) => b case None => false)
    && e.priority == (match c.priority case Some(p) => p case None => 0)
  }

  /** What goes along an edge until its stop condition ends it. */
  function AlongUntilStop<V>(w: World<V>, e: Edge, xs: seq<V>): seq<V> {
    if xs == [] || (e.stopCondition.Some? && w.holds(e.stopCondition.value, xs[0])) then []
    else
      var y := if e.transform.Some? then w.apply(e.transform.value, xs[0]) else xs[0];
      (if e.condition.Some? && !w.holds(e.condition.value, y) then [] else [y]) + AlongUntilStop(w, e, xs[1..])
  }

  lemma {:induction false} TranslatedDelivers<V(!new)>(w: World<V>, e: Edge, agent: string, c: Connection, xs: seq<V>)
    requires c.NodeConnection? && Translates(e, agent, c)
    ensures AlongUntilStop(w, e, xs) == DeliveredUntilStop(w, c, xs)
    ensures forall x, y :: Passes(w, e, x, y) <==> Delivered(w, c, x) == Some(y)
  {
    if xs != [] {
      TranslatedDelivers(w, e, agent, c, xs[1..]);
    }
  }

  /** The edges of agents are the translations of their node connections. */
  lemma AgentEdgesTranslate(agents: seq<Agent>, e: Edge)
    ensures e in FlatMap(AgentEdges, agents) <==>
            exists a, c :: a in agents && c in a.connections && c.NodeConnection? && Translates(e, a.name, c)
  {
    FlatMapMember(AgentEdges, agents, e);
    forall a ensures e in AgentEdges(a) <==>
      exists c :: c in a.connections && c.NodeConnection? && Translates(e, a.name, c)
    {
      EdgesForMember(a.name, a.connections, e);
      forall c: Connection | c.NodeConnection? ensures Translates(e, a.name, c) <==> e == ConnectionEdge(a.name, c) {
      }
    }
    hide FlatMap, Translates, AgentEdges;
  }

  /** Some connection of an agent delivers `v` to node `n` and runs it, from an output that the
      agent puts out in `g`. */
  ghost predicate Connected<V(!new)>(g: GraphConfig, agents: seq<Agent>, w: World<V>, input: V, n: string, v: V, d: nat)
  {
    exists a, c, x ::
      && a in agents && c in a.connections && c.NodeConnection? && c.name == n
      && (c.connectionType == None || c.connectionType == Some("run"))
      && Emits(g, w, input, a.name, x, d) && Delivered(w, c, x) == Some(v)
  }

  lemma ConnectionCarries<V(!new)>(g: GraphConfig, w: World<V>, input: V, e: Edge, a: Agent, c: Connection, n: string,
      v: V, d: nat)
    requires c.NodeConnection? && Translates(e, a.name, c)
    ensures Leads(e, n) <==> c.name == n && (c.connectionType == None || c.connectionType == Some("run"))
    ensures Carries(g, w, input, e, v, d) <==>
            exists x :: Emits(g, w, input, a.name, x, d) && Delivered(w, c, x) == Some(v)
  {
    TranslatedDelivers(w, e, a.name, c, []);
    assert Ids(e.target) == [c.name];
    assert Carries(g, w, input, e, v, d) <==> exists x :: Emits(g, w, input, a.name, x, d) && Passes(w, e, x, v);
    hide Emits, Passes, Delivered, Carries;
  }

  /** Main result for connections, in the unified graph of any agents, teams and given graph: what
      arrives at a node is what the connections of agents to it deliver of their outputs, each
      by its own conditions and transform, and what given edges and teams carry to it. */
  lemma ConnectionsDeliver<V(!new)>(agents: seq<Agent>, teams: seq<Team>, base: GraphConfig, w: World<V>, input: V,
      n: string, v: V, d: nat)
    ensures var g := UnifiedGraph(agents, teams, base);
            Arrives(g, w, input, n, v, d) <==>
            && d > 0
            && (|| Connected(g, agents, w, input, n, v, d - 1)
                || exists e :: (e in base.edges || e in FlatMap(TeamEdges, teams)) && Leads(e, n)
                               && Carries(g, w, input, e, v, d - 1))
  {
    var g := UnifiedGraph(agents, teams, base);
    assert g.edges == base.edges + FlatMap(AgentEdges, agents) + FlatMap(TeamEdges, teams);
    hide UnifiedGraph, FlatMap, Carries, Leads, Emits, Translates, Delivered;
    if d > 0 {
      var before: nat := d - 1;
      if e :| e in FlatMap(AgentEdges, agents) && Leads(e, n) && Carries(g, w, input, e, v, before) {
        AgentEdgesTranslate(agents, e);
        var a, c :| a in agents && c in a.connections && c.NodeConnection? && Translates(e, a.name, c);
        ConnectionCarries(g, w, input, e, a, c, n, v, before);
        assert Connected(g, agents, w, input, n, v, before);
      }
      if Connected(g, agents, w, input, n, v, before) {
        var a, c, x :| && a in agents && c in a.connections && c.NodeConnection? && c.name == n
                       && (c.connectionType == None || c.connectionType == Some("run"))
                       && Emits(g, w, input, a.name, x, before) && Delivered(w, c, x) == Some(v);
        var e := ConnectionEdge(a.name, c);
        EdgeTranslates(a.name, c);
        AgentEdgesTranslate(agents, e);
        ConnectionCarries(g, w, input, e, a, c, n, v, before);
        assert e in g.edges && Leads(e, n) && Carries(g, w, input, e, v, before);
      }
    }
  }

  lemma EdgeTranslates(agent: string, c: Connection)
    requires c.NodeConnection?
    ensures Translates(ConnectionEdge(agent, c), agent, c)
  {
  }

  /** The node connections of an agent, in order. */
  function NodeConnections(connections: seq<Connection>): seq<Connection> {
    if connections == [] then []
    else (if connections[0].NodeConnection? then [connections[0]] else []) + NodeConnections(connections[1..])
  }

  ghost predicate Aligned(edges: seq<Edge>, agent: string, connections: seq<Connection>) {
    && |edges| == |connections|
    && forall i | 0 <= i < |edges| :: connections[i].NodeConnection? && Translates(edges[i], agent, connections[i])
  }

  lemma {:induction false} NodeConnectionsSnoc(connections: seq<Connection>, c: Connection)
    ensures NodeConnections(connections + [c]) ==
            NodeConnections(connections) + if c.NodeConnection? then [c] else []
  {
    if connections == [] {
      assert [c][1..] == [];
    } else {
      NodeConnectionsSnoc(connections[1..], c);
      assert (connections + [c])[1..] == connections[1..] + [c];
    }
  }

  /** The edges of each agent are its node connections, one for each and in order. */
  lemma {:induction false} EdgesKeepOrder(agent: string, connections: seq<Connection>)
    ensures Aligned(EdgesFor(agent, connections), agent, NodeConnections(connections))
  {
    hide Translates;
    if connections != [] {
      var c := Last(connections);
      EdgesKeepOrder(agent, Init(connections));
      NodeConnectionsSnoc(Init(connections), c);
      assert Init(connections) + [c] == connections;
      if c.NodeConnection? {
        EdgeTranslates(agent, c);
      }
    }
  }

  // ---- Steps ------------------------------------------------------------------------------------

  /** The template given last for a member is the one that counts. */
  lemma {:induction false} TemplateGivenLast(members: seq<Member>, name: string)
    ensures var templates := MemberTemplates(members);
            match LastTemplate(members, name)
            case Some(template) => name in templates && templates[name] == template
            case None => name !in templates
  {
    if members != [] {
      TemplateGivenLast(Init(members), name);
    }
  }

  /** The prompt template in the last entry for the member that has one. */
  function LastTemplate(members: seq<Member>, name: string): Option<string> {
    if members == [] then None
    else
      match Last(members)
      case Configured(n, Some(template)) => if n == name then Some(template) else LastTemplate(Init(members), name)
      case _ => LastTemplate(Init(members), name)
  }

  /** Every member has a step that runs the agent of that name, with its own template and the
      prompt, timeout and servers of the team. */
  lemma StepsOfMembers(team: Team)
    ensures |MemberSteps(team)| == |team.members|
    ensures forall k | 0 <= k < |team.members| ::
              MemberSteps(team)[k] ==
                var name := team.members[k].name;
                Step(name, name, team.sharedPrompt, LastTemplate(team.members, name), team.memberTimeout,
                  team.mcpServers)
  {
    forall k | 0 <= k < |team.members| {
      TemplateGivenLast(team.members, team.members[k].name);
    }
    hide MemberTemplates, LastTemplate;
  }

  /** The steps added for agents run those agents, with their own servers and nothing else; they
      are those of the agents with connections that the graph has no step for. */
  lemma {:induction false} StepsOfAgents(agents: seq<Agent>, present: seq<string>, s: Step)
    ensures s in AddedSteps(agents, present) <==>
            exists a :: a in agents && a.connections != [] && a.name !in present
              && s == Step(a.name, a.name, None, None, None, a.mcpServers)
  {
    if agents != [] {
      StepsOfAgents(Init(agents), present, s);
      assert forall a :: a in agents <==> a in Init(agents) || a == Last(agents);
    }
  }
}
