/** Translation of `teams:` and `connections:` into the unified graph configuration. */
module Graph {
  import opened Lists
  import opened Options

  const START := "start"
  const END := "end"

  datatype Step = Step(id: string, agent: string, sharedPrompt: Option<string>, promptTemplate: Option<string>,
                       memberTimeout: Option<real>, mcpServers: seq<string>)

  /** One end of an edge: a step id, or a list of them (an implicit fork or join). */
  datatype Ends = One(id: string) | Many(ids: seq<string>)

  datatype Edge = Edge(source: Ends, target: Ends, mode: string, condition: Option<string>,
                       stopCondition: Option<string>, transform: Option<string>, isAsync: bool, priority: int)

  datatype JoinNode = JoinNode(id: string, inputs: seq<string>)

  datatype GraphConfig = GraphConfig(name: Option<string>, steps: seq<Step>, edges: seq<Edge>, joins: seq<JoinNode>)

  function PlainEdge(source: Ends, target: Ends): Edge {
    Edge(source, target, "run", None, None, None, false, 0)
  }

  function Ids(e: Ends): seq<string> {
    match e case One(id) => [id] case Many(ids) => ids
  }

  // ---- Teams -------------------------------------------------------------------

  datatype Mode = Sequential | Parallel

  datatype Member = Plain(name: string) | Configured(name: string, promptTemplate: Option<string>)

  datatype Team = Team(name: string, mode: Mode, members: seq<Member>, sharedPrompt: Option<string>,
                       memberTimeout: Option<real>, mcpServers: seq<string>)

  /** `get_member_configs`: names with a prompt template; the last one given wins. */
  function MemberTemplates(members: seq<Member>): map<string, string> {
    if members == [] then map[]
    else
      var m := Last(members);
      var before := MemberTemplates(Init(members));
      if m.Configured? && m.promptTemplate.Some? then before[m.name := m.promptTemplate.value] else before
  }

  function MemberStep(team: Team, name: string): Step {
    var templates := MemberTemplates(team.members);
    Step(name, name, team.sharedPrompt, if name in templates then Some(templates[name]) else None,
         team.memberTimeout, team.mcpServers)
  }

  function MemberNames(team: Team): seq<string> {
    seq(|team.members|, k requires 0 <= k < |team.members| => team.members[k].name)
  }

  function MemberSteps(team: Team): seq<Step> {
    seq(|team.members|, k requires 0 <= k < |team.members| => MemberStep(team, team.members[k].name))
  }

  function StepIds(steps: seq<Step>): seq<string> {
    seq(|steps|, k requires 0 <= k < |steps| => steps[k].id)
  }

  /** The nodes of a sequential graph in the order in which they run. */
  function PathOf(names: seq<string>): seq<string> {
    [START] + names + [END]
  }

  /** One edge from every node of a path to the next. */
  function ChainEdges(path: seq<string>): seq<Edge>
    requires |path| >= 1
  {
    seq(|path| - 1, i requires 0 <= i < |path| - 1 => PlainEdge(One(path[i]), One(path[i + 1])))
  }

  function TeamEdges(team: Team): seq<Edge> {
    var names := MemberNames(team);
    if names == [] then []
    else match team.mode
      case Sequential => ChainEdges(PathOf(names))
      case Parallel => [PlainEdge(One(START), Many(names)), PlainEdge(Many(names), One(END))]
  }

  function TeamGraph(team: Team): GraphConfig {
    GraphConfig(Some(team.name), MemberSteps(team), TeamEdges(team), [])
  }

  /** `_build_sequential_edges`. */
  method BuildSequentialEdges(steps: seq<Step>) returns (edges: seq<Edge>)
    ensures edges == if steps == [] then [] else ChainEdges(PathOf(StepIds(steps)))
  {
    edges := [];
    if steps == [] {
      return;
    }
    ghost var path := PathOf(StepIds(steps));
    assert |path| == |steps| + 2 && path[0] == START && path[|steps| + 1] == END;
    assert forall i | 0 <= i < |steps| :: path[i + 1] == steps[i].id;
    hide PathOf, StepIds, ChainEdges;
    ChainStarts(path);
    edges := edges + [PlainEdge(One(START), One(steps[0].id))];
    for i := 0 to |steps| - 1
      invariant edges == ChainEdges(path)[..i + 1]
    {
      ChainGrows(path, i + 1);
      edges := edges + [PlainEdge(One(steps[i].id), One(steps[i + 1].id))];
    }
    ChainGrows(path, |steps|);
    edges := edges + [PlainEdge(One(steps[|steps| - 1].id), One(END))];
  }

  lemma ChainStarts(path: seq<string>)
    requires |path| >= 2
    ensures |ChainEdges(path)| == |path| - 1
    ensures ChainEdges(path)[..1] == [PlainEdge(One(path[0]), One(path[1]))]
  {
  }

  lemma ChainGrows(path: seq<string>, i: nat)
    requires i < |path| - 1
    ensures |ChainEdges(path)| == |path| - 1
    ensures ChainEdges(path)[..i + 1] == ChainEdges(path)[..i] + [PlainEdge(One(path[i]), One(path[i + 1]))]
    ensures ChainEdges(path)[..|path| - 1] == ChainEdges(path)
  {
  }

  /** `translate_team_to_graph`. */
  method TranslateTeam(team: Team) returns (graph: GraphConfig)
    ensures graph == TeamGraph(team)
  {
    var steps: seq<Step> := [];
    for i := 0 to |team.members|
      invariant steps == MemberSteps(team)[..i]
    {
      steps := steps + [MemberStep(team, team.members[i].name)];
    }
    assert steps == MemberSteps(team);
    assert StepIds(steps) == MemberNames(team);
    var edges: seq<Edge>;
    match team.mode {
      case Sequential =>
        edges := BuildSequentialEdges(steps);
      case Parallel =>
        if steps == [] {
          edges := [];
        } else {
          edges := [PlainEdge(One(START), Many(StepIds(steps))), PlainEdge(Many(StepIds(steps)), One(END))];
        }
    }
    graph := GraphConfig(Some(team.name), steps, edges, []);
  }

  // ---- Connections ---------------------------------------------------------------

  /** A normalized connection: only one to a node has a `name`; absent keys are None. */
  datatype Connection =
    | NodeConnection(name: string, connectionType: Option<string>, filterCondition: Option<string>,
                     stopCondition: Option<string>, transform: Option<string>, isAsync: Option<bool>,
                     priority: Option<int>)
    | FileConnection
    | CallableConnection

  datatype Agent = Agent(name: string, connections: seq<Connection>, mcpServers: seq<string>)

  function ConnectionEdge(agent: string, c: Connection): Edge
    requires c.NodeConnection?
  {
    Edge(One(agent), One(c.name), c.connectionType.Or("run"), c.filterCondition, c.stopCondition, c.transform,
         c.isAsync.Or(false), c.priority.Or(0))
  }

  function EdgesFor(agent: string, connections: seq<Connection>): seq<Edge> {
    if connections == [] then []
    else
      EdgesFor(agent, Init(connections)) +
      if Last(connections).NodeConnection? then [ConnectionEdge(agent, Last(connections))] else []
  }

  function AgentEdges(a: Agent): seq<Edge> { EdgesFor(a.name, a.connections) }

  /** `translate_connections_to_edges`: one edge per connection to a node, in agent order. */
  method TranslateConnections(agents: seq<Agent>) returns (edges: seq<Edge>)
    ensures edges == FlatMap(AgentEdges, agents)
  {
    edges := [];
    for i := 0 to |agents|
      invariant edges == FlatMap(AgentEdges, agents[..i])
    {
      ghost var before := edges;
      var connections := agents[i].connections;
      for j := 0 to |connections|
        invariant edges == before + EdgesFor(agents[i].name, connections[..j])
      {
        assert Init(connections[..j + 1]) == connections[..j];
        if !connections[j].NodeConnection? {
          continue;
        }
        edges := edges + [ConnectionEdge(agents[i].name, connections[j])];
      }
      assert connections[..|connections|] == connections;
      assert agents[..i + 1] == agents[..i] + [agents[i]];
      FlatMapSnoc(AgentEdges, agents[..i], agents[i]);
    }
    assert agents[..|agents|] == agents;
  }

  // ---- The unified graph -----------------------------------------------------------

  const EMPTY := GraphConfig(None, [], [], [])

  function AgentStep(a: Agent): Step {
    Step(a.name, a.name, None, None, None, a.mcpServers)
  }

  /** Steps for the agents that have connections and are not in the graph yet. */
  function AddedSteps(agents: seq<Agent>, present: seq<string>): seq<Step> {
    if agents == [] then []
    else
      var a := Last(agents);
      AddedSteps(Init(agents), present) +
      if a.name !in present && a.connections != [] then [AgentStep(a)] else []
  }

  ghost predicate DistinctNames(agents: seq<Agent>) {
    forall i, j | 0 <= i < j < |agents| :: agents[i].name != agents[j].name
  }

  function AllSteps(agents: seq<Agent>, teams: seq<Team>, base: GraphConfig): seq<Step> {
    base.steps + AddedSteps(agents, StepIds(base.steps)) + FlatMap(MemberSteps, teams)
  }

  function AllEdges(agents: seq<Agent>, teams: seq<Team>, base: GraphConfig): seq<Edge> {
    base.edges + FlatMap(AgentEdges, agents) + FlatMap(TeamEdges, teams)
  }

  lemma {:induction false} AddedIds(agents: seq<Agent>, present: seq<string>, id: string)
    ensures id in StepIds(AddedSteps(agents, present)) <==>
            id !in present && exists a :: a in agents && a.name == id && a.connections != []
  {
    if agents != [] {
      AddedIds(Init(agents), present, id);
      var a := Last(agents);
      var before := AddedSteps(Init(agents), present);
      assert forall x :: x in agents <==> x in Init(agents) || x == a;
      if a.name !in present && a.connections != [] {
        assert StepIds(before + [AgentStep(a)]) == StepIds(before) + [a.name];
      } else {
        assert before + [] == before;
      }
    }
  }

  /** The part of `translate_config_to_graph` that adds steps for connected agents. */
  method AddConnectedAgents(agents: seq<Agent>, existing: seq<Step>) returns (steps: seq<Step>)
    requires DistinctNames(agents)
    ensures steps == existing + AddedSteps(agents, StepIds(existing))
  {
    steps := existing;
    var present: set<string> := set s | s in StepIds(existing);
    ghost var ids := StepIds(existing);
    for i := 0 to |agents|
      invariant steps == existing + AddedSteps(agents[..i], ids)
      invariant forall id :: id in present <==> id in ids || id in StepIds(AddedSteps(agents[..i], ids))
    {
      var a := agents[i];
      ghost var before := AddedSteps(agents[..i], ids);
      assert Init(agents[..i + 1]) == agents[..i];
      AddedIds(agents[..i], ids, a.name);
      assert a.name !in StepIds(before);
      if a.name !in present && a.connections != [] {
        steps := steps + [AgentStep(a)];
        present := present + {a.name};
        assert StepIds(before + [AgentStep(a)]) == StepIds(before) + [a.name];
      } else {
        assert before + [] == before;
      }
    }
    assert agents[..|agents|] == agents;
  }

  /** The part of `translate_config_to_graph` that merges the graphs of the teams. */
  method MergeTeams(teams: seq<Team>, base: GraphConfig) returns (graph: GraphConfig)
    ensures graph.steps == base.steps + FlatMap(MemberSteps, teams)
    ensures graph.edges == base.edges + FlatMap(TeamEdges, teams)
    ensures graph.joins == base.joins
    ensures graph.name == if base.name.Some? || teams == [] then base.name else Some(teams[0].name)
  {
    NoTeams();
    hide FlatMap, MemberSteps, TeamEdges;
    var steps, edges, joins, name := base.steps, base.edges, base.joins, base.name;
    assert teams[..0] == [];
    for i := 0 to |teams|
      invariant steps == base.steps + FlatMap(MemberSteps, teams[..i])
      invariant edges == base.edges + FlatMap(TeamEdges, teams[..i])
      invariant joins == base.joins
      invariant name == if base.name.Some? || i == 0 then base.name else Some(teams[0].name)
    {
      var g := TranslateTeam(teams[i]);
      steps := steps + g.steps;
      edges := edges + g.edges;
      joins := joins + g.joins;
      if name.None? {
        name := Some(teams[i].name);
      }
      assert teams[..i + 1] == teams[..i] + [teams[i]];
      FlatMapSnoc(MemberSteps, teams[..i], teams[i]);
      FlatMapSnoc(TeamEdges, teams[..i], teams[i]);
    }
    assert teams[..|teams|] == teams;
    graph := GraphConfig(name, steps, edges, joins);
  }

  /** `translate_config_to_graph`. The existing parts come first and unchanged; then agents and
      their connections, then the teams. A graph with joins only is dropped. */
  method TranslateConfig(agents: seq<Agent>, teams: Option<seq<Team>>, existing: Option<GraphConfig>)
    returns (graph: Option<GraphConfig>)
    requires DistinctNames(agents)
    ensures var base := existing.Or(EMPTY);
            var steps, edges := AllSteps(agents, teams.Or([]), base), AllEdges(agents, teams.Or([]), base);
            && (graph.None? <==> steps == [] && edges == [])
            && (graph.Some? ==> graph.value.steps == steps && graph.value.edges == edges
                                && graph.value.joins == base.joins)
            && (graph.Some? && base.name.Some? ==> graph.value.name == base.name)
            && (graph.Some? && base.name.None? ==>
                  graph.value.name == if teams.Or([]) == [] then None else Some(teams.value[0].name))
  {
    hide FlatMap;
    var base := existing.Or(EMPTY);
    var hasConnections := exists a :: a in agents && a.connections != [];
    if !hasConnections {
      NoConnectionsNoEdges(agents, StepIds(base.steps));
    }
    if teams.None? && !hasConnections && existing.None? {
      NoTeams();
      return None;
    }
    var steps := base.steps;
    if hasConnections {
      steps := AddConnectedAgents(agents, base.steps);
    }
    var connections := TranslateConnections(agents);
    var g := MergeTeams(teams.Or([]), base.(steps := steps, edges := base.edges + connections));
    if g.steps == [] && g.edges == [] {
      return None;
    }
    graph := Some(g);
  }

  lemma NoTeams()
    ensures FlatMap(MemberSteps, []) == [] && FlatMap(TeamEdges, []) == []
  {
  }

  lemma {:induction false} NoConnectionsNoEdges(agents: seq<Agent>, present: seq<string>)
    requires forall a | a in agents :: a.connections == []
    ensures AddedSteps(agents, present) == [] && FlatMap(AgentEdges, agents) == []
  {
    if agents != [] {
      NoConnectionsNoEdges(Init(agents), present);
      assert Last(agents) in agents;
      assert agents == Init(agents) + [Last(agents)];
      FlatMapSnoc(AgentEdges, Init(agents), Last(agents));
    }
  }
}
