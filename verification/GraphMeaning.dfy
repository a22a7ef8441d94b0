/** What a translated graph means: values flow along edges from `start` to `end`, and every
    step runs its agent on what arrives. */
module GraphMeaning {
  import opened Lists
  import opened Graph
  import opened Options

  /** The agents, how the outputs of several steps are joined, when a condition holds of a value,
      and what a transform makes of it. */
  datatype World<!V> = World(agents: (string, V) -> V, join: seq<V> -> V, holds: (string, V) -> bool,
                             apply: (string, V) -> V)

  function AgentOf(steps: seq<Step>, id: string): Option<string> {
    if steps == [] then None else if steps[0].id == id then Some(steps[0].agent) else AgentOf(steps[1..], id)
  }

  /** The edge runs node `n` on what it delivers. */
  predicate Leads(e: Edge, n: string) { e.mode == "run" && n in Ids(e.target) }

  /** Output `x` goes along the edge and arrives as `y`. The stop condition is tested first; a
      value on which it holds is not delivered. The filter is tested on the transformed value. */
  ghost predicate Passes<V>(w: World<V>, e: Edge, x: V, y: V) {
    && !(e.stopCondition.Some? && w.holds(e.stopCondition.value, x))
    && y == (if e.transform.Some? then w.apply(e.transform.value, x) else x)
    && (e.condition.Some? ==> w.holds(e.condition.value, y))
  }

  /** Node `n` puts out `v` after a value went along `d` edges: `start` puts out the input, and a
      step what its agent makes of a value that arrives. */
  ghost predicate Emits<V(!new)>(g: GraphConfig, w: World<V>, input: V, n: string, v: V, d: nat)
    decreases d, 1
  {
    if n == START then v == input
    else AgentOf(g.steps, n).Some? && exists x ::
      Arrives(g, w, input, n, x, d) && v == w.agents(AgentOf(g.steps, n).value, x)
  }

  /** Every edge that leads to a node delivers what it carries, whatever else arrives there. */
  ghost predicate Arrives<V(!new)>(g: GraphConfig, w: World<V>, input: V, n: string, v: V, d: nat)
    decreases d, 0
  {
    d > 0 && exists e :: e in g.edges && Leads(e, n) && Carries(g, w, input, e, v, d - 1)
  }

  /** An edge from one node carries what passes of the outputs of that node; an edge from several
      nodes, what passes of the joins of one output of each. */
  ghost predicate Carries<V(!new)>(g: GraphConfig, w: World<V>, input: V, e: Edge, v: V, d: nat)
    decreases d, 3
  {
    match e.source
    case One(m) => exists x :: Emits(g, w, input, m, x, d) && Passes(w, e, x, v)
    case Many(ms) => exists vs :: EmitAll(g, w, input, ms, vs, d) && Passes(w, e, w.join(vs), v)
  }

  ghost predicate EmitAll<V(!new)>(g: GraphConfig, w: World<V>, input: V, ms: seq<string>, vs: seq<V>, d: nat)
    decreases d, 2
  {
    |vs| == |ms| && forall i | 0 <= i < |ms| :: Emits(g, w, input, ms[i], vs[i], d)
  }

  /** The values that a run of the graph can deliver to `end`. */
  ghost predicate Reaches<V(!new)>(g: GraphConfig, w: World<V>, input: V, v: V) {
    exists d :: Arrives(g, w, input, END, v, d)
  }

  /** The members in order, each on the output of the one before. */
  function Pipeline<V>(w: World<V>, names: seq<string>, input: V): V {
    if names == [] then input else w.agents(Last(names), Pipeline(w, Init(names), input))
  }

  ghost predicate Unreserved(names: seq<string>) {
    START !in names && END !in names
  }

  lemma {:induction false} AgentOfStep(steps: seq<Step>, id: string)
    requires forall s | s in steps :: s.agent == s.id
    ensures AgentOf(steps, id) == if exists s :: s in steps && s.id == id then Some(id) else None
  {
    if steps != [] {
      assert steps[0] in steps;
      AgentOfStep(steps[1..], id);
      assert forall s :: s in steps <==> s == steps[0] || s in steps[1..];
    }
  }

  /** The steps of a team are its members. */
  lemma MemberAgent(team: Team, id: string)
    ensures AgentOf(MemberSteps(team), id) == if id in MemberNames(team) then Some(id) else None
  {
    var steps, names := MemberSteps(team), MemberNames(team);
    AgentOfStep(steps, id);
    forall k: nat | k < |names| ensures steps[k] in steps && steps[k].id == names[k] {
    }
  }

  // ---- Paths ------------------------------------------------------------------------

  ghost predicate Connects(edges: seq<Edge>, m: string, n: string) {
    exists i :: 0 <= i < |edges| && m in Ids(edges[i].source) && n in Ids(edges[i].target)
  }

  /** A way along edges from `start` to `end`. */
  ghost predicate IsPath(edges: seq<Edge>, p: seq<string>) {
    && p != [] && p[0] == START && Last(p) == END
    && forall i | 0 <= i < |p| - 1 :: Connects(edges, p[i], p[i + 1])
  }

  lemma ChainConnects(path: seq<string>, m: string, n: string)
    requires |path| >= 1
    ensures Connects(ChainEdges(path), m, n) <==> exists i :: 0 <= i < |path| - 1 && m == path[i] && n == path[i + 1]
  {
    var edges := ChainEdges(path);
    forall i: nat | i < |edges|
      ensures m in Ids(edges[i].source) && n in Ids(edges[i].target) <==> m == path[i] && n == path[i + 1]
    {
      var e := PlainEdge(One(path[i]), One(path[i + 1]));
      assert edges[i] == e && Ids(e.source) == [path[i]] && Ids(e.target) == [path[i + 1]];
    }
    hide ChainEdges, Ids;
  }

  /** A way along edges from `start`, over members. */
  ghost predicate IsWalk(edges: seq<Edge>, names: seq<string>, p: seq<string>) {
    && p != [] && p[0] == START
    && (forall i | 0 < i < |p| :: p[i] in names)
    && forall i | 0 <= i < |p| - 1 :: Connects(edges, p[i], p[i + 1])
  }

  // ---- Sequential teams -----------------------------------------------------------------

  ghost predicate IsSequential(team: Team) {
    team.mode.Sequential? && team.members != [] && Unreserved(MemberNames(team))
  }

  /** In a chain every edge leads from one node to one node. */
  lemma ChainArrives<V(!new)>(g: GraphConfig, path: seq<string>, w: World<V>, input: V, n: string, v: V, d: nat)
    requires |path| >= 1 && g.edges == ChainEdges(path)
    ensures Arrives(g, w, input, n, v, d) <==>
              d > 0 && exists m :: Connects(g.edges, m, n) && Emits(g, w, input, m, v, d - 1)
  {
    hide Emits, Carries, ChainEdges, Connects, Leads, Ids;
    if d > 0 {
      var before: nat := d - 1;
      forall e | e in g.edges
        ensures e.source.One? && IsPlain(e) && Ids(e.source) == [e.source.id]
        ensures Carries(g, w, input, e, v, before) == Emits(g, w, input, e.source.id, v, before)
      {
        ChainEdgeIsPlain(path, e);
        PlainCarries(g, w, input, e, v, before);
      }
      forall m ensures Connects(g.edges, m, n) <==> exists e :: e in g.edges && m in Ids(e.source) && Leads(e, n) {
        ConnectingEdge(g.edges, m, n);
      }
      if e :| e in g.edges && Leads(e, n) && Carries(g, w, input, e, v, before) {
        assert e.source.id in Ids(e.source);
        assert Connects(g.edges, e.source.id, n);
      }
      if m :| Connects(g.edges, m, n) && Emits(g, w, input, m, v, before) {
        var e :| e in g.edges && m in Ids(e.source) && Leads(e, n);
        assert m == e.source.id;
      }
    }
  }

  predicate IsPlain(e: Edge) { e == PlainEdge(e.source, e.target) }

  /** A plain edge delivers everything as it is. */
  lemma PlainPasses<V>(w: World<V>, e: Edge, x: V, y: V)
    requires IsPlain(e)
    ensures Passes(w, e, x, y) <==> x == y
  {
  }

  lemma ChainEdgeIsPlain(path: seq<string>, e: Edge)
    requires |path| >= 1 && e in ChainEdges(path)
    ensures e.source.One? && IsPlain(e)
  {
    var i :| 0 <= i < |path| - 1 && e == ChainEdges(path)[i];
  }

  lemma PlainCarries<V(!new)>(g: GraphConfig, w: World<V>, input: V, e: Edge, v: V, d: nat)
    requires e.source.One? && IsPlain(e)
    ensures Ids(e.source) == [e.source.id]
    ensures Carries(g, w, input, e, v, d) == Emits(g, w, input, e.source.id, v, d)
  {
    hide Emits;
    forall x ensures Passes(w, e, x, v) <==> x == v {
      PlainPasses(w, e, x, v);
    }
    hide Passes, IsPlain;
  }

  lemma ConnectingEdge(edges: seq<Edge>, m: string, n: string)
    requires forall e | e in edges :: IsPlain(e)
    ensures Connects(edges, m, n) <==> exists e :: e in edges && m in Ids(e.source) && Leads(e, n)
  {
    hide Ids;
  }

  lemma PipelineSnoc<V>(w: World<V>, names: seq<string>, n: string, input: V)
    ensures Pipeline(w, names + [n], input) == w.agents(n, Pipeline(w, names, input))
  {
    assert Init(names + [n]) == names;
  }

  lemma WalkExtends(edges: seq<Edge>, names: seq<string>, q: seq<string>, n: string)
    requires IsWalk(edges, names, q) && n in names && Connects(edges, Last(q), n)
    ensures IsWalk(edges, names, q + [n]) && (q + [n])[1..] == q[1..] + [n]
  {
    hide Connects;
    var p := q + [n];
    forall i | 0 <= i < |p| - 1 ensures Connects(edges, p[i], p[i + 1]) {
      assert i < |q| - 1 ==> Connects(edges, q[i], q[i + 1]);
    }
  }

  /** A member puts out what its agent makes of the output of a node before it. */
  lemma MemberEmits<V(!new)>(team: Team, w: World<V>, input: V, n: string, x: V, m: string, d: nat)
    requires IsSequential(team) && n in MemberNames(team)
    ensures Connects(TeamGraph(team).edges, m, n) && Emits(TeamGraph(team), w, input, m, x, d) ==>
              Emits(TeamGraph(team), w, input, n, w.agents(n, x), d + 1)
  {
    hide Connects, Arrives, Carries;
    var g := TeamGraph(team);
    ChainArrives(g, PathOf(MemberNames(team)), w, input, n, x, d + 1);
    MemberAgent(team, n);
    hide AgentOf;
  }

  lemma EmitsThroughEdge<V(!new)>(team: Team, w: World<V>, input: V, n: string, v: V, d: nat) returns (x: V, m: string)
    requires IsSequential(team) && n != START && Emits(TeamGraph(team), w, input, n, v, d)
    ensures d > 0 && n in MemberNames(team) && v == w.agents(n, x)
    ensures Connects(TeamGraph(team).edges, m, n) && Emits(TeamGraph(team), w, input, m, x, d - 1)
  {
    hide Connects, Arrives, Carries;
    var g := TeamGraph(team);
    MemberAgent(team, n);
    hide AgentOf;
    x :| Arrives(g, w, input, n, x, d) && v == w.agents(AgentOf(g.steps, n).value, x);
    hide Emits;
    ChainArrives(g, PathOf(MemberNames(team)), w, input, n, x, d);
    m :| Connects(g.edges, m, n) && Emits(g, w, input, m, x, d - 1);
  }

  /** What is put out at the end of a walk. */
  lemma {:induction false} WalkEmits<V(!new)>(team: Team, w: World<V>, input: V, p: seq<string>)
    requires IsSequential(team) && IsWalk(TeamGraph(team).edges, MemberNames(team), p)
    ensures Emits(TeamGraph(team), w, input, Last(p), Pipeline(w, p[1..], input), |p| - 1)
    decreases |p|
  {
    hide Connects, Arrives, TeamGraph, MemberNames, IsSequential;
    if |p| > 1 {
      var q, n := Init(p), Last(p);
      assert Connects(TeamGraph(team).edges, p[|p| - 2], p[|p| - 2 + 1]);
      hide Emits;
      WalkEmits(team, w, input, q);
      MemberEmits(team, w, input, n, Pipeline(w, q[1..], input), Last(q), |q| - 1);
      PipelineSnoc(w, q[1..], n, input);
      assert q[1..] + [n] == p[1..];
    }
  }

  /** Everything that is put out comes from a walk. */
  lemma {:induction false} EmitsFromWalk<V(!new)>(team: Team, w: World<V>, input: V, n: string, v: V, d: nat)
    returns (p: seq<string>)
    requires IsSequential(team) && Emits(TeamGraph(team), w, input, n, v, d)
    ensures IsWalk(TeamGraph(team).edges, MemberNames(team), p) && Last(p) == n && v == Pipeline(w, p[1..], input)
    decreases d
  {
    hide Connects, Arrives, TeamGraph, MemberNames, IsSequential;
    if n == START {
      p := [START];
    } else {
      hide Emits;
      var x, m := EmitsThroughEdge(team, w, input, n, v, d);
      var q := EmitsFromWalk(team, w, input, m, x, d - 1);
      WalkExtends(TeamGraph(team).edges, MemberNames(team), q, n);
      PipelineSnoc(w, q[1..], n, input);
      p := q + [n];
    }
  }

  /** The nodes between `start` and `end`. */
  function Between(p: seq<string>): seq<string>
    requires |p| >= 2
  {
    p[1..|p| - 1]
  }

  /** For every team, with or without repeated members: the values that reach `end` are the
      pipelines along the paths from `start` to `end`. */
  lemma ReachesIffPath<V(!new)>(team: Team, w: World<V>, input: V, v: V)
    requires IsSequential(team)
    ensures Reaches(TeamGraph(team), w, input, v) <==>
              exists p :: IsPath(TeamGraph(team).edges, p) && v == Pipeline(w, Between(p), input)
  {
    hide Arrives, Connects, TeamGraph;
    if d :| Arrives(TeamGraph(team), w, input, END, v, d) {
      var p := ReachedByPath(team, w, input, v, d);
    }
    if p :| IsPath(TeamGraph(team).edges, p) && v == Pipeline(w, Between(p), input) {
      PathReaches(team, w, input, p);
    }
  }

  lemma ReachedByPath<V(!new)>(team: Team, w: World<V>, input: V, v: V, d: nat) returns (p: seq<string>)
    requires IsSequential(team) && Arrives(TeamGraph(team), w, input, END, v, d)
    ensures IsPath(TeamGraph(team).edges, p) && v == Pipeline(w, Between(p), input)
  {
    hide Arrives, Emits, Connects;
    var g := TeamGraph(team);
    ChainArrives(g, PathOf(MemberNames(team)), w, input, END, v, d);
    hide TeamGraph, IsSequential;
    var m :| Connects(g.edges, m, END) && Emits(g, w, input, m, v, d - 1);
    var q := EmitsFromWalk(team, w, input, m, v, d - 1);
    p := q + [END];
    assert Between(p) == q[1..];
    forall i | 0 <= i < |p| - 1 ensures Connects(g.edges, p[i], p[i + 1]) {
      assert i < |q| - 1 ==> Connects(g.edges, q[i], q[i + 1]);
    }
  }

  lemma PathReaches<V(!new)>(team: Team, w: World<V>, input: V, p: seq<string>)
    requires IsSequential(team) && IsPath(TeamGraph(team).edges, p)
    ensures Reaches(TeamGraph(team), w, input, Pipeline(w, Between(p), input))
  {
    hide Arrives, Emits, Connects;
    var g, names := TeamGraph(team), MemberNames(team);
    var q, v := Init(p), Pipeline(w, Between(p), input);
    forall i | 0 < i < |q| ensures q[i] in names {
      InnerNodeIsMember(team, p, i);
    }
    forall i | 0 <= i < |q| - 1 ensures Connects(g.edges, q[i], q[i + 1]) {
      assert Connects(g.edges, p[i], p[i + 1]);
    }
    assert Connects(g.edges, p[|p| - 2], p[|p| - 2 + 1]);
    WalkEmits(team, w, input, q);
    assert q[1..] == Between(p);
    ChainArrives(g, PathOf(names), w, input, END, v, |q|);
    assert Arrives(g, w, input, END, v, |q|);
  }

  lemma PathAt(names: seq<string>, i: nat)
    requires i <= |names|
    ensures |PathOf(names)| == |names| + 2
    ensures PathOf(names)[i] == ([START] + names)[i] && PathOf(names)[i + 1] == (names + [END])[i]
  {
  }

  /** Nothing leads to `start`, and nothing leads away from `end`. */
  lemma ChainEnds(names: seq<string>, m: string, n: string)
    requires Connects(ChainEdges(PathOf(names)), m, n)
    ensures m in [START] + names && n in names + [END]
  {
    var path := PathOf(names);
    PathAt(names, 0);
    hide Connects, ChainEdges, PathOf;
    ChainConnects(path, m, n);
    var i :| 0 <= i < |path| - 1 && m == path[i] && n == path[i + 1];
    PathAt(names, i);
  }

  lemma InnerNodeIsMember(team: Team, p: seq<string>, i: nat)
    requires IsSequential(team) && IsPath(TeamGraph(team).edges, p) && 0 < i < |p| - 1
    ensures p[i] in MemberNames(team)
  {
    hide Connects, ChainEdges;
    assert Connects(TeamGraph(team).edges, p[i - 1], p[i - 1 + 1]) && Connects(TeamGraph(team).edges, p[i], p[i + 1]);
    hide IsPath;
    ChainEnds(MemberNames(team), p[i - 1], p[i]);
    ChainEnds(MemberNames(team), p[i], p[i + 1]);
  }

  lemma FullPath(team: Team)
    requires IsSequential(team)
    ensures IsPath(TeamGraph(team).edges, PathOf(MemberNames(team)))
              && Between(PathOf(MemberNames(team))) == MemberNames(team)
  {
    var path := PathOf(MemberNames(team));
    forall i | 0 <= i < |path| - 1 ensures Connects(TeamGraph(team).edges, path[i], path[i + 1]) {
      ChainConnects(path, path[i], path[i + 1]);
    }
  }

  /** Main result for sequential teams, in every world: the members in order, each on the output
      of the one before, reach `end`; and nothing else does, if no member is named twice. */
  lemma SequentialGraphIsPipeline<V(!new)>(team: Team, w: World<V>, input: V)
    requires IsSequential(team)
    ensures Reaches(TeamGraph(team), w, input, Pipeline(w, MemberNames(team), input))
    ensures NoDuplicates(MemberNames(team)) ==>
              forall v :: Reaches(TeamGraph(team), w, input, v) ==> v == Pipeline(w, MemberNames(team), input)
  {
    hide Reaches, Connects, TeamGraph, PathOf, Pipeline, IsSequential, MemberNames;
    FullPath(team);
    PathReaches(team, w, input, PathOf(MemberNames(team)));
    if NoDuplicates(MemberNames(team)) {
      forall v | Reaches(TeamGraph(team), w, input, v) ensures v == Pipeline(w, MemberNames(team), input) {
        ReachesIffPath(team, w, input, v);
        var p :| IsPath(TeamGraph(team).edges, p) && v == Pipeline(w, Between(p), input);
        SequentialPathIsUnique(team, p);
      }
    }
  }

  lemma ShortcutConnects(names: seq<string>, i: nat, j: nat, k: nat)
    requires i < j < |names| && names[i] == names[j]
    requires k < |PathOf(names[..i + 1] + names[j + 1..])| - 1
    ensures var p := PathOf(names[..i + 1] + names[j + 1..]);
            Connects(ChainEdges(PathOf(names)), p[k], p[k + 1])
  {
    var path, p := PathOf(names), PathOf(names[..i + 1] + names[j + 1..]);
    var h := if k <= i then k else k + (j - i);
    assert path[h] == p[k] && path[h + 1] == p[k + 1];
    hide PathOf;
    ChainConnects(path, p[k], p[k + 1]);
  }

  /** A member named twice is one step: the edge behind its second mention also leads away from
      its first run. So the pipeline without the part in between reaches `end` as well. */
  lemma ShortcutReaches<V(!new)>(team: Team, w: World<V>, input: V, i: nat, j: nat)
    requires IsSequential(team) && i < j < |team.members| && MemberNames(team)[i] == MemberNames(team)[j]
    ensures var names := MemberNames(team);
            Reaches(TeamGraph(team), w, input, Pipeline(w, names[..i + 1] + names[j + 1..], input))
  {
    var names := MemberNames(team);
    var short := names[..i + 1] + names[j + 1..];
    var p := PathOf(short);
    assert Between(p) == short && p[0] == START && Last(p) == END;
    forall k: nat | k < |p| - 1 ensures Connects(TeamGraph(team).edges, p[k], p[k + 1]) {
      ShortcutConnects(names, i, j, k);
    }
    hide Connects, TeamGraph, MemberNames, PathOf, IsSequential;
    PathReaches(team, w, input, p);
  }

  /** Agents that only append their own name to what they get. */
  function Tracing(): World<seq<string>> {
    World((a: string, x: seq<string>) => x + [a], (xs: seq<seq<string>>) => [], (c: string, x: seq<string>) => true,
          (f: string, x: seq<string>) => x)
  }

  lemma TracingAgent(a: string, x: seq<string>)
    ensures Tracing().agents(a, x) == x + [a]
  {
  }

  lemma {:induction false} PipelineTraces(names: seq<string>)
    ensures Pipeline(Tracing(), names, []) == names
  {
    hide Tracing;
    if names != [] {
      var before, name := Init(names), Last(names);
      PipelineTraces(before);
      hide Pipeline;
      PipelineSnoc(Tracing(), before, name, []);
      TracingAgent(name, before);
      assert before + [name] == names;
    }
  }

  /** Exactly if no member is named twice, the pipeline is all that reaches `end` whatever the
      agents do: with repeated members tracing agents already see a second value. */
  lemma OnlyPipelineIffDistinct(team: Team)
    requires IsSequential(team)
    ensures NoDuplicates(MemberNames(team)) <==>
              forall v :: Reaches(TeamGraph(team), Tracing(), [], v) ==> v == MemberNames(team)
  {
    var names := MemberNames(team);
    SequentialGraphIsPipeline(team, Tracing(), []);
    PipelineTraces(names);
    hide Reaches, Tracing, TeamGraph;
    if !NoDuplicates(names) {
      var i: nat, j: nat :| i < j < |names| && names[i] == names[j];
      ShortcutReaches(team, Tracing(), [], i, j);
      var short := names[..i + 1] + names[j + 1..];
      PipelineTraces(short);
      assert Reaches(TeamGraph(team), Tracing(), [], short) && |short| < |names|;
    }
  }

  /** For instance, the first output of a repeated pair also reaches `end`. */
  lemma RepeatedMemberSkips<V(!new)>(name: string, w: World<V>, input: V)
    requires name != START && name != END
    ensures var g := TeamGraph(Team("t", Sequential, [Plain(name), Plain(name)], None, None, []));
            && Reaches(g, w, input, w.agents(name, w.agents(name, input)))
            && Reaches(g, w, input, w.agents(name, input))
  {
    var team := Team("t", Sequential, [Plain(name), Plain(name)], None, None, []);
    assert MemberNames(team) == [name, name];
    SequentialGraphIsPipeline(team, w, input);
    ShortcutReaches(team, w, input, 0, 1);
    hide Reaches, TeamGraph;
    assert [name, name][..1] + [name, name][2..] == [name];
    assert Init([name, name]) == [name] && Init([name]) == [];
    assert Pipeline(w, [name], input) == w.agents(name, Pipeline(w, [], input));
    assert Pipeline(w, [name, name], input) == w.agents(name, Pipeline(w, [name], input));
  }

  /** The path through a sequential graph is unique. */
  lemma SequentialPathIsUnique(team: Team, p: seq<string>)
    requires IsSequential(team) && NoDuplicates(MemberNames(team))
    ensures IsPath(TeamGraph(team).edges, p) <==> p == PathOf(MemberNames(team))
  {
    var path := PathOf(MemberNames(team));
    var edges := ChainEdges(path);
    PathHasNoDuplicates(MemberNames(team));
    assert TeamGraph(team).edges == edges && path[0] == START && Last(path) == END;
    hide IsSequential, TeamGraph, MemberNames, PathOf, ChainEdges, Connects, NoDuplicates;
    if p == path {
      forall i | 0 <= i < |p| - 1 ensures Connects(edges, p[i], p[i + 1]) {
        ChainConnects(path, p[i], p[i + 1]);
      }
    }
    if IsPath(edges, p) {
      assert path != [] && forall i | 0 <= i < |p| - 1 :: Connects(edges, p[i], p[i + 1]);
      PathFollows(path, p, |p| - 1);
      SamePath(path, p);
    }
  }

  /** A prefix that ends in the last node of a path without repetitions is the whole path. */
  lemma SamePath(path: seq<string>, p: seq<string>)
    requires NoDuplicates(path) && 0 < |p| <= |path| && Last(p) == Last(path)
    requires forall i | 0 <= i < |p| :: p[i] == path[i]
    ensures p == path
  {
    assert p[|p| - 1] == path[|p| - 1];
  }

  lemma PathHasNoDuplicates(names: seq<string>)
    requires Unreserved(names) && NoDuplicates(names)
    ensures NoDuplicates(PathOf(names))
  {
    var path := PathOf(names);
    forall i, j | 0 <= i < j < |path| ensures path[i] != path[j] {
      assert 0 < i <= |names| ==> path[i] == names[i - 1];
      assert 0 < j <= |names| ==> path[j] == names[j - 1];
    }
  }

  lemma {:induction false} PathFollows(path: seq<string>, p: seq<string>, k: nat)
    requires path != [] && NoDuplicates(path) && path[0] == START
    requires p != [] && p[0] == START && k < |p|
    requires forall i | 0 <= i < |p| - 1 :: Connects(ChainEdges(path), p[i], p[i + 1])
    ensures k < |path| && forall i | 0 <= i <= k :: p[i] == path[i]
  {
    hide Connects, ChainEdges, NoDuplicates;
    if k > 0 {
      PathFollows(path, p, k - 1);
      assert Connects(ChainEdges(path), p[k - 1], p[k - 1 + 1]);
      NextInChain(path, k - 1, p[k]);
    }
  }

  /** Behind position `j` of a chain without repetitions comes the next position. */
  lemma NextInChain(path: seq<string>, j: nat, n: string)
    requires NoDuplicates(path) && j < |path|
    requires Connects(ChainEdges(path), path[j], n)
    ensures j + 1 < |path| && n == path[j + 1]
  {
    hide Connects, ChainEdges;
    ChainConnects(path, path[j], n);
  }

  // ---- Parallel teams ---------------------------------------------------------------------

  ghost predicate IsParallel(team: Team) {
    team.mode.Parallel? && team.members != [] && Unreserved(MemberNames(team))
  }

  function Ran<V>(w: World<V>, names: seq<string>, input: V): seq<V> {
    seq(|names|, k requires 0 <= k < |names| => w.agents(names[k], input))
  }

  /** Only the fork leads to a member. */
  lemma ParallelArrives<V(!new)>(team: Team, w: World<V>, input: V, n: string, v: V, d: nat)
    requires IsParallel(team) && n in MemberNames(team)
    ensures Arrives(TeamGraph(team), w, input, n, v, d) <==> d > 0 && v == input
  {
    var g := TeamGraph(team);
    var fork, join := g.edges[0], g.edges[1];
    assert g.edges == [fork, join] && Leads(fork, n) && !Leads(join, n);
    if d > 0 {
      PlainCarries(g, w, input, fork, v, d - 1);
    }
    assert d > 0 ==> (Carries(g, w, input, fork, v, d - 1) <==> v == input);
    hide Carries, TeamGraph;
    assert fork in g.edges;
  }

  lemma ParallelEmits<V(!new)>(team: Team, w: World<V>, input: V, n: string, v: V, d: nat)
    requires IsParallel(team) && n in MemberNames(team)
    ensures Emits(TeamGraph(team), w, input, n, v, d) <==> d > 0 && v == w.agents(n, input)
  {
    var g := TeamGraph(team);
    MemberAgent(team, n);
    forall x ensures Arrives(g, w, input, n, x, d) <==> d > 0 && x == input {
      ParallelArrives(team, w, input, n, x, d);
    }
    hide Arrives, AgentOf;
  }

  lemma ParallelEmitAll<V(!new)>(team: Team, w: World<V>, input: V, vs: seq<V>, d: nat)
    requires IsParallel(team)
    ensures EmitAll(TeamGraph(team), w, input, MemberNames(team), vs, d) <==>
              d > 0 && vs == Ran(w, MemberNames(team), input)
  {
    var g, names := TeamGraph(team), MemberNames(team);
    assert names[0] in names;
    hide Emits, TeamGraph;
    forall i, x | 0 <= i < |names|
      ensures Emits(g, w, input, names[i], x, d) <==> d > 0 && x == Ran(w, names, input)[i]
    {
      ParallelEmits(team, w, input, names[i], x, d);
    }
    hide IsParallel, MemberNames;
    if EmitAll(g, w, input, names, vs, d) {
      assert Emits(g, w, input, names[0], vs[0], d);
    }
  }

  /** Only the join leads to `end`. */
  lemma JoinArrives<V(!new)>(team: Team, w: World<V>, input: V, v: V, d: nat)
    requires IsParallel(team)
    ensures Arrives(TeamGraph(team), w, input, END, v, d) <==>
              d > 0 && exists vs :: EmitAll(TeamGraph(team), w, input, MemberNames(team), vs, d - 1) && v == w.join(vs)
  {
    var g, names := TeamGraph(team), MemberNames(team);
    var fork, join := g.edges[0], g.edges[1];
    assert g.edges == [fork, join] && !Leads(fork, END) && Leads(join, END) && join.source == Many(names);
    hide EmitAll, TeamGraph, Leads;
    assert join in g.edges;
    assert d > 0 ==> (Carries(g, w, input, join, v, d - 1) <==>
                      exists vs :: EmitAll(g, w, input, names, vs, d - 1) && v == w.join(vs));
    hide Carries;
  }

  /** Main result for parallel teams: every member gets the start input and nothing else, and
      what reaches `end` is exactly the join of all outputs, in member order. */
  lemma ParallelGraphJoinsAll<V(!new)>(team: Team, w: World<V>, input: V)
    requires IsParallel(team)
    ensures forall n, v, d | n in MemberNames(team) :: Arrives(TeamGraph(team), w, input, n, v, d) <==>
              d > 0 && v == input
    ensures forall v :: Reaches(TeamGraph(team), w, input, v) <==> v == w.join(Ran(w, MemberNames(team), input))
  {
    hide Arrives, EmitAll, TeamGraph, MemberNames, IsParallel;
    var g, names, ran := TeamGraph(team), MemberNames(team), Ran(w, MemberNames(team), input);
    forall n, v, d | n in names ensures Arrives(g, w, input, n, v, d) <==> d > 0 && v == input {
      ParallelArrives(team, w, input, n, v, d);
    }
    forall v, d: nat ensures Arrives(g, w, input, END, v, d) <==> d > 1 && v == w.join(ran) {
      JoinArrives(team, w, input, v, d);
      if d > 0 {
        var before: nat := d - 1;
        forall vs ensures EmitAll(g, w, input, names, vs, before) <==> before > 0 && vs == ran {
          ParallelEmitAll(team, w, input, vs, before);
        }
      }
    }
    hide Ran;
    assert Arrives(g, w, input, END, w.join(ran), 2);
  }

  /** No path leads from member to member. */
  lemma ParallelMembersAreApart(team: Team, p: seq<string>)
    requires IsParallel(team) && |p| >= 2
    requires forall i | 0 <= i < |p| - 1 :: Connects(TeamGraph(team).edges, p[i], p[i + 1])
    ensures !(p[0] in MemberNames(team) && Last(p) in MemberNames(team))
  {
    var g, names := TeamGraph(team), MemberNames(team);
    forall m, n | Connects(g.edges, m, n) && m in names ensures n == END {
    }
    forall n ensures !Connects(g.edges, END, n) {
    }
    assert Connects(g.edges, p[0], p[0 + 1]);
    assert |p| > 2 ==> Connects(g.edges, p[1], p[1 + 1]);
  }

  // ---- The unified graph --------------------------------------------------------------------

  /** The ids an edge may name. */
  ghost predicate Known(steps: seq<Step>, id: string) {
    id == START || id == END || exists s :: s in steps && s.id == id
  }

  ghost predicate Anchored(steps: seq<Step>, e: Edge) {
    forall id | id in Ids(e.source) || id in Ids(e.target) :: Known(steps, id)
  }

  ghost predicate NoDangling(steps: seq<Step>, edges: seq<Edge>) {
    forall e | e in edges :: Anchored(steps, e)
  }

  lemma {:induction false} EdgesForMember(agent: string, connections: seq<Connection>, e: Edge)
    ensures e in EdgesFor(agent, connections) <==>
            exists c :: c in connections && c.NodeConnection? && e == ConnectionEdge(agent, c)
  {
    if connections != [] {
      EdgesForMember(agent, Init(connections), e);
      assert forall c :: c in connections <==> c in Init(connections) || c == Last(connections);
    }
  }

  /** Which ids the inputs provide: the two reserved ones, the steps that are there already,
      agents with connections of their own, and team members. */
  ghost predicate Provided(agents: seq<Agent>, teams: seq<Team>, base: GraphConfig, id: string) {
    || id == START || id == END || id in StepIds(base.steps)
    || (exists a :: a in agents && a.name == id && a.connections != [])
    || (exists t :: t in teams && id in MemberNames(t))
  }

  lemma StepIdsMember(steps: seq<Step>, id: string)
    ensures id in StepIds(steps) <==> exists s :: s in steps && s.id == id
  {
    forall k: nat | k < |steps| ensures steps[k] in steps && StepIds(steps)[k] == steps[k].id {
    }
  }

  lemma MemberStepIds(team: Team)
    ensures StepIds(MemberSteps(team)) == MemberNames(team)
  {
  }

  lemma TeamStepIds(teams: seq<Team>, id: string)
    ensures id in StepIds(FlatMap(MemberSteps, teams)) <==> exists t :: t in teams && id in MemberNames(t)
  {
    var all := FlatMap(MemberSteps, teams);
    StepIdsMember(all, id);
    forall s ensures s in all <==> exists t :: t in teams && s in MemberSteps(t) {
      FlatMapMember(MemberSteps, teams, s);
    }
    hide FlatMap, StepIds, MemberSteps, MemberNames;
    forall t ensures id in MemberNames(t) <==> exists s :: s in MemberSteps(t) && s.id == id {
      MemberStepIds(t);
      StepIdsMember(MemberSteps(t), id);
    }
  }

  /** The steps of the unified graph are exactly what the inputs provide. */
  lemma KnownIffProvided(agents: seq<Agent>, teams: seq<Team>, base: GraphConfig, id: string)
    ensures Known(AllSteps(agents, teams, base), id) <==> Provided(agents, teams, base, id)
  {
    var added := AddedSteps(agents, StepIds(base.steps));
    StepIdsMember(AllSteps(agents, teams, base), id);
    AddedIds(agents, StepIds(base.steps), id);
    TeamStepIds(teams, id);
    hide FlatMap, AddedSteps, MemberSteps;
    assert StepIds(AllSteps(agents, teams, base))
      == StepIds(base.steps) + StepIds(added) + StepIds(FlatMap(MemberSteps, teams));
    hide StepIds, AllSteps;
  }

  lemma TeamIsClosed(team: Team)
    ensures NoDangling(MemberSteps(team), TeamEdges(team))
  {
    var names, steps := MemberNames(team), MemberSteps(team);
    forall k: nat | k < |names| ensures Known(steps, names[k]) {
      assert steps[k] in steps;
    }
    forall id | id in PathOf(names) ensures Known(steps, id) {
      var k :| 0 <= k < |PathOf(names)| && PathOf(names)[k] == id;
      assert 0 < k <= |names| ==> id == names[k - 1];
    }
    forall e | e in TeamEdges(team) ensures Anchored(steps, e) {
      hide Known;
      if names != [] && team.mode.Sequential? {
        var path := PathOf(names);
        var i :| 0 <= i < |path| - 1 && e == ChainEdges(path)[i];
        assert path[i] in path && path[i + 1] in path;
      } else {
        assert forall id | id in names :: id in PathOf(names);
      }
    }
  }

  lemma ConnectedAgentIsProvided(agents: seq<Agent>, teams: seq<Team>, base: GraphConfig, a: Agent)
    requires a in agents && a.connections != []
    ensures Provided(agents, teams, base, a.name)
  {
  }

  lemma TeamEdgesAreAnchored(agents: seq<Agent>, teams: seq<Team>, base: GraphConfig, e: Edge)
    requires e in FlatMap(TeamEdges, teams)
    ensures Anchored(AllSteps(agents, teams, base), e)
  {
    FlatMapMember(TeamEdges, teams, e);
    var team :| team in teams && e in TeamEdges(team);
    TeamIsClosed(team);
    assert Anchored(MemberSteps(team), e);
    forall id | id in Ids(e.source) || id in Ids(e.target) ensures Known(AllSteps(agents, teams, base), id) {
      if id != START && id != END {
        var s :| s in MemberSteps(team) && s.id == id;
        FlatMapMember(MemberSteps, teams, s);
        assert s in AllSteps(agents, teams, base);
      }
    }
  }

  /** No edge of the unified graph dangles exactly if the inputs provide every connection target:
      an agent without connections that no team and no given graph mentions is not a step. */
  lemma DanglesIffTargetUnknown(agents: seq<Agent>, teams: seq<Team>, base: GraphConfig)
    requires NoDangling(base.steps, base.edges)
    ensures NoDangling(AllSteps(agents, teams, base), AllEdges(agents, teams, base)) <==>
            forall a, c | a in agents && c in a.connections && c.NodeConnection? ::
              Provided(agents, teams, base, c.name)
  {
    var steps, edges := AllSteps(agents, teams, base), AllEdges(agents, teams, base);
    forall id ensures Known(steps, id) <==> Provided(agents, teams, base, id) {
      KnownIffProvided(agents, teams, base, id);
    }
    hide Known, Provided, AllSteps, FlatMap;
    if NoDangling(steps, edges) {
      forall a, c | a in agents && c in a.connections && c.NodeConnection? ensures Known(steps, c.name) {
        var e := ConnectionEdge(a.name, c);
        EdgesForMember(a.name, a.connections, e);
        assert e in AgentEdges(a);
        FlatMapMember(AgentEdges, agents, e);
        assert e in edges;
        assert Anchored(steps, e);
        assert c.name in Ids(e.target);
      }
    }
    if forall a, c | a in agents && c in a.connections && c.NodeConnection? :: Known(steps, c.name) {
      forall e | e in edges ensures Anchored(steps, e) {
        if e in base.edges {
          assert Anchored(base.steps, e);
        } else if e in FlatMap(TeamEdges, teams) {
          TeamEdgesAreAnchored(agents, teams, base, e);
        } else {
          FlatMapMember(AgentEdges, agents, e);
          var a :| a in agents && e in AgentEdges(a);
          EdgesForMember(a.name, a.connections, e);
          ConnectedAgentIsProvided(agents, teams, base, a);
        }
      }
    }
  }

  /** For instance, a connection to an agent that has none itself. */
  lemma UnconnectedTargetDangles(a: string, b: string)
    requires a != b && b != START && b != END
    ensures var c := NodeConnection(b, None, None, None, None, None, None);
            var agents := [Agent(a, [c], []), Agent(b, [], [])];
            !NoDangling(AllSteps(agents, [], EMPTY), AllEdges(agents, [], EMPTY))
  {
    var c := NodeConnection(b, None, None, None, None, None, None);
    var agents := [Agent(a, [c], []), Agent(b, [], [])];
    DanglesIffTargetUnknown(agents, [], EMPTY);
    assert agents[0] in agents && c in agents[0].connections;
    assert !Provided(agents, [], EMPTY, b);
    hide NoDangling, Provided, AllSteps, AllEdges;
  }

  lemma {:induction false} AddedAreDistinct(agents: seq<Agent>, present: seq<string>)
    requires DistinctNames(agents)
    ensures NoDuplicates(StepIds(AddedSteps(agents, present)))
    ensures forall id | id in StepIds(AddedSteps(agents, present)) :: id !in present
  {
    if agents != [] {
      AddedAreDistinct(Init(agents), present);
      var a, before := Last(agents), AddedSteps(Init(agents), present);
      AddedIds(Init(agents), present, a.name);
      if a.name !in present && a.connections != [] {
        assert StepIds(before + [AgentStep(a)]) == StepIds(before) + [a.name];
      } else {
        assert before + [] == before;
      }
    }
  }

  lemma DuplicatesOfAppend(s: seq<string>, t: seq<string>)
    ensures NoDuplicates(s + t) <==> NoDuplicates(s) && NoDuplicates(t) && forall x | x in s :: x !in t
  {
    var u := s + t;
    if x :| x in s && x in t {
      var i :| 0 <= i < |s| && s[i] == x;
      var j :| 0 <= j < |t| && t[j] == x;
      assert u[i] == u[|s| + j];
    }
    if i, j :| 0 <= i < j < |t| && t[i] == t[j] {
      assert u[|s| + i] == u[|s| + j];
    }
    if i, j :| 0 <= i < j < |s| && s[i] == s[j] {
      assert u[i] == u[j];
    }
    if i, j :| 0 <= i < j < |u| && u[i] == u[j] {
      if j < |s| {
        assert s[i] == s[j];
      } else if i < |s| {
        assert s[i] in s && s[i] == t[j - |s|] && t[j - |s|] in t;
      } else {
        assert t[i - |s|] == t[j - |s|];
      }
    }
  }

  /** Step ids stay unique exactly when the team members are distinct from one another and from
      the steps before them; members are not merged with steps of the same name. */
  lemma UniqueIffMembersAreNew(agents: seq<Agent>, teams: seq<Team>, base: GraphConfig)
    requires DistinctNames(agents) && NoDuplicates(StepIds(base.steps))
    ensures var members := StepIds(FlatMap(MemberSteps, teams));
            NoDuplicates(StepIds(AllSteps(agents, teams, base))) <==>
              && NoDuplicates(members)
              && (forall id | id in members :: id !in StepIds(base.steps))
              && (forall a | a in agents && a.connections != [] :: a.name !in members)
  {
    var ids := StepIds(base.steps);
    var added := AddedSteps(agents, ids);
    var members := FlatMap(MemberSteps, teams);
    AddedAreDistinct(agents, ids);
    forall id ensures id in StepIds(added) <==>
      id !in ids && exists a :: a in agents && a.name == id && a.connections != [] {
      AddedIds(agents, ids, id);
    }
    hide FlatMap, AddedSteps;
    assert StepIds(AllSteps(agents, teams, base)) == (ids + StepIds(added)) + StepIds(members);
    DuplicatesOfAppend(ids, StepIds(added));
    DuplicatesOfAppend(ids + StepIds(added), StepIds(members));
  }

  // ---- Teams next to other parts of the graph -------------------------------------------------

  /** In `g`, node `n` has the agent and the incoming edges that it has in `part`. */
  ghost predicate Own(part: GraphConfig, g: GraphConfig, n: string) {
    && AgentOf(g.steps, n) == AgentOf(part.steps, n)
    && (AgentOf(part.steps, n).Some? ==> forall e | Leads(e, n) :: e in g.edges <==> e in part.edges)
  }

  ghost predicate OwnOrStart(part: GraphConfig, g: GraphConfig, n: string) { n == START || Own(part, g, n) }

  /** All edges of `part` are in `g`, and what they carry depends on `part` alone. */
  ghost predicate IsPart(part: GraphConfig, g: GraphConfig) {
    forall e | e in part.edges :: e in g.edges && forall m | m in Ids(e.source) :: OwnOrStart(part, g, m)
  }

  lemma {:induction false} PartEmits<V(!new)>(part: GraphConfig, g: GraphConfig, w: World<V>, input: V, n: string,
      v: V, d: nat)
    requires IsPart(part, g) && OwnOrStart(part, g, n)
    ensures Emits(g, w, input, n, v, d) == Emits(part, w, input, n, v, d)
    decreases d, 1
  {
    hide Arrives, IsPart, Leads;
    if n != START && AgentOf(part.steps, n).Some? {
      forall x ensures Arrives(g, w, input, n, x, d) == Arrives(part, w, input, n, x, d) {
        PartArrives(part, g, w, input, n, x, d);
      }
    }
    hide AgentOf;
  }

  lemma {:induction false} PartArrives<V(!new)>(part: GraphConfig, g: GraphConfig, w: World<V>, input: V, n: string,
      v: V, d: nat)
    requires IsPart(part, g) && forall e | Leads(e, n) :: e in g.edges <==> e in part.edges
    ensures Arrives(g, w, input, n, v, d) == Arrives(part, w, input, n, v, d)
    decreases d, 0
  {
    hide Carries, IsPart, Leads;
    if d > 0 {
      var before: nat := d - 1;
      forall e | e in part.edges ensures Carries(g, w, input, e, v, before) == Carries(part, w, input, e, v, before) {
        PartCarries(part, g, w, input, e, v, before);
      }
    }
  }

  lemma {:induction false} PartCarries<V(!new)>(part: GraphConfig, g: GraphConfig, w: World<V>, input: V, e: Edge,
      v: V, d: nat)
    requires IsPart(part, g) && e in part.edges
    ensures Carries(g, w, input, e, v, d) == Carries(part, w, input, e, v, d)
    decreases d, 2
  {
    hide Emits, Own;
    forall m, x | m in Ids(e.source) ensures Emits(g, w, input, m, x, d) == Emits(part, w, input, m, x, d) {
      PartEmits(part, g, w, input, m, x, d);
    }
    hide IsPart;
    if e.source.Many? {
      var ms := e.source.ids;
      forall vs ensures EmitAll(g, w, input, ms, vs, d) == EmitAll(part, w, input, ms, vs, d) {
        assert forall i | 0 <= i < |ms| :: ms[i] in ms;
      }
    }
  }

  /** The unified graph of agents, teams and a given graph. */
  function UnifiedGraph(agents: seq<Agent>, teams: seq<Team>, base: GraphConfig): GraphConfig {
    GraphConfig(base.name, AllSteps(agents, teams, base), AllEdges(agents, teams, base), base.joins)
  }

  /** No two teams share a member, and no member has a reserved name. */
  ghost predicate Apart(teams: seq<Team>) {
    && (forall t | t in teams :: Unreserved(MemberNames(t)))
    && (forall i, j, id | 0 <= i < j < |teams| && id in MemberNames(teams[i]) :: id !in MemberNames(teams[j]))
  }

  ghost predicate Mentions(edges: seq<Edge>, id: string) {
    exists e :: e in edges && (id in Ids(e.source) || id in Ids(e.target))
  }

  /** A graph of `run` edges without explicit joins, in which no member of the teams is a step or
      the end of an edge, and `end` is no step. */
  ghost predicate Detached(rest: GraphConfig, teams: seq<Team>) {
    && rest.joins == [] && (forall e | e in rest.edges :: e.mode == "run")
    && END !in StepIds(rest.steps)
    && (forall t, id | t in teams && id in MemberNames(t) :: id !in StepIds(rest.steps) && !Mentions(rest.edges, id))
  }

  /** The graph consists of what it is without the teams and of the graphs of the teams. */
  lemma UnifiedParts(agents: seq<Agent>, teams: seq<Team>, base: GraphConfig)
    ensures var rest, g := UnifiedGraph(agents, [], base), UnifiedGraph(agents, teams, base);
            && g.steps == rest.steps + FlatMap(MemberSteps, teams)
            && g.edges == rest.edges + FlatMap(TeamEdges, teams)
  {
    NoTeams();
    hide FlatMap, AddedSteps, MemberSteps, TeamEdges;
  }

  /** What was given comes first and unchanged. */
  lemma GivenPartsStay(agents: seq<Agent>, teams: seq<Team>, base: GraphConfig)
    ensures var g := UnifiedGraph(agents, teams, base);
            base.steps <= g.steps && base.edges <= g.edges && base.joins == g.joins
  {
  }

  lemma TeamEdgeEnds(team: Team, e: Edge)
    requires e in TeamEdges(team)
    ensures forall m | m in Ids(e.source) :: m == START || m in MemberNames(team)
    ensures forall n | Leads(e, n) :: n == END || n in MemberNames(team)
  {
    var names := MemberNames(team);
    PathAt(names, 0);
    hide PathOf, MemberNames;
    if team.mode.Sequential? {
      var path := PathOf(names);
      var i :| 0 <= i < |path| - 1 && e == ChainEdges(path)[i];
      hide ChainEdges;
      PathAt(names, i);
    }
  }

  lemma TeamsAgent(teams: seq<Team>, id: string)
    ensures AgentOf(FlatMap(MemberSteps, teams), id) == if exists t :: t in teams && id in MemberNames(t)
              then Some(id) else None
  {
    var steps := FlatMap(MemberSteps, teams);
    forall s | s in steps ensures s.agent == s.id {
      FlatMapMember(MemberSteps, teams, s);
    }
    AgentOfStep(steps, id);
    TeamStepIds(teams, id);
    StepIdsMember(steps, id);
    hide *;
  }

  lemma {:induction false} AgentOfAppend(s: seq<Step>, t: seq<Step>, id: string)
    ensures AgentOf(s + t, id) == if id in StepIds(s) then AgentOf(s, id) else AgentOf(t, id)
    ensures AgentOf(s, id).Some? <==> id in StepIds(s)
  {
    StepIdsMember(s, id);
    if s == [] {
      assert s + t == t;
    } else {
      AgentOfAppend(s[1..], t, id);
      StepIdsMember(s[1..], id);
      assert (s + t)[1..] == s[1..] + t;
      assert forall x :: x in s <==> x == s[0] || x in s[1..];
    }
  }

  /** Which agent a step of the unified graph runs. */
  lemma UnifiedAgent(agents: seq<Agent>, teams: seq<Team>, base: GraphConfig, id: string)
    ensures var rest, g := UnifiedGraph(agents, [], base), UnifiedGraph(agents, teams, base);
            AgentOf(g.steps, id) ==
              if id in StepIds(rest.steps) then AgentOf(rest.steps, id)
              else if exists t :: t in teams && id in MemberNames(t) then Some(id) else None
    ensures var rest := UnifiedGraph(agents, [], base);
            AgentOf(rest.steps, id).Some? <==> id in StepIds(rest.steps)
  {
    UnifiedParts(agents, teams, base);
    AgentOfAppend(UnifiedGraph(agents, [], base).steps, FlatMap(MemberSteps, teams), id);
    TeamsAgent(teams, id);
    hide *;
  }

  lemma LeadsThere(e: Edge, n: string)
    ensures Leads(e, n) ==> n in Ids(e.target)
  {
  }

  lemma TeamIsPart(agents: seq<Agent>, teams: seq<Team>, base: GraphConfig, team: Team)
    requires Apart(teams) && Detached(UnifiedGraph(agents, [], base), teams) && team in teams
    ensures IsPart(TeamGraph(team), UnifiedGraph(agents, teams, base))
  {
    var rest, g, part := UnifiedGraph(agents, [], base), UnifiedGraph(agents, teams, base), TeamGraph(team);
    var names := MemberNames(team);
    UnifiedParts(agents, teams, base);
    hide UnifiedGraph, FlatMap, MemberSteps, TeamEdges, AgentOf, StepIds, MemberNames, Leads;
    forall id | id in names ensures Own(part, g, id) {
      UnifiedAgent(agents, teams, base, id);
      MemberAgent(team, id);
      forall e | Leads(e, id) ensures e in g.edges <==> e in part.edges {
        FlatMapMember(TeamEdges, teams, e);
        if t :| t in teams && e in TeamEdges(t) {
          TeamEdgeEnds(t, e);
          assert id in MemberNames(t);
        }
        LeadsThere(e, id);
        assert e in rest.edges ==> Mentions(rest.edges, id);
      }
    }
    hide Own;
    forall e | e in part.edges ensures e in g.edges && forall m | m in Ids(e.source) :: OwnOrStart(part, g, m) {
      FlatMapMember(TeamEdges, teams, e);
      TeamEdgeEnds(team, e);
    }
  }

  lemma RestIsPart(agents: seq<Agent>, teams: seq<Team>, base: GraphConfig)
    requires Apart(teams) && Detached(UnifiedGraph(agents, [], base), teams)
    ensures IsPart(UnifiedGraph(agents, [], base), UnifiedGraph(agents, teams, base))
  {
    var rest, g := UnifiedGraph(agents, [], base), UnifiedGraph(agents, teams, base);
    UnifiedParts(agents, teams, base);
    hide UnifiedGraph, FlatMap, MemberSteps, TeamEdges, AgentOf, StepIds, MemberNames, Leads;
    forall id | Mentions(rest.edges, id) ensures Own(rest, g, id) {
      UnifiedAgent(agents, teams, base, id);
      if id in StepIds(rest.steps) {
        forall e | Leads(e, id) ensures e in g.edges <==> e in rest.edges {
          FlatMapMember(TeamEdges, teams, e);
          if t :| t in teams && e in TeamEdges(t) {
            TeamEdgeEnds(t, e);
            assert false;
          }
        }
      }
    }
    hide Own;
    forall e, m | e in rest.edges && m in Ids(e.source) ensures OwnOrStart(rest, g, m) {
      assert Mentions(rest.edges, m);
    }
  }

  lemma UnifiedArrives<V(!new)>(agents: seq<Agent>, teams: seq<Team>, base: GraphConfig, w: World<V>, input: V, v: V,
      d: nat)
    requires Apart(teams) && Detached(UnifiedGraph(agents, [], base), teams)
    ensures Arrives(UnifiedGraph(agents, teams, base), w, input, END, v, d) <==>
              || Arrives(UnifiedGraph(agents, [], base), w, input, END, v, d)
              || exists t :: t in teams && Arrives(TeamGraph(t), w, input, END, v, d)
  {
    hide Carries, IsPart, Apart, Detached, FlatMap, UnifiedGraph, TeamEdges, MemberSteps, Leads;
    UnifiedParts(agents, teams, base);
    var g, rest := UnifiedGraph(agents, teams, base), UnifiedGraph(agents, [], base);
    if d > 0 {
      var before: nat := d - 1;
      RestIsPart(agents, teams, base);
      forall e | e in rest.edges
        ensures Carries(g, w, input, e, v, before) == Carries(rest, w, input, e, v, before)
      {
        PartCarries(rest, g, w, input, e, v, before);
      }
      forall e, t | t in teams && e in TeamEdges(t)
        ensures e in g.edges && Carries(g, w, input, e, v, before) == Carries(TeamGraph(t), w, input, e, v, before)
      {
        FlatMapMember(TeamEdges, teams, e);
        TeamIsPart(agents, teams, base, t);
        PartCarries(TeamGraph(t), g, w, input, e, v, before);
      }
      if e :| e in FlatMap(TeamEdges, teams) && Leads(e, END) && Carries(g, w, input, e, v, before) {
        FlatMapMember(TeamEdges, teams, e);
        var t :| t in teams && e in TeamEdges(t);
        assert e in TeamGraph(t).edges;
        assert Arrives(TeamGraph(t), w, input, END, v, d);
      }
    }
  }

  /** Teams that share no members with one another and with the rest of the graph: the unified
      graph delivers to `end` what the graphs of the teams deliver and what it delivers without
      teams, that is along the given edges and the connections of agents, and nothing else. */
  lemma UnifiedGraphKeepsTeams<V(!new)>(agents: seq<Agent>, teams: seq<Team>, base: GraphConfig, w: World<V>,
      input: V, v: V)
    requires Apart(teams) && Detached(UnifiedGraph(agents, [], base), teams)
    ensures Reaches(UnifiedGraph(agents, teams, base), w, input, v) <==>
              || Reaches(UnifiedGraph(agents, [], base), w, input, v)
              || exists t :: t in teams && Reaches(TeamGraph(t), w, input, v)
  {
    hide Arrives, Apart, Detached, UnifiedGraph, TeamGraph;
    forall d: nat
      ensures Arrives(UnifiedGraph(agents, teams, base), w, input, END, v, d) <==>
                || Arrives(UnifiedGraph(agents, [], base), w, input, END, v, d)
                || exists t :: t in teams && Arrives(TeamGraph(t), w, input, END, v, d)
    {
      UnifiedArrives(agents, teams, base, w, input, v, d);
    }
    if t :| t in teams && Reaches(TeamGraph(t), w, input, v) {
      var d :| Arrives(TeamGraph(t), w, input, END, v, d);
      assert Arrives(UnifiedGraph(agents, teams, base), w, input, END, v, d);
    }
  }

  /** With teams alone, nothing else is delivered. */
  lemma TeamsAloneDeliver<V(!new)>(teams: seq<Team>, w: World<V>, input: V, v: V)
    requires Apart(teams)
    ensures Reaches(UnifiedGraph([], teams, EMPTY), w, input, v) <==>
              exists t :: t in teams && Reaches(TeamGraph(t), w, input, v)
  {
    NoTeams();
    assert UnifiedGraph([], [], EMPTY) == EMPTY;
    assert !Reaches(EMPTY, w, input, v);
    hide Reaches, Apart, UnifiedGraph;
    UnifiedGraphKeepsTeams([], teams, EMPTY, w, input, v);
  }
}
