/** `ConfigContextManager`: the config directory lives in a module global and in a ContextVar,
    and leaving a context can make the two drift apart. One thread of control is modelled. */
module ConfigContext {
  import opened Options

  type Dir = string

  /** The two stores. */
  datatype Stores = Stores(global: Option<Dir>, contextVar: Option<Dir>)

  /** `get_config_dir`. */
  function GetConfigDir(s: Stores): Option<Dir> {
    if s.global.Some? then s.global else s.contextVar
  }

  /** The global is None or agrees with the ContextVar. */
  predicate Consistent(s: Stores) {
    s.global.None? || s.global == s.contextVar
  }

  /** The fields of one manager: the directory it sets, the token (with the ContextVar value
      it restores) and the saved global. */
  datatype Manager = Manager(configDir: Option<Dir>, token: Option<Option<Dir>>, previousDir: Option<Dir>)

  /** `__init__`: a path with a suffix is a file, and stands for its parent directory. */
  function NewManager(path: Option<Path>): Manager {
    Manager(if path.None? then None else Some(DirOf(path.value)), None, None)
  }

  datatype Path = Path(parent: Dir, name: string, hasSuffix: bool)

  function DirOf(p: Path): Dir {
    if p.hasSuffix then p.parent else p.parent + "/" + p.name
  }

  function Entered(s: Stores, m: Manager): (Stores, Manager) {
    match m.configDir
    case None => (s, m)
    case Some(dir) =>
      (Stores(Some(dir), Some(dir)), m.(previousDir := s.global, token := Some(s.contextVar)))
  }

  /** `__exit__`: without a token the ContextVar stays, but the global is still assigned the
      saved value, which is None when nothing was saved. */
  function Exited(s: Stores, m: Manager): Stores {
    Stores(m.previousDir, if m.token.Some? then m.token.value else s.contextVar)
  }

  /** The runtime objects behind these values. */
  class Runtime {
    var configDirGlobal: Option<Dir>
    var contextVar: Option<Dir>

    function State(): Stores
      reads this
    {
      Stores(configDirGlobal, contextVar)
    }

    /** In consistent stores this is the ContextVar, whatever the global has lost; it is None
        only if both stores are empty. */
    method Get() returns (dir: Option<Dir>)
      ensures dir == GetConfigDir(State())
      ensures Consistent(State()) ==> dir == contextVar
      ensures dir.None? <==> State() == Stores(None, None)
    {
      if configDirGlobal.Some? {
        return configDirGlobal;
      }
      return contextVar;
    }
  }

  class ConfigContextManager {
    const runtime: Runtime
    var configDir: Option<Dir>
    var token: Option<Option<Dir>>
    var previousDir: Option<Dir>

    function State(): Manager
      reads this
    {
      Manager(configDir, token, previousDir)
    }

    constructor (runtime: Runtime, path: Option<Path>)
      ensures State() == NewManager(path) && this.runtime == runtime
    {
      this.runtime := runtime;
      configDir, token, previousDir := None, None, None;
      new;
      if path.Some? {
        configDir := Some(DirOf(path.value));
      }
    }

    method Enter()
      modifies this, runtime
      ensures (runtime.State(), State()) == Entered(old(runtime.State()), old(State()))
      ensures configDir.Some? ==>
                && runtime.configDirGlobal == runtime.contextVar == configDir == old(configDir)
                && previousDir == old(runtime.configDirGlobal) && token == Some(old(runtime.contextVar))
      ensures configDir.None? ==> runtime.State() == old(runtime.State()) && State() == old(State())
    {
      if configDir.Some? {
        previousDir := runtime.configDirGlobal;
        runtime.configDirGlobal := configDir;
        token := Some(runtime.contextVar);
        runtime.contextVar := configDir;
      }
    }

    method Exit()
      modifies runtime
      ensures runtime.State() == Exited(old(runtime.State()), State())
      ensures runtime.configDirGlobal == previousDir
      ensures runtime.contextVar == match token case Some(before) => before case None => old(runtime.contextVar)
    {
      if token.Some? {
        runtime.contextVar := token.value;
      }
      runtime.configDirGlobal := previousDir;
    }
  }

  /** A well-nested program: reads of the config dir, exceptions, `with` blocks over a new
      manager, and blocks whose exceptions are caught. */
  datatype Command =
    | Read
    | Raise
    | With(path: Option<Path>, body: seq<Command>)
    | Try(body: seq<Command>)

  /** What a program does: the directories it reads, and whether it ends with an exception. */
  datatype Effect = Effect(seen: seq<Option<Dir>>, raised: bool)

  /** The code: contexts enter and exit the two stores; exit also runs on an exception. */
  function Execute(program: seq<Command>, s: Stores): (Stores, Effect)
    decreases program
  {
    if program == [] then (s, Effect([], false))
    else
      var (s1, first) := ExecuteOne(program[0], s);
      if first.raised then (s1, first)
      else
        var (s2, rest) := Execute(program[1..], s1);
        (s2, Effect(first.seen + rest.seen, rest.raised))
  }

  function ExecuteOne(c: Command, s: Stores): (Stores, Effect)
    decreases c
  {
    match c
    case Read => (s, Effect([GetConfigDir(s)], false))
    case Raise => (s, Effect([], true))
    case With(path, body) =>
      var (inner, m) := Entered(s, NewManager(path));
      var (after, effect) := Execute(body, inner);
      (Exited(after, m), effect)
    case Try(body) =>
      var (after, effect) := Execute(body, s);
      (after, effect.(raised := false))
  }

  /** The intention: `dir` is the directory of the innermost open context that has a path. The
      directory of a file is its parent; any other path is the directory itself. */
  function Meaning(program: seq<Command>, dir: Option<Dir>): Effect
    decreases program
  {
    if program == [] then Effect([], false)
    else
      var first := MeaningOne(program[0], dir);
      if first.raised then first
      else
        var rest := Meaning(program[1..], dir);
        Effect(first.seen + rest.seen, rest.raised)
  }

  function MeaningOne(c: Command, dir: Option<Dir>): Effect
    decreases c
  {
    match c
    case Read => Effect([dir], false)
    case Raise => Effect([], true)
    case With(path, body) =>
      Meaning(body, match path
                    case None => dir
                    case Some(p) => Some(if p.hasSuffix then p.parent else p.parent + "/" + p.name))
    case Try(body) => Meaning(body, dir).(raised := false)
  }

  /** Every program reads the innermost directory, and leaves the ContextVar as it was. The
      global, and with it every value saved from it, is None or equal to the ContextVar. */
  lemma {:induction false} ReadsInnermost(program: seq<Command>, s: Stores)
    requires Consistent(s)
    ensures var (s', effect) := Execute(program, s);
            && effect == Meaning(program, s.contextVar)
            && Consistent(s') && s'.contextVar == s.contextVar
    decreases program
  {
    if program != [] {
      ReadsInnermostOne(program[0], s);
      var (s1, first) := ExecuteOne(program[0], s);
      if !first.raised {
        ReadsInnermost(program[1..], s1);
      }
    }
  }

  lemma {:induction false} ReadsInnermostOne(c: Command, s: Stores)
    requires Consistent(s)
    ensures var (s', effect) := ExecuteOne(c, s);
            && effect == MeaningOne(c, s.contextVar)
            && Consistent(s') && s'.contextVar == s.contextVar
    decreases c
  {
    match c
    case Read =>
    case Raise =>
    case With(path, body) => ReadsInnermost(body, Entered(s, NewManager(path)).0);
    case Try(body) => ReadsInnermost(body, s);
  }

  /** Main result, from the stores of a fresh process: every read in a well-nested program
      gives the innermost open context that has a path, or None outside of all of them. In
      particular nothing is readable once the outermost context is left. */
  lemma WellNestedProgramsReadInnermost(program: seq<Command>)
    ensures Execute(program, Stores(None, None)).1 == Meaning(program, None)
    ensures GetConfigDir(Execute(program, Stores(None, None)).0) == None
  {
    ReadsInnermost(program, Stores(None, None));
  }

  /** The two stores do drift apart: after an inner context without a path, the global is None
      while the ContextVar still holds the directory. */
  lemma StoresDrift(p: Path)
    ensures var inner := Entered(Stores(None, None), NewManager(Some(p))).0;
            var after := Execute([With(None, [])], inner).0;
            after == Stores(None, Some(DirOf(p))) && GetConfigDir(after) == Some(DirOf(p))
  {
    var inner := Entered(Stores(None, None), NewManager(Some(p))).0;
    assert Execute([], inner) == (inner, Effect([], false));
    var m := NewManager(None);
    assert ExecuteOne(With(None, []), inner) == (Exited(inner, m), Effect([], false));
    var s1 := Exited(inner, m);
    assert [With(None, [])][1..] == [];
    assert Execute([], s1) == (s1, Effect([], false));
  }
}
