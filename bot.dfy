/** The bot's state and configuration: settings and their defaults, action files
    and their includes, and the BB-code escaper. */
module Bot {
  import opened Errors
  import opened Action

  type U8 = x: int | 0 <= x < 256

  datatype ChannelDefinition = Id(id: nat) | Name(name: string)

  /** A file of rules: its own declarations and the files it includes, relative to itself. */
  datatype ActionFile = ActionFile(includes: seq<Path>, onMessage: seq<ActionDefinition>)

  datatype Settings = Settings(
    keyFile: string,
    dynamicActions: Path,
    address: string,
    channel: Option<ChannelDefinition>,
    name: string,
    disconnectMessage: string,
    rateLimit: U8,
    prefix: string,
    actions: ActionFile)

  /** `Settings::default`, built from the `default_*` functions. */
  function DefaultSettings(): (s: Settings)
    ensures s.keyFile == "private.key" && s.dynamicActions == "dynamic.toml"
    ensures s.address == "localhost" && s.channel == None && s.name == "SimpleBot"
    ensures s.disconnectMessage == "Disconnecting" && s.rateLimit == 2 && s.prefix == "."
    ensures s.actions.includes == [] && s.actions.onMessage == []
  {
    Settings("private.key", "dynamic.toml", "localhost", None, "SimpleBot",
             "Disconnecting", 2, ".", ActionFile([], []))
  }

  /** Everything outside the core that loading depends on: the text of every
      readable file (a path that is absent cannot be read), the TOML
      deserialisers, path operations, the regex crate, and how deep include
      recursion can go before the stack runs out. */
  datatype Env = Env(
    files: map<Path, string>,
    parseSettings: string -> Option<Settings>,
    parseActionFile: string -> Option<ActionFile>,
    join: (Path, Path) -> Path,
    parent: Path -> Option<Path>,
    isAbsolute: Path -> bool,
    regex: RegexLib,
    stackDepth: nat)

  /** Reads and parses the settings file: a parse error is an error, a read error
      keeps `current`. */
  function ReadSettings(path: Path, current: Settings, env: Env): (r: Result<Settings>)
    ensures path !in env.files ==> r == Ok(current)
    ensures path in env.files ==>
      (r.Err? <==> env.parseSettings(env.files[path]).None?) &&
      (r.Ok? ==> r.value == env.parseSettings(env.files[path]).value)
  {
    if path !in env.files then Ok(current)
    else match env.parseSettings(env.files[path])
      case None => Err(SettingsUnparsable(path))
      case Some(s) => Ok(s)
  }

  /** `toml::from_str(&fs::read_to_string(path)?)?` for an action file. */
  function ReadActionFile(path: Path, env: Env): Result<ActionFile> {
    if path !in env.files then Err(ReadFailed(path))
    else match env.parseActionFile(env.files[path])
      case None => Err(ParseFailed(path))
      case Some(f) => Ok(f)
  }

  /** The directory of an included file, or `base` when it has none. */
  function ParentOr(path: Path, base: Path, env: Env): Path {
    match env.parent(path)
    case Some(p) => p
    case None => base
  }

  // ---------------------------------------------------------------------------
  // Loading action files

  /** What loading pushed onto the list, and the error that stopped it, if any. */
  datatype Loaded = Loaded(pushed: seq<Action>, error: Option<Error>)

  /** `l` after the actions `done` were pushed before it. */
  function Prefixed(done: seq<Action>, l: Loaded): Loaded {
    Loaded(done + l.pushed, l.error)
  }

  /** Run `first`, then, unless it failed, `next`. */
  function Then(first: Loaded, next: Loaded): Loaded {
    if first.error.Some? then first else Prefixed(first.pushed, next)
  }

  /** One declaration: its compiled action, or the error that stops loading. */
  function LoadDefinition(d: ActionDefinition, lib: RegexLib): Loaded {
    match Compile(d, lib)
    case Err(e) => Loaded([], Some(e))
    case Ok(a) => Loaded([a], None)
  }

  /** The declarations of a file compiled in order, up to the first that fails. */
  function LoadDefinitions(defs: seq<ActionDefinition>, lib: RegexLib): Loaded
    decreases |defs|
  {
    if defs == [] then Loaded([], None)
    else Then(LoadDefinition(defs[0], lib), LoadDefinitions(defs[1..], lib))
  }

  /** A file's own declarations, then its includes. */
  function LoadFile(base: Path, f: ActionFile, env: Env, fuel: nat): Loaded
    decreases fuel, 2, 0
  {
    Then(LoadDefinitions(f.onMessage, env.regex), LoadIncludes(base, f.includes, env, fuel))
  }

  /** The included files in order. */
  function LoadIncludes(base: Path, incs: seq<Path>, env: Env, fuel: nat): Loaded
    decreases fuel, 1, |incs|
  {
    if incs == [] then Loaded([], None)
    else Then(LoadInclude(base, incs[0], env, fuel), LoadIncludes(base, incs[1..], env, fuel))
  }

  /** One include: resolved against `base`, read, parsed, and loaded relative to
      its own directory. */
  function LoadInclude(base: Path, inc: Path, env: Env, fuel: nat): Loaded
    decreases fuel, 0, 0
  {
    var path := env.join(base, inc);
    match ReadActionFile(path, env)
    case Err(e) => Loaded([], Some(e))
    case Ok(f2) =>
      if fuel == 0 then Loaded([], Some(IncludeTooDeep(path)))
      else LoadFile(ParentOr(path, base, env), f2, env, fuel - 1)
  }

  /** The first loop of `load_actions`: pushes each declaration's action in order,
      stopping at the first that fails to compile. */
  method PushDefinitions(actions: seq<Action>, defs: seq<ActionDefinition>, lib: RegexLib)
    returns (extended: seq<Action>, err: Option<Error>)
    ensures extended == actions + LoadDefinitions(defs, lib).pushed
    ensures err == LoadDefinitions(defs, lib).error
  {
    extended := actions;
    ghost var done: seq<Action> := [];
    for i := 0 to |defs|
      invariant extended == actions + done
      invariant LoadDefinitions(defs, lib) == Prefixed(done, LoadDefinitions(defs[i..], lib))
    {
      assert defs[i..][1..] == defs[i + 1..];
      var a := ToAction(defs[i], lib);
      if a.Err? {
        return extended, Some(a.error);
      }
      PrefixedTwice(done, [a.value], LoadDefinitions(defs[i + 1..], lib));
      extended := extended + [a.value];
      done := done + [a.value];
    }
    assert defs[|defs|..] == [];
    return extended, None;
  }

  /** `load_actions`: pushes the file's own actions onto `actions`, then loads each
      include in order, stopping at the first error; what was pushed before the
      error stays. */
  method LoadActions(base: Path, actions: seq<Action>, f: ActionFile, env: Env, fuel: nat)
    returns (extended: seq<Action>, err: Option<Error>)
    ensures extended == actions + LoadFile(base, f, env, fuel).pushed
    ensures err == LoadFile(base, f, env, fuel).error
    decreases fuel, 2
  {
    extended, err := PushDefinitions(actions, f.onMessage, env.regex);
    if err.Some? {
      return;
    }
    ghost var defsPushed := extended[|actions|..];
    assert extended == actions + defsPushed;
    extended, err := PushIncludes(base, extended, f.includes, env, fuel);
    PrefixedTwice(actions, defsPushed, LoadIncludes(base, f.includes, env, fuel));
  }

  /** The second loop of `load_actions`: the includes in order, stopping at the
      first error. */
  method PushIncludes(base: Path, actions: seq<Action>, incs: seq<Path>, env: Env, fuel: nat)
    returns (extended: seq<Action>, err: Option<Error>)
    ensures extended == actions + LoadIncludes(base, incs, env, fuel).pushed
    ensures err == LoadIncludes(base, incs, env, fuel).error
    decreases fuel, 1
  {
    extended := actions;
    ghost var done: seq<Action> := [];
    for i := 0 to |incs|
      invariant extended == actions + done
      invariant LoadIncludes(base, incs, env, fuel) == Prefixed(done, LoadIncludes(base, incs[i..], env, fuel))
    {
      assert incs[i..][1..] == incs[i + 1..];
      ghost var one := LoadInclude(base, incs[i], env, fuel);
      ghost var rest := LoadIncludes(base, incs[i + 1..], env, fuel);
      assert LoadIncludes(base, incs[i..], env, fuel) == Then(one, rest);
      var e;
      extended, e := PushInclude(base, extended, incs[i], env, fuel);
      AppendAssoc(actions, done, one.pushed);
      if e.Some? {
        return extended, e;
      }
      PrefixedTwice(done, one.pushed, rest);
      done := done + one.pushed;
    }
    assert incs[|incs|..] == [];
    assert done + [] == done;
    return extended, None;
  }

  /** The body of the include loop: `load_actions` on the included file. */
  method PushInclude(base: Path, actions: seq<Action>, inc: Path, env: Env, fuel: nat)
    returns (extended: seq<Action>, err: Option<Error>)
    ensures extended == actions + LoadInclude(base, inc, env, fuel).pushed
    ensures err == LoadInclude(base, inc, env, fuel).error
    decreases fuel, 0
  {
    var path := env.join(base, inc);
    var f2 := ReadActionFile(path, env);
    if f2.Err? {
      return actions, Some(f2.error);
    }
    if fuel == 0 {
      return actions, Some(IncludeTooDeep(path));
    }
    extended, err := LoadActions(ParentOr(path, base, env), actions, f2.value, env, fuel - 1);
  }

  lemma PrefixedTwice(a: seq<Action>, b: seq<Action>, l: Loaded)
    ensures Prefixed(a, Prefixed(b, l)) == Prefixed(a + b, l)
  {
    assert a + (b + l.pushed) == (a + b) + l.pushed;
  }

  // ---------------------------------------------------------------------------
  // Properties of loading

  /** When loading succeeds, the file's declarations come first, one compiled
      action each, in declaration order. */
  lemma {:induction false} DefinitionsComeFirst(base: Path, f: ActionFile, env: Env, fuel: nat)
    requires LoadFile(base, f, env, fuel).error.None?
    ensures var pushed := LoadFile(base, f, env, fuel).pushed;
      && |f.onMessage| <= |pushed|
      && forall k :: 0 <= k < |f.onMessage| ==>
           Compile(f.onMessage[k], env.regex).Ok? && pushed[k] == Compile(f.onMessage[k], env.regex).value
  {
    DefinitionsCompiled(f.onMessage, env.regex);
  }

  /** The declarations that compile all come out, in order; an error stops at the
      first that does not, and keeps everything compiled before it. */
  lemma {:induction false} DefinitionsCompiled(defs: seq<ActionDefinition>, lib: RegexLib)
    ensures var l := LoadDefinitions(defs, lib);
      && (l.error.None? ==> |l.pushed| == |defs|)
      && (l.error.Some? ==> |l.pushed| < |defs| && Compile(defs[|l.pushed|], lib) == Err(l.error.value))
      && forall k :: 0 <= k < |l.pushed| ==> Compile(defs[k], lib) == Ok(l.pushed[k])
    decreases |defs|
  {
    if defs != [] && Compile(defs[0], lib).Ok? {
      DefinitionsCompiled(defs[1..], lib);
      var l := LoadDefinitions(defs, lib);
      var rest := LoadDefinitions(defs[1..], lib);
      assert l.pushed == [Compile(defs[0], lib).value] + rest.pushed;
      forall k | 0 < k < |l.pushed| ensures Compile(defs[k], lib) == Ok(l.pushed[k]) {
        assert defs[k] == defs[1..][k - 1];
      }
    }
  }

  /** Includes are loaded in order: loading `xs + ys` is loading `xs`, then `ys`
      (and `ys` is never looked at when `xs` fails). */
  lemma {:induction false} IncludesInOrder(base: Path, xs: seq<Path>, ys: seq<Path>, env: Env, fuel: nat)
    ensures var l := LoadIncludes(base, xs, env, fuel);
      LoadIncludes(base, xs + ys, env, fuel) ==
        if l.error.Some? then l
        else var r := LoadIncludes(base, ys, env, fuel); Loaded(l.pushed + r.pushed, r.error)
    decreases |xs|
  {
    if xs == [] {
      assert xs + ys == ys;
    } else {
      assert (xs + ys)[0] == xs[0];
      assert (xs + ys)[1..] == xs[1..] + ys;
      IncludesInOrder(base, xs[1..], ys, env, fuel);
    }
  }

  // ---------------------------------------------------------------------------
  // BB-code escaping

  /** The number of `[` in `s`. */
  function Brackets(s: string): nat
    decreases |s|
  {
    if s == [] then 0 else (if s[0] == '[' then 1 else 0) + Brackets(s[1..])
  }

  /** `escape_bb`: every `[` becomes `\[`. */
  function EscapeBb(s: string): (r: string)
    ensures |r| == |s| + Brackets(s)
    ensures forall i :: 0 <= i < |r| && r[i] == '[' ==> 0 < i && r[i - 1] == '\\'
    decreases |s|
  {
    if s == [] then ""
    else (if s[0] == '[' then "\\[" else [s[0]]) + EscapeBb(s[1..])
  }

  /** Undoes `EscapeBb`: `\[` becomes `[`. */
  function UnescapeBb(s: string): string
    decreases |s|
  {
    if s == [] then ""
    else if |s| >= 2 && s[0] == '\\' && s[1] == '[' then "[" + UnescapeBb(s[2..])
    else [s[0]] + UnescapeBb(s[1..])
  }

  lemma {:induction false} EscapeBbRoundTrip(s: string)
    ensures UnescapeBb(EscapeBb(s)) == s
    decreases |s|
  {
    if s != [] {
      EscapeBbRoundTrip(s[1..]);
      var tail := EscapeBb(s[1..]);
      if s[0] == '[' {
        assert EscapeBb(s) == "\\[" + tail;
        assert ("\\[" + tail)[2..] == tail;
      } else {
        assert EscapeBb(s) == [s[0]] + tail;
        assert ([s[0]] + tail)[1..] == tail;
        if s[0] == '\\' && tail != [] {
          assert tail[0] != '[';
        }
      }
    }
  }

  // ---------------------------------------------------------------------------
  // The bot

  /** The fields of `Bot` the core reads and writes. */
  class Bot {
    var baseDir: Path
    var settingsPath: Path
    var actions: seq<Action>
    var settings: Settings
    /** Instants (in milliseconds) of the replies sent within the last second or so. */
    var rateLimiting: seq<int>
    /** The cached listing of the actions. */
    var list: seq<string>
    var shouldReload: bool

    /** `Bot::new`. */
    constructor ()
      ensures baseDir == "" && settingsPath == "" && actions == []
      ensures settings == DefaultSettings() && rateLimiting == [] && list == []
      ensures !shouldReload
    {
      baseDir := "";
      settingsPath := "";
      actions := [];
      settings := DefaultSettings();
      rateLimiting := [];
      list := [];
      shouldReload := false;
    }
  }
}
