/** The builtin commands appended to the end of the action list, and the body
    of the `reload` command. */
module Builtins {
  import opened Errors
  import opened Action
  import opened Bot

  function AddPattern(prefix: string): string { prefix + "add (?P<response>.*) on (?P<trigger>.*)" }
  function DelPattern(prefix: string): string { prefix + "del (?P<trigger>.*)" }
  function ReloadPattern(prefix: string): string { prefix + "reload" }
  function QuitPattern(prefix: string): string { prefix + "quit" }

  /** The `add` and `del` callbacks are stubs without a reply. */
  function AddCallback(msg: Message): Option<string> { None }
  function DelCallback(msg: Message): Option<string> { None }
  /** The `reload` callback starts a reload in the background and gives no reply. */
  function ReloadCallback(msg: Message): Option<string> { None }
  /** The `quit` callback starts the disconnect and gives no reply. */
  function QuitCallback(msg: Message): Option<string> { None }

  /** The action `add_fun` pushes for a pattern and a callback. */
  function BuiltinAction(pattern: string, callback: Message -> Option<string>): Action {
    Action([Regex(pattern)], Some(Function(callback)))
  }

  /** The four builtins in the order `init` adds them. */
  function BuiltinActions(prefix: string): seq<Action> {
    [ BuiltinAction(AddPattern(prefix), AddCallback),
      BuiltinAction(DelPattern(prefix), DelCallback),
      BuiltinAction(ReloadPattern(prefix), ReloadCallback),
      BuiltinAction(QuitPattern(prefix), QuitCallback) ]
  }

  /** `add_fun`: pushes one callback action with a single regex matcher. */
  method AddFun(bot: Bot, r: string, f: Message -> Option<string>)
    modifies bot`actions
    ensures bot.actions == old(bot.actions) + [Action([Regex(r)], Some(Function(f)))]
  {
    bot.actions := bot.actions + [BuiltinAction(r, f)];
  }

  /** `init`: adds the builtins to the end of the action list. */
  method Init(bot: Bot)
    modifies bot`actions
    ensures bot.actions == old(bot.actions) + BuiltinActions(bot.settings.prefix)
    ensures bot.actions[..|old(bot.actions)|] == old(bot.actions)
  {
    ghost var before := bot.actions;
    var prefix := bot.settings.prefix;
    AddFun(bot, AddPattern(prefix), AddCallback);
    AddFun(bot, DelPattern(prefix), DelCallback);
    AddFun(bot, ReloadPattern(prefix), ReloadCallback);
    AddFun(bot, QuitPattern(prefix), QuitCallback);
    assert bot.actions == before + BuiltinActions(prefix);
  }

  /** Each builtin is one regex matcher on the prefixed command and a callback that
      never replies, so it passes every message on to the next action. */
  lemma BuiltinsShape(prefix: string, msg: Message, lib: RegexLib)
    ensures var b := BuiltinActions(prefix);
      && |b| == 4
      && b[0].matchers == [Regex(prefix + "add (?P<response>.*) on (?P<trigger>.*)")]
      && b[1].matchers == [Regex(prefix + "del (?P<trigger>.*)")]
      && b[2].matchers == [Regex(prefix + "reload")]
      && b[3].matchers == [Regex(prefix + "quit")]
      && forall k :: 0 <= k < 4 ==>
           b[k].reaction.Some? && b[k].reaction.value.Function?
           && Execute(b[k].reaction.value, msg) == None
           && Decide(b[k], msg, lib) == Next
  {
  }

  /** The builtins never answer nor stop the search: the reply of a list with the
      builtins spliced in anywhere is the reply of the list without them. */
  lemma BuiltinsTransparent(front: seq<Action>, prefix: string, back: seq<Action>, msg: Message, lib: RegexLib)
    ensures FirstReply(front + BuiltinActions(prefix) + back, msg, lib) == FirstReply(front + back, msg, lib)
  {
    var b := BuiltinActions(prefix);
    BuiltinsShape(prefix, msg, lib);
    FirstReplyAppend(b, back, msg, lib);
    FirstReplyAppend(front, b + back, msg, lib);
    FirstReplyAppend(front, back, msg, lib);
    assert front + b + back == front + (b + back);
  }

  // ---------------------------------------------------------------------------
  // The reload body

  /** What the reload body leaves behind: unchanged state when the settings cannot
      be parsed; otherwise the new (or, when unreadable, current) settings and the
      settings' actions followed by the builtins. */
  function ReloadResult(settings: Settings, actions: seq<Action>, settingsPath: Path, baseDir: Path, env: Env)
    : (Settings, seq<Action>)
  {
    match ReadSettings(settingsPath, settings, env)
    case Err(_) => (settings, actions)
    case Ok(s) => (s, LoadFile(baseDir, s.actions, env, env.stackDepth).pushed + BuiltinActions(s.prefix))
  }

  /** The sequential body of the task `reload` spawns, run under the write lock. */
  method ReloadBody(bot: Bot, env: Env)
    modifies bot`settings, bot`actions
    ensures (bot.settings, bot.actions)
      == ReloadResult(old(bot.settings), old(bot.actions), bot.settingsPath, bot.baseDir, env)
  {
    var read := ReadSettings(bot.settingsPath, bot.settings, env);
    if read.Err? {
      return;
    }
    bot.settings := read.value;

    var actions, err := LoadActions(bot.baseDir, [], bot.settings.actions, env, env.stackDepth);
    // a failure is only logged: the actions loaded up to it are kept
    assert actions == LoadFile(bot.baseDir, bot.settings.actions, env, env.stackDepth).pushed;
    bot.actions := actions;
    Init(bot);
  }

  /** A settings file that cannot be parsed leaves the bot as it was; one that
      cannot be read keeps the current settings. */
  lemma ReloadKeepsStateOnBadSettings(settings: Settings, actions: seq<Action>, path: Path, baseDir: Path, env: Env)
    ensures path in env.files && env.parseSettings(env.files[path]).None? ==>
      ReloadResult(settings, actions, path, baseDir, env) == (settings, actions)
    ensures path !in env.files ==>
      ReloadResult(settings, actions, path, baseDir, env).0 == settings
  {
  }

  /** After a reload the list is the settings' actions (as far as they loaded)
      followed by exactly the four builtins; no dynamic actions are loaded. */
  lemma ReloadOrder(settings: Settings, actions: seq<Action>, path: Path, baseDir: Path, env: Env)
    requires ReadSettings(path, settings, env).Ok?
    ensures var s := ReadSettings(path, settings, env).value;
      var r := ReloadResult(settings, actions, path, baseDir, env).1;
      var n := |LoadFile(baseDir, s.actions, env, env.stackDepth).pushed|;
      && |r| == n + 4
      && r[..n] == LoadFile(baseDir, s.actions, env, env.stackDepth).pushed
      && r[n..] == BuiltinActions(s.prefix)
  {
  }
}
