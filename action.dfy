/** Rules of the bot: how a rule definition is compiled into an action, how one
    matcher and one reaction behave, and the first-match-wins search over an
    action list. */
module Action {
  import opened Errors

  /** The three modes of a text message; a message whose mode is `None` is a poke. */
  datatype TargetMode = Server | Channel | Client

  /** An incoming message as the matching engine sees it. */
  datatype Message = Message(mode: Option<TargetMode>, text: string)

  /** The regex crate, seen only through what the core asks of it: whether a
      pattern compiles, whether a compiled pattern finds a match in a text, and
      `regex::escape`. */
  datatype RegexLib = RegexLib(
    compiles: string -> bool,
    isMatch: (string, string) -> bool,
    escape: string -> string)

  /** A compiled regex is kept as the pattern it was compiled from. */
  datatype Matcher = Regex(pattern: string) | Mode(mode: Option<TargetMode>)

  /** `Function` holds a builtin's callback. */
  datatype Reaction =
    | Plain(text: string)
    | Command(command: string)
    | Shell(script: string)
    | Function(callback: Message -> Option<string>)

  /** All matchers have to hold; a matching action without a reaction stops the search. */
  datatype Action = Action(matchers: seq<Matcher>, reaction: Option<Reaction>)

  /** The serialised form of a rule, one optional field per key of the configuration file. */
  datatype ActionDefinition = ActionDefinition(
    contains: Option<string>,
    matches: Option<string>,
    chat: Option<string>,
    response: Option<string>,
    command: Option<string>,
    shell: Option<string>)

  // ---------------------------------------------------------------------------
  // Compilation of a definition

  /** The pattern a `contains` literal becomes: escaped and put between word boundaries. */
  function ContainsPattern(contains: string, lib: RegexLib): string {
    "\\b" + lib.escape(contains) + "\\b"
  }

  /** The accepted values of `chat`. */
  function ParseChatMode(chat: string): (r: Result<Option<TargetMode>>)
    ensures r.Ok? <==> chat in {"server", "channel", "client", "poke"}
    ensures r == Ok(None) <==> chat == "poke"
    ensures r == Ok(Some(Server)) <==> chat == "server"
    ensures r == Ok(Some(Channel)) <==> chat == "channel"
    ensures r == Ok(Some(Client)) <==> chat == "client"
    ensures r.Err? ==> r.error == InvalidChatMode(chat)
  {
    if chat == "server" then Ok(Some(Server))
    else if chat == "channel" then Ok(Some(Channel))
    else if chat == "client" then Ok(Some(Client))
    else if chat == "poke" then Ok(None)
    else Err(InvalidChatMode(chat))
  }

  /** The text matcher a definition asks for: none, or one regex. */
  function TextMatchers(d: ActionDefinition, lib: RegexLib): Result<seq<Matcher>> {
    if d.contains.Some? && d.matches.Some? then
      Err(ContainsAndMatches(d.contains.value, d.matches.value))
    else if d.contains.Some? then
      var p := ContainsPattern(d.contains.value, lib);
      if lib.compiles(p) then Ok([Regex(p)]) else Err(InvalidRegex(p))
    else if d.matches.Some? then
      var p := d.matches.value;
      if lib.compiles(p) then Ok([Regex(p)]) else Err(InvalidRegex(p))
    else
      Ok([])
  }

  /** The chat-mode matcher a definition asks for: none, or one. */
  function ModeMatchers(d: ActionDefinition): Result<seq<Matcher>> {
    if d.chat.None? then Ok([])
    else match ParseChatMode(d.chat.value)
      case Err(e) => Err(e)
      case Ok(m) => Ok([Mode(m)])
  }

  /** The reactions a definition gives, in field order. */
  function Reactions(d: ActionDefinition): seq<Reaction> {
    (if d.response.Some? then [Plain(d.response.value)] else []) +
    (if d.command.Some? then [Command(d.command.value)] else []) +
    (if d.shell.Some? then [Shell(d.shell.value)] else [])
  }

  /** The action a definition stands for, or the first error found checking it
      (text matcher, then chat mode, then reactions). */
  function Compile(d: ActionDefinition, lib: RegexLib): Result<Action> {
    match TextMatchers(d, lib)
    case Err(e) => Err(e)
    case Ok(text) =>
      match ModeMatchers(d)
      case Err(e) => Err(e)
      case Ok(mode) =>
        var rs := Reactions(d);
        if |rs| > 1 then Err(MultipleReactions)
        else Ok(Action(text + mode, if rs == [] then None else Some(rs[0])))
  }

  /** `to_action`: builds the action step by step and counts the reactions. */
  method ToAction(d: ActionDefinition, lib: RegexLib) returns (r: Result<Action>)
    ensures r == Compile(d, lib)
  {
    var matchers: seq<Matcher> := [];
    var reaction: Option<Reaction> := None;
    if d.contains.Some? {
      if d.matches.Some? {
        return Err(ContainsAndMatches(d.contains.value, d.matches.value));
      }
      var pattern := ContainsPattern(d.contains.value, lib);
      if !lib.compiles(pattern) {
        return Err(InvalidRegex(pattern));
      }
      matchers := matchers + [Regex(pattern)];
    } else if d.matches.Some? {
      if !lib.compiles(d.matches.value) {
        return Err(InvalidRegex(d.matches.value));
      }
      matchers := matchers + [Regex(d.matches.value)];
    }

    if d.chat.Some? {
      var mode := ParseChatMode(d.chat.value);
      if mode.Err? {
        return Err(mode.error);
      }
      matchers := matchers + [Mode(mode.value)];
    }

    assert matchers == TextMatchers(d, lib).value + ModeMatchers(d).value;

    var counter := 0;
    ghost var given: seq<Reaction> := [];
    if d.response.Some? {
      reaction := Some(Plain(d.response.value));
      counter := counter + 1;
      given := given + [reaction.value];
    }
    if d.command.Some? {
      reaction := Some(Command(d.command.value));
      counter := counter + 1;
      given := given + [reaction.value];
    }
    if d.shell.Some? {
      reaction := Some(Shell(d.shell.value));
      counter := counter + 1;
      given := given + [reaction.value];
    }
    assert given == Reactions(d) && counter == |given|;
    if counter > 1 {
      return Err(MultipleReactions);
    }
    assert reaction == if given == [] then None else Some(given[0]);
    return Ok(Action(matchers, reaction));
  }

  lemma CompileRejectsContainsWithMatches(d: ActionDefinition, lib: RegexLib)
    requires d.contains.Some? && d.matches.Some?
    ensures Compile(d, lib) == Err(ContainsAndMatches(d.contains.value, d.matches.value))
  {
  }

  /** Which text matcher leads the matcher list, and that the mode matcher follows it. */
  lemma CompileMatchers(d: ActionDefinition, lib: RegexLib)
    requires Compile(d, lib).Ok?
    ensures var ms := Compile(d, lib).value.matchers;
      && |ms| == (if d.contains.Some? || d.matches.Some? then 1 else 0) + (if d.chat.Some? then 1 else 0)
      && (d.contains.Some? ==> ms[0] == Regex(ContainsPattern(d.contains.value, lib)))
      && (d.contains.None? && d.matches.Some? ==> ms[0] == Regex(d.matches.value))
      && (d.chat.Some? ==> ms[|ms| - 1] == Mode(ParseChatMode(d.chat.value).value))
      && (forall k :: 0 <= k < |ms| ==> ms[k].Regex? == (k == 0 && (d.contains.Some? || d.matches.Some?)))
  {
  }

  /** A chat filter succeeds for the four mode names only. */
  lemma CompileChatMode(d: ActionDefinition, lib: RegexLib)
    requires TextMatchers(d, lib).Ok? && d.chat.Some?
    requires d.chat.value !in {"server", "channel", "client", "poke"}
    ensures Compile(d, lib) == Err(InvalidChatMode(d.chat.value))
  {
  }

  /** More than one reaction is an error; one sets the reaction; none leaves it empty. */
  lemma CompileReaction(d: ActionDefinition, lib: RegexLib)
    requires TextMatchers(d, lib).Ok? && ModeMatchers(d).Ok?
    ensures var n := (if d.response.Some? then 1 else 0) + (if d.command.Some? then 1 else 0)
                     + (if d.shell.Some? then 1 else 0);
      && (n > 1 <==> Compile(d, lib) == Err(MultipleReactions))
      && (n <= 1 ==> Compile(d, lib).Ok?)
      && (n == 0 ==> Compile(d, lib).value.reaction == None)
      && (n == 1 && d.response.Some? ==> Compile(d, lib).value.reaction == Some(Plain(d.response.value)))
      && (n == 1 && d.command.Some? ==> Compile(d, lib).value.reaction == Some(Command(d.command.value)))
      && (n == 1 && d.shell.Some? ==> Compile(d, lib).value.reaction == Some(Shell(d.shell.value)))
  {
  }

  // ---------------------------------------------------------------------------
  // Evaluation

  /** `Matcher::matches`. */
  function Matches(m: Matcher, msg: Message, lib: RegexLib): (b: bool)
    ensures m.Mode? ==> (b <==> m.mode == msg.mode)
    ensures m.Regex? ==> (b <==> lib.isMatch(m.pattern, msg.text))
  {
    match m
    case Regex(p) => lib.isMatch(p, msg.text)
    case Mode(mode) => mode == msg.mode
  }

  /** `Reaction::execute`: `None` means the next action should be tried. */
  function Execute(r: Reaction, msg: Message): (res: Option<string>)
    ensures r.Plain? ==> res == Some(r.text)
    ensures r.Command? || r.Shell? ==> res == None
    ensures r.Function? ==> res == r.callback(msg)
  {
    match r
    case Plain(s) => Some(s)
    case Command(_) => None
    case Shell(_) => None
    case Function(f) => f(msg)
  }

  predicate AllMatch(a: Action, msg: Message, lib: RegexLib) {
    forall k :: 0 <= k < |a.matchers| ==> Matches(a.matchers[k], msg, lib)
  }

  /** What one action decides about a message: pass it on, or stop with a reply. */
  datatype Verdict = Next | Stop(reply: Option<string>)

  function Decide(a: Action, msg: Message, lib: RegexLib): Verdict {
    if !AllMatch(a, msg, lib) then Next
    else match a.reaction
      case None => Stop(None)
      case Some(r) =>
        match Execute(r, msg)
        case None => Next
        case Some(s) => Stop(if s == "" then None else Some(s))
  }

  /** The reply of an action list: the verdict of the first action that does not pass. */
  function FirstReply(actions: seq<Action>, msg: Message, lib: RegexLib): Option<string>
    decreases |actions|
  {
    if actions == [] then None
    else match Decide(actions[0], msg, lib)
      case Next => FirstReply(actions[1..], msg, lib)
      case Stop(r) => r
  }

  /** The index of the first action that stops the search, or `|actions|`. */
  function FirstStop(actions: seq<Action>, msg: Message, lib: RegexLib): (k: nat)
    ensures k <= |actions|
    ensures forall j :: 0 <= j < k ==> Decide(actions[j], msg, lib) == Next
    ensures k < |actions| ==> Decide(actions[k], msg, lib).Stop?
    decreases |actions|
  {
    if actions == [] || Decide(actions[0], msg, lib).Stop? then 0
    else 1 + FirstStop(actions[1..], msg, lib)
  }

  /** `ActionList::handle`: the labelled first-match-wins loop with early returns. */
  method Handle(actions: seq<Action>, msg: Message, lib: RegexLib) returns (r: Option<string>)
    ensures r == FirstReply(actions, msg, lib)
  {
    label Actions:
    for i := 0 to |actions|
      invariant FirstReply(actions[i..], msg, lib) == FirstReply(actions, msg, lib)
    {
      var a := actions[i];
      assert actions[i..][1..] == actions[i + 1..];
      for j := 0 to |a.matchers|
        invariant forall k :: 0 <= k < j ==> Matches(a.matchers[k], msg, lib)
      {
        if !Matches(a.matchers[j], msg, lib) {
          continue Actions;
        }
      }

      if a.reaction.Some? {
        var res := Execute(a.reaction.value, msg);
        if res.Some? {
          if res.value == "" {
            return None;
          } else {
            return res;
          }
        }
      } else {
        return None;
      }
    }
    return None;
  }

  // ---------------------------------------------------------------------------
  // Properties of the search

  /** The reply is the verdict of the first action that stops, and nothing if none does. */
  lemma {:induction false} FirstReplyAtFirstStop(actions: seq<Action>, msg: Message, lib: RegexLib)
    ensures var k := FirstStop(actions, msg, lib);
      FirstReply(actions, msg, lib) == if k == |actions| then None else Decide(actions[k], msg, lib).reply
    decreases |actions|
  {
    if actions != [] && Decide(actions[0], msg, lib) == Next {
      FirstReplyAtFirstStop(actions[1..], msg, lib);
    }
  }

  /** An empty reply is never produced. */
  lemma {:induction false} FirstReplyNeverEmpty(actions: seq<Action>, msg: Message, lib: RegexLib)
    ensures FirstReply(actions, msg, lib) != Some("")
    decreases |actions|
  {
    if actions != [] && Decide(actions[0], msg, lib) == Next {
      FirstReplyNeverEmpty(actions[1..], msg, lib);
    }
  }

  /** A reply `s` comes out exactly when some action matches with a reaction that
      yields the non-empty `s`, and every action before it passes the message on. */
  lemma ReplyIff(actions: seq<Action>, msg: Message, lib: RegexLib, s: string)
    ensures FirstReply(actions, msg, lib) == Some(s) <==>
      exists i :: 0 <= i < |actions| && s != ""
        && (forall j :: 0 <= j < i ==> Decide(actions[j], msg, lib) == Next)
        && AllMatch(actions[i], msg, lib)
        && actions[i].reaction.Some?
        && Execute(actions[i].reaction.value, msg) == Some(s)
  {
    FirstReplyAtFirstStop(actions, msg, lib);
    var k := FirstStop(actions, msg, lib);
    if FirstReply(actions, msg, lib) == Some(s) {
      assert k < |actions|;
    }
    if exists i :: 0 <= i < |actions| && s != ""
        && (forall j :: 0 <= j < i ==> Decide(actions[j], msg, lib) == Next)
        && AllMatch(actions[i], msg, lib)
        && actions[i].reaction.Some?
        && Execute(actions[i].reaction.value, msg) == Some(s)
    {
      var i :| 0 <= i < |actions| && s != ""
        && (forall j :: 0 <= j < i ==> Decide(actions[j], msg, lib) == Next)
        && AllMatch(actions[i], msg, lib)
        && actions[i].reaction.Some?
        && Execute(actions[i].reaction.value, msg) == Some(s);
      assert Decide(actions[i], msg, lib) == Stop(Some(s));
    }
  }

  /** A matching action without a reaction ends the search with no reply, whatever follows. */
  lemma SilentActionStops(actions: seq<Action>, i: nat, msg: Message, lib: RegexLib)
    requires i < |actions|
    requires forall j :: 0 <= j < i ==> Decide(actions[j], msg, lib) == Next
    requires AllMatch(actions[i], msg, lib) && actions[i].reaction.None?
    ensures FirstReply(actions, msg, lib) == None
  {
    FirstReplyAtFirstStop(actions, msg, lib);
    assert Decide(actions[i], msg, lib) == Stop(None);
  }

  /** An action with no matchers matches every message. */
  lemma EmptyMatchersMatchAll(r: Option<Reaction>, msg: Message, lib: RegexLib)
    ensures AllMatch(Action([], r), msg, lib)
  {
  }

  /** Actions that all pass a message on can be dropped from the front; once an
      action stops the search, what follows it is never consulted. */
  lemma {:induction false} FirstReplyAppend(front: seq<Action>, back: seq<Action>, msg: Message, lib: RegexLib)
    ensures (forall j :: 0 <= j < |front| ==> Decide(front[j], msg, lib) == Next) ==>
      FirstReply(front + back, msg, lib) == FirstReply(back, msg, lib)
    ensures (exists j :: 0 <= j < |front| && Decide(front[j], msg, lib).Stop?) ==>
      FirstReply(front + back, msg, lib) == FirstReply(front, msg, lib)
    decreases |front|
  {
    if front != [] {
      assert (front + back)[0] == front[0];
      assert (front + back)[1..] == front[1..] + back;
      FirstReplyAppend(front[1..], back, msg, lib);
      if Decide(front[0], msg, lib) == Next {
        if exists j :: 0 <= j < |front| && Decide(front[j], msg, lib).Stop? {
          var j :| 0 <= j < |front| && Decide(front[j], msg, lib).Stop?;
          assert Decide(front[1..][j - 1], msg, lib).Stop?;
        }
        if forall j :: 0 <= j < |front| ==> Decide(front[j], msg, lib) == Next {
          assert forall j :: 0 <= j < |front[1..]| ==> Decide(front[1..][j], msg, lib) == Next by {
            forall j | 0 <= j < |front[1..]| ensures Decide(front[1..][j], msg, lib) == Next {
              assert front[1..][j] == front[j + 1];
            }
          }
        }
      }
    } else {
      assert front + back == back;
    }
  }
}
