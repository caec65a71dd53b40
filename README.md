# SimpleBot core in Dafny

SimpleBot is a TeamSpeak chat bot configured by TOML files. Each rule
(`on_message` entry) says how to recognise a message (`contains`, `matches`,
`chat`) and how to answer it (`response`, `command`, `shell`). This project
models the core of the bot:

- how a rule definition becomes an action, with its error cases;
- how an action list answers a message, where the first action that stops wins;
- how action files and their includes are loaded, in order, stopping at the
  first error;
- the builtin commands (`add`, `del`, `reload`, `quit`) that are appended to
  the list, and the body of a reload;
- `load_settings`: the settings, then the settings' actions, then the builtins,
  then the dynamic actions;
- `handle_event` with its per-second rate limiter, and the deferred reload in
  the event loop.

Modules:

- `Errors`: `Option`, `Result`, the error kinds.
- `Action`: `src/action.rs`.
- `Bot`: the data types and action loading of `src/main.rs`.
- `Builtins`: `src/builtins.rs`.
- `Control`: the runtime part of `src/main.rs`.

Pure code is modelled as functions. Loops are modelled as methods with loop
invariants, and each method's `ensures` ties its result to the function that
specifies it:

- `ToAction` to `Compile`;
- `Handle` to `FirstReply`;
- `LoadActions` to `LoadFile`;
- `HandleEvent` to `HandleAll`;
- `LoadSettings` to `LoadSettingsResult`.

Lemmas then state what those functions promise. The `Bot` struct is a class
with the fields of `Bot` and a constructor. The operations that change a bot
(`Builtins.AddFun`, `Builtins.Init`, `Builtins.ReloadBody`,
`Control.LoadSettings`, `Control.HandleMessage`, `Control.HandleEvent`,
`Control.EventLoopStep`) are module-level methods that
take the bot and state in `modifies` which of its fields they change.

Outside collaborators are parameters:

- The regex crate is `RegexLib`: whether a pattern compiles, whether it
  matches, and `regex::escape`.
- The file system, the TOML deserialisers and path operations are `Env`. A
  path missing from `Env.files` is a read error.
- The clock is one timestamp per event, in milliseconds. The per-second bound
  (`AtMostLimitPerSecond`) assumes the readings never decrease, as
  `Instant::now()` is monotonic.

Where the comments and the code disagree, the model follows the code:

- A `contains` literal is always escaped and wrapped in `\b…\b` word
  boundaries.
- In `load_settings`, the builtins are added before the dynamic actions. The
  doc comment on `dynamic_actions` says "after the normal actions and before
  the builtins".
- `Command` and `Shell` reactions give no reply, so the search moves on to the
  next action.
- A settings file that cannot be read keeps the current settings. The log line
  says "using defaults"; that is true only at start-up, when the current
  settings are still the defaults.
- `action.rs` reads a message's `mode` and `message`, while `main.rs` declares
  `Message` with `target`. The model's `Message` has a mode and a text.
- `builtins::init` is declared with a `Weak` handle but called with the bot
  alone. The model's `Init` takes the bot.

## Model

| member | source | states |
|---|---|---|
| Action.ParseChatMode | src/action.rs:72-80 | `chat` is accepted exactly for "server", "channel", "client" (the three modes) and "poke" (no mode); every other value is an `InvalidChatMode` error |
| Action.ToAction | src/action.rs:57-104 | the step-by-step construction with its reaction counter returns exactly `Compile(d)`: the same action, or the same first error |
| Action.CompileRejectsContainsWithMatches | src/action.rs:60-64 | a definition with both `contains` and `matches` is rejected with both values in the error |
| Action.CompileMatchers | src/action.rs:59-82 | a compiled action has at most one regex matcher and it comes first: the escaped, word-bounded `contains`, or else the raw `matches`; the chat-mode matcher, if any, comes last |
| Action.CompileChatMode | src/action.rs:72-82 | once the text matcher has compiled (its error comes first, src/action.rs:60-70), an unknown chat mode makes compilation fail with `InvalidChatMode` |
| Action.CompileReaction | src/action.rs:84-103 | more than one of response/command/shell is an error, and only then is it `MultipleReactions`; one sets the matching reaction; none leaves the action without a reaction |
| Action.Matches | src/action.rs:108-113 | a regex matcher holds iff the pattern matches the text; a mode matcher holds iff the modes are equal (a `None` mode matches a poke) |
| Action.Execute | src/action.rs:116-125 | a plain reaction replies with its text; command and shell give no reply; a function reaction gives what its callback returns |
| Action.FirstStop | src/action.rs:129-150 | the index of the first action that stops the search: every action before it passes the message on |
| Action.Handle | src/action.rs:128-151 | the labelled loop with its early returns computes `FirstReply`, the first-match-wins reply |
| Action.FirstReplyAtFirstStop | src/action.rs:129-150 | the reply is decided by the first action that stops the search; no reply if none stops |
| Action.FirstReplyNeverEmpty | src/action.rs:139-143 | the empty string is never returned as a reply |
| Action.ReplyIff | src/action.rs:129-150 | a reply `s` is returned iff some action matches, its reaction yields the non-empty `s`, and every earlier action passes the message on |
| Action.SilentActionStops | src/action.rs:137-147 | a matching action without a reaction ends the search with no reply, whatever follows it |
| Action.EmptyMatchersMatchAll | src/action.rs:131-135 | an action with no matchers matches every message |
| Action.FirstReplyAppend | src/action.rs:130-149 | actions that all pass the message on can be dropped from the front; after an action that stops, later actions are never consulted |
| Bot.DefaultSettings | src/main.rs:161-186 | the defaults: `private.key`, `dynamic.toml`, `localhost`, no channel, `SimpleBot`, `Disconnecting`, rate limit 2, prefix `.`, no actions |
| Bot.ReadSettings | src/main.rs:321-330 | an unreadable settings file keeps the current settings; a file that does not parse is an error; otherwise the parsed settings are used |
| Bot.PushDefinitions | src/main.rs:371-373 | the first loop of `load_actions` appends exactly `LoadDefinitions(defs).pushed` and returns its error |
| Bot.LoadActions | src/main.rs:366-382 | `load_actions` appends exactly `LoadFile(base, f).pushed` to the list and returns its error: the file's declarations, then its includes, stopping at the first error and keeping what was pushed before it |
| Bot.PushIncludes | src/main.rs:375-379 | the include loop appends `LoadIncludes(base, incs).pushed` and stops at the first failing include |
| Bot.PushInclude | src/main.rs:376-378 | one include is resolved against `base`, read, parsed, and loaded relative to its own parent directory; a read or parse failure is an error that pushes nothing |
| Bot.DefinitionsComeFirst | src/main.rs:43-46 | when loading succeeds, the file's own declarations come first, one compiled action each, in order, before anything from its includes |
| Bot.DefinitionsCompiled | src/main.rs:371-373 | every pushed action is the compiled declaration at the same position; on an error, the failing declaration is the one right after the pushed prefix and its compile error is the one returned |
| Bot.IncludesInOrder | src/main.rs:375-379 | loading the includes `xs + ys` loads `xs` and then `ys`; `ys` is never looked at when `xs` fails |
| Bot.EscapeBb | src/main.rs:438 | the result is longer by the number of `[` characters, and every `[` in it is preceded by a backslash |
| Bot.EscapeBbRoundTrip | src/main.rs:438 | unescaping `\[` back to `[` recovers the original string |
| Bot.Bot.constructor | src/main.rs:147-159 | a new bot has empty paths, no actions, the default settings, an empty rate-limit window, an empty list, and no pending reload |
| Builtins.AddFun | src/builtins.rs:35-41 | appends one action with a single regex matcher and the callback as its reaction |
| Builtins.Init | src/builtins.rs:15-33 | appends the add, del, reload and quit builtins, in that order, with the prefixed patterns, after the existing actions, which stay unchanged |
| Builtins.BuiltinsShape | src/builtins.rs:16-49 | there are four builtins, each with one regex on the prefixed command and a callback that returns no reply, so each passes every message on |
| Builtins.BuiltinsTransparent | src/builtins.rs:43-105 | placing the builtins anywhere in a list does not change the reply to any message |
| Builtins.ReloadBody | src/builtins.rs:54-86 | the reload task leaves the settings and actions given by `ReloadResult`: no change on a parse error; otherwise the new (or, when unreadable, current) settings and the settings' actions followed by the builtins |
| Builtins.ReloadKeepsStateOnBadSettings | src/builtins.rs:58-76 | a settings file that cannot be parsed aborts the reload and changes nothing; one that cannot be read keeps the current settings |
| Builtins.ReloadOrder | src/builtins.rs:78-86 | after a reload the list is the settings' actions, as far as they loaded, followed by exactly the four builtins; no dynamic actions are loaded |
| Control.LoadSettings | src/main.rs:319-364 | `load_settings` leaves the settings, actions and error given by `LoadSettingsResult` |
| Control.LoadSettingsOnBadSettings | src/main.rs:321-330 | a settings file that cannot be parsed is an error and changes nothing; an unreadable one keeps the current settings |
| Control.LoadSettingsOrder | src/main.rs:332-360 | the new list is the settings' actions, then the four builtins, then the dynamic actions (resolved against the base directory unless absolute); a missing dynamic file adds nothing and is no error |
| Control.LoadedRepliesIgnoreBuiltins | src/main.rs:340-360 | after loading, every message gets the same reply as from the list without the builtins |
| Control.Retain | src/main.rs:397-401 | the window keeps exactly the instants at most one second old; it never grows, and it is unchanged when all instants are recent |
| Control.RetainMultiplicities | src/main.rs:401 | each recent instant keeps all its copies and each older one loses all of them, so the size compared at src/main.rs:402 counts every recent instant with all its copies |
| Control.RetainAppend | src/main.rs:401 | pruning is a filter that keeps order: pruning a concatenation prunes each part |
| Control.RetainAfterQuietSecond | src/main.rs:397-402 | after more than a second without replies the window is empty again, so the rate-limit gate lets the next message through whenever `rate_limit > 0` |
| Control.HandleMessage | src/main.rs:386-433 | one event: skips other events and the bot's own messages, prunes the window, drops the message when the window is full, otherwise replies as the action list does and records the instant; the result is exactly `HandleOne` |
| Control.HandleEvent | src/main.rs:384-436 | the loop over a batch of events sends exactly the replies, and leaves exactly the window, given by `HandleAll` |
| Control.OwnMessagesSkipped | src/main.rs:392-395 | the bot's own messages are neither answered nor counted |
| Control.OneReplyOneInstant | src/main.rs:397-426 | for another client's message the window is pruned; a full window drops the message; otherwise the message is answered iff the action list replies, and the instant is recorded exactly when a reply is sent |
| Control.ZeroLimitSilences | src/main.rs:402-410 | with a rate limit of 0 no message is ever answered |
| Control.ReplyTimes | src/main.rs:425-426 | the instants recorded for the replies of a batch: one per reply, each the clock reading of some event |
| Control.BurstBound | src/main.rs:397-426 | the inductive step of the per-second bound: given a reply log none of whose one-second intervals holds more than `rate_limit` instants, and a window that still holds every logged instant of any second starting no earlier than a second before the last pruning (a premise, not a conclusion), the log extended by the run's reply instants still has no such interval over `rate_limit` |
| Control.AtMostLimitPerSecond | src/main.rs:108-115 | with a clock that never runs backwards, no one-second interval `[lo, lo + 1000]`, sliding or fixed, holds more than `rate_limit` of the window's and the run's reply instants together, whenever the window held at most that many in any second to begin with |
| Control.AtMostLimitPerSecondFromStart | src/main.rs:108-115 | from a new bot's empty window, no one-second interval of one batch's run holds more than `rate_limit` reply instants |
| Control.HandleAllAppend | src/main.rs:292-299 | handling two batches in consecutive event-loop turns, the window carried over, gives the replies and window of handling their concatenation |
| Control.ReplyTimesAppend | src/main.rs:425-426 | the reply instants of two consecutive batches, the window carried over, are those of their concatenation |
| Control.AtMostLimitPerSecondAcrossTurns | src/main.rs:108-115 | across two event-loop turns from a new bot's empty window, with a clock that never runs backwards, no one-second interval, including one spanning both turns, holds more than `rate_limit` reply instants of both |
| Control.AnsweredUpToLimit | src/main.rs:397-426 | when every event is another client's message that the actions answer, all within one second, the replies are exactly the actions' replies to the first `n` events, in order, where `n` is the room left in the window (`rate_limit` minus its size) or the number of events if smaller; the rest are dropped |
| Control.EventLoopStep | src/main.rs:292-299 | one turn of the event loop: handle the batch; if a reload is pending, clear the flag and load the settings; otherwise the settings and actions are unchanged |

## Left out

- Connecting, the identity and key file, channel selection, sending replies, disconnecting and `ctrl_c` (`real_main`, src/main.rs:191-317) are I/O; the replies are returned as values instead of being sent.
- Command-line parsing, the project directory lookup and logging are left out; a logged error is only an ignored return value here.
- TOML deserialisation, the regex engine and path operations are abstract parameters, so `deny_unknown_fields` and the `#[serde(default)]` attributes are not modelled beyond `DefaultSettings`.
- LoadActions: include recursion is bounded by `Env.stackDepth`; files that include each other beyond that depth end with `IncludeTooDeep`, whereas the source recurses until its stack overflows.
- AtMostLimitPerSecondAcrossTurns: covers turns between which no reload changes the actions or the rate limit; after a reload, `AtMostLimitPerSecond` applies again from the window the reload keeps, provided that window respects the new limit.
- HandleEvent: uses one clock reading per event, both for pruning and for the recorded reply instant, whereas the source reads `Instant::now()` again when it records the reply.
- Init: the `unwrap` on compiling the builtin patterns is not modelled; a prefix that makes a builtin pattern invalid would panic in the source.
- The `reload` builtin spawns a task on a `RwLock`ed `Weak` handle and `quit` spawns the disconnect; only the sequential reload body (`ReloadBody`) is modelled, not the spawning, locking or concurrency.
- The `add` and `del` builtins are stubs that return no reply, and they are modelled as such.
- `builtins::init_list`, called at src/main.rs:361, has no definition in src/builtins.rs, so the model does not call it. The `list` field it fills (src/main.rs:135-136, empty after `Bot::new` at src/main.rs:155) is modelled and stays empty.
- Nothing in src/main.rs or src/builtins.rs sets `should_reload` to true; `EventLoopStep` reads the flag as the loop does.
- `Command` and `Shell` reactions are marked TODO in the source and never run a process.
- Message invokers are client ids (`nat`); the rest of a TeamSpeak invoker is left out.
- Event, Reply: the source's `MessageTarget` (src/main.rs:142), which a reply is sent back to at src/main.rs:429, is reduced to its chat mode (`None` for a poke). For a private message or a poke, the model does not record which client the reply is addressed to.
