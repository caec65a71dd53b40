/** What the event loop does with the bot: (re)loading the settings and every
    action list, the rate-limited handling of a batch of events, and the
    deferred reload between batches. */
module Control {
  import opened Errors
  import opened Action
  import opened Bot
  import opened Builtins

  // ---------------------------------------------------------------------------
  // Loading the settings

  /** Where the dynamic actions live: the configured path, resolved against the
      base directory unless it is absolute. */
  function DynamicPath(s: Settings, baseDir: Path, env: Env): Path {
    if env.isAbsolute(s.dynamicActions) then s.dynamicActions else env.join(baseDir, s.dynamicActions)
  }

  /** The bot's settings and actions after `load_settings`, and the error it returns. */
  datatype Reloaded = Reloaded(settings: Settings, actions: seq<Action>, error: Option<Error>)

  /** `load_settings` as a function of the state it reads. */
  function LoadSettingsResult(settings: Settings, actions: seq<Action>, settingsPath: Path, baseDir: Path, env: Env)
    : Reloaded
  {
    match ReadSettings(settingsPath, settings, env)
    case Err(e) => Reloaded(settings, actions, Some(e))
    case Ok(s) =>
      var fixed := LoadFile(baseDir, s.actions, env, env.stackDepth).pushed + BuiltinActions(s.prefix);
      var path := DynamicPath(s, baseDir, env);
      var dynamic := if path in env.files then env.parseActionFile(env.files[path]) else Some(ActionFile([], []));
      match dynamic
      case None => Reloaded(s, fixed, Some(ParseFailed(path)))
      case Some(d) =>
        var l := LoadFile(baseDir, d, env, env.stackDepth);
        Reloaded(s, fixed + l.pushed, if l.error.Some? then Some(DynamicLoadFailed(l.error.value)) else None)
  }

  /** `load_settings`: settings, then the settings' actions, then the builtins, then the dynamic actions. */
  method LoadSettings(bot: Bot, env: Env) returns (err: Option<Error>)
    modifies bot`settings, bot`actions
    ensures Reloaded(bot.settings, bot.actions, err)
      == LoadSettingsResult(old(bot.settings), old(bot.actions), bot.settingsPath, bot.baseDir, env)
  {
    var read := ReadSettings(bot.settingsPath, bot.settings, env);
    if read.Err? {
      return Some(read.error);
    }
    bot.settings := read.value;

    var actions, e := LoadActions(bot.baseDir, [], bot.settings.actions, env, env.stackDepth);
    // a failure is only logged
    assert actions == LoadFile(bot.baseDir, bot.settings.actions, env, env.stackDepth).pushed;

    // builtins before the dynamic actions
    bot.actions := actions;
    Init(bot);

    var path := DynamicPath(bot.settings, bot.baseDir, env);
    var dynamic: ActionFile;
    if path in env.files {
      var parsed := env.parseActionFile(env.files[path]);
      if parsed.None? {
        return Some(ParseFailed(path));
      }
      dynamic := parsed.value;
    } else {
      dynamic := ActionFile([], []);
    }
    bot.actions, e := LoadActions(bot.baseDir, bot.actions, dynamic, env, env.stackDepth);
    if e.Some? {
      return Some(DynamicLoadFailed(e.value));
    }
    return None;
  }

  /** A settings file that cannot be parsed is an error and changes nothing; one
      that cannot be read keeps the current settings and goes on. */
  lemma LoadSettingsOnBadSettings(settings: Settings, actions: seq<Action>, path: Path, baseDir: Path, env: Env)
    ensures path in env.files && env.parseSettings(env.files[path]).None? ==>
      LoadSettingsResult(settings, actions, path, baseDir, env) == Reloaded(settings, actions, Some(SettingsUnparsable(path)))
    ensures path !in env.files ==>
      LoadSettingsResult(settings, actions, path, baseDir, env).settings == settings
  {
  }

  /** Whenever the settings parse, the new list is the settings' actions, then
      the four builtins, then the dynamic actions; a missing dynamic file adds
      nothing and is no error. */
  lemma LoadSettingsOrder(settings: Settings, actions: seq<Action>, path: Path, baseDir: Path, env: Env)
    requires ReadSettings(path, settings, env).Ok?
    ensures var s := ReadSettings(path, settings, env).value;
      var r := LoadSettingsResult(settings, actions, path, baseDir, env);
      var fixed := LoadFile(baseDir, s.actions, env, env.stackDepth).pushed;
      && r.settings == s
      && |r.actions| >= |fixed| + 4
      && r.actions[..|fixed|] == fixed
      && r.actions[|fixed|..|fixed| + 4] == BuiltinActions(s.prefix)
      && (DynamicPath(s, baseDir, env) !in env.files ==> r.actions == fixed + BuiltinActions(s.prefix) && r.error == None)
      && (r.error == None ==> DynamicPath(s, baseDir, env) in env.files ==>
            var d := env.parseActionFile(env.files[DynamicPath(s, baseDir, env)]);
            d.Some? && r.actions[|fixed| + 4..] == LoadFile(baseDir, d.value, env, env.stackDepth).pushed)
  {
    var fixed := LoadFile(baseDir, ReadSettings(path, settings, env).value.actions, env, env.stackDepth).pushed;
    var r := LoadSettingsResult(settings, actions, path, baseDir, env);
    assert |r.actions| >= |fixed| + 4;
    assert r.actions[..|fixed| + 4] == fixed + BuiltinActions(ReadSettings(path, settings, env).value.prefix);
    assert LoadFile(baseDir, ActionFile([], []), env, env.stackDepth) == Loaded([], None);
  }

  // ---------------------------------------------------------------------------
  // Rate limiting

  /** One second on the model's clock, which counts milliseconds. */
  const Second := 1000

  /** `retain(|i| now.duration_since(*i) <= second)`: keeps, in order, the
      instants at most a second old. */
  function Retain(rate: seq<int>, now: int): (kept: seq<int>)
    ensures |kept| <= |rate|
    ensures forall t :: t in kept <==> t in rate && now - t <= Second
    ensures (forall k :: 0 <= k < |rate| ==> now - rate[k] <= Second) ==> kept == rate
    decreases |rate|
  {
    if rate == [] then []
    else if now - rate[0] <= Second then [rate[0]] + Retain(rate[1..], now)
    else Retain(rate[1..], now)
  }

  /** Every recent instant keeps all its copies; every older one loses all of them. */
  lemma {:induction false} RetainMultiplicities(rate: seq<int>, now: int)
    ensures forall t :: multiset(Retain(rate, now))[t] == if now - t <= Second then multiset(rate)[t] else 0
    decreases |rate|
  {
    if rate != [] {
      RetainMultiplicities(rate[1..], now);
      assert rate == [rate[0]] + rate[1..];
      assert multiset(rate) == multiset([rate[0]]) + multiset(rate[1..]);
      var rest := Retain(rate[1..], now);
      assert multiset([rate[0]] + rest) == multiset([rate[0]]) + multiset(rest);
    }
  }

  /** Retaining is a filter: it keeps the order of the window, so pruning a
      concatenation prunes each part. */
  lemma {:induction false} RetainAppend(a: seq<int>, b: seq<int>, now: int)
    ensures Retain(a + b, now) == Retain(a, now) + Retain(b, now)
    decreases |a|
  {
    if a == [] {
      assert a + b == b;
    } else {
      assert (a + b)[0] == a[0];
      assert (a + b)[1..] == a[1..] + b;
      RetainAppend(a[1..], b, now);
    }
  }

  /** When no reply was sent for more than a second, the window is empty again. */
  lemma {:induction false} RetainAfterQuietSecond(rate: seq<int>, now: int)
    requires forall k :: 0 <= k < |rate| ==> now - rate[k] > Second
    ensures Retain(rate, now) == []
    decreases |rate|
  {
    if rate != [] {
      RetainAfterQuietSecond(rate[1..], now);
    }
  }

  /** An incoming event: a text message or poke, or anything else. */
  datatype Event = TextMessage(target: Option<TargetMode>, invoker: nat, text: string) | Other

  /** A reply handed to the connection for sending. */
  datatype Reply = Reply(target: Option<TargetMode>, text: string)

  /** The rate-limit window and the replies sent after some events. */
  datatype Handled = Handled(rate: seq<int>, replies: seq<Reply>)

  /** One event at time `now`: own messages and other events are skipped; a
      message is ignored when the window already holds `limit` replies; a reply
      records `now`. */
  function HandleOne(actions: seq<Action>, limit: nat, own: nat, rate: seq<int>, e: Event, now: int, lib: RegexLib)
    : Handled
  {
    if e.Other? || e.invoker == own then Handled(rate, [])
    else
      var kept := Retain(rate, now);
      if |kept| >= limit then Handled(kept, [])
      else match FirstReply(actions, Message(e.target, e.text), lib)
        case None => Handled(kept, [])
        case Some(s) => Handled(kept + [now], [Reply(e.target, s)])
  }

  /** A batch of events, in order; `times[i]` is the clock when event `i` is handled. */
  function HandleAll(actions: seq<Action>, limit: nat, own: nat, rate: seq<int>, events: seq<Event>, times: seq<int>, lib: RegexLib)
    : Handled
    requires |times| == |events|
    decreases |events|
  {
    if events == [] then Handled(rate, [])
    else
      var first := HandleOne(actions, limit, own, rate, events[0], times[0], lib);
      var rest := HandleAll(actions, limit, own, first.rate, events[1..], times[1..], lib);
      Handled(rest.rate, first.replies + rest.replies)
  }

  /** The body of the event loop of `handle_event` for one event at time `now`. */
  method HandleMessage(bot: Bot, e: Event, now: int, own: nat, lib: RegexLib) returns (sent: seq<Reply>)
    modifies bot`rateLimiting
    ensures Handled(bot.rateLimiting, sent)
      == HandleOne(bot.actions, bot.settings.rateLimit, own, old(bot.rateLimiting), e, now, lib)
  {
    sent := [];
    if e.TextMessage? {
      // ignore messages from ourself
      if e.invoker == own {
        return;
      }
      bot.rateLimiting := Retain(bot.rateLimiting, now);
      if |bot.rateLimiting| >= bot.settings.rateLimit as int {
        return;
      }
      var response := Handle(bot.actions, Message(e.target, e.text), lib);
      if response.Some? {
        bot.rateLimiting := bot.rateLimiting + [now];
        sent := [Reply(e.target, response.value)];
      }
    }
  }

  /** `handle_event`: for each message that is not the bot's own, prune the window,
      drop the message if the window is full, otherwise evaluate the actions and
      record the instant of each reply. */
  method HandleEvent(bot: Bot, events: seq<Event>, times: seq<int>, own: nat, lib: RegexLib)
    returns (sent: seq<Reply>)
    requires |times| == |events|
    modifies bot`rateLimiting
    ensures Handled(bot.rateLimiting, sent)
      == HandleAll(bot.actions, bot.settings.rateLimit, own, old(bot.rateLimiting), events, times, lib)
  {
    sent := [];
    ghost var actions, limit := bot.actions, bot.settings.rateLimit as nat;
    ghost var whole := HandleAll(actions, limit, own, bot.rateLimiting, events, times, lib);
    for i := 0 to |events|
      invariant var rest := HandleAll(actions, limit, own, bot.rateLimiting, events[i..], times[i..], lib);
        whole == Handled(rest.rate, sent + rest.replies)
    {
      ghost var rate, before := bot.rateLimiting, sent;
      var one := HandleMessage(bot, events[i], times[i], own, lib);
      sent := sent + one;
      HandleAllUnfold(actions, limit, own, rate, events, times, i, lib);
      ghost var rest := HandleAll(actions, limit, own, bot.rateLimiting, events[i + 1..], times[i + 1..], lib);
      AppendAssoc(before, one, rest.replies);
    }
    assert events[|events|..] == [];
    assert sent + [] == sent;
  }

  /** `HandleAll` from event `i` on is event `i`, then the rest. */
  lemma HandleAllUnfold(actions: seq<Action>, limit: nat, own: nat, rate: seq<int>,
                        events: seq<Event>, times: seq<int>, i: nat, lib: RegexLib)
    requires |times| == |events| && i < |events|
    ensures var first := HandleOne(actions, limit, own, rate, events[i], times[i], lib);
      var rest := HandleAll(actions, limit, own, first.rate, events[i + 1..], times[i + 1..], lib);
      HandleAll(actions, limit, own, rate, events[i..], times[i..], lib) == Handled(rest.rate, first.replies + rest.replies)
  {
    assert events[i..][1..] == events[i + 1..] && times[i..][1..] == times[i + 1..];
  }

  // ---------------------------------------------------------------------------
  // Properties of rate limiting

  /** A message from the bot itself changes nothing and is not answered. */
  lemma OwnMessagesSkipped(actions: seq<Action>, limit: nat, own: nat, rate: seq<int>, e: Event, now: int, lib: RegexLib)
    requires e.TextMessage? && e.invoker == own
    ensures HandleOne(actions, limit, own, rate, e, now, lib) == Handled(rate, [])
  {
  }

  /** For another client's message the window is pruned; the instant is recorded
      exactly when a reply is sent, and a reply needs room in the window. */
  lemma OneReplyOneInstant(actions: seq<Action>, limit: nat, own: nat, rate: seq<int>, e: Event, now: int, lib: RegexLib)
    requires e.TextMessage? && e.invoker != own
    ensures var h := HandleOne(actions, limit, own, rate, e, now, lib);
      && |h.replies| <= 1
      && h.rate == Retain(rate, now) + (if h.replies == [] then [] else [now])
      && (|Retain(rate, now)| >= limit ==> h.replies == [])
      && (|Retain(rate, now)| < limit ==>
            (h.replies != [] <==> FirstReply(actions, Message(e.target, e.text), lib).Some?))
  {
  }

  /** A limit of zero ignores every message. */
  lemma {:induction false} ZeroLimitSilences(actions: seq<Action>, own: nat, rate: seq<int>, events: seq<Event>, times: seq<int>, lib: RegexLib)
    requires |times| == |events|
    ensures HandleAll(actions, 0, own, rate, events, times, lib).replies == []
    decreases |events|
  {
    if events != [] {
      var first := HandleOne(actions, 0, own, rate, events[0], times[0], lib);
      ZeroLimitSilences(actions, own, first.rate, events[1..], times[1..], lib);
    }
  }

  /** The instants at which the replies of a batch are sent, in order. */
  function ReplyTimes(actions: seq<Action>, limit: nat, own: nat, rate: seq<int>, events: seq<Event>, times: seq<int>, lib: RegexLib)
    : (ts: seq<int>)
    requires |times| == |events|
    ensures |ts| == |HandleAll(actions, limit, own, rate, events, times, lib).replies|
    ensures forall k :: 0 <= k < |ts| ==> ts[k] in times
    decreases |events|
  {
    if events == [] then []
    else
      var first := HandleOne(actions, limit, own, rate, events[0], times[0], lib);
      var rest := ReplyTimes(actions, limit, own, first.rate, events[1..], times[1..], lib);
      assert forall k :: 0 <= k < |rest| ==> rest[k] in times by {
        forall k | 0 <= k < |rest| ensures rest[k] in times {
          var j :| 0 <= j < |times[1..]| && times[1..][j] == rest[k];
          assert times[j + 1] == rest[k];
        }
      }
      (if first.replies == [] then [] else [times[0]]) + rest
  }

  /** How many of the instants `s` fall in the second `[lo, lo + Second]`. */
  function Burst(s: seq<int>, lo: int): nat
    decreases |s|
  {
    if s == [] then 0 else (if lo <= s[0] <= lo + Second then 1 else 0) + Burst(s[1..], lo)
  }

  lemma {:induction false} BurstAppend(a: seq<int>, b: seq<int>, lo: int)
    ensures Burst(a + b, lo) == Burst(a, lo) + Burst(b, lo)
    decreases |a|
  {
    if a == [] {
      assert a + b == b;
    } else {
      assert (a + b)[1..] == a[1..] + b;
      BurstAppend(a[1..], b, lo);
    }
  }

  lemma {:induction false} BurstAtMostSize(s: seq<int>, lo: int)
    ensures Burst(s, lo) <= |s|
    decreases |s|
  {
    if s != [] {
      BurstAtMostSize(s[1..], lo);
    }
  }

  /** Pruning at `now` drops no instant of a second that starts at `now - Second` or later. */
  lemma {:induction false} RetainKeepsLastSecond(rate: seq<int>, now: int, lo: int)
    requires now - Second <= lo
    ensures Burst(Retain(rate, now), lo) == Burst(rate, lo)
    decreases |rate|
  {
    if rate != [] {
      RetainKeepsLastSecond(rate[1..], now, lo);
    }
  }

  /** Pruning at a later instant `now` keeps the invariant's second half, now for `p := now`. */
  lemma PruneKeepsLastSecond(log: seq<int>, w: seq<int>, p: int, now: int)
    requires p <= now
    requires forall lo :: p - Second <= lo ==> Burst(log, lo) <= Burst(w, lo)
    ensures forall lo :: now - Second <= lo ==> Burst(log, lo) <= Burst(Retain(w, now), lo)
  {
    forall lo | now - Second <= lo ensures Burst(log, lo) <= Burst(Retain(w, now), lo) {
      RetainKeepsLastSecond(w, now, lo);
    }
  }

  /** Recording a reply at `now` while the pruned window has room keeps the invariant. */
  lemma PushKeepsBound(log: seq<int>, kept: seq<int>, now: int, limit: nat)
    requires |kept| < limit
    requires forall lo :: Burst(log, lo) <= limit
    requires forall lo :: now - Second <= lo ==> Burst(log, lo) <= Burst(kept, lo)
    ensures forall lo :: Burst(log + [now], lo) <= limit
    ensures forall lo :: now - Second <= lo ==> Burst(log + [now], lo) <= Burst(kept + [now], lo)
  {
    forall lo ensures Burst(log + [now], lo) <= limit {
      BurstAppend(log, [now], lo);
      if lo <= now <= lo + Second {
        BurstAtMostSize(kept, lo);
      }
    }
    forall lo | now - Second <= lo ensures Burst(log + [now], lo) <= Burst(kept + [now], lo) {
      BurstAppend(log, [now], lo);
      BurstAppend(kept, [now], lo);
    }
  }

  /** One event keeps the invariant of `BurstBound`: `log` grows by the reply
      instant, if any, the window becomes the new one, and `p` moves to `now`
      when the window was pruned. */
  lemma StepKeepsBound(actions: seq<Action>, limit: nat, own: nat, log: seq<int>, w: seq<int>, p: int,
                       e: Event, now: int, lib: RegexLib) returns (log': seq<int>, p': int)
    requires p <= now
    requires forall lo :: Burst(log, lo) <= limit
    requires forall lo :: p - Second <= lo ==> Burst(log, lo) <= Burst(w, lo)
    ensures var first := HandleOne(actions, limit, own, w, e, now, lib);
      log' == log + (if first.replies == [] then [] else [now])
    ensures p' <= now
    ensures forall lo :: Burst(log', lo) <= limit
    ensures forall lo :: p' - Second <= lo ==>
      Burst(log', lo) <= Burst(HandleOne(actions, limit, own, w, e, now, lib).rate, lo)
  {
    var first := HandleOne(actions, limit, own, w, e, now, lib);
    log' := log + (if first.replies == [] then [] else [now]);
    assert log + [] == log;
    if e.Other? || e.invoker == own {
      return log', p;
    }
    var kept := Retain(w, now);
    PruneKeepsLastSecond(log, w, p, now);
    if first.replies != [] {
      assert |kept| < limit && first.rate == kept + [now];
      PushKeepsBound(log, kept, now, limit);
    }
    return log', now;
  }

  /** The invariant behind the per-second bound. `log` holds every reply instant
      so far, `w` is the window and `p` the instant it was last pruned at: no
      second of `log` holds more than `limit` instants, and every instant of
      `log` in a second that starts at `p - Second` or later is still in `w`. */
  lemma {:induction false} BurstBound(actions: seq<Action>, limit: nat, own: nat, log: seq<int>, w: seq<int>, p: int,
                                      events: seq<Event>, times: seq<int>, lib: RegexLib)
    requires |times| == |events|
    requires forall i, j :: 0 <= i <= j < |times| ==> times[i] <= times[j]
    requires times != [] ==> p <= times[0]
    requires forall lo :: Burst(log, lo) <= limit
    requires forall lo :: p - Second <= lo ==> Burst(log, lo) <= Burst(w, lo)
    ensures forall lo :: Burst(log + ReplyTimes(actions, limit, own, w, events, times, lib), lo) <= limit
    decreases |events|
  {
    if events == [] {
      assert log + [] == log;
      return;
    }
    var now := times[0];
    var first := HandleOne(actions, limit, own, w, events[0], now, lib);
    var here := if first.replies == [] then [] else [now];
    var rest := ReplyTimes(actions, limit, own, first.rate, events[1..], times[1..], lib);
    assert ReplyTimes(actions, limit, own, w, events, times, lib) == here + rest;
    SortedTail(times);
    var log', p' := StepKeepsBound(actions, limit, own, log, w, p, events[0], now, lib);
    assert times[1..] != [] ==> p' <= times[1..][0];
    BurstBound(actions, limit, own, log', first.rate, p', events[1..], times[1..], lib);
    AppendAssoc(log, here, rest);
  }

  /** The clock readings after the first are still in order, and come no earlier than it. */
  lemma SortedTail(times: seq<int>)
    requires times != []
    requires forall i, j :: 0 <= i <= j < |times| ==> times[i] <= times[j]
    ensures forall i, j :: 0 <= i <= j < |times[1..]| ==> times[1..][i] <= times[1..][j]
    ensures times[1..] != [] ==> times[0] <= times[1..][0]
  {
    forall i, j | 0 <= i <= j < |times[1..]| ensures times[1..][i] <= times[1..][j] {
      assert times[1..][i] == times[i + 1] && times[1..][j] == times[j + 1];
    }
  }

  /** At most `limit` replies per second. With the clock never running backwards,
      and starting from a window that holds no more than `limit` instants in any
      one second (a new bot's empty window, say), no second of the run, sliding
      or not, sees more than `limit` of those instants and reply instants together. */
  lemma AtMostLimitPerSecond(actions: seq<Action>, limit: nat, own: nat, rate: seq<int>,
                             events: seq<Event>, times: seq<int>, lib: RegexLib)
    requires |times| == |events|
    requires forall i, j :: 0 <= i <= j < |times| ==> times[i] <= times[j]
    requires forall lo :: Burst(rate, lo) <= limit
    ensures forall lo :: Burst(rate + ReplyTimes(actions, limit, own, rate, events, times, lib), lo) <= limit
  {
    var p := if times == [] then 0 else times[0];
    BurstBound(actions, limit, own, rate, rate, p, events, times, lib);
  }

  /** Handling two batches in a row, the window carried over, is handling their concatenation. */
  lemma {:induction false} HandleAllAppend(actions: seq<Action>, limit: nat, own: nat, rate: seq<int>,
                                           e1: seq<Event>, t1: seq<int>, e2: seq<Event>, t2: seq<int>, lib: RegexLib)
    requires |t1| == |e1| && |t2| == |e2|
    ensures var h1 := HandleAll(actions, limit, own, rate, e1, t1, lib);
      var h2 := HandleAll(actions, limit, own, h1.rate, e2, t2, lib);
      HandleAll(actions, limit, own, rate, e1 + e2, t1 + t2, lib) == Handled(h2.rate, h1.replies + h2.replies)
    decreases |e1|
  {
    if e1 == [] {
      assert e1 + e2 == e2 && t1 + t2 == t2;
    } else {
      assert (e1 + e2)[0] == e1[0] && (t1 + t2)[0] == t1[0];
      assert (e1 + e2)[1..] == e1[1..] + e2 && (t1 + t2)[1..] == t1[1..] + t2;
      var first := HandleOne(actions, limit, own, rate, e1[0], t1[0], lib);
      HandleAllAppend(actions, limit, own, first.rate, e1[1..], t1[1..], e2, t2, lib);
      var rest1 := HandleAll(actions, limit, own, first.rate, e1[1..], t1[1..], lib);
      var h2 := HandleAll(actions, limit, own, rest1.rate, e2, t2, lib);
      AppendAssoc(first.replies, rest1.replies, h2.replies);
    }
  }

  /** The reply instants of two batches in a row are those of their concatenation. */
  lemma {:induction false} ReplyTimesAppend(actions: seq<Action>, limit: nat, own: nat, rate: seq<int>,
                                            e1: seq<Event>, t1: seq<int>, e2: seq<Event>, t2: seq<int>, lib: RegexLib)
    requires |t1| == |e1| && |t2| == |e2|
    ensures var w := HandleAll(actions, limit, own, rate, e1, t1, lib).rate;
      ReplyTimes(actions, limit, own, rate, e1 + e2, t1 + t2, lib)
        == ReplyTimes(actions, limit, own, rate, e1, t1, lib) + ReplyTimes(actions, limit, own, w, e2, t2, lib)
    decreases |e1|
  {
    if e1 == [] {
      assert e1 + e2 == e2 && t1 + t2 == t2;
    } else {
      assert (e1 + e2)[0] == e1[0] && (t1 + t2)[0] == t1[0];
      assert (e1 + e2)[1..] == e1[1..] + e2 && (t1 + t2)[1..] == t1[1..] + t2;
      var first := HandleOne(actions, limit, own, rate, e1[0], t1[0], lib);
      ReplyTimesAppend(actions, limit, own, first.rate, e1[1..], t1[1..], e2, t2, lib);
      var here := if first.replies == [] then [] else [t1[0]];
      var rest1 := ReplyTimes(actions, limit, own, first.rate, e1[1..], t1[1..], lib);
      var w := HandleAll(actions, limit, own, first.rate, e1[1..], t1[1..], lib).rate;
      AppendAssoc(here, rest1, ReplyTimes(actions, limit, own, w, e2, t2, lib));
    }
  }

  /** The bound across event-loop turns: when a second batch is handled after a
      first, with the window the first left behind, no one-second interval,
      including one that spans the two turns, holds more than `limit` reply
      instants of both. Applied again, it covers any number of turns. */
  lemma AtMostLimitPerSecondAcrossTurns(actions: seq<Action>, limit: nat, own: nat,
                                        e1: seq<Event>, t1: seq<int>, e2: seq<Event>, t2: seq<int>, lib: RegexLib, lo: int)
    requires |t1| == |e1| && |t2| == |e2|
    requires forall i, j :: 0 <= i <= j < |t1 + t2| ==> (t1 + t2)[i] <= (t1 + t2)[j]
    ensures var w := HandleAll(actions, limit, own, [], e1, t1, lib).rate;
      Burst(ReplyTimes(actions, limit, own, [], e1, t1, lib) + ReplyTimes(actions, limit, own, w, e2, t2, lib), lo) <= limit
  {
    ReplyTimesAppend(actions, limit, own, [], e1, t1, e2, t2, lib);
    AtMostLimitPerSecondFromStart(actions, limit, own, e1 + e2, t1 + t2, lib, lo);
  }

  /** The same bound for a new bot, whose window starts empty. */
  lemma AtMostLimitPerSecondFromStart(actions: seq<Action>, limit: nat, own: nat,
                                      events: seq<Event>, times: seq<int>, lib: RegexLib, lo: int)
    requires |times| == |events|
    requires forall i, j :: 0 <= i <= j < |times| ==> times[i] <= times[j]
    ensures Burst(ReplyTimes(actions, limit, own, [], events, times, lib), lo) <= limit
  {
    AtMostLimitPerSecond(actions, limit, own, [], events, times, lib);
    assert [] + ReplyTimes(actions, limit, own, [], events, times, lib) == ReplyTimes(actions, limit, own, [], events, times, lib);
  }

  /** The reply the actions give to a message event. */
  function Answer(actions: seq<Action>, e: Event, lib: RegexLib): Reply
    requires e.TextMessage? && FirstReply(actions, Message(e.target, e.text), lib).Some?
  {
    Reply(e.target, FirstReply(actions, Message(e.target, e.text), lib).value)
  }

  /** If every event is another client's message that the actions answer, all
      within one second, the first `limit - |rate|` are answered, in order, and
      the rest dropped. */
  lemma {:induction false} AnsweredUpToLimit(actions: seq<Action>, limit: nat, own: nat, rate: seq<int>,
                                             events: seq<Event>, times: seq<int>, t0: int, lib: RegexLib)
    requires |times| == |events|
    requires |rate| <= limit
    requires forall k :: 0 <= k < |rate| ==> t0 <= rate[k]
    requires forall k :: 0 <= k < |times| ==> t0 <= times[k] <= t0 + Second
    requires forall k :: 0 <= k < |events| ==>
      events[k].TextMessage? && events[k].invoker != own
      && FirstReply(actions, Message(events[k].target, events[k].text), lib).Some?
    ensures var h := HandleAll(actions, limit, own, rate, events, times, lib);
      var n := if |events| <= limit - |rate| then |events| else limit - |rate|;
      && |h.replies| == n
      && forall i :: 0 <= i < n ==> h.replies[i] == Answer(actions, events[i], lib)
    decreases |events|
  {
    if events != [] {
      var first := HandleOne(actions, limit, own, rate, events[0], times[0], lib);
      assert Retain(rate, times[0]) == rate;
      assert forall k :: 0 <= k < |first.rate| ==> t0 <= first.rate[k] by {
        forall k | 0 <= k < |first.rate| ensures t0 <= first.rate[k] {
          if k >= |rate| {
            assert first.rate[k] == times[0];
          } else {
            assert first.rate[k] == rate[k];
          }
        }
      }
      assert forall k :: 0 <= k < |events[1..]| ==> events[1..][k] == events[k + 1];
      AnsweredUpToLimit(actions, limit, own, first.rate, events[1..], times[1..], t0, lib);
    }
  }

  // ---------------------------------------------------------------------------
  // The event loop

  /** One turn of the event loop: handle the batch, then, if a reload was asked
      for, clear the flag and reload the settings (a failure is only logged). */
  method EventLoopStep(bot: Bot, events: seq<Event>, times: seq<int>, own: nat, env: Env)
    returns (sent: seq<Reply>, reloadError: Option<Error>)
    requires |times| == |events|
    modifies bot`rateLimiting, bot`shouldReload, bot`settings, bot`actions
    ensures Handled(bot.rateLimiting, sent)
      == HandleAll(old(bot.actions), old(bot.settings).rateLimit, own, old(bot.rateLimiting), events, times, env.regex)
    ensures !bot.shouldReload
    ensures old(bot.shouldReload) ==>
      Reloaded(bot.settings, bot.actions, reloadError)
        == LoadSettingsResult(old(bot.settings), old(bot.actions), bot.settingsPath, bot.baseDir, env)
    ensures !old(bot.shouldReload) ==>
      bot.settings == old(bot.settings) && bot.actions == old(bot.actions) && reloadError == None
  {
    sent := HandleEvent(bot, events, times, own, env.regex);
    reloadError := None;
    if bot.shouldReload {
      bot.shouldReload := false;
      reloadError := LoadSettings(bot, env);
    }
  }

  /** With the builtins of this version, the reply to a message after loading is
      the reply of the settings' and dynamic actions alone. */
  lemma LoadedRepliesIgnoreBuiltins(settings: Settings, actions: seq<Action>, path: Path, baseDir: Path, env: Env, msg: Message)
    requires ReadSettings(path, settings, env).Ok?
    ensures var s := ReadSettings(path, settings, env).value;
      var r := LoadSettingsResult(settings, actions, path, baseDir, env).actions;
      var fixed := LoadFile(baseDir, s.actions, env, env.stackDepth).pushed;
      FirstReply(r, msg, env.regex) == FirstReply(fixed + r[|fixed| + 4..], msg, env.regex)
  {
    var s := ReadSettings(path, settings, env).value;
    var r := LoadSettingsResult(settings, actions, path, baseDir, env).actions;
    var fixed := LoadFile(baseDir, s.actions, env, env.stackDepth).pushed;
    LoadSettingsOrder(settings, actions, path, baseDir, env);
    assert r == fixed + BuiltinActions(s.prefix) + r[|fixed| + 4..];
    BuiltinsTransparent(fixed, s.prefix, r[|fixed| + 4..], msg, env.regex);
  }
}
