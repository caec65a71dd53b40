/** The crate-wide result type and the errors the core can raise. */
module Errors {

  datatype Option<+T> = None | Some(value: T)

  type Path = string

  /** Every error the core raises. `ContainsAndMatches`, `InvalidRegex`,
      `InvalidChatMode` and `MultipleReactions` come from compiling a rule
      definition; `ReadFailed`, `ParseFailed`, `SettingsUnparsable` and
      `DynamicLoadFailed` from reading and loading files; `IncludeTooDeep` from
      the bound on include depth that stands in for the stack. */
  datatype Error =
    | ContainsAndMatches(contains: string, matches: string)
    | InvalidRegex(pattern: string)
    | InvalidChatMode(chat: string)
    | MultipleReactions
    | ReadFailed(path: Path)
    | ParseFailed(path: Path)
    | SettingsUnparsable(path: Path)
    | DynamicLoadFailed(cause: Error)
    | IncludeTooDeep(path: Path)

  datatype Result<+T> = Ok(value: T) | Err(error: Error)

  /** Concatenation is associative; stated once so that proofs can cite it
      instead of leaving the solver to rediscover it by extensionality. */
  lemma AppendAssoc<T>(a: seq<T>, b: seq<T>, c: seq<T>)
    ensures a + b + c == a + (b + c)
  {
  }
}
