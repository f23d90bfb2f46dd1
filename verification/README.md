# libgetarg argument engine in Dafny

This project models the argument-resolution and dispatch engine of libgetarg
(`getarg.c`). `getarg` takes the process's argument vector and an option table
terminated by a sentinel entry. It skips the program name. Each token that
starts with a dash is resolved to an option descriptor. A token can be a long
option (`--name`), a single short option (`-c`) or a cluster of short options
(`-abc`). The engine dispatches on the option's kind (`HELP`, `LIST_ARG`,
`NO_ARG`, `SINGLE_ARG`) and calls its handler. It then skips the tokens the
handler consumed. Every other token is collected as a positional argument.
The positional arguments are handed once to the sentinel's handler, the
catch-all.

Handlers are C function pointers whose bodies are not visible. The model passes
one opaque predicate, `accepts: Invocation -> bool`, to every operation. It
decides whether a given handler call succeeds. Every operation returns the
trace of calls it made, so call order can be stated, and so can the fact that
nothing else is called.

Files and modules:

- `wrappers.dfy` (`Wrappers`): `Option` (a nullable pointer) and `Result`.
- `options.dfy` (`Options`): `struct option` as `Descriptor`, with the four
  option kinds, handler invocations and the sentinel test.
- `index.dfy` (`Index`): `init`. It builds the short-name table and the
  long-name index, and it picks the catch-all.
- `apply.dfy` (`Apply`): `apply_list_arg`, `apply_single_arg`, `apply_opt` and
  `apply_opt_queue`.
- `parse.dfy` (`Parse`): `parse_opt`, `parse_short_opt` (with cluster
  resolution) and `parse_long_opt`/`long_opt_find`.
- `driver.dfy` (`Driver`): the `getarg` loop. `Scan` and `Run` give its meaning
  recursively. `Walk` and `Getarg` are the loop as the C code writes it, and
  they are proved equal to `Scan` and `Run`.
- `scenarios.dfy` (`Scenarios`): concrete sessions over a small table.

Strings stand for C strings, one `char` per byte, with no NUL inside.
A descriptor with no long name has `longName == None`. A descriptor with no
short name has `shortName == '\0'`.

## Model

| member | source | states |
|---|---|---|
| Index.SentinelPos | getarg.c:135-138 | The table scan stops at the first entry that has neither a long name nor a short name. No earlier entry is a sentinel. |
| Index.Init | getarg.c:135-148 | The catch-all is the handler of the first sentinel. The NUL character is never registered as a short name. |
| Index.RegisterIsLast | getarg.c:138-145 | Registering the entries in table order stores a key exactly when some entry carries it, under the last such entry. This equals a backwards search of the table. |
| Index.ShortNameFindsLastEntry | getarg.c:142-144 | After `init`, `-c` finds an entry exactly when some entry before the sentinel has short name `c`. It finds the last such entry, so a later duplicate silently replaces an earlier one. |
| Index.LongNameFindsLastEntry | getarg.c:139-141 | After `init`, `--name` finds an entry exactly when some entry before the sentinel has long name `name` exactly. No prefix or extension of the name matches. |
| Index.CatchAllIsFirstSentinel | getarg.c:146 | The catch-all is the first sentinel's handler, and entries after that sentinel are never registered. |
| Index.UniqueNamesResolveToOwner | getarg.c:135-148 | If no two entries share a name, every registered short or long name resolves to its own entry. An entry with both forms is reached by either. |
| Apply.ListRunLength | getarg.c:38-42 | The count is the length of the longest run of leading tokens that do not start with a dash. |
| Apply.ApplySingleArg | getarg.c:96-112 | With a following token, exactly that token is consumed and passed on, whatever its first character. With none, a required option fails with nothing called. An optional one calls its handler with no arguments and consumes 0. Consumption accounting holds throughout. |
| Apply.ApplyListArg | getarg.c:36-48 | The handler receives exactly the longest dash-free run of following tokens, and that run's length is the count consumed. An empty run fails exactly for a required option. |
| Apply.ApplyOpt | getarg.c:50-84 | A NULL descriptor fails as an unknown option and calls nothing. A resolved one never fails as unknown. `NO_ARG` calls its handler with no arguments and consumes 0. `HELP` ends in the help screen. List and single options see only the tokens after the option token. A handler failure becomes a failure. A missing argument is reported exactly for a required list option whose next token is absent or starts with a dash, and for a required single option with no next token. |
| Apply.ApplyOptIgnoresOptionToken | getarg.c:60-68 | Once the descriptor is known, the option token's own text does not affect dispatch. |
| Apply.ApplyQueue | getarg.c:86-94 | Queued handlers are called left to right with no arguments and stop at the first failure. Success means every handler accepted, and the trace is then the full queue. |
| Parse.ResolveCluster | getarg.c:189-197 | Every cluster character is resolved before any handler runs. Resolution succeeds exactly when no character is unknown or names a required list option. Otherwise the first such character decides the failure. |
| Parse.ParseShortOpt | getarg.c:182-217 | `-c` is `apply_opt` on the entry registered for `c`, so a registered `c` is never reported unknown and an unregistered one is. A cluster with an unresolvable character calls no handler, and the first bad character decides the failure. Otherwise the calls are the characters' handlers, in order, with no arguments. They stop at the first rejecting handler, which is the last call. Success means none rejected, with nothing consumed after the token. |
| Parse.ParseLongOpt | getarg.c:161-173 | The two dashes are stripped and the rest is handed to `apply_opt` through the long-name lookup. An unregistered name fails as unknown with nothing called. A registered name is never reported unknown, and it is dispatched with consumption accounting. A bare `--` is left unspecified. |
| Parse.ParseOpt | getarg.c:175-180 | A second dash routes the token to the long-option parser, and anything else routes it to the short-option parser. A dispatched option consumes fewer tokens than remain, calls only option handlers, and gives every call exactly the consumed tokens. Its outcome is unspecified exactly for `-` and `--`. |
| Parse.RegisteredLongNameDispatched | getarg.c:161-178 | After `init`, `--name` for a registered non-empty name dispatches the entry whose long name is exactly `name`. It is never reported unknown. |
| Parse.RegisteredShortNameDispatched | getarg.c:177-188 | After `init`, `-c` for a registered `c` other than `-` dispatches the entry whose short name is `c`. It is never reported unknown. |
| Parse.SingleArgSwallowsDashToken | getarg.c:105-107 | A single-argument option takes the next token even when that token starts with a dash. |
| Parse.RequiredSingleRunsInCluster | getarg.c:194 | A required single-argument option in a cluster is not rejected. Its handler is called with no arguments. |
| Driver.Scan | getarg.c:226-240 | The walk calls only option handlers. Every positional token is free of a leading dash, and a stop is never a consumption. |
| Driver.ScanOption | getarg.c:227-234 | An option token contributes its step's calls and skips exactly the tokens it consumed. A failed step stops the walk. |
| Driver.StopExit | getarg.c:228-229 | Every failure, whatever its reason, gives return code 1. The help screen ends the process exactly when no entry before the sentinel lacks a long name, since `strlen` of a missing long name is undefined (NULL `%s` arguments are treated as printable, see "Left out"). That case, and `-` and `--`, have an undefined outcome. |
| Driver.Run | getarg.c:219-262 | The return code is 0 or 1. A stopped walk ends as `StopExit` of its step, with the walk's calls. A finished walk keeps the walk's calls and appends exactly one catch-all call when there are positional arguments and a catch-all exists. The session returns 0 exactly when the walk finishes and either no positional argument was collected or the catch-all exists and accepts them. The help screen ends the process only when every entry has a long name. Only the last call can be the catch-all, on a non-empty positional list and the whole table, and its result decides the code. |
| Driver.Walk | getarg.c:226-240 | The C loop over tokens, advancing past each option token and its consumed count, computes the same result as `Scan`. |
| Driver.Getarg | getarg.c:219-262 | The C driver computes the same exit and trace as `Run`. |
| Driver.PositionalIsSubsequence | getarg.c:236-239 | Positional arguments are drawn from the tokens, in their original order. |
| Driver.FlagsLeaveAllOtherTokens | getarg.c:226-240 | When every option consumes nothing, the walk finishes and the positional list is exactly the tokens without a leading dash, in order. |
| Driver.NoOptionsAllPositional | getarg.c:236-239 | Without dash tokens every token is positional and no handler runs. |
| Driver.ProgramNameIgnored | getarg.c:226 | `argv[0]` never affects the session. |
| Driver.CatchAllCalledOnce | getarg.c:241-249 | The catch-all runs exactly once, on the whole positional list, when the walk finishes with a non-empty list and a catch-all exists. Otherwise it never runs. |
| Driver.FailureReturnsOne | getarg.c:257-261 | Any failed step returns 1, and the catch-all is never called. |
| Driver.MissingCatchAll | getarg.c:242-245 | Without a catch-all, the session returns 1 if there are positional arguments and 0 otherwise. |
| Driver.FlagTokenStep | getarg.c:62-65 | A flag token `-c` calls its handler with no arguments. On success the walk continues with the next token. |
| Driver.SeparateFlagsRunAsQueue | getarg.c:86-94 | Separate flag tokens behave like the application queue of a cluster of the same flags. |
| Driver.ClusterActsAsSeparateFlags | getarg.c:186-201 | A cluster of flags is equivalent to the same flags as separate tokens: the same calls in the same order, the same outcome, and the same rest of the session. |
| Scenarios.ListStopsAtNextOption | getarg.c:36-48 | `--list f1 f2 -x` gives the list handler `f1 f2`, consumes 2 and leaves `-x`. |
| Scenarios.SharedPrefixNamesAreDistinct | getarg.c:161-168 | `list` and `list-all` resolve independently, and their prefixes resolve to nothing. |
| Scenarios.OptionalSingleTakesFollowingOption | getarg.c:96-107 | `--opt -x` for an optional single option passes `-x` and consumes it. |
| Scenarios.RequiredSingleLastFails | getarg.c:98-100 | A required single option given last makes the session return 1 with nothing called. |
| Scenarios.PositionalAroundFlag | getarg.c:236-246 | `a --enable-a b` calls the flag, then the catch-all with `a b`. |
| Scenarios.DuplicateShortNameOverwrites | getarg.c:144 | Two entries with one short name do not fail `init`. The later entry wins. |
| Scenarios.HelpEndsSession | getarg.c:55-57 | `-h` on a table whose entries all have long names ends in the help screen with no handler call in the trace. |
| Scenarios.HelpWithShortOnlyEntryIsUndefined | getarg.c:264-272 | `-h` on a table with an entry that has no long name is undefined. |

## Behaviour of the code worth knowing

These points follow from the code alone, and a lemma pins down each:

- A single-argument option takes the next token even when it starts with a
  dash. The dash check after the `switch` in `apply_opt` (getarg.c:71-79)
  cannot be reached, because every case returns. That unreachable check is the
  only sign in the code that a dash token was meant to be refused. See
  `Parse.SingleArgSwallowsDashToken` and
  `Scenarios.OptionalSingleTakesFollowingOption`.
- A cluster rejects only required list options (getarg.c:194). A required
  single-argument option in a cluster is called with no arguments. See
  `Parse.RequiredSingleRunsInCluster`.
- A repeated short name is not an error: `init` stores each entry in
  `short_opts` under its character (getarg.c:144), so the later entry replaces
  the earlier one. See `Index.ShortNameFindsLastEntry` and
  `Scenarios.DuplicateShortNameOverwrites`.
- The failures stay distinct inside the engine (the `Failure` reasons), but
  `getarg` returns 1 for all of them. See `Driver.StopExit` and
  `Driver.FailureReturnsOne`.
- The header's enum has no `GETARG_SINGLE_ARG`, but `apply_opt` switches on
  it. The model has four kinds.

## Left out

- Help rendering (`getarg_help_opt`, `help_opt_elem`) prints and then calls
  `exit(0)`. A `HELP` dispatch is the terminal step `HelpShown`. It gives the
  exit `HelpExited` when every entry before the sentinel has a long name.
  Otherwise it gives `Undefined`, because the help screen calls `strlen` on
  every long name (getarg.c:271-272) and C leaves that undefined for NULL. The
  printed text itself is not modelled. The help screen's two calls of the help handler are not in the
  trace. Inside a cluster, a help option's handler is called with no
  arguments, as the code does.
- The prefix-tree library (`sctrie_*`) is not part of this model. The long
  index is a map from name to descriptor. Two assumptions follow: a repeated
  long name replaces the earlier entry, and a prefix of a registered name finds
  nothing. The outcome of a bare `--` depends on that library and is
  `Unspecified`.
- A lone `-` token makes `parse_short_opt` read past the end of the string,
  which C leaves undefined. It gives `Unspecified` and the exit `Undefined`.
  This is used instead of a precondition, so a `-` consumed as an option
  argument is still modelled.
- `init` cannot fail in the model. The allocation failure of the prefix tree
  (getarg.c:155-156) is memory management, like every `malloc`, `realloc` and
  `free`. The unchecked allocations are also left out.
- A NULL string passed to a `%s` conversion is treated as ordinary printing, as
  common C libraries print `(null)`. This covers the missing-argument
  diagnostic for an entry without a long name (getarg.c:109-110): it is
  `Failed(MissingArgument)` and returns 1. It also covers a NULL `document` in
  the help screen (getarg.c:117-128), so the help screen's `HelpExited` is
  judged only on the `strlen` of the long names.
- The `stderr` diagnostics are left out. The reason for each failure is kept
  in `Failure`.
- The process-global tables are left out, including short-name entries that
  survive from an earlier `getarg` call. The index is a value built fresh by
  `Init`.
- The `i > INT_MAX` check (getarg.c:231) cannot fire for a vector the model
  can hold, and it is left out.
- Handlers are pure predicates of their call (descriptor or table, and
  arguments). Handler side effects and handlers whose answer depends on
  earlier calls are not modelled. Calling a NULL handler of an ordinary option
  is undefined in C. The model treats it as an ordinary call that `accepts`
  decides.
- The documentation fields `document` and `opt_doc` of `struct option` are
  used only by help rendering and are not modelled.
- `main.c` is a demonstration program and is not modelled.
