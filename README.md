# Lock / unlock options and the lock-reason catalog

A Dafny model of two pieces of the `issue lock` / `issue unlock` command of
the GitHub CLI, as its test file `pkg/cmd/issue/lock/lock_test.go` pins them
down:

- **The reason catalog** (module `Reasons`, `reasons.dfy`). The human tokens
  that `--reason` accepts (`reasons`), their wire forms in the GraphQL
  `LockReason` enum (`reasonsApi`), and the map `reasonsMap`. That map is
  built by walking both lists in step. The model proves the catalog's
  self-consistency test for any two lists of distinct tokens: the test
  passes on the built map exactly when the lists are parallel upper-case
  copies. When it passes over distinct tokens without upper-case letters,
  the map is a bijection between the two sets. Distinctness is needed: a
  repeated token's later binding hides a wrong earlier wire form from the
  test. The shipped catalog passes the test.
- **The options builder** (module `Lock`, `lock.dfy`). This is `NewCmdLock` /
  `NewCmdUnlock` up to the point where the options go to the run function.
  It is a total function from (action, positional arguments, optional
  `--reason` value, terminal state) to either `LockOptions { SelectorArg,
  Reason, Interactive }` or an error. The error comes with the exact text the
  command returns. The checks run in this order:
  1. flag parsing (unlock has no `--reason`);
  2. the cobra `ExactArgs(1)` check;
  3. validation of a given reason against the catalog (an empty value is
     not in the catalog, so it is rejected too);
  4. without a reason, the prompt gate.
- **Decimal numerals** (module `Format`, `format.dfy`). These give the `%d`
  in "accepts 1 arg(s), received N". The model proves that a numeral reads
  back to its number, so the usage message is unambiguous.

The catalog test is modelled including the step that builds the map. When
the token list is longer than the wire list, that step runs past the end of
the wire list (a panic in the program), and the model counts it as the test
failing.

The terminal is three booleans (stdin, stdout, stderr). The test file always
sets all three together. So the properties about terminal behaviour are
stated for `AllTTY` and `NoTTY`. Prompting, and the decorated form of the
invalid-reason error, need all three streams to be terminals.

The command's implementation file, `pkg/cmd/issue/lock/lock.go`, is not part
of this model. The behaviour modelled is what the tests assert. The
decorated invalid-reason text `"X Invalid reason: bad\n"` is
modelled as the returned error's message. The test compares `err.Error()`
with it (`lock_test.go:52-57`, `94-96`). A message written separately to the
error stream is not modelled.

## Model

| member | source | states |
|---|---|---|
| `Lock.BuildOptions` | pkg/cmd/issue/lock/lock_test.go:19-165 | an invocation fails exactly when unlock gets `--reason`, the positional count is not one, or a given reason (empty included) is outside the catalog. Each failure carries its own cause: the unknown-flag error exactly for unlock with `--reason`, the count error only for a count other than one and with that count, and the invalid-reason error only for lock with one argument, with the rejected value and styled exactly when fully interactive. So a lock with one argument and a bad reason can only fail as an invalid reason. On success the selector and reason are carried unchanged, a given reason is valid, `Interactive` holds exactly under the prompt gate for "reason given", and unlock never has a reason or prompts |
| `Lock.NeedsPrompt` | pkg/cmd/issue/lock/lock_test.go:58-66 | the prompt gate: lock, no reason given, and all three streams on a terminal |
| `Lock.ErrorMessage` | pkg/cmd/issue/lock/lock_test.go:94-96 | the error texts the tests compare: "unknown flag: --reason", "accepts 1 arg(s), received N", "invalid reason V", "X Invalid reason: V" and a newline |
| `Lock.FirstChar` | pkg/cmd/issue/lock/lock_test.go:94-96 | each kind of error message is non-empty and opens with its own character |
| `Lock.InteractiveOnlyWhenPromptable` | pkg/cmd/issue/lock/lock_test.go:58-66 | `Interactive` implies lock, an empty reason, and all three streams on a terminal |
| `Lock.EmptyReasonRejected` | pkg/cmd/issue/lock/lock_test.go:47-57 | a given but empty `--reason` is rejected as an invalid reason (styled exactly on a fully interactive terminal) and does not prompt |
| `Lock.LockWithValidReason` | pkg/cmd/issue/lock/lock_test.go:28-35 | lock with a catalog reason and one selector yields exactly those two, with `Interactive` false, on any terminal |
| `Lock.WrongArgCountMessage` | pkg/cmd/issue/lock/lock_test.go:36-39 | any positional count other than one fails with "accepts 1 arg(s), received N", for lock and unlock |
| `Lock.NoArgsMessage` | pkg/cmd/issue/lock/lock_test.go:117-120 | zero arguments give exactly "accepts 1 arg(s), received 0", for lock and unlock |
| `Lock.ArgCountCheckedFirst` | pkg/cmd/issue/lock/lock_test.go:36-39 | for lock, a bad count is reported whatever the reason flag holds |
| `Lock.UnknownReasonPlain` | pkg/cmd/issue/lock/lock_test.go:47-51 | an unknown reason with no terminals fails with exactly "invalid reason <value>" and gives no options |
| `Lock.UnknownReasonStyled` | pkg/cmd/issue/lock/lock_test.go:52-57 | an unknown reason on all terminals fails with exactly "X Invalid reason: <value>" and a newline |
| `Lock.LockWithoutReason` | pkg/cmd/issue/lock/lock_test.go:40-66 | lock with a selector and no reason: `Interactive` true on all terminals and false on none; the reason is empty in both cases |
| `Lock.UnlockWithSelector` | pkg/cmd/issue/lock/lock_test.go:121-127 | unlock with one selector keeps it unchanged, with no reason and no prompt, on any terminal |
| `Lock.ErrorMessageInjective` | pkg/cmd/issue/lock/lock_test.go:94-96 | two errors with the same message text are the same error, so the text the tests compare shows which check failed and with what value |
| `Lock.LockTestTable` | pkg/cmd/issue/lock/lock_test.go:28-66 | the rows of `Test_NewCmdLock` that give options ("sets reason", "no flags", "interactive"), with the three fields the test compares, and the "no args" row's exact error text |
| `Lock.LockTestTableErrors` | pkg/cmd/issue/lock/lock_test.go:47-57 | the "bad reason" and "bad reason tty" rows of `Test_NewCmdLock` with their exact error texts |
| `Lock.UnlockTestTable` | pkg/cmd/issue/lock/lock_test.go:108-165 | the two rows of `Test_NewCmdUnlock` |
| `Reasons.ToUpperASCII` | pkg/cmd/issue/lock/lock_test.go:234 | `strings.ToUpper` keeps the length and upper-cases position by position |
| `Reasons.ToUpperInjective` | pkg/cmd/issue/lock/lock_test.go:234 | on strings without upper-case letters, upper-casing is one-to-one |
| `Reasons.ZipMap` | pkg/cmd/issue/lock/lock_test.go:234 | the keys of `reasonsMap` are exactly the tokens |
| `Reasons.ZipMapAt` | pkg/cmd/issue/lock/lock_test.go:234 | with distinct tokens, `reasonsMap[reasons[i]]` is `reasonsApi[i]` |
| `Reasons.RepeatedTokenMasksWireForm` | pkg/cmd/issue/lock/lock_test.go:230-236 | with a repeated token, `TestReasons` passes although the wire form at the token's first position is not its upper-casing, since the later binding replaces it in the map |
| `Reasons.ConsistencyCheck` | pkg/cmd/issue/lock/lock_test.go:230-236 | the assertions of `TestReasons` on a map: equal list lengths, and every token has an entry equal to its upper-casing |
| `Reasons.TestReasonsPasses` | pkg/cmd/issue/lock/lock_test.go:230-236 | `TestReasons` passes on a catalog of two lists: building the map stays within the wire list, and the built map passes the assertions |
| `Reasons.ConsistencyCheckExact` | pkg/cmd/issue/lock/lock_test.go:230-236 | for any two lists (distinct tokens), `TestReasons` passes exactly when the lists have equal length and each wire form is its token upper-cased; in particular any length mismatch, such as a token without its wire form, fails it |
| `Reasons.ConsistentCatalogIsBijection` | pkg/cmd/issue/lock/lock_test.go:230-236 | if the test passes over distinct tokens without capitals, the map is a bijection from the token set onto the wire-form set, and the wire forms are distinct |
| `Reasons.UpperCaseLiterals` | pkg/cmd/issue/lock/lock_test.go:234 | each shipped wire form is its token upper-cased |
| `Reasons.TokensWellFormed` | pkg/cmd/issue/lock/lock_test.go:233 | the shipped tokens are distinct and lower-case |
| `Reasons.CatalogConsistent` | pkg/cmd/issue/lock/lock_test.go:230-236 | the shipped catalog passes `TestReasons` (equal lengths, every token maps to its upper-casing) and is a bijection |
| `Reasons.IsValidReason` | pkg/cmd/issue/lock/lock_test.go:234 | a token is valid when `reasonsMap` has an entry for it |
| `Reasons.IsValidReasonExact` | pkg/cmd/issue/lock/lock_test.go:233 | a token is valid exactly when it is listed in `reasons` |
| `Reasons.ToWireForm` | pkg/cmd/issue/lock/lock_test.go:234 | the wire form of a valid token is that token upper-cased, and it is one of `reasonsApi` |
| `Reasons.ToWireFormInjective` | pkg/cmd/issue/lock/lock_test.go:230-236 | different valid tokens have different wire forms |
| `Reasons.KnownMemberships` | pkg/cmd/issue/lock/lock_test.go:28-51 | "off_topic" is valid; "bad" is not valid |
| `Reasons.OffTopicWireForm` | pkg/cmd/issue/lock/lock_test.go:234 | "off_topic" goes on the wire as "OFF_TOPIC" |
| `Format.Decimal` | pkg/cmd/issue/lock/lock_test.go:38 | the count in the usage error is a non-empty string of digits with no leading zero |
| `Format.DecimalZero` | pkg/cmd/issue/lock/lock_test.go:38 | zero arguments are written "0" |
| `Format.ParseDecimalOfDecimal` | pkg/cmd/issue/lock/lock_test.go:38 | reading the numeral back gives the count |
| `Format.DecimalInjective` | pkg/cmd/issue/lock/lock_test.go:38 | different counts give different numerals |

## Left out

- `lockRun` (the executor): its test table is empty. It resolves the target, calls the HTTP API and reports the outcome through collaborators the tests only stub.
- The interactive reason prompter and its menu: the builder only sets `Interactive`. What the user picks comes from an external collaborator.
- The `IO`, `HttpClient`, `BaseRepo` and `Prompter` fields of `LockOptions`: they hold external collaborators that the builder only passes on.
- Cobra mechanics: flag registration, `--repo`/`-R`, shell splitting of the test's argument strings, the parent-name argument and the state string given to the run function. The only part kept is the order of the checks.
- Colour and styling: the failure icon is the literal `X` that the uncoloured test streams print.
- Terminal states where only some of the three streams are terminals: the tests never set them. The model makes both terminal gates require all three streams.
- `Reasons.ReasonTokens` only states "off_topic" (and rules out "bad") from the test file. "resolved", "spam" and "too_heated" come from the GraphQL `LockReason` enum. The catalog lemmas are not tied to this list: `ConsistencyCheckExact` holds for any two lists of distinct tokens, and `ConsistentCatalogIsBijection` for any two lists of distinct tokens without upper-case letters.
- `Reasons.ToUpperASCII`: it upper-cases ASCII letters only, not the full Unicode mapping of `strings.ToUpper`. The tokens are ASCII.
- `Lock.BuildOptions`: no cobra text is confirmed for unlock given `--reason`. The model uses pflag's "unknown flag: --reason".
