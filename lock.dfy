/** The options builder of `issue lock` / `issue unlock`: from the positional
    arguments, the value of `--reason` (lock only), the action and whether
    the three standard streams are terminals, it either produces the
    command's `LockOptions` or fails with the error the command reports. */
module Lock {
  import opened Format
  import opened Reasons

  datatype Option<T> = None | Some(value: T)

  datatype Action = LockAction | UnlockAction

  /** Which of stdin, stdout and stderr are attached to a terminal. */
  datatype Terminal = Terminal(stdinTTY: bool, stdoutTTY: bool, stderrTTY: bool)

  const AllTTY := Terminal(true, true, true)
  const NoTTY := Terminal(false, false, false)

  /** The part of `LockOptions` the builder decides; the reason is empty
      when none was given. */
  datatype LockOptions = LockOptions(selectorArg: string, reason: string, interactive: bool)

  datatype BuildError =
    | UnknownReasonFlag                         // `--reason` given to unlock
    | WrongArgCount(received: nat)              // not exactly one positional argument
    | InvalidReason(value: string, styled: bool) // reason not in the catalog

  datatype BuildResult = Built(opts: LockOptions) | Failed(error: BuildError)

  /** Every stream is a terminal: the process may prompt and decorate. */
  predicate FullyInteractive(t: Terminal) {
    t.stdinTTY && t.stdoutTTY && t.stderrTTY
  }

  /** The gate on the prompter: lock, no reason supplied, and a fully
      interactive terminal. */
  predicate NeedsPrompt(action: Action, reasonGiven: bool, t: Terminal) {
    action == LockAction && !reasonGiven && FullyInteractive(t)
  }

  /** The reason the options carry: the flag's value, or the empty string
      when the flag is absent. */
  function FlagValue(reasonFlag: Option<string>): string
  {
    match reasonFlag
    case None => ""
    case Some(v) => v
  }

  const ArgCountPrefix: string := "accepts 1 arg(s), received "
  const PlainInvalidPrefix: string := "invalid reason "
  const StyledInvalidPrefix: string := "X Invalid reason: "
  const UnknownFlagText: string := "unknown flag: --reason"

  /** The first character of each kind of message. */
  function Tag(e: BuildError): char {
    match e
    case UnknownReasonFlag => 'u'
    case WrongArgCount(_) => 'a'
    case InvalidReason(_, styled) => if styled then 'X' else 'i'
  }

  /** The text of the error the command returns. */
  function ErrorMessage(e: BuildError): string
  {
    match e
    case UnknownReasonFlag => UnknownFlagText
    case WrongArgCount(n) => ArgCountPrefix + Decimal(n)
    case InvalidReason(v, styled) =>
      if styled then StyledInvalidPrefix + v + "\n" else PlainInvalidPrefix + v
  }

  /** Each kind of message opens with its own character. */
  lemma FirstChar(e: BuildError)
    ensures |ErrorMessage(e)| > 0 && ErrorMessage(e)[0] == Tag(e)
  {
    assert UnknownFlagText[0] == 'u' && ArgCountPrefix[0] == 'a';
    assert PlainInvalidPrefix[0] == 'i' && StyledInvalidPrefix[0] == 'X';
  }

  /** `NewCmdLock` / `NewCmdUnlock` up to the point where the options are
      handed on: flags are parsed first (unlock has no `--reason`), then the
      argument count is checked, then a given reason is validated against
      the catalog, and without one the prompt gate decides `Interactive`. */
  function BuildOptions(action: Action, args: seq<string>, reasonFlag: Option<string>, t: Terminal): (r: BuildResult)
    // Exactly the inputs the source rejects are rejected.
    ensures r.Failed? <==>
      || (action == UnlockAction && reasonFlag.Some?)
      || |args| != 1
      || (reasonFlag.Some? && !IsValidReason(reasonFlag.value))
    // Each rejection carries its own cause, in the order the checks run.
    ensures r.Failed? && r.error.UnknownReasonFlag? <==> action == UnlockAction && reasonFlag.Some?
    ensures r.Failed? && r.error.WrongArgCount? ==> |args| != 1 && r.error.received == |args|
    ensures r.Failed? && r.error.InvalidReason? ==>
      && action == LockAction && |args| == 1
      && reasonFlag == Some(r.error.value)
      && r.error.styled == FullyInteractive(t)
    // An accepted invocation keeps the selector and the reason unchanged.
    ensures r.Built? ==>
      && r.opts.selectorArg == args[0]
      && r.opts.reason == FlagValue(reasonFlag)
      && (reasonFlag.Some? ==> IsValidReason(r.opts.reason))
      && (r.opts.interactive <==> NeedsPrompt(action, reasonFlag.Some?, t))
    // Unlock never carries a reason and never prompts.
    ensures r.Built? && action == UnlockAction ==> r.opts.reason == "" && !r.opts.interactive
  {
    if action == UnlockAction && reasonFlag.Some? then
      Failed(UnknownReasonFlag)
    else if |args| != 1 then
      Failed(WrongArgCount(|args|))
    else
      match reasonFlag
      case Some(reason) =>
        if !IsValidReason(reason) then
          assert action.LockAction?;
          Failed(InvalidReason(reason, FullyInteractive(t)))
        else
          Built(LockOptions(args[0], reason, false))
      case None =>
        Built(LockOptions(args[0], "", NeedsPrompt(action, false, t)))
  }

  /** `opts.Interactive` holds only for lock, with no reason, on a fully
      interactive terminal. */
  lemma InteractiveOnlyWhenPromptable(action: Action, args: seq<string>, reasonFlag: Option<string>, t: Terminal)
    requires BuildOptions(action, args, reasonFlag, t).Built?
    ensures BuildOptions(action, args, reasonFlag, t).opts.interactive ==>
      && action == LockAction
      && BuildOptions(action, args, reasonFlag, t).opts.reason == ""
      && t.stdinTTY && t.stdoutTTY && t.stderrTTY
  {
  }

  /** A given but empty `--reason` is not a reason, and is rejected like
      any other value outside the catalog; it does not lead to a prompt. */
  lemma EmptyReasonRejected(selector: string, t: Terminal)
    ensures BuildOptions(LockAction, [selector], Some(""), t) == Failed(InvalidReason("", FullyInteractive(t)))
  {
    IsValidReasonExact("");
  }

  /** A valid reason and one selector: the options carry both unchanged and
      the command does not prompt, whatever the terminal. */
  lemma LockWithValidReason(selector: string, reason: string, t: Terminal)
    requires IsValidReason(reason)
    ensures BuildOptions(LockAction, [selector], Some(reason), t) == Built(LockOptions(selector, reason, false))
  {
  }

  /** Any other number of positional arguments than one gives the usage
      error naming the number received, for lock and for unlock. */
  lemma WrongArgCountMessage(action: Action, args: seq<string>, t: Terminal)
    requires |args| != 1
    ensures BuildOptions(action, args, None, t) == Failed(WrongArgCount(|args|))
    ensures ErrorMessage(BuildOptions(action, args, None, t).error) == ArgCountPrefix + Decimal(|args|)
  {
    assert BuildOptions(action, args, None, t) == Failed(WrongArgCount(|args|));
    assert ErrorMessage(WrongArgCount(|args|)) == ArgCountPrefix + Decimal(|args|);
  }

  /** With no positional argument the message reads exactly
      "accepts 1 arg(s), received 0", for lock and for unlock. */
  lemma NoArgsMessage(action: Action, t: Terminal)
    ensures ErrorMessage(BuildOptions(action, [], None, t).error) == "accepts 1 arg(s), received 0"
  {
    WrongArgCountMessage(action, [], t);
    DecimalZero();
    assert ArgCountPrefix + "0" == "accepts 1 arg(s), received 0";
  }

  /** The argument count is checked before the reason: lock with no
      selector fails on the count even when the reason is bad. */
  lemma ArgCountCheckedFirst(args: seq<string>, reasonFlag: Option<string>, t: Terminal)
    requires |args| != 1
    ensures BuildOptions(LockAction, args, reasonFlag, t) == Failed(WrongArgCount(|args|))
  {
  }

  /** An unknown reason without terminals: the plain error
      "invalid reason <value>" and no options. */
  lemma UnknownReasonPlain(selector: string, reason: string)
    requires !IsValidReason(reason)
    ensures BuildOptions(LockAction, [selector], Some(reason), NoTTY).Failed?
    ensures ErrorMessage(BuildOptions(LockAction, [selector], Some(reason), NoTTY).error)
         == "invalid reason " + reason
  {
  }

  /** An unknown reason on terminals: the decorated error
      "X Invalid reason: <value>" followed by a newline. */
  lemma UnknownReasonStyled(selector: string, reason: string)
    requires !IsValidReason(reason)
    ensures BuildOptions(LockAction, [selector], Some(reason), AllTTY).Failed?
    ensures ErrorMessage(BuildOptions(LockAction, [selector], Some(reason), AllTTY).error)
         == "X Invalid reason: " + reason + "\n"
  {
  }

  /** Lock with a selector and no reason prompts on terminals and not
      without them; in both cases the reason is left empty. */
  lemma LockWithoutReason(selector: string)
    ensures BuildOptions(LockAction, [selector], None, AllTTY) == Built(LockOptions(selector, "", true))
    ensures BuildOptions(LockAction, [selector], None, NoTTY) == Built(LockOptions(selector, "", false))
  {
  }

  /** Unlock with one selector carries it unchanged, with no reason and no
      prompt, whatever the terminal. */
  lemma UnlockWithSelector(selector: string, t: Terminal)
    ensures BuildOptions(UnlockAction, [selector], None, t) == Built(LockOptions(selector, "", false))
  {
  }

  /** Equal messages mean equal errors: the text alone tells which check
      failed, the count received, the rejected reason and the styling. */
  lemma ErrorMessageInjective(e1: BuildError, e2: BuildError)
    ensures ErrorMessage(e1) == ErrorMessage(e2) ==> e1 == e2
  {
    var s1, s2 := ErrorMessage(e1), ErrorMessage(e2);
    // The first character tells the kinds apart: 'u', 'a', 'i' or 'X'.
    FirstChar(e1);
    FirstChar(e2);
    if s1 == s2 {
      match e1
      case UnknownReasonFlag =>
      case WrongArgCount(n1) =>
        var n2 := e2.received;
        assert Decimal(n1) == s1[|ArgCountPrefix|..];
        assert Decimal(n2) == s2[|ArgCountPrefix|..];
        DecimalInjective(n1, n2);
      case InvalidReason(v1, styled) =>
        var v2 := e2.value;
        if styled {
          assert v1 == s1[|StyledInvalidPrefix|..|s1| - 1];
          assert v2 == s2[|StyledInvalidPrefix|..|s2| - 1];
        } else {
          assert v1 == s1[|PlainInvalidPrefix|..];
          assert v2 == s2[|PlainInvalidPrefix|..];
        }
    }
  }

  /** The rows of `Test_NewCmdLock` that produce options, and the one
      without arguments. */
  lemma LockTestTable()
    ensures BuildOptions(LockAction, ["451"], Some("off_topic"), NoTTY) == Built(LockOptions("451", "off_topic", false))
    ensures BuildOptions(LockAction, ["451"], None, NoTTY) == Built(LockOptions("451", "", false))
    ensures BuildOptions(LockAction, ["451"], None, AllTTY) == Built(LockOptions("451", "", true))
    ensures ErrorMessage(BuildOptions(LockAction, [], None, NoTTY).error) == "accepts 1 arg(s), received 0"
  {
    KnownMemberships();
    LockWithValidReason("451", "off_topic", NoTTY);
    LockWithoutReason("451");
    NoArgsMessage(LockAction, NoTTY);
  }

  /** The rows of `Test_NewCmdLock` with a bad reason, with the error texts
      they compare. */
  lemma LockTestTableErrors()
    ensures ErrorMessage(BuildOptions(LockAction, ["451"], Some("bad"), NoTTY).error) == "invalid reason bad"
    ensures ErrorMessage(BuildOptions(LockAction, ["451"], Some("bad"), AllTTY).error) == "X Invalid reason: bad\n"
  {
    KnownMemberships();
    var plain := BuildOptions(LockAction, ["451"], Some("bad"), NoTTY);
    assert plain == Failed(InvalidReason("bad", false));
    assert ErrorMessage(plain.error) == PlainInvalidPrefix + "bad" == "invalid reason bad";
    var styled := BuildOptions(LockAction, ["451"], Some("bad"), AllTTY);
    assert styled == Failed(InvalidReason("bad", true));
    assert ErrorMessage(styled.error) == StyledInvalidPrefix + "bad" + "\n" == "X Invalid reason: bad\n";
  }

  /** The rows of `Test_NewCmdUnlock`. */
  lemma UnlockTestTable()
    ensures ErrorMessage(BuildOptions(UnlockAction, [], None, NoTTY).error) == "accepts 1 arg(s), received 0"
    ensures BuildOptions(UnlockAction, ["451"], None, NoTTY).opts.selectorArg == "451"
  {
    NoArgsMessage(UnlockAction, NoTTY);
    UnlockWithSelector("451", NoTTY);
  }
}
