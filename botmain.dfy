/**
 * `main` of the Discord bot (src/lib/main/botmain.js): validate the command list, clear the
 * registered commands, register the list, log in; any error exits with status 1.
 */
module BotMain {
  import opened Wrappers
  import opened BotCommands

  /** Why the bot gave up: a rejected command, or a REST call that failed. */
  datatype Cause = Invalid(failure: Failure) | PutRejected

  /** What `main` does to the outside world, in order. */
  datatype Action = Put(body: seq<Command>) | Login(token: string) | LogError(cause: Cause) | Exit(code: int)

  /** The course of `main` when the two `put` calls succeed or fail as given. */
  function Trace(commands: seq<Command>, token: string, clearOk: bool, registerOk: bool): seq<Action> {
    match FirstInvalid(commands)
    case Some(f) => [LogError(Invalid(f)), Exit(1)]
    case None =>
      if !clearOk then [Put([]), LogError(PutRejected), Exit(1)]
      else if !registerOk then [Put([]), Put(commands), LogError(PutRejected), Exit(1)]
      else [Put([]), Put(commands), Login(token)]
  }

  /**
   * `main`. `clearOk` and `registerOk` say whether the two awaited `put` calls resolve; the
   * un-awaited `login` is only started.
   */
  method Run(commands: seq<Command>, token: string, clearOk: bool, registerOk: bool) returns (trace: seq<Action>)
    ensures trace == Trace(commands, token, clearOk, registerOk)
  {
    var i := 0;
    while i < |commands|
      invariant 0 <= i <= |commands|
      invariant forall j :: 0 <= j < i ==> Valid(commands[j])
    {
      var rejected := Check(commands[i]);
      if rejected.Some? {
        FirstInvalidUnique(commands, i, rejected.value);
        return [LogError(Invalid(Failure(i, rejected.value))), Exit(1)];
      }
      i := i + 1;
    }
    trace := [Put([])];
    if !clearOk {
      return trace + [LogError(PutRejected), Exit(1)];
    }
    trace := trace + [Put(commands)];
    if !registerOk {
      return trace + [LogError(PutRejected), Exit(1)];
    }
    trace := trace + [Login(token)];
  }

  /** An invalid list is never sent anywhere: no `put` at all, and the error names the first bad command. */
  lemma InvalidSendsNothing(commands: seq<Command>, token: string, clearOk: bool, registerOk: bool)
    requires exists i :: 0 <= i < |commands| && !Valid(commands[i])
    ensures var t := Trace(commands, token, clearOk, registerOk);
      && (forall k :: 0 <= k < |t| ==> !t[k].Put? && !t[k].Login?)
      && t[0].cause.Invalid? && !Valid(commands[t[0].cause.failure.index])
      && forall j :: 0 <= j < t[0].cause.failure.index ==> Valid(commands[j])
  {
  }

  /** Every `put` carries valid commands, the clearing one comes first, and login happens only after both. */
  lemma PutsInOrder(commands: seq<Command>, token: string, clearOk: bool, registerOk: bool)
    ensures var t := Trace(commands, token, clearOk, registerOk);
      && (forall k :: 0 <= k < |t| && t[k].Put? ==> forall c :: c in t[k].body ==> Valid(c))
      && (forall k :: 0 <= k < |t| && t[k].Put? && t[k].body != [] ==> k == 1 && t[0] == Put([]))
      && (Login(token) in t <==> FirstInvalid(commands).None? && clearOk && registerOk)
  {
    var t := Trace(commands, token, clearOk, registerOk);
    if FirstInvalid(commands).None? {
      assert forall c :: c in commands ==> Valid(c) by {
        forall c | c in commands ensures Valid(c) {
          var i :| 0 <= i < |commands| && commands[i] == c;
        }
      }
    }
  }

  /** The run either ends in a login or in `exit(1)`, never both. */
  lemma EndsInLoginOrExit(commands: seq<Command>, token: string, clearOk: bool, registerOk: bool)
    ensures var t := Trace(commands, token, clearOk, registerOk);
      && |t| >= 2
      && (t[|t| - 1] == Exit(1) <==> !t[|t| - 1].Login?)
      && (t[|t| - 1].Login? <==> forall k :: 0 <= k < |t| ==> !t[k].LogError?)
  {
    var t := Trace(commands, token, clearOk, registerOk);
    if !t[|t| - 1].Login? {
      assert t[|t| - 2].LogError?;
    }
  }
}
