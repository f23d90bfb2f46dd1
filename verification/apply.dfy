/** Arity dispatch (getarg.c:36-112): given a resolved descriptor and the tokens
    that follow the option token, decide how many of them to consume and call the
    handler.  Every operation returns the step it took together with the trace of
    handler calls it made. */
module Apply {
  import opened Wrappers
  import opened Options

  /** Why a step failed.  The C code reports each with its own diagnostic but
      returns the same -1 for all of them. */
  datatype Failure = UnknownOption | MissingArgument | IncompatibleCluster | ApplyFailed

  /** The value of one dispatch: a consumption count (a non-negative return), a
      failure (-1), the help screen (which ends the process), or a token whose
      behaviour the C code leaves undefined. */
  datatype Step = Consumed(n: nat) | Failed(reason: Failure) | HelpShown | Unspecified

  datatype Applied = Applied(step: Step, trace: seq<Invocation>)

  /** `run` is the longest prefix of `args` made of tokens without a leading dash. */
  predicate IsListRun(run: seq<string>, args: seq<string>) {
    && |run| <= |args|
    && run == args[..|run|]
    && (forall k :: 0 <= k < |run| ==> !StartsWithDash(run[k]))
    && (|run| == |args| || StartsWithDash(args[|run|]))
  }

  /** Consumption accounting: a successful step hands the handler exactly the
      tokens it consumes, in one accepted call; a handler failure is one rejected
      call on a prefix of the tokens; every other failure calls nothing. */
  predicate Accounted(a: Applied, d: Descriptor, args: seq<string>, accepts: Accepts) {
    && (a.step.Consumed? ==>
          a.step.n <= |args| && a.trace == [OptionCall(d, args[..a.step.n])] && accepts(a.trace[0]))
    && (a.step == Failed(ApplyFailed) ==>
          |a.trace| == 1 && a.trace[0].OptionCall? && a.trace[0].opt == d
          && |a.trace[0].args| <= |args| && a.trace[0].args == args[..|a.trace[0].args|]
          && !accepts(a.trace[0]))
    && (a.step.Failed? && a.step.reason != ApplyFailed ==> a.trace == [])
    && (a.step == HelpShown ==> a.trace == [])
    && !a.step.Unspecified?
    && !(a.step == Failed(IncompatibleCluster))
  }

  /** One call of `d`'s handler on `args`; success means `consumed` tokens were used. */
  function Invoke(d: Descriptor, args: seq<string>, consumed: nat, accepts: Accepts): Applied {
    var call := OptionCall(d, args);
    Applied(if accepts(call) then Consumed(consumed) else Failed(ApplyFailed), [call])
  }

  /** Length of the run of leading tokens that do not start with a dash (the
      counting loop of `apply_list_arg`). */
  function ListRunLength(args: seq<string>): (n: nat)
    ensures n <= |args|
    ensures forall k :: 0 <= k < n ==> !StartsWithDash(args[k])
    ensures n == |args| || StartsWithDash(args[n])
  {
    if |args| == 0 || StartsWithDash(args[0]) then 0
    else 1 + ListRunLength(args[1..])
  }

  /** The longest dash-free prefix is unique. */
  lemma ListRunUnique(r1: seq<string>, r2: seq<string>, args: seq<string>)
    requires IsListRun(r1, args) && IsListRun(r2, args)
    ensures r1 == r2
  {
  }

  /** `apply_single_arg`: with a following token, consume exactly that token and
      pass it on whatever its first character; with none, fail for a required
      option and call the handler with no arguments for an optional one. */
  function ApplySingleArg(args: seq<string>, d: Descriptor, accepts: Accepts): (a: Applied)
    ensures Accounted(a, d, args, accepts)
    ensures a.step.Consumed? ==> a.step.n <= 1
    ensures |args| > 0 ==> a.trace == [OptionCall(d, [args[0]])]
    ensures |args| == 0 ==> (a.step == Failed(MissingArgument) <==> !d.isOptionalArg)
    ensures |args| == 0 && d.isOptionalArg ==> a.trace == [OptionCall(d, [])]
  {
    if |args| == 0 then
      if !d.isOptionalArg then Applied(Failed(MissingArgument), [])
      else Invoke(d, [], 0, accepts)
    else
      assert args[..1] == [args[0]];
      Invoke(d, args[..1], 1, accepts)
  }

  /** `apply_list_arg`: hand the handler the longest run of following tokens that
      do not start with a dash and consume that run; an empty run is treated as
      a missing single argument. */
  function ApplyListArg(args: seq<string>, d: Descriptor, accepts: Accepts): (a: Applied)
    ensures Accounted(a, d, args, accepts)
    ensures a.step == Failed(MissingArgument) <==> !d.isOptionalArg && (|args| == 0 || StartsWithDash(args[0]))
    ensures a.step != Failed(MissingArgument) ==>
      |a.trace| == 1 && a.trace[0].OptionCall? && IsListRun(a.trace[0].args, args)
  {
    var n := ListRunLength(args);
    assert IsListRun(args[..n], args);
    if n == 0 then ApplySingleArg([], d, accepts)
    else Invoke(d, args[..n], n, accepts)
  }

  /** `apply_opt`: dispatch on the option kind.  `toks[0]` is the option token
      itself; list and single options only see the tokens after it. */
  function ApplyOpt(o: Option<Descriptor>, toks: seq<string>, accepts: Accepts): (a: Applied)
    requires |toks| >= 1
    ensures o.None? ==> a == Applied(Failed(UnknownOption), [])
    ensures o.Some? ==> Accounted(a, o.value, toks[1..], accepts) && a.step != Failed(UnknownOption)
    ensures o.Some? && o.value.kind == HelpOpt ==> a.step == HelpShown
    ensures o.Some? && o.value.kind == NoArg ==> a.trace == [OptionCall(o.value, [])]
    ensures o.Some? && o.value.kind != HelpOpt ==> |a.trace| == 1 || a.step == Failed(MissingArgument)
    ensures o.Some? && o.value.kind == ListArg && a.step != Failed(MissingArgument) ==>
      IsListRun(a.trace[0].args, toks[1..])
    ensures o.Some? && o.value.kind == SingleArg && |toks| > 1 ==> a.trace == [OptionCall(o.value, [toks[1]])]
    ensures o.Some? ==>
      (a.step == Failed(MissingArgument) <==>
         !o.value.isOptionalArg
         && ((o.value.kind == ListArg && (|toks| == 1 || StartsWithDash(toks[1])))
             || (o.value.kind == SingleArg && |toks| == 1)))
  {
    match o
    case None => Applied(Failed(UnknownOption), [])
    case Some(d) =>
      match d.kind
      case HelpOpt => Applied(HelpShown, [])
      case ListArg => ApplyListArg(toks[1..], d, accepts)
      case NoArg => Invoke(d, [], 0, accepts)
      case SingleArg => ApplySingleArg(toks[1..], d, accepts)
  }

  /** Once the descriptor is resolved, the text of the option token itself plays
      no part: only the tokens after it are looked at. */
  lemma ApplyOptIgnoresOptionToken(o: Option<Descriptor>, t1: string, t2: string, rest: seq<string>, accepts: Accepts)
    ensures ApplyOpt(o, [t1] + rest, accepts) == ApplyOpt(o, [t2] + rest, accepts)
  {
    assert ([t1] + rest)[1..] == rest == ([t2] + rest)[1..];
  }

  /** `apply_opt_queue`: call each queued handler with no arguments, left to
      right, stopping at the first that fails. */
  function ApplyQueue(queue: seq<Descriptor>, accepts: Accepts): (a: Applied)
    ensures a.step == Consumed(0) || a.step == Failed(ApplyFailed)
    ensures a.step == Consumed(0) <==> forall k :: 0 <= k < |queue| ==> accepts(OptionCall(queue[k], []))
    ensures a.step == Consumed(0) ==> a.trace == ZeroArgCalls(queue)
    ensures a.step.Failed? ==>
      && 1 <= |a.trace| <= |queue|
      && a.trace == ZeroArgCalls(queue[..|a.trace|])
      && !accepts(a.trace[|a.trace| - 1])
      && forall k :: 0 <= k < |a.trace| - 1 ==> accepts(a.trace[k])
  {
    if |queue| == 0 then Applied(Consumed(0), [])
    else
      var call := OptionCall(queue[0], []);
      if !accepts(call) then
        assert ZeroArgCalls(queue[..1]) == [call];
        Applied(Failed(ApplyFailed), [call])
      else
        var rest := ApplyQueue(queue[1..], accepts);
        var a := Applied(rest.step, [call] + rest.trace);
        assert a.step.Failed? ==> ZeroArgCalls(queue[..|a.trace|]) == [call] + ZeroArgCalls(queue[1..][..|rest.trace|]);
        a
  }
}
