/** The session driver (`getarg`, getarg.c:219-262): skip the program name, walk
    the tokens, dispatch every dash token and advance past what it consumed,
    collect every other token as a positional argument, and finally hand the
    positional arguments, once, to the catch-all handler.  `Scan` and `Run` give
    the meaning recursively; the method `Getarg` is the loop of the C code. */
module Driver {
  import opened Wrappers
  import opened Options
  import opened Index
  import opened Apply
  import opened Parse

  /** How a walk over the tokens ended: it ran out of tokens, or a dispatch step
      stopped it (a failure, the help screen, or an undefined token). */
  datatype Halt = Finished | Stopped(step: Step)

  datatype ScanResult = ScanResult(halt: Halt, trace: seq<Invocation>, positional: seq<string>)

  /** What `getarg` does for its caller: return a code, end the process through
      the help screen, or run into behaviour C leaves undefined. */
  datatype Exit = Returned(code: int) | HelpExited | Undefined

  datatype RunResult = RunResult(exit: Exit, trace: seq<Invocation>)

  /** `s[i..]`, or nothing when `i` is past the end. */
  function Drop<T>(s: seq<T>, i: nat): seq<T> {
    if i <= |s| then s[i..] else []
  }

  /** The argument tokens: everything after the program name. */
  function Args(argv: seq<string>): seq<string> {
    Drop(argv, 1)
  }

  /** `s` with the calls of `trace` and the tokens of `positional` in front. */
  function Prepend(trace: seq<Invocation>, positional: seq<string>, s: ScanResult): ScanResult {
    ScanResult(s.halt, trace + s.trace, positional + s.positional)
  }

  /** The walk over the argument tokens.  On a stop, `positional` holds what was
      collected before it. */
  function Scan(toks: seq<string>, idx: Index, accepts: Accepts): (s: ScanResult)
    ensures OnlyOptionCalls(s.trace)
    ensures forall k :: 0 <= k < |s.positional| ==> !StartsWithDash(s.positional[k])
    ensures s.halt.Stopped? ==> !s.halt.step.Consumed?
    decreases |toks|
  {
    if |toks| == 0 then ScanResult(Finished, [], [])
    else if StartsWithDash(toks[0]) then
      var a := ParseOpt(toks, idx, accepts);
      match a.step
      case Consumed(n) =>
        Prepend(a.trace, [], Scan(toks[1 + n..], idx, accepts))
      case _ => ScanResult(Stopped(a.step), a.trace, [])
    else
      Prepend([], [toks[0]], Scan(toks[1..], idx, accepts))
  }

  /** An entry before the sentinel has no long name.  The help screen measures
      and prints the long name of every such entry (getarg.c:271-272, 117-128),
      which C leaves undefined for a missing one. */
  predicate SomeEntryLacksLongName(table: seq<Descriptor>)
    requires HasSentinel(table)
  {
    exists k :: 0 <= k < |Entries(table)| && Entries(table)[k].longName.None?
  }

  /** The exit a stopping step leads to: every failure returns 1; the help screen
      ends the process unless some entry lacks a long name. */
  function StopExit(step: Step, table: seq<Descriptor>): (e: Exit)
    requires !step.Consumed? && HasSentinel(table)
    ensures step.Failed? <==> e == Returned(1)
    ensures e == HelpExited <==> step == HelpShown && !SomeEntryLacksLongName(table)
    ensures e == Undefined <==> step.Unspecified? || (step == HelpShown && SomeEntryLacksLongName(table))
  {
    match step
    case Failed(_) => Returned(1)
    case HelpShown => if SomeEntryLacksLongName(table) then Undefined else HelpExited
    case Unspecified => Undefined
  }

  /** A whole session. */
  function Run(argv: seq<string>, table: seq<Descriptor>, accepts: Accepts): (r: RunResult)
    requires HasSentinel(table)
    ensures r.exit.Returned? ==> r.exit.code == 0 || r.exit.code == 1
    ensures r.exit == HelpExited ==> !SomeEntryLacksLongName(table)
    ensures var s := Scan(Args(argv), Init(table), accepts);
      s.halt.Stopped? ==> r == RunResult(StopExit(s.halt.step, table), s.trace)
    ensures var s := Scan(Args(argv), Init(table), accepts);
      s.halt == Finished ==>
        r.trace == s.trace + (if s.positional != [] && Init(table).catchAll.Parser?
                              then [CatchAllCall(Init(table).catchAll.id, s.positional, table)] else [])
    ensures var s := Scan(Args(argv), Init(table), accepts);
      r.exit == Returned(0) <==>
        s.halt == Finished
        && (s.positional == []
            || (Init(table).catchAll.Parser?
                && accepts(CatchAllCall(Init(table).catchAll.id, s.positional, table))))
    ensures forall k :: 0 <= k < |r.trace| - 1 ==> r.trace[k].OptionCall?
    ensures |r.trace| > 0 && r.trace[|r.trace| - 1].CatchAllCall? ==>
      var call := r.trace[|r.trace| - 1];
      && Init(table).catchAll == Parser(call.parser)
      && call.args != [] && call.table == table
      && r.exit == Returned(if accepts(call) then 0 else 1)
  {
    var idx := Init(table);
    var s := Scan(Args(argv), idx, accepts);
    match s.halt
    case Stopped(step) => RunResult(StopExit(step, table), s.trace)
    case Finished =>
      if s.positional == [] then RunResult(Returned(0), s.trace)
      else
        match idx.catchAll
        case NullParser => RunResult(Returned(1), s.trace)
        case Parser(id) =>
          var call := CatchAllCall(id, s.positional, table);
          RunResult(Returned(if accepts(call) then 0 else 1), s.trace + [call])
  }

  lemma PrependTwice(t1: seq<Invocation>, p1: seq<string>, t2: seq<Invocation>, p2: seq<string>, s: ScanResult)
    ensures Prepend(t1, p1, Prepend(t2, p2, s)) == Prepend(t1 + t2, p1 + p2, s)
  {
    assert t1 + (t2 + s.trace) == (t1 + t2) + s.trace;
    assert p1 + (p2 + s.positional) == (p1 + p2) + s.positional;
  }

  lemma ScanOption(toks: seq<string>, idx: Index, accepts: Accepts)
    requires |toks| > 0 && StartsWithDash(toks[0])
    ensures var a := ParseOpt(toks, idx, accepts);
      && (a.step.Consumed? ==> Scan(toks, idx, accepts) == Prepend(a.trace, [], Scan(toks[1 + a.step.n..], idx, accepts)))
      && (!a.step.Consumed? ==> Scan(toks, idx, accepts) == ScanResult(Stopped(a.step), a.trace, []))
  {
  }

  lemma ScanPositional(toks: seq<string>, idx: Index, accepts: Accepts)
    requires |toks| > 0 && !StartsWithDash(toks[0])
    ensures Scan(toks, idx, accepts) == Prepend([], [toks[0]], Scan(toks[1..], idx, accepts))
  {
  }

  /** The loop of `getarg`: walk the argument tokens, stopping at the first
      step that does not consume. */
  method Walk(argv: seq<string>, idx: Index, accepts: Accepts) returns (s: ScanResult)
    ensures s == Scan(Args(argv), idx, accepts)
  {
    var positional: seq<string> := [];
    var trace: seq<Invocation> := [];
    var i := 1;
    while i < |argv|
      invariant 1 <= i
      invariant |argv| == 0 || i <= |argv|
      invariant Prepend(trace, positional, Scan(Drop(argv, i), idx, accepts)) == Scan(Args(argv), idx, accepts)
      decreases |argv| - i
    {
      assert Drop(argv, i) == argv[i..];
      if StartsWithDash(argv[i]) {
        var a := ParseOpt(argv[i..], idx, accepts);
        ScanOption(argv[i..], idx, accepts);
        if !a.step.Consumed? {
          assert positional + [] == positional;
          return ScanResult(Stopped(a.step), trace + a.trace, positional);
        }
        var next := i + 1 + a.step.n;
        assert argv[i..][1 + a.step.n..] == Drop(argv, next);
        PrependTwice(trace, positional, a.trace, [], Scan(Drop(argv, next), idx, accepts));
        assert positional + [] == positional;
        trace := trace + a.trace;
        i := next;
      } else {
        ScanPositional(argv[i..], idx, accepts);
        assert argv[i..][1..] == Drop(argv, i + 1);
        PrependTwice(trace, positional, [], [argv[i]], Scan(Drop(argv, i + 1), idx, accepts));
        assert trace + [] == trace;
        positional := positional + [argv[i]];
        i := i + 1;
      }
    }
    assert Drop(argv, i) == [];
    assert trace + [] == trace && positional + [] == positional;
    return ScanResult(Finished, trace, positional);
  }

  /** `getarg`: build the index, walk the tokens, then hand the positional
      arguments to the catch-all. */
  method Getarg(argv: seq<string>, table: seq<Descriptor>, accepts: Accepts)
    returns (exit: Exit, trace: seq<Invocation>)
    requires HasSentinel(table)
    ensures RunResult(exit, trace) == Run(argv, table, accepts)
  {
    var idx := Init(table);
    var s := Walk(argv, idx, accepts);
    trace := s.trace;
    match s.halt
    case Stopped(step) =>
      exit := StopExit(step, table);
    case Finished =>
      if s.positional == [] {
        exit := Returned(0);
      } else {
        match idx.catchAll
        case NullParser =>
          exit := Returned(1);
        case Parser(id) =>
          var call := CatchAllCall(id, s.positional, table);
          exit := Returned(if accepts(call) then 0 else 1);
          trace := trace + [call];
      }
  }

  /** `a` is `b` with some elements left out, order kept. */
  predicate IsSubseq<T(==)>(a: seq<T>, b: seq<T>)
    decreases |b|
  {
    if |b| == 0 then |a| == 0
    else (|a| > 0 && a[0] == b[0] && IsSubseq(a[1..], b[1..])) || IsSubseq(a, b[1..])
  }

  lemma {:induction false} EmptyIsSubseq<T>(b: seq<T>)
    ensures IsSubseq([], b)
    decreases |b|
  {
    if |b| > 0 {
      EmptyIsSubseq(b[1..]);
    }
  }

  lemma {:induction false} SubseqOfSuffix<T>(a: seq<T>, b: seq<T>, n: nat)
    requires n <= |b| && IsSubseq(a, b[n..])
    ensures IsSubseq(a, b)
    decreases n
  {
    if n > 0 {
      assert b[n - 1..][1..] == b[n..];
      SubseqOfSuffix(a, b, n - 1);
    }
  }

  /** Positional arguments keep their order and are drawn from the tokens. */
  lemma {:induction false} PositionalIsSubsequence(toks: seq<string>, idx: Index, accepts: Accepts)
    ensures IsSubseq(Scan(toks, idx, accepts).positional, toks)
    decreases |toks|
  {
    var s := Scan(toks, idx, accepts);
    if |toks| == 0 {
    } else if StartsWithDash(toks[0]) {
      var a := ParseOpt(toks, idx, accepts);
      if a.step.Consumed? {
        var n := a.step.n;
        PositionalIsSubsequence(toks[1 + n..], idx, accepts);
        assert s.positional == Scan(toks[1 + n..], idx, accepts).positional;
        SubseqOfSuffix(s.positional, toks, 1 + n);
      } else {
        EmptyIsSubseq(toks);
      }
    } else {
      PositionalIsSubsequence(toks[1..], idx, accepts);
      assert s.positional == [toks[0]] + Scan(toks[1..], idx, accepts).positional;
      assert s.positional[1..] == Scan(toks[1..], idx, accepts).positional;
    }
  }

  /** The tokens without a leading dash, in order. */
  function NonDash(toks: seq<string>): seq<string> {
    if |toks| == 0 then []
    else if StartsWithDash(toks[0]) then NonDash(toks[1..])
    else [toks[0]] + NonDash(toks[1..])
  }

  /** When every option token consumes nothing after itself, the walk finishes
      and the positional list is exactly the non-dash tokens in order; in
      particular the option tokens themselves never become positional. */
  lemma {:induction false} FlagsLeaveAllOtherTokens(toks: seq<string>, idx: Index, accepts: Accepts)
    requires forall k :: 0 <= k < |toks| && StartsWithDash(toks[k]) ==> ParseOpt(toks[k..], idx, accepts).step == Consumed(0)
    ensures Scan(toks, idx, accepts).halt == Finished
    ensures Scan(toks, idx, accepts).positional == NonDash(toks)
    decreases |toks|
  {
    if |toks| > 0 {
      assert toks[0..] == toks;
      forall k | 0 <= k < |toks[1..]| && StartsWithDash(toks[1..][k])
        ensures ParseOpt(toks[1..][k..], idx, accepts).step == Consumed(0)
      {
        assert toks[1..][k..] == toks[k + 1..];
      }
      FlagsLeaveAllOtherTokens(toks[1..], idx, accepts);
    }
  }

  /** Without any dash token there is nothing to dispatch: every token is
      positional and no handler runs during the walk. */
  lemma {:induction false} NoOptionsAllPositional(toks: seq<string>, idx: Index, accepts: Accepts)
    requires forall k :: 0 <= k < |toks| ==> !StartsWithDash(toks[k])
    ensures Scan(toks, idx, accepts) == ScanResult(Finished, [], toks)
    decreases |toks|
  {
    if |toks| > 0 {
      NoOptionsAllPositional(toks[1..], idx, accepts);
      assert [toks[0]] + toks[1..] == toks;
    }
  }

  /** The program name is never looked at. */
  lemma ProgramNameIgnored(argv: seq<string>, name: string, table: seq<Descriptor>, accepts: Accepts)
    requires |argv| >= 1 && HasSentinel(table)
    ensures Run([name] + argv[1..], table, accepts) == Run(argv, table, accepts)
  {
    assert Args([name] + argv[1..]) == Args(argv);
  }

  /** The catch-all runs exactly once, on the whole positional list, when the
      walk finishes with a non-empty list and a catch-all exists; otherwise it
      never runs. */
  lemma CatchAllCalledOnce(argv: seq<string>, table: seq<Descriptor>, accepts: Accepts)
    requires HasSentinel(table)
    ensures var s := Scan(Args(argv), Init(table), accepts);
      var r := Run(argv, table, accepts);
      var calls := set k | 0 <= k < |r.trace| && r.trace[k].CatchAllCall?;
      && (s.halt == Finished && s.positional != [] && Init(table).catchAll.Parser? ==>
            calls == {|r.trace| - 1} && r.trace[|r.trace| - 1].args == s.positional)
      && (!(s.halt == Finished && s.positional != [] && Init(table).catchAll.Parser?) ==>
            calls == {} && r.trace == s.trace)
  {
  }

  /** Failures cannot be told apart by the caller: any of them returns 1, and the
      catch-all never runs after one. */
  lemma FailureReturnsOne(argv: seq<string>, table: seq<Descriptor>, accepts: Accepts)
    requires HasSentinel(table)
    requires Scan(Args(argv), Init(table), accepts).halt.Stopped?
    requires Scan(Args(argv), Init(table), accepts).halt.step.Failed?
    ensures Run(argv, table, accepts).exit == Returned(1)
    ensures OnlyOptionCalls(Run(argv, table, accepts).trace)
  {
  }

  /** Positional arguments without a catch-all handler make the session fail;
      without positional arguments the catch-all is not needed. */
  lemma MissingCatchAll(argv: seq<string>, table: seq<Descriptor>, accepts: Accepts)
    requires HasSentinel(table) && Init(table).catchAll.NullParser?
    requires Scan(Args(argv), Init(table), accepts).halt == Finished
    ensures Run(argv, table, accepts).exit ==
      Returned(if Scan(Args(argv), Init(table), accepts).positional == [] then 0 else 1)
  {
  }

  /** The tokens `-c` for each character `c` of `cs`, in order. */
  function Singles(cs: seq<char>): (toks: seq<string>)
    ensures |toks| == |cs|
    ensures forall k :: 0 <= k < |cs| ==> toks[k] == ['-', cs[k]]
  {
    if |cs| == 0 then [] else [['-', cs[0]]] + Singles(cs[1..])
  }

  /** Every character of `cs` names a flag (a no-argument option) and none is a
      dash. */
  predicate AllFlags(cs: seq<char>, idx: Index) {
    forall k :: 0 <= k < |cs| ==> cs[k] != '-' && cs[k] in idx.short && idx.short[cs[k]].kind == NoArg
  }

  /** One flag token `-c` runs the flag's handler with no arguments and, when it
      succeeds, goes on with the following tokens. */
  lemma FlagTokenStep(c: char, rest: seq<string>, idx: Index, accepts: Accepts)
    requires c != '-' && c in idx.short && idx.short[c].kind == NoArg
    ensures var call := OptionCall(idx.short[c], []);
      Scan([['-', c]] + rest, idx, accepts) ==
        if accepts(call) then Prepend([call], [], Scan(rest, idx, accepts))
        else ScanResult(Stopped(Failed(ApplyFailed)), [call], [])
  {
    var toks := [['-', c]] + rest;
    assert toks[0] == ['-', c] && toks[1..] == rest;
    var d := idx.short[c];
    assert ParseShortOpt(toks, idx, accepts) == ApplyOpt(Some(d), toks, accepts);
    assert ParseOpt(toks, idx, accepts) == Invoke(d, [], 0, accepts);
    ScanOption(toks, idx, accepts);
  }

  /** Separate flag tokens run their handlers one after another, each with no
      arguments, exactly like the application queue of a cluster. */
  lemma {:induction false} SeparateFlagsRunAsQueue(cs: seq<char>, rest: seq<string>, idx: Index, accepts: Accepts)
    requires AllFlags(cs, idx)
    ensures var queue := ResolveCluster(cs, idx.short);
      var q := ApplyQueue(queue.value, accepts);
      && queue.Ok?
      && Scan(Singles(cs) + rest, idx, accepts) ==
           if q.step == Consumed(0) then Prepend(q.trace, [], Scan(rest, idx, accepts))
           else ScanResult(Stopped(Failed(ApplyFailed)), q.trace, [])
    decreases |cs|
  {
    var queue := ResolveCluster(cs, idx.short);
    assert queue.Ok?;
    var sr := Scan(rest, idx, accepts);
    var none: seq<string> := [];
    if |cs| > 0 {
      var call := OptionCall(idx.short[cs[0]], []);
      assert Singles(cs) + rest == [['-', cs[0]]] + (Singles(cs[1..]) + rest);
      assert AllFlags(cs[1..], idx);
      FlagTokenStep(cs[0], Singles(cs[1..]) + rest, idx, accepts);
      SeparateFlagsRunAsQueue(cs[1..], rest, idx, accepts);
      var tail := ResolveCluster(cs[1..], idx.short);
      assert queue.value == [idx.short[cs[0]]] + tail.value;
      assert queue.value[1..] == tail.value;
      var qt := ApplyQueue(tail.value, accepts);
      if accepts(call) {
        assert ApplyQueue(queue.value, accepts) == Applied(qt.step, [call] + qt.trace);
        PrependTwice([call], [], qt.trace, [], sr);
        assert none + none == none;
      }
    } else {
      assert Singles(cs) + rest == rest;
      assert [] + sr.trace == sr.trace && none + sr.positional == sr.positional;
    }
  }

  /** A cluster of flags behaves like the same flags given as separate tokens:
      the same handlers in the same order, nothing consumed after them, and the
      same outcome for the rest of the session. */
  lemma ClusterActsAsSeparateFlags(cs: seq<char>, rest: seq<string>, idx: Index, accepts: Accepts)
    requires |cs| >= 2 && AllFlags(cs, idx)
    ensures Scan([['-'] + cs] + rest, idx, accepts) == Scan(Singles(cs) + rest, idx, accepts)
  {
    SeparateFlagsRunAsQueue(cs, rest, idx, accepts);
    var toks := [['-'] + cs] + rest;
    assert toks[0][1..] == cs;
    assert toks[1..] == rest;
  }
}
