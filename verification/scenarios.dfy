/** Concrete sessions over small option tables: list runs, shared prefixes, an
    optional argument next to another option, a missing required argument,
    positional arguments, a repeated short name and the help screen. */
module Scenarios {
  import opened Wrappers
  import opened Options
  import opened Index
  import opened Apply
  import opened Parse
  import opened Driver

  const EnableA := Descriptor(Some("enable-a"), NoShortName, NoArg, false, Parser(1))
  const List := Descriptor(Some("list"), 'l', ListArg, false, Parser(2))
  const ListAll := Descriptor(Some("list-all"), NoShortName, NoArg, false, Parser(3))
  const Opt := Descriptor(Some("opt"), 'o', SingleArg, true, Parser(4))
  const Out := Descriptor(Some("out"), 'w', SingleArg, false, Parser(5))
  const X := Descriptor(None, 'x', NoArg, false, Parser(6))
  const End := Descriptor(None, NoShortName, NoArg, false, Parser(0))

  const Table := [EnableA, List, ListAll, Opt, Out, X, End]

  lemma TableIndex()
    ensures HasSentinel(Table) && SentinelPos(Table) == 6
    ensures Init(Table).long == map["enable-a" := EnableA, "list" := List, "list-all" := ListAll, "opt" := Opt, "out" := Out]
    ensures Init(Table).short == map['l' := List, 'o' := Opt, 'w' := Out, 'x' := X]
    ensures Init(Table).catchAll == Parser(0)
  {
    assert IsSentinel(Table[6]);
    assert SentinelPos(Table) == 6;
    assert Entries(Table) == [EnableA, List, ListAll, Opt, Out, X];
    var p0: seq<Descriptor> := [];
    var p1 := p0 + [EnableA];
    var p2 := p1 + [List];
    var p3 := p2 + [ListAll];
    var p4 := p3 + [Opt];
    var p5 := p4 + [Out];
    var p6 := p5 + [X];
    assert p6 == Entries(Table);
    RegisterSnoc(p0, EnableA, ShortKey); RegisterSnoc(p0, EnableA, LongKey);
    RegisterSnoc(p1, List, ShortKey); RegisterSnoc(p1, List, LongKey);
    RegisterSnoc(p2, ListAll, ShortKey); RegisterSnoc(p2, ListAll, LongKey);
    RegisterSnoc(p3, Opt, ShortKey); RegisterSnoc(p3, Opt, LongKey);
    RegisterSnoc(p4, Out, ShortKey); RegisterSnoc(p4, Out, LongKey);
    RegisterSnoc(p5, X, ShortKey); RegisterSnoc(p5, X, LongKey);
  }

  /** A list option takes the run up to the next dash token and leaves that
      token for the next step. */
  lemma ListStopsAtNextOption(accepts: Accepts)
    requires accepts(OptionCall(List, ["f1", "f2"]))
    ensures HasSentinel(Table)
    ensures ParseOpt(["--list", "f1", "f2", "-x"], Init(Table), accepts) == Applied(Consumed(2), [OptionCall(List, ["f1", "f2"])])
  {
    TableIndex();
    var toks := ["--list", "f1", "f2", "-x"];
    assert toks[0][2..] == "list";
    assert toks[1..][..2] == ["f1", "f2"];
  }

  /** Long names sharing a prefix resolve independently. */
  lemma SharedPrefixNamesAreDistinct()
    ensures HasSentinel(Table)
    ensures "list" in Init(Table).long && "list-all" in Init(Table).long
    ensures Init(Table).long["list"] == List && Init(Table).long["list-all"] == ListAll
    ensures "lis" !in Init(Table).long && "list-" !in Init(Table).long
  {
    TableIndex();
  }

  /** An optional single-argument option followed by `-x` is handed `-x` as its
      argument, and the `-x` is consumed rather than dispatched. */
  lemma OptionalSingleTakesFollowingOption(accepts: Accepts)
    requires accepts(OptionCall(Opt, ["-x"]))
    ensures HasSentinel(Table)
    ensures ParseOpt(["--opt", "-x"], Init(Table), accepts) == Applied(Consumed(1), [OptionCall(Opt, ["-x"])])
  {
    TableIndex();
    var toks := ["--opt", "-x"];
    assert toks[0][2..] == "opt";
    assert toks[1..][..1] == ["-x"];
  }

  /** A required single-argument option given last fails the session with
      return code 1 and calls nothing. */
  lemma RequiredSingleLastFails(accepts: Accepts)
    ensures HasSentinel(Table)
    ensures Run(["prog", "--out"], Table, accepts) == RunResult(Returned(1), [])
  {
    TableIndex();
    var toks := ["--out"];
    assert toks[0][2..] == "out";
    assert Args(["prog", "--out"]) == toks;
    assert ParseOpt(toks, Init(Table), accepts) == Applied(Failed(MissingArgument), []);
    ScanOption(toks, Init(Table), accepts);
  }

  /** Positional arguments around a flag reach the catch-all in order. */
  lemma PositionalAroundFlag(accepts: Accepts)
    requires accepts(OptionCall(EnableA, []))
    ensures HasSentinel(Table)
    ensures Run(["prog", "a", "--enable-a", "b"], Table, accepts).trace ==
      [OptionCall(EnableA, []), CatchAllCall(0, ["a", "b"], Table)]
  {
    TableIndex();
    var idx := Init(Table);
    var toks := ["a", "--enable-a", "b"];
    assert Args(["prog", "a", "--enable-a", "b"]) == toks;
    assert toks[1..][0][2..] == "enable-a";
    ScanPositional(toks, idx, accepts);
    assert toks[1..] == ["--enable-a", "b"];
    ScanOption(toks[1..], idx, accepts);
    assert toks[1..][1..] == ["b"];
    ScanPositional(["b"], idx, accepts);
    assert Scan(toks, idx, accepts) == ScanResult(Finished, [OptionCall(EnableA, [])], ["a", "b"]);
  }

  const First := Descriptor(Some("first"), 'd', NoArg, false, Parser(1))
  const Second := Descriptor(Some("second"), 'd', NoArg, false, Parser(2))

  /** A repeated short name does not make `init` fail: the later entry replaces
      the earlier one. */
  lemma DuplicateShortNameOverwrites()
    ensures HasSentinel([First, Second, End])
    ensures Init([First, Second, End]).short == map['d' := Second]
  {
    var t := [First, Second, End];
    assert IsSentinel(t[2]);
    assert SentinelPos(t) == 2;
    assert Entries(t) == [First] + [Second];
    RegisterSnoc([], First, ShortKey);
    assert [] + [First] == [First];
    RegisterSnoc([First], Second, ShortKey);
  }

  const Help := Descriptor(Some("help"), 'h', HelpOpt, false, Parser(7))

  /** `-h` on a table whose entries all have long names ends in the help screen
      without any handler call in the trace. */
  lemma HelpEndsSession(accepts: Accepts)
    ensures HasSentinel([Help, End])
    ensures Run(["prog", "-h"], [Help, End], accepts) == RunResult(HelpExited, [])
  {
    var t := [Help, End];
    assert IsSentinel(t[1]);
    assert SentinelPos(t) == 1;
    assert Entries(t) == [] + [Help];
    RegisterSnoc([], Help, ShortKey);
    var toks := ["-h"];
    assert Args(["prog", "-h"]) == toks;
    assert toks[0][1] == 'h' && |toks[0]| == 2;
    assert ParseOpt(toks, Init(t), accepts) == Applied(HelpShown, []);
    ScanOption(toks, Init(t), accepts);
  }

  /** The same request on a table holding an entry without a long name runs into
      the help screen's measurement of a missing name. */
  lemma HelpWithShortOnlyEntryIsUndefined(accepts: Accepts)
    ensures HasSentinel([Help, X, End])
    ensures Run(["prog", "-h"], [Help, X, End], accepts) == RunResult(Undefined, [])
  {
    var t := [Help, X, End];
    assert IsSentinel(t[2]);
    assert SentinelPos(t) == 2;
    assert Entries(t) == [Help] + [X];
    assert Entries(t)[1].longName.None?;
    RegisterSnoc([], Help, ShortKey);
    assert [] + [Help] == [Help];
    RegisterSnoc([Help], X, ShortKey);
    var toks := ["-h"];
    assert Args(["prog", "-h"]) == toks;
    assert toks[0][1] == 'h' && |toks[0]| == 2;
    assert ParseOpt(toks, Init(t), accepts) == Applied(HelpShown, []);
    ScanOption(toks, Init(t), accepts);
  }
}
