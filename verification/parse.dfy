/** Token resolution (getarg.c:161-217): a token starting with a dash is a long
    option (`--name`), a single short option (`-c`) or a cluster of short options
    (`-abc`).  `toks[0]` is always the option token and `toks[1..]` the tokens
    after it. */
module Parse {
  import opened Wrappers
  import opened Options
  import opened Index
  import opened Apply

  /** A cluster character that makes the whole cluster fail: it names no option,
      or it names a list option that needs its arguments. */
  predicate BadInCluster(c: char, short: map<char, Descriptor>) {
    c !in short || IsRequiredList(short[c])
  }

  /** The failure a bad cluster character causes. */
  function ClusterFailure(c: char, short: map<char, Descriptor>): Failure {
    if c !in short then UnknownOption else IncompatibleCluster
  }

  /** Resolution of every cluster character, left to right, before any handler
      runs (the loop of `parse_short_opt`).  The first bad character decides the
      failure. */
  function ResolveCluster(chars: seq<char>, short: map<char, Descriptor>): (r: Result<seq<Descriptor>, Failure>)
    ensures r.Ok? <==> forall k :: 0 <= k < |chars| ==> !BadInCluster(chars[k], short)
    ensures r.Ok? ==> |r.value| == |chars| && forall k :: 0 <= k < |chars| ==> r.value[k] == short[chars[k]]
    ensures r.Err? ==> exists k :: 0 <= k < |chars| && BadInCluster(chars[k], short)
                                   && (forall j :: 0 <= j < k ==> !BadInCluster(chars[j], short))
                                   && r.error == ClusterFailure(chars[k], short)
  {
    if |chars| == 0 then Ok([])
    else if BadInCluster(chars[0], short) then Err(ClusterFailure(chars[0], short))
    else
      match ResolveCluster(chars[1..], short)
      case Err(e) =>
        ghost var k :| 0 <= k < |chars| - 1 && BadInCluster(chars[1..][k], short)
                       && (forall j :: 0 <= j < k ==> !BadInCluster(chars[1..][j], short))
                       && e == ClusterFailure(chars[1..][k], short);
        assert BadInCluster(chars[k + 1], short);
        Err(e)
      case Ok(q) =>
        assert forall k :: 1 <= k < |chars| ==> chars[k] == chars[1..][k - 1];
        Ok([short[chars[0]]] + q)
  }

  /** `parse_short_opt`.  A two-character token is looked up in the short-name
      table and dispatched normally; a longer one is a cluster whose characters
      are all resolved first and whose handlers are then called with no
      arguments, consuming nothing after the token. */
  function ParseShortOpt(toks: seq<string>, idx: Index, accepts: Accepts): (a: Applied)
    requires |toks| >= 1 && |toks[0]| >= 2
    ensures |toks[0]| == 2 ==> a == ApplyOpt(Lookup(idx.short, toks[0][1]), toks, accepts)
    ensures |toks[0]| == 2 && toks[0][1] !in idx.short ==> a == Applied(Failed(UnknownOption), [])
    ensures |toks[0]| == 2 && toks[0][1] in idx.short ==>
      Accounted(a, idx.short[toks[0][1]], toks[1..], accepts) && a.step != Failed(UnknownOption)
    ensures |toks[0]| > 2 ==>
      var chars := toks[0][1..];
      && (a.step == Consumed(0) || a.step.Failed?)
      && (a.step.Failed? ==> a.step.reason != MissingArgument)
      && ((exists k :: 0 <= k < |chars| && BadInCluster(chars[k], idx.short)) <==>
            (a.step == Failed(UnknownOption) || a.step == Failed(IncompatibleCluster)))
      && (a.step == Failed(UnknownOption) || a.step == Failed(IncompatibleCluster) ==>
            && a.trace == []
            && exists k :: 0 <= k < |chars| && BadInCluster(chars[k], idx.short)
                           && (forall j :: 0 <= j < k ==> !BadInCluster(chars[j], idx.short))
                           && a.step == Failed(ClusterFailure(chars[k], idx.short)))
      && (a.step == Consumed(0) ==> |a.trace| == |chars|)
      && (forall k :: 0 <= k < |a.trace| ==>
            k < |chars| && chars[k] in idx.short && a.trace[k] == OptionCall(idx.short[chars[k]], []))
      && (a.step == Consumed(0) || a.step == Failed(ApplyFailed) ==>
            (a.step == Consumed(0) <==> forall k :: 0 <= k < |a.trace| ==> accepts(a.trace[k])))
      && (a.step == Failed(ApplyFailed) ==>
            && |a.trace| >= 1
            && !accepts(a.trace[|a.trace| - 1])
            && forall k :: 0 <= k < |a.trace| - 1 ==> accepts(a.trace[k]))
  {
    var token := toks[0];
    if |token| == 2 then
      ApplyOpt(Lookup(idx.short, token[1]), toks, accepts)
    else
      match ResolveCluster(token[1..], idx.short)
      case Err(e) => Applied(Failed(e), [])
      case Ok(queue) =>
        var a := ApplyQueue(queue, accepts);
        if a.step.Failed? then Applied(Failed(ApplyFailed), a.trace) else a
  }

  /** `parse_long_opt` with `long_opt_find`: the two leading dashes are stripped
      and the rest must be a registered long name exactly.  A bare `--` is looked
      up under the empty name in a prefix-tree library that is not part of this
      model, so its outcome is left unspecified. */
  function ParseLongOpt(toks: seq<string>, idx: Index, accepts: Accepts): (a: Applied)
    requires |toks| >= 1 && |toks[0]| >= 2
    ensures |toks[0]| == 2 ==> a == Applied(Unspecified, [])
    ensures |toks[0]| > 2 && toks[0][2..] !in idx.long ==> a == Applied(Failed(UnknownOption), [])
    ensures |toks[0]| > 2 ==> a == ApplyOpt(Lookup(idx.long, toks[0][2..]), toks, accepts)
    ensures |toks[0]| > 2 && toks[0][2..] in idx.long ==>
      Accounted(a, idx.long[toks[0][2..]], toks[1..], accepts) && a.step != Failed(UnknownOption)
  {
    var token := toks[0];
    if |token| == 2 then Applied(Unspecified, [])
    else ApplyOpt(Lookup(idx.long, token[2..]), toks, accepts)
  }

  /** `parse_opt`: a second dash selects the long form.  A lone dash makes the
      short-option parser read past the end of the token, which C leaves
      undefined. */
  function ParseOpt(toks: seq<string>, idx: Index, accepts: Accepts): (a: Applied)
    requires |toks| >= 1 && StartsWithDash(toks[0])
    ensures a.step.Consumed? ==> a.step.n < |toks|
    ensures OnlyOptionCalls(a.trace)
    ensures a.step.Consumed? ==> forall k :: 0 <= k < |a.trace| ==> a.trace[k].args == toks[1..1 + a.step.n]
    ensures a.step.Unspecified? <==> toks[0] == "-" || toks[0] == "--"
    ensures a.step.Unspecified? || a.step == HelpShown ==> a.trace == []
    ensures |toks[0]| >= 2 && toks[0][1] == '-' ==> a == ParseLongOpt(toks, idx, accepts)
    ensures |toks[0]| >= 2 && toks[0][1] != '-' ==> a == ParseShortOpt(toks, idx, accepts)
  {
    var token := toks[0];
    if |token| == 1 then
      assert token == "-";
      Applied(Unspecified, [])
    else if token[1] == '-' then ParseLongOpt(toks, idx, accepts)
    else ParseShortOpt(toks, idx, accepts)
  }

  /** A single-argument option takes the next token as its argument even when
      that token looks like another option: the dash test that follows the
      `switch` of `apply_opt` (getarg.c:71-79) is never reached, because every
      case returns. */
  lemma SingleArgSwallowsDashToken(toks: seq<string>, idx: Index, accepts: Accepts)
    requires |toks| >= 2 && |toks[0]| > 2 && toks[0][..2] == "--"
    requires toks[0][2..] in idx.long && idx.long[toks[0][2..]].kind == SingleArg
    requires StartsWithDash(toks[1])
    ensures ParseOpt(toks, idx, accepts).trace == [OptionCall(idx.long[toks[0][2..]], [toks[1]])]
    ensures accepts(OptionCall(idx.long[toks[0][2..]], [toks[1]])) ==> ParseOpt(toks, idx, accepts).step == Consumed(1)
  {
    assert toks[0][1] == toks[0][..2][1];
  }

  /** Inside a cluster only required list options are rejected: a required
      single-argument option is called with no arguments, like every other
      option of the cluster. */
  lemma RequiredSingleRunsInCluster(toks: seq<string>, idx: Index, accepts: Accepts, k: nat)
    requires |toks| >= 1 && |toks[0]| > 2 && toks[0][0] == '-' && toks[0][1] != '-'
    requires forall j :: 1 <= j < |toks[0]| ==> toks[0][j] in idx.short && !IsRequiredList(idx.short[toks[0][j]])
    requires 1 <= k < |toks[0]| && idx.short[toks[0][k]].kind == SingleArg && !idx.short[toks[0][k]].isOptionalArg
    requires forall j :: 1 <= j < k ==> accepts(OptionCall(idx.short[toks[0][j]], []))
    ensures var a := ParseOpt(toks, idx, accepts);
      |a.trace| >= k && a.trace[k - 1] == OptionCall(idx.short[toks[0][k]], [])
  {
    var chars := toks[0][1..];
    var queue := ResolveCluster(chars, idx.short).value;
    var q := ApplyQueue(queue, accepts);
    forall j | 0 <= j < k - 1
      ensures accepts(OptionCall(queue[j], []))
    {
      assert chars[j] == toks[0][j + 1];
    }
    assert chars[k - 1] == toks[0][k];
  }

  /** After `init`, `--name` for a registered, non-empty `name` dispatches the
      entry registered under exactly that name.  (The empty name is the bare
      `--`, whose outcome is left unspecified.) */
  lemma RegisteredLongNameDispatched(table: seq<Descriptor>, name: string, rest: seq<string>, accepts: Accepts)
    requires HasSentinel(table) && name in Init(table).long && name != ""
    ensures var d := Init(table).long[name];
      var toks := [['-', '-'] + name] + rest;
      && d.longName == Some(name)
      && ParseOpt(toks, Init(table), accepts) == ApplyOpt(Some(d), toks, accepts)
      && ParseOpt(toks, Init(table), accepts).step != Failed(UnknownOption)
  {
    LongNameFindsLastEntry(table, name);
    var toks := [['-', '-'] + name] + rest;
    assert toks[0][2..] == name;
  }

  /** After `init`, `-c` for a registered `c` other than a dash dispatches the
      entry registered under `c`. */
  lemma RegisteredShortNameDispatched(table: seq<Descriptor>, c: char, rest: seq<string>, accepts: Accepts)
    requires HasSentinel(table) && c in Init(table).short && c != '-'
    ensures var d := Init(table).short[c];
      var toks := [['-', c]] + rest;
      && d.shortName == c
      && ParseOpt(toks, Init(table), accepts) == ApplyOpt(Some(d), toks, accepts)
      && ParseOpt(toks, Init(table), accepts).step != Failed(UnknownOption)
  {
    ShortNameFindsLastEntry(table, c);
    var toks := [['-', c]] + rest;
    assert toks[0][1] == c;
  }
}
