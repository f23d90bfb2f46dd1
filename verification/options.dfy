/** The data model of libgetarg: option descriptors, their kinds, the
    sentinel-terminated option table, and the handler invocations the engine
    performs.  Strings stand for C strings, one `char` per byte. */
module Options {
  import opened Wrappers

  /** The four option kinds.  The header's enum lists only the first three, but
      the dispatcher also switches on a single-argument kind. */
  datatype Kind = HelpOpt | ListArg | NoArg | SingleArg

  /** A handler function pointer: NULL, or an opaque function identified by `id`. */
  datatype Parser = NullParser | Parser(id: nat)

  /** One entry of the option table (`struct option`).  A missing long name is
      `None`; a missing short name is the NUL character.  The two documentation
      strings only serve help rendering and are not modelled. */
  datatype Descriptor = Descriptor(
    longName: Option<string>,
    shortName: char,
    kind: Kind,
    isOptionalArg: bool,
    parse: Parser)

  /** A call of a handler.  Option handlers receive their arguments and their own
      descriptor; the catch-all receives the positional arguments and the whole
      option table. */
  datatype Invocation =
    | OptionCall(opt: Descriptor, args: seq<string>)
    | CatchAllCall(parser: nat, args: seq<string>, table: seq<Descriptor>)

  /** Handlers are opaque: whether a call succeeds (returns zero) is decided by an
      arbitrary predicate that every operation of the engine takes as a parameter. */
  type Accepts = Invocation -> bool

  const NoShortName: char := '\0'

  /** The table terminator: no long name and no short name. */
  predicate IsSentinel(d: Descriptor) {
    d.longName.None? && d.shortName == NoShortName
  }

  predicate HasSentinel(table: seq<Descriptor>) {
    exists k :: 0 <= k < |table| && IsSentinel(table[k])
  }

  /** A token is treated as an option when its first character is a dash. */
  predicate StartsWithDash(s: string) {
    |s| > 0 && s[0] == '-'
  }

  /** A list option without the optional flag: it cannot be bundled in a cluster. */
  predicate IsRequiredList(d: Descriptor) {
    !d.isOptionalArg && d.kind == ListArg
  }

  /** The zero-argument calls of `queue`, in order. */
  function ZeroArgCalls(queue: seq<Descriptor>): (calls: seq<Invocation>)
    ensures |calls| == |queue|
    ensures forall k :: 0 <= k < |queue| ==> calls[k] == OptionCall(queue[k], [])
  {
    seq(|queue|, k requires 0 <= k < |queue| => OptionCall(queue[k], []))
  }

  /** True when no handler call in `trace` is a call of the catch-all. */
  predicate OnlyOptionCalls(trace: seq<Invocation>) {
    forall k :: 0 <= k < |trace| ==> trace[k].OptionCall?
  }
}
