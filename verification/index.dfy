/** Index construction (`init`, getarg.c:135-148): the scan of the option table
    up to its sentinel, filling the short-name table and the long-name trie, and
    picking the sentinel's handler as the catch-all.  The trie is modelled by the
    map from a long name to the descriptor stored at the end of its path. */
module Index {
  import opened Wrappers
  import opened Options

  datatype Index = Index(
    short: map<char, Descriptor>,
    long: map<string, Descriptor>,
    catchAll: Parser)

  /** Position of the first sentinel: the table scan stops there. */
  function SentinelPos(table: seq<Descriptor>): (k: nat)
    requires HasSentinel(table)
    ensures k < |table| && IsSentinel(table[k])
    ensures forall j :: 0 <= j < k ==> !IsSentinel(table[j])
  {
    if IsSentinel(table[0]) then 0
    else
      var k :| 0 <= k < |table| && IsSentinel(table[k]);
      assert IsSentinel(table[1..][k - 1]);
      1 + SentinelPos(table[1..])
  }

  /** The entries `init` registers: everything before the first sentinel. */
  function Entries(table: seq<Descriptor>): seq<Descriptor>
    requires HasSentinel(table)
  {
    table[..SentinelPos(table)]
  }

  /** The key an entry is registered under in the short-name table. */
  function ShortKey(d: Descriptor): Option<char> {
    if d.shortName == NoShortName then None else Some(d.shortName)
  }

  /** The key an entry is registered under in the long-name trie. */
  function LongKey(d: Descriptor): Option<string> {
    d.longName
  }

  /** Registration in table order: each entry is stored under its key, replacing
      whatever an earlier entry stored there. */
  function Register<K>(es: seq<Descriptor>, key: Descriptor -> Option<K>): map<K, Descriptor>
  {
    if |es| == 0 then map[]
    else
      var m := Register(es[..|es| - 1], key);
      var d := es[|es| - 1];
      match key(d)
      case None => m
      case Some(k) => m[k := d]
  }

  lemma RegisterSnoc<K>(es: seq<Descriptor>, d: Descriptor, key: Descriptor -> Option<K>)
    ensures Register(es + [d], key) == if key(d).Some? then Register(es, key)[key(d).value := d] else Register(es, key)
  {
    assert (es + [d])[..|es|] == es;
  }

  /** Reference search: the position of the last entry registered under `k`,
      or -1 when there is none. */
  function LastWith<K(==)>(es: seq<Descriptor>, key: Descriptor -> Option<K>, k: K): (p: int)
    ensures -1 <= p < |es|
    ensures p >= 0 ==> key(es[p]) == Some(k)
    ensures forall j :: p < j < |es| ==> key(es[j]) != Some(k)
  {
    if |es| == 0 then -1
    else if key(es[|es| - 1]) == Some(k) then |es| - 1
    else LastWith(es[..|es| - 1], key, k)
  }

  /** Index built by `init`. */
  function Init(table: seq<Descriptor>): (idx: Index)
    requires HasSentinel(table)
    ensures idx.catchAll == table[SentinelPos(table)].parse
    ensures NoShortName !in idx.short
  {
    var es := Entries(table);
    RegisterNeverNul(es);
    Index(Register(es, ShortKey), Register(es, LongKey), table[SentinelPos(table)].parse)
  }

  lemma {:induction false} RegisterNeverNul(es: seq<Descriptor>)
    ensures NoShortName !in Register(es, ShortKey)
  {
    if |es| > 0 {
      RegisterNeverNul(es[..|es| - 1]);
    }
  }

  /** Registration and the reference search agree: a key is present exactly when
      some entry carries it, and it maps to the last such entry. */
  lemma {:induction false} RegisterIsLast<K>(es: seq<Descriptor>, key: Descriptor -> Option<K>, k: K)
    ensures k in Register(es, key) <==> LastWith(es, key, k) >= 0
    ensures k in Register(es, key) ==> Register(es, key)[k] == es[LastWith(es, key, k)]
  {
    if |es| > 0 {
      RegisterIsLast(es[..|es| - 1], key, k);
    }
  }

  /** `-c` looks up the last entry before the sentinel whose short name is `c`;
      a later entry with the same short name silently replaces an earlier one. */
  lemma ShortNameFindsLastEntry(table: seq<Descriptor>, c: char)
    requires HasSentinel(table)
    ensures var es := Entries(table);
      var p := LastWith(es, ShortKey, c);
      && (c in Init(table).short <==> c != NoShortName && exists j :: 0 <= j < |es| && es[j].shortName == c)
      && (c in Init(table).short ==> 0 <= p < |es| && Init(table).short[c] == es[p]
                                      && es[p].shortName == c
                                      && forall j :: p < j < |es| ==> es[j].shortName != c)
  {
    var es := Entries(table);
    RegisterIsLast(es, ShortKey, c);
    var p := LastWith(es, ShortKey, c);
    if c != NoShortName && exists j :: 0 <= j < |es| && es[j].shortName == c {
      var j :| 0 <= j < |es| && es[j].shortName == c;
      assert ShortKey(es[j]) == Some(c);
    }
    if c != NoShortName {
      forall j | p < j < |es|
        ensures es[j].shortName != c
      {
        assert ShortKey(es[j]) != Some(c);
      }
    }
  }

  /** `--name` looks up the last entry before the sentinel whose long name is
      exactly `name`; no other name, in particular no prefix or extension of it,
      leads to that entry. */
  lemma LongNameFindsLastEntry(table: seq<Descriptor>, name: string)
    requires HasSentinel(table)
    ensures var es := Entries(table);
      var p := LastWith(es, LongKey, name);
      && (name in Init(table).long <==> exists j :: 0 <= j < |es| && es[j].longName == Some(name))
      && (name in Init(table).long ==> 0 <= p < |es| && Init(table).long[name] == es[p]
                                        && es[p].longName == Some(name)
                                        && forall j :: p < j < |es| ==> es[j].longName != Some(name))
  {
    var es := Entries(table);
    RegisterIsLast(es, LongKey, name);
    if exists j :: 0 <= j < |es| && es[j].longName == Some(name) {
      var j :| 0 <= j < |es| && es[j].longName == Some(name);
      assert LongKey(es[j]) == Some(name);
    }
  }

  /** The catch-all is the handler of the first sentinel; entries after it are
      never registered. */
  lemma CatchAllIsFirstSentinel(table: seq<Descriptor>, k: nat)
    requires k < |table| && IsSentinel(table[k])
    requires forall j :: 0 <= j < k ==> !IsSentinel(table[j])
    ensures HasSentinel(table)
    ensures Init(table).catchAll == table[k].parse
    ensures Entries(table) == table[..k]
  {
    var p := SentinelPos(table);
    assert !(p < k) && !(k < p);
  }

  /** No two entries share a short name or a long name. */
  predicate UniqueNames(es: seq<Descriptor>) {
    forall i, j :: 0 <= i < j < |es| ==>
      && (es[i].shortName == es[j].shortName ==> es[i].shortName == NoShortName)
      && (es[i].longName == es[j].longName ==> es[i].longName.None?)
  }

  /** With unique names every registered name resolves to its own entry, so an
      entry carrying both forms is reached the same way by either. */
  lemma UniqueNamesResolveToOwner(table: seq<Descriptor>, k: nat)
    requires HasSentinel(table)
    requires UniqueNames(Entries(table))
    requires k < |Entries(table)|
    ensures var d := Entries(table)[k];
      && (d.shortName != NoShortName ==> d.shortName in Init(table).short && Init(table).short[d.shortName] == d)
      && (d.longName.Some? ==> d.longName.value in Init(table).long && Init(table).long[d.longName.value] == d)
  {
    var es := Entries(table);
    var d := es[k];
    if d.shortName != NoShortName {
      RegisterIsLast(es, ShortKey, d.shortName);
      var p := LastWith(es, ShortKey, d.shortName);
      assert ShortKey(es[k]) == Some(d.shortName);
      assert p == k;
    }
    if d.longName.Some? {
      RegisterIsLast(es, LongKey, d.longName.value);
      var p := LastWith(es, LongKey, d.longName.value);
      assert LongKey(es[k]) == Some(d.longName.value);
      assert p == k;
    }
  }
}
