/**
 * The democracy tally `democracyCount`, a plain JavaScript object from command
 * text to vote count. It is kept as a sequence of entries in the order
 * `Object.entries` enumerates the object: keys that are array indices first, in
 * ascending numeric order, then every other key in insertion order. Reading an
 * absent key yields `undefined` (`None`); `undefined + 1` is `NaN`. The source's
 * object inherits `Object.prototype`, whose properties (`constructor`, `__proto__`,
 * ...) this model does not have: here every absent key reads `undefined`.
 */
module Tally {
  import opened Options

  datatype Count = Votes(n: nat) | NaN
  datatype Entry = Entry(command: string, count: Count)
  type Dict = seq<Entry>

  predicate IsDigit(c: char) { '0' <= c <= '9' }

  /** The value of a numeral read as decimal; a non-digit makes it `None`. */
  function DecimalValue(s: string): Option<nat> {
    if s == [] then Some(0)
    else if !IsDigit(s[|s| - 1]) then None
    else match DecimalValue(s[..|s| - 1])
      case None => None
      case Some(v) => Some(v * 10 + (s[|s| - 1] as int - '0' as int))
  }

  /** A canonical decimal numeral below 2^32 - 1: the property keys JavaScript enumerates first. */
  predicate IsArrayIndex(k: string) {
    && |k| > 0
    && (k[0] != '0' || |k| == 1)
    && DecimalValue(k).Some?
    && DecimalValue(k).value < 0xFFFF_FFFF
  }

  function IndexValue(k: string): nat
    requires IsArrayIndex(k)
  {
    DecimalValue(k).value
  }

  function Keys(d: Dict): (r: seq<string>)
    ensures |r| == |d| && forall i :: 0 <= i < |d| ==> r[i] == d[i].command
  {
    if d == [] then [] else [d[0].command] + Keys(d[1..])
  }

  /**
   * The enumeration-order invariant: an array-index key is only ever preceded by a
   * smaller-or-equal array-index key, so the index keys form an ascending prefix.
   */
  ghost predicate Ordered(ks: seq<string>) {
    forall j :: 0 < j < |ks| && IsArrayIndex(ks[j]) ==>
      IsArrayIndex(ks[j - 1]) && IndexValue(ks[j - 1]) <= IndexValue(ks[j])
  }

  ghost predicate NoDuplicates(ks: seq<string>) {
    ks == [] || (ks[0] !in ks[1..] && NoDuplicates(ks[1..]))
  }

  /** The shape every tally the reducer builds has. */
  ghost predicate WellFormed(d: Dict) {
    Ordered(Keys(d)) && NoDuplicates(Keys(d))
  }

  /** Position of key `k`, if present. */
  function Find(d: Dict, k: string): (r: Option<nat>)
    ensures r.Some? ==> r.value < |d| && d[r.value].command == k
    ensures r.Some? ==> forall j :: 0 <= j < r.value ==> d[j].command != k
    ensures r.None? <==> k !in Keys(d)
  {
    if d == [] then None
    else if d[0].command == k then Some(0)
    else match Find(d[1..], k)
      case None => None
      case Some(i) => Some(i + 1)
  }

  /** `d[k]`: the count stored under `k`, or `undefined`. */
  function Get(d: Dict, k: string): Option<Count> {
    match Find(d, k)
    case None => None
    case Some(i) => Some(d[i].count)
  }

  /** Reading a key of a dictionary that starts with entry `x`. */
  lemma GetCons(x: Entry, d: Dict, k: string)
    ensures Get([x] + d, k) == if x.command == k then Some(x.count) else Get(d, k)
  {
    assert ([x] + d)[1..] == d;
  }

  /** The first entry holding `k` is the one `Find` reports. */
  lemma FindAt(d: Dict, k: string, i: nat)
    requires i < |d| && d[i].command == k
    requires forall j :: 0 <= j < i ==> d[j].command != k
    ensures Find(d, k) == Some(i)
  {
  }

  /** Places a new array-index entry before the first entry that is not an index or is numerically greater. */
  function InsertIndexEntry(d: Dict, e: Entry): (r: Dict)
    requires IsArrayIndex(e.command)
    ensures |r| == |d| + 1
    ensures r[0] == e || (|d| > 0 && r[0] == d[0])
  {
    if d == [] || !IsArrayIndex(d[0].command) || IndexValue(d[0].command) > IndexValue(e.command) then
      [e] + d
    else
      [d[0]] + InsertIndexEntry(d[1..], e)
  }

  /**
   * `r` is `d` with `e` spliced in at position `p`, where every entry before `p` is an
   * array index no greater than `e`'s and the entry at `p`, if any, is not an array
   * index or is a greater one.
   */
  ghost predicate SplicedAt(d: Dict, e: Entry, r: Dict, p: nat)
    requires IsArrayIndex(e.command)
  {
    && p <= |d|
    && r == d[..p] + [e] + d[p..]
    && (forall j :: 0 <= j < p ==> IsArrayIndex(d[j].command) && IndexValue(d[j].command) <= IndexValue(e.command))
    && (p < |d| ==> !IsArrayIndex(d[p].command) || IndexValue(d[p].command) > IndexValue(e.command))
  }

  /** The insertion puts `e` at one position and moves nothing else. */
  lemma {:induction false} InsertIndexEntrySplice(d: Dict, e: Entry)
    requires IsArrayIndex(e.command)
    ensures exists p: nat :: SplicedAt(d, e, InsertIndexEntry(d, e), p)
  {
    var r := InsertIndexEntry(d, e);
    if d == [] || !IsArrayIndex(d[0].command) || IndexValue(d[0].command) > IndexValue(e.command) {
      assert r == d[..0] + [e] + d[0..];
      assert SplicedAt(d, e, r, 0);
    } else {
      var t := d[1..];
      InsertIndexEntrySplice(t, e);
      var q: nat :| SplicedAt(t, e, InsertIndexEntry(t, e), q);
      assert r == [d[0]] + InsertIndexEntry(t, e);
      SpliceCons(d, e, InsertIndexEntry(t, e), q);
      assert SplicedAt(d, e, r, q + 1);
    }
  }

  /** One step of the splice: an index entry no greater than `e` in front shifts the position by one. */
  lemma SpliceCons(d: Dict, e: Entry, rt: Dict, q: nat)
    requires IsArrayIndex(e.command) && d != []
    requires IsArrayIndex(d[0].command) && IndexValue(d[0].command) <= IndexValue(e.command)
    requires SplicedAt(d[1..], e, rt, q)
    ensures SplicedAt(d, e, [d[0]] + rt, q + 1)
  {
    var t := d[1..];
    assert d[..q + 1] == [d[0]] + t[..q];
    assert d[q + 1..] == t[q..];
    forall j | 0 <= j < q + 1
      ensures IsArrayIndex(d[j].command) && IndexValue(d[j].command) <= IndexValue(e.command)
    {
      if j > 0 { assert d[j] == t[j - 1]; }
    }
    if q + 1 < |d| { assert d[q + 1] == t[q]; }
  }

  /** The inserted dictionary holds the old entries and the new one, and nothing else. */
  lemma {:induction false} InsertIndexEntryElements(d: Dict, e: Entry)
    requires IsArrayIndex(e.command)
    ensures forall x :: x in InsertIndexEntry(d, e) ==> x == e || x in d
    ensures forall k :: k in Keys(InsertIndexEntry(d, e)) <==> k in Keys(d) || k == e.command
  {
    var r := InsertIndexEntry(d, e);
    if d == [] || !IsArrayIndex(d[0].command) || IndexValue(d[0].command) > IndexValue(e.command) {
      assert Keys(r) == [e.command] + Keys(d);
    } else {
      var rest := InsertIndexEntry(d[1..], e);
      InsertIndexEntryElements(d[1..], e);
      assert d == [d[0]] + d[1..];
      assert Keys(d) == [d[0].command] + Keys(d[1..]);
      assert Keys(r) == [d[0].command] + Keys(rest);
    }
  }

  /** Reading keys after inserting an absent one: the new key holds its count, the others are untouched. */
  lemma {:induction false} InsertIndexEntryGet(d: Dict, e: Entry, k: string)
    requires IsArrayIndex(e.command) && Find(d, e.command).None?
    ensures Get(InsertIndexEntry(d, e), k) == if k == e.command then Some(e.count) else Get(d, k)
  {
    if d == [] || !IsArrayIndex(d[0].command) || IndexValue(d[0].command) > IndexValue(e.command) {
      GetCons(e, d, k);
    } else {
      var rest := InsertIndexEntry(d[1..], e);
      assert d == [d[0]] + d[1..];
      InsertIndexEntryGet(d[1..], e, k);
      GetCons(d[0], rest, k);
      GetCons(d[0], d[1..], k);
    }
  }

  /** A key may lead an ordered key list when it is an index at or below the list's leading index key. */
  lemma OrderedCons(k: string, ks: seq<string>)
    requires Ordered(ks)
    requires |ks| > 0 && IsArrayIndex(ks[0]) ==> IsArrayIndex(k) && IndexValue(k) <= IndexValue(ks[0])
    ensures Ordered([k] + ks)
  {
    var r := [k] + ks;
    forall j | 0 < j < |r| && IsArrayIndex(r[j])
      ensures IsArrayIndex(r[j - 1]) && IndexValue(r[j - 1]) <= IndexValue(r[j])
    {
      if j > 1 { assert r[j] == ks[j - 1] && r[j - 1] == ks[j - 2]; }
    }
  }

  /** Inserting an array-index key keeps the enumeration order. */
  lemma {:induction false} InsertIndexEntryOrdered(d: Dict, e: Entry)
    requires IsArrayIndex(e.command) && Ordered(Keys(d))
    ensures Ordered(Keys(InsertIndexEntry(d, e)))
  {
    var kd := Keys(d);
    if d == [] || !IsArrayIndex(d[0].command) || IndexValue(d[0].command) > IndexValue(e.command) {
      assert Keys([e] + d) == [e.command] + kd;
      OrderedCons(e.command, kd);
    } else {
      var rest := InsertIndexEntry(d[1..], e);
      var kr := Keys(rest);
      assert Keys([d[0]] + rest) == [d[0].command] + kr;
      assert Keys(d[1..]) == kd[1..];
      InsertIndexEntryOrdered(d[1..], e);
      if rest[0] != e {
        assert kr[0] == kd[1];
      }
      OrderedCons(d[0].command, kr);
    }
  }

  lemma {:induction false} NoDuplicatesAppend(ks: seq<string>, k: string)
    requires NoDuplicates(ks) && k !in ks
    ensures NoDuplicates(ks + [k])
  {
    if ks != [] {
      assert (ks + [k])[1..] == ks[1..] + [k];
      NoDuplicatesAppend(ks[1..], k);
    }
  }

  /** Inserting a key that is absent keeps the keys distinct. */
  lemma {:induction false} InsertIndexEntryDistinct(d: Dict, e: Entry)
    requires IsArrayIndex(e.command) && NoDuplicates(Keys(d)) && e.command !in Keys(d)
    ensures NoDuplicates(Keys(InsertIndexEntry(d, e)))
  {
    var r := InsertIndexEntry(d, e);
    if d == [] || !IsArrayIndex(d[0].command) || IndexValue(d[0].command) > IndexValue(e.command) {
      assert Keys(r)[1..] == Keys(d);
    } else {
      var rest := InsertIndexEntry(d[1..], e);
      assert Keys(d)[1..] == Keys(d[1..]);
      InsertIndexEntryDistinct(d[1..], e);
      InsertIndexEntryElements(d[1..], e);
      assert Keys(r)[1..] == Keys(rest);
    }
  }

  /** `d[k] = v` on a JavaScript object: overwrite in place, or add the new key where enumeration puts it. */
  function Assign(d: Dict, k: string, v: Count): Dict {
    match Find(d, k)
    case Some(i) => d[i := Entry(k, v)]
    case None =>
      if IsArrayIndex(k) then InsertIndexEntry(d, Entry(k, v)) else d + [Entry(k, v)]
  }

  /** `undefined + 1` is `NaN`, `NaN + 1` is `NaN`, a number is incremented. */
  function Incremented(c: Option<Count>): (r: Count)
    ensures c == None ==> r == NaN
    ensures c.Some? && c.value.Votes? ==> r == Votes(c.value.n + 1)
    ensures c.Some? && c.value.NaN? ==> r == NaN
  {
    match c
    case Some(Votes(n)) => Votes(n + 1)
    case _ => NaN
  }

  /** The `.map` of the reset case: assign 0 to every listed command, in list order. */
  function ZeroedFrom(d: Dict, list: seq<string>): Dict
    decreases |list|
  {
    if list == [] then d else ZeroedFrom(Assign(d, list[0], Votes(0)), list[1..])
  }

  function Zeroed(list: seq<string>): Dict {
    ZeroedFrom([], list)
  }

  /** Overwriting the first entry of a key in place. */
  lemma GetReplace(d: Dict, i: nat, e: Entry, k: string)
    requires Find(d, e.command) == Some(i)
    ensures Get(d[i := e], k) == if k == e.command then Some(e.count) else Get(d, k)
  {
    var r := d[i := e];
    if k == e.command {
      FindAt(r, k, i);
    } else {
      match Find(d, k)
      case None =>
        assert forall j :: 0 <= j < |r| ==> r[j].command != k;
      case Some(i') =>
        FindAt(r, k, i');
    }
  }

  /** Appending an entry whose key is absent. */
  lemma GetAppend(d: Dict, e: Entry, k: string)
    requires Find(d, e.command).None?
    ensures Get(d + [e], k) == if k == e.command then Some(e.count) else Get(d, k)
  {
    var r := d + [e];
    if k == e.command {
      FindAt(r, k, |d|);
    } else {
      match Find(d, k)
      case None =>
        assert forall j :: 0 <= j < |r| ==> r[j].command != k;
      case Some(i') =>
        FindAt(r, k, i');
    }
  }

  /** Reading back an assignment: the assigned key holds the new value, every other key is untouched. */
  lemma GetAssign(d: Dict, k: string, v: Count, k': string)
    ensures Get(Assign(d, k, v), k') == if k' == k then Some(v) else Get(d, k')
  {
    match Find(d, k)
    case Some(i) => GetReplace(d, i, Entry(k, v), k');
    case None =>
      if IsArrayIndex(k) {
        InsertIndexEntryGet(d, Entry(k, v), k');
      } else {
        GetAppend(d, Entry(k, v), k');
      }
  }

  /** Every entry after an assignment is an old entry or the assigned one; an existing key keeps its place. */
  lemma AssignElements(d: Dict, k: string, v: Count)
    ensures forall x :: x in Assign(d, k, v) ==> x in d || x == Entry(k, v)
    ensures Find(d, k).Some? ==> Keys(Assign(d, k, v)) == Keys(d)
    ensures Find(d, k).None? ==> |Assign(d, k, v)| == |d| + 1
  {
    match Find(d, k)
    case Some(i) =>
      var r := d[i := Entry(k, v)];
      forall x | x in r ensures x in d || x == Entry(k, v) {
        var j :| 0 <= j < |r| && r[j] == x;
        if j != i { assert d[j] == x; }
      }
    case None =>
      if IsArrayIndex(k) { InsertIndexEntryElements(d, Entry(k, v)); }
  }

  /** Reading every key back after an assignment. */
  lemma GetAssignAll(d: Dict, k: string, v: Count)
    ensures forall k' :: Get(Assign(d, k, v), k') == if k' == k then Some(v) else Get(d, k')
    ensures Find(d, k).Some? ==> Keys(Assign(d, k, v)) == Keys(d)
    ensures Find(d, k).None? ==> |Assign(d, k, v)| == |d| + 1
  {
    forall k' ensures Get(Assign(d, k, v), k') == if k' == k then Some(v) else Get(d, k') {
      GetAssign(d, k, v, k');
    }
    AssignElements(d, k, v);
  }

  /**
   * `d[c] = d[c] + 1`: `c` then reads its incremented count, every other key keeps its
   * count, and a key already present keeps the keys as they were.
   */
  lemma IncrementAt(d: Dict, c: string)
    ensures var r := Assign(d, c, Incremented(Get(d, c)));
      && Get(r, c) == Some(Incremented(Get(d, c)))
      && (forall k :: k != c ==> Get(r, k) == Get(d, k))
      && (Get(d, c).Some? ==> Keys(r) == Keys(d))
  {
    GetAssignAll(d, c, Incremented(Get(d, c)));
  }

  /** Assignment keeps the dictionary in enumeration order and free of duplicate keys. */
  lemma AssignKeepsShape(d: Dict, k: string, v: Count)
    requires WellFormed(d)
    ensures WellFormed(Assign(d, k, v))
  {
    AssignElements(d, k, v);
    if Find(d, k).None? {
      if IsArrayIndex(k) {
        InsertIndexEntryElements(d, Entry(k, v));
        InsertIndexEntryOrdered(d, Entry(k, v));
        InsertIndexEntryDistinct(d, Entry(k, v));
      } else {
        var r := d + [Entry(k, v)];
        assert Keys(r) == Keys(d) + [k];
        NoDuplicatesAppend(Keys(d), k);
        var ks := Keys(r);
        forall j | 0 < j < |ks| && IsArrayIndex(ks[j])
          ensures IsArrayIndex(ks[j - 1]) && IndexValue(ks[j - 1]) <= IndexValue(ks[j])
        {
          assert j < |d|;
          assert ks[j] == Keys(d)[j] && ks[j - 1] == Keys(d)[j - 1];
        }
      }
    }
  }

  /** What the reset builds, read key by key: listed commands hold 0, others what they held before. */
  lemma {:induction false} GetZeroedFrom(d: Dict, list: seq<string>, k: string)
    ensures Get(ZeroedFrom(d, list), k) == if k in list then Some(Votes(0)) else Get(d, k)
    decreases |list|
  {
    if list != [] {
      var d' := Assign(d, list[0], Votes(0));
      assert ZeroedFrom(d, list) == ZeroedFrom(d', list[1..]);
      GetZeroedFrom(d', list[1..], k);
      GetAssign(d, list[0], Votes(0), k);
      assert k in list <==> k == list[0] || k in list[1..];
    }
  }

  lemma {:induction false} ZeroedFromShape(d: Dict, list: seq<string>)
    requires WellFormed(d)
    ensures var r := ZeroedFrom(d, list);
      WellFormed(r) && forall x :: x in r ==> x in d || (x.command in list && x.count == Votes(0))
    decreases |list|
  {
    if list != [] {
      var d' := Assign(d, list[0], Votes(0));
      AssignElements(d, list[0], Votes(0));
      AssignKeepsShape(d, list[0], Votes(0));
      ZeroedFromShape(d', list[1..]);
    }
  }

  /**
   * The reset tally has exactly the listed commands as keys, each holding 0, with no
   * duplicates and the index keys ascending ahead of the others.
   */
  lemma ZeroedExactly(list: seq<string>)
    ensures forall k :: Get(Zeroed(list), k) == if k in list then Some(Votes(0)) else None
    ensures forall x :: x in Zeroed(list) ==> x.command in list && x.count == Votes(0)
    ensures forall k :: k in list <==> k in Keys(Zeroed(list))
    ensures WellFormed(Zeroed(list))
  {
    forall k ensures Get(Zeroed(list), k) == if k in list then Some(Votes(0)) else None {
      GetZeroedFrom([], list, k);
    }
    ZeroedFromShape([], list);
  }

  /** Adding an absent key that is not an array index appends it after every existing key. */
  lemma AssignAppends(d: Dict, k: string, v: Count)
    requires k !in Keys(d) && !IsArrayIndex(k)
    ensures Keys(Assign(d, k, v)) == Keys(d) + [k]
  {
    assert Find(d, k).None?;
    assert Assign(d, k, v) == d + [Entry(k, v)];
    var r := Keys(d + [Entry(k, v)]);
    assert forall i :: 0 <= i < |r| ==> r[i] == (Keys(d) + [k])[i];
  }

  /** No command of the list is an array index; stated by recursion so that each step only looks at the head. */
  ghost predicate NoIndexKeys(list: seq<string>) {
    list == [] || (!IsArrayIndex(list[0]) && NoIndexKeys(list[1..]))
  }

  lemma {:induction false} NoIndexKeysAll(list: seq<string>)
    requires forall k :: k in list ==> !IsArrayIndex(k)
    ensures NoIndexKeys(list)
    decreases |list|
  {
    if list != [] {
      assert list[0] in list;
      assert forall k :: k in list[1..] ==> k in list;
      NoIndexKeysAll(list[1..]);
    }
  }

  /** The first step of the reset, when its command is an absent non-index key: that key goes last. */
  lemma ZeroedFromStep(d: Dict, list: seq<string>) returns (d': Dict)
    requires list != [] && !IsArrayIndex(list[0]) && list[0] !in Keys(d)
    ensures ZeroedFrom(d, list) == ZeroedFrom(d', list[1..])
    ensures Keys(d') == Keys(d) + [list[0]]
  {
    d' := Assign(d, list[0], Votes(0));
    AssignAppends(d, list[0], Votes(0));
  }

  /** After the head of a duplicate-free list goes last, the rest of the list is still absent. */
  lemma TailAbsent(d: Dict, d': Dict, list: seq<string>)
    requires list != [] && NoDuplicates(list) && Keys(d') == Keys(d) + [list[0]]
    requires forall k :: k in list ==> k !in Keys(d)
    ensures forall k :: k in list[1..] ==> k !in Keys(d')
  {
    forall k | k in list[1..] ensures k !in Keys(d') {
      assert k in list;
    }
  }

  lemma AppendHead(a: seq<string>, list: seq<string>)
    requires list != []
    ensures a + [list[0]] + list[1..] == a + list
  {
    assert list == [list[0]] + list[1..];
  }

  /** The reset appends its list's commands after the old keys when none is an array index, present or repeated. */
  lemma {:induction false} ZeroedFromKeys(d: Dict, list: seq<string>)
    requires NoIndexKeys(list) && NoDuplicates(list)
    requires forall k :: k in list ==> k !in Keys(d)
    ensures Keys(ZeroedFrom(d, list)) == Keys(d) + list
    decreases |list|
  {
    if list == [] {
      assert Keys(d) + list == Keys(d);
    } else {
      assert list[0] in list;
      var d' := ZeroedFromStep(d, list);
      TailAbsent(d, d', list);
      ZeroedFromKeys(d', list[1..]);
      AppendHead(Keys(d), list);
    }
  }

  /**
   * When no listed command is an array index and none repeats, the reset tally
   * enumerates its keys exactly in list order, which is the order ties are broken in.
   */
  lemma ZeroedOrder(list: seq<string>)
    requires forall k :: k in list ==> !IsArrayIndex(k)
    requires NoDuplicates(list)
    ensures Keys(Zeroed(list)) == list
  {
    NoIndexKeysAll(list);
    ZeroedFromKeys([], list);
  }
}
