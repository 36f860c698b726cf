/**
 Packets that belong to other streams, kept in a dictionary (by arg1) of dictionaries (by arg0) of
 FIFO queues.  The specification is a flat map from (arg0, arg1) to queues.
 */
module Stores {
  import opened Bytes
  import opened AdbMessage

  datatype Key = Key(arg0: u32, arg1: u32)

  datatype Entry = Entry(cmd: Cmd, data: bytes)

  /** The ids of one ADB transaction; `None` is the wildcard. */
  datatype TransactionInfo = TransactionInfo(localId: Option<u32>, remoteId: Option<u32>) {

    predicate ArgsMatch(arg0: u32, arg1: u32, allowZeros: bool) {
      if !allowZeros then localId == Some(arg1) && (remoteId.None? || arg0 == remoteId.value)
      else (arg1 == 0 || localId == Some(arg1)) && (remoteId.None? || arg0 == 0 || arg0 == remoteId.value)
    }
  }

  /** Either id may be zero if that is allowed; the remote id does not matter while it is not known. */
  lemma ArgsMatchIs(info: TransactionInfo, arg0: u32, arg1: u32, allowZeros: bool)
    ensures info.ArgsMatch(arg0, arg1, allowZeros) <==>
            && (info.localId == Some(arg1) || (allowZeros && arg1 == 0))
            && (info.remoteId.None? || info.remoteId == Some(arg0) || (allowZeros && arg0 == 0))
  {
  }

  // ---- The flat map.  It is generic in what the queues hold, so that other modules can
  // ---- queue the identity of a packet where the store queues its contents.

  type Flat<T> = map<Key, seq<T>>

  function Queue<T>(f: Flat<T>, k: Key): seq<T> {
    if k in f then f[k] else []
  }

  /** A CLSE does not open a new entry. */
  function FlatPut<T>(f: Flat<T>, k: Key, x: T, isClse: bool): Flat<T> {
    if k !in f && isClse then f else f[k := Queue(f, k) + [x]]
  }

  /** Taking a CLSE deletes the entry, with whatever is queued behind it. */
  function FlatGet<T>(f: Flat<T>, k: Key, isClse: bool): Flat<T>
    requires Queue(f, k) != []
  {
    if isClse then f - {k} else f[k := f[k][1..]]
  }

  predicate Wild(pattern: Option<u32>, arg: u32) {
    pattern.None? || pattern.value == arg
  }

  predicate Hit<T(==)>(f: Flat<T>, arg0: Option<u32>, arg1: Option<u32>, k: Key) {
    Queue(f, k) != [] && Wild(arg0, k.arg0) && Wild(arg1, k.arg1)
  }

  predicate HitAllowZeros<T(==)>(f: Flat<T>, arg0: Option<u32>, arg1: Option<u32>, k: Key) {
    || Hit(f, arg0, arg1, k)
    || Hit(f, arg0, Some(0), k)
    || Hit(f, Some(0), arg1, k)
    || Hit(f, Some(0), Some(0), k)
  }

  /** What `find_allow_zeros` tries, in this order. */
  function Patterns(arg0: Option<u32>, arg1: Option<u32>): (ps: seq<(Option<u32>, Option<u32>)>)
    ensures |ps| == 4
  {
    [(arg0, arg1), (arg0, Some(0)), (Some(0), arg1), (Some(0), Some(0))]
  }

  /** The key hits pattern `i`, and none before it has a hit. */
  predicate HitsFirst<T(==)>(f: Flat<T>, arg0: Option<u32>, arg1: Option<u32>, i: nat, k: Key)
    requires i < 4
  {
    var ps := Patterns(arg0, arg1);
    && Hit(f, ps[i].0, ps[i].1, k)
    && forall j, other | 0 <= j < i && other in f :: !Hit(f, ps[j].0, ps[j].1, other)
  }

  ghost predicate NoHit<T>(f: Flat<T>, arg0: Option<u32>, arg1: Option<u32>) {
    forall k :: !Hit(f, arg0, arg1, k)
  }

  lemma FirstOfFour<T>(f: Flat<T>, arg0: Option<u32>, arg1: Option<u32>, i: nat, k: Key)
    requires i < 4 && HitsFirst(f, arg0, arg1, i, k)
    ensures i == 0 ==> Hit(f, arg0, arg1, k)
    ensures i == 1 ==> NoHit(f, arg0, arg1) && Hit(f, arg0, Some(0), k)
    ensures i == 2 ==> NoHit(f, arg0, arg1) && NoHit(f, arg0, Some(0)) && Hit(f, Some(0), arg1, k)
    ensures i == 3 ==> NoHit(f, arg0, arg1) && NoHit(f, arg0, Some(0)) && NoHit(f, Some(0), arg1)
    ensures i == 3 ==> Hit(f, Some(0), Some(0), k)
  {
    var ps := Patterns(arg0, arg1);
    assert ps[0] == (arg0, arg1) && ps[1] == (arg0, Some(0)) && ps[2] == (Some(0), arg1) && ps[3] == (Some(0), Some(0));
    forall j, other | 0 <= j < i ensures !Hit(f, ps[j].0, ps[j].1, other) {
      assert Hit(f, ps[j].0, ps[j].1, other) ==> other in f;
    }
  }

  /** What `find` or `find_allow_zeros` may give `read`. */
  predicate Found<T(==)>(f: Flat<T>, info: TransactionInfo, allowZeros: bool, k: Key) {
    if allowZeros then exists i | 0 <= i < 4 :: HitsFirst(f, info.remoteId, info.localId, i, k)
    else Hit(f, info.remoteId, info.localId, k)
  }

  /** Where there is a hit, there is one of the first pattern that has any. */
  lemma SomeHitsFirst<T>(f: Flat<T>, arg0: Option<u32>, arg1: Option<u32>, i: nat, k: Key)
    returns (first: nat, one: Key)
    requires i < 4 && Hit(f, Patterns(arg0, arg1)[i].0, Patterns(arg0, arg1)[i].1, k)
    ensures first < 4 && HitsFirst(f, arg0, arg1, first, one)
  {
    var ps := Patterns(arg0, arg1);
    if j, other :| 0 <= j < i && other in f && Hit(f, ps[j].0, ps[j].1, other) {
      first, one := SomeHitsFirst(f, arg0, arg1, j, other);
    } else {
      first, one := i, k;
    }
  }

  /** What `read` looks for in the store. */
  predicate IndexMatch<T(==)>(f: Flat<T>, info: TransactionInfo, allowZeros: bool, k: Key) {
    if allowZeros then HitAllowZeros(f, info.remoteId, info.localId, k)
    else Hit(f, info.remoteId, info.localId, k)
  }

  /** What `read` should look for: a packet waiting under a key that `args_match` accepts. */
  predicate Waiting<T(==)>(f: Flat<T>, info: TransactionInfo, allowZeros: bool, k: Key) {
    Queue(f, k) != [] && info.ArgsMatch(k.arg0, k.arg1, allowZeros)
  }

  /**
   The index of the store and the predicate for packets off the wire agree on every store exactly
   when the transaction has a local id (the one of `connect` has none, and never reads the store).
   */
  lemma IndexAgreesWithPredicate(info: TransactionInfo, allowZeros: bool)
    ensures (forall f: Flat<Entry>, k :: IndexMatch(f, info, allowZeros, k) <==> Waiting(f, info, allowZeros, k))
        <==> info.localId.Some?
  {
    if info.localId.None? {
      var k := Key(if info.remoteId.Some? then info.remoteId.value else 7, 7);
      var f: Flat<Entry> := map[k := [Entry(OKAY, [])]];
      assert IndexMatch(f, info, allowZeros, k) && !Waiting(f, info, allowZeros, k);
    }
  }

  /** `read` finds something exactly if something waits for it. */
  lemma FoundIfWaiting<T>(f: Flat<T>, info: TransactionInfo, allowZeros: bool, k: Key) returns (one: Key)
    requires info.localId.Some?
    requires Waiting(f, info, allowZeros, k)
    ensures Found(f, info, allowZeros, one)
  {
    one := k;
    if allowZeros {
      var i := if Hit(f, info.remoteId, info.localId, k) then 0 else if Hit(f, info.remoteId, Some(0), k) then 1
               else if Hit(f, Some(0), info.localId, k) then 2 else 3;
      var first;
      first, one := SomeHitsFirst(f, info.remoteId, info.localId, i, k);
    }
  }

  /** And what it finds is for it. */
  lemma FoundIsWaiting<T>(f: Flat<T>, info: TransactionInfo, allowZeros: bool, k: Key)
    requires info.localId.Some? && Found(f, info, allowZeros, k)
    ensures Waiting(f, info, allowZeros, k)
  {
  }

  type Nested = map<u32, map<u32, seq<Entry>>>

  /** The nested dictionary holds exactly the queues of the flat map, and no empty inner dictionary. */
  ghost predicate Represents(d: Nested, f: Flat<Entry>) {
    && (forall k :: k in f <==> k.arg1 in d && k.arg0 in d[k.arg1])
    && (forall k | k in f :: f[k] == d[k.arg1][k.arg0])
    && (forall arg1 | arg1 in d :: d[arg1] != map[])
  }

  function Row(d: Nested, arg1: u32): map<u32, seq<Entry>> {
    if arg1 in d then d[arg1] else map[]
  }

  lemma RepresentsSet(d: Nested, f: Flat<Entry>, arg0: u32, arg1: u32, queue: seq<Entry>)
    requires Represents(d, f)
    ensures Represents(d[arg1 := Row(d, arg1)[arg0 := queue]], f[Key(arg0, arg1) := queue])
  {
    var d', f' := d[arg1 := Row(d, arg1)[arg0 := queue]], f[Key(arg0, arg1) := queue];
    forall k: Key
      ensures k in f' <==> k.arg1 in d' && k.arg0 in d'[k.arg1]
    {
      assert k == Key(k.arg0, k.arg1);
      assert k in f <==> k.arg1 in d && k.arg0 in d[k.arg1];
    }
    assert arg0 in d'[arg1];
  }

  lemma RepresentsDelete(d: Nested, f: Flat<Entry>, arg0: u32, arg1: u32)
    requires Represents(d, f)
    requires arg1 in d && arg0 in d[arg1]
    ensures var row := d[arg1] - {arg0};
            Represents(if row == map[] then d - {arg1} else d[arg1 := row], f - {Key(arg0, arg1)})
  {
    var row := d[arg1] - {arg0};
    var d', f' := if row == map[] then d - {arg1} else d[arg1 := row], f - {Key(arg0, arg1)};
    forall k: Key
      ensures k in f' <==> k.arg1 in d' && k.arg0 in d'[k.arg1]
    {
      assert k == Key(k.arg0, k.arg1);
      assert k in f <==> k.arg1 in d && k.arg0 in d[k.arg1];
      assert k.arg1 == arg1 && k.arg0 != arg0 && row == map[] ==> k.arg0 !in row;
    }
  }

  class PacketStore {
    var dict: Nested
    ghost var contents: Flat<Entry>

    ghost predicate Valid()
      reads this
    {
      Represents(dict, contents)
    }

    constructor ()
      ensures Valid() && contents == map[]
    {
      dict, contents := map[], map[];
    }

    /** The queue under a key becomes `queue`, its row and its entry being made if need be. */
    method SetQueue(key: Key, queue: seq<Entry>)
      requires Valid()
      modifies this
      ensures Valid() && contents == old(contents)[key := queue]
    {
      RepresentsSet(dict, contents, key.arg0, key.arg1, queue);
      var row: map<u32, seq<Entry>> := Row(dict, key.arg1)[key.arg0 := queue];
      dict, contents := dict[key.arg1 := row], contents[key := queue];
    }

    method Clear(arg0: u32, arg1: u32)
      requires Valid()
      modifies this
      ensures Valid() && contents == old(contents) - {Key(arg0, arg1)}
    {
      if arg1 in dict && arg0 in dict[arg1] {
        RepresentsDelete(dict, contents, arg0, arg1);
        var row: map<u32, seq<Entry>> := dict[arg1] - {arg0};
        dict := if row == map[] then dict - {arg1} else dict[arg1 := row];
        contents := contents - {Key(arg0, arg1)};
      } else {
        assert contents == contents - {Key(arg0, arg1)};
      }
    }

    method ClearAll()
      modifies this
      ensures Valid() && contents == map[]
    {
      dict, contents := map[], map[];
    }

    /** The first hit in dictionary order; which one that is is left open. */
    method Find(arg0: Option<u32>, arg1: Option<u32>) returns (r: Option<Key>)
      requires Valid()
      ensures r.Some? ==> Hit(contents, arg0, arg1, r.value)
      ensures r.None? ==> forall k :: !Hit(contents, arg0, arg1, k)
      ensures r.Some? ==>
          && r.value in contents && contents[r.value] != []
          && (arg0.None? || arg0 == Some(r.value.arg0)) && (arg1.None? || arg1 == Some(r.value.arg1))
      ensures r.None? ==>
          forall k | k in contents && (arg0.None? || arg0 == Some(k.arg0)) && (arg1.None? || arg1 == Some(k.arg1)) ::
            contents[k] == []
    {
      assert forall k | k in contents && (arg0.None? || arg0 == Some(k.arg0)) && (arg1.None? || arg1 == Some(k.arg1)) ::
          contents[k] != [] ==> Hit(contents, arg0, arg1, k);
      if dict == map[] {
        return None;
      }
      if arg1.None? {
        if arg0.None? {
          if key1, key0 :| key1 in dict && key0 in dict[key1] && dict[key1][key0] != [] {
            return Some(Key(key0, key1));
          }
          return None;
        }
        if key1, key0 :| key1 in dict && key0 in dict[key1] && key0 == arg0.value && dict[key1][key0] != [] {
          return Some(Key(arg0.value, key1));
        }
        return None;
      }
      if arg1.value !in dict {
        return None;
      }
      if arg0.None? {
        if key0 :| key0 in dict[arg1.value] && dict[arg1.value][key0] != [] {
          return Some(Key(key0, arg1.value));
        }
        return None;
      }
      if arg0.value in dict[arg1.value] && dict[arg1.value][arg0.value] != [] {
        return Some(Key(arg0.value, arg1.value));
      }
      return None;
    }

    /** The patterns are tried in their order: the hit is one of the first that has any. */
    method FindAllowZeros(arg0: Option<u32>, arg1: Option<u32>) returns (r: Option<Key>)
      requires Valid()
      ensures r.Some? ==> HitAllowZeros(contents, arg0, arg1, r.value)
      ensures r.Some? ==> exists i :: 0 <= i < 4 && HitsFirst(contents, arg0, arg1, i, r.value)
      ensures r.Some? ==>
          || Hit(contents, arg0, arg1, r.value)
          || (NoHit(contents, arg0, arg1) && Hit(contents, arg0, Some(0), r.value))
          || (NoHit(contents, arg0, arg1) && NoHit(contents, arg0, Some(0)) && Hit(contents, Some(0), arg1, r.value))
          || (NoHit(contents, arg0, arg1) && NoHit(contents, arg0, Some(0)) && NoHit(contents, Some(0), arg1)
              && Hit(contents, Some(0), Some(0), r.value))
      ensures r.None? ==> forall k :: !HitAllowZeros(contents, arg0, arg1, k)
    {
      var patterns := Patterns(arg0, arg1);
      ghost var f := contents;
      for i := 0 to |patterns|
        invariant forall j, k | 0 <= j < i :: !Hit(f, patterns[j].0, patterns[j].1, k)
      {
        r := Find(patterns[i].0, patterns[i].1);
        if r.Some? {
          assert HitsFirst(f, arg0, arg1, i, r.value);
          FirstOfFour(f, arg0, arg1, i, r.value);
          return;
        }
      }
      r := None;
      forall k
        ensures !HitAllowZeros(f, arg0, arg1, k)
      {
        assert !Hit(f, patterns[0].0, patterns[0].1, k) && !Hit(f, patterns[1].0, patterns[1].1, k);
        assert !Hit(f, patterns[2].0, patterns[2].1, k) && !Hit(f, patterns[3].0, patterns[3].1, k);
      }
    }

    /** `get`, for a caller that has checked that something is there. */
    method Get(arg0: Option<u32>, arg1: Option<u32>) returns (key: Key, entry: Entry)
      requires Valid()
      requires exists k :: Hit(contents, arg0, arg1, k)
      modifies this
      ensures Valid()
      ensures Hit(old(contents), arg0, arg1, key)
      ensures entry == old(contents)[key][0]
      ensures contents == FlatGet(old(contents), key, entry.cmd == CLSE)
      ensures contents == if entry.cmd == CLSE then old(contents) - {key}
                          else old(contents)[key := old(contents)[key][1..]]
    {
      ghost var f := contents;
      ghost var k :| Hit(f, arg0, arg1, k);
      if arg0.None? || arg1.None? {
        var found := Find(arg0, arg1);
        key := found.value;
      } else {
        key := Key(arg0.value, arg1.value);
      }
      entry := dict[key.arg1][key.arg0][0];
      SetQueue(key, dict[key.arg1][key.arg0][1..]);
      if entry.cmd == CLSE {
        Clear(key.arg0, key.arg1);
        assert contents == f - {key};
      }
    }

    method Put(arg0: u32, arg1: u32, cmd: Cmd, data: bytes)
      requires Valid()
      modifies this
      ensures Valid()
      ensures contents == FlatPut(old(contents), Key(arg0, arg1), Entry(cmd, data), cmd == CLSE)
      ensures var k, f := Key(arg0, arg1), old(contents);
              contents == if k in f then f[k := f[k] + [Entry(cmd, data)]]
                          else if cmd == CLSE then f
                          else f[k := [Entry(cmd, data)]]
    {
      var k := Key(arg0, arg1);
      assert k in contents <==> arg1 in dict && arg0 in dict[arg1];
      var queue := [];
      if arg1 in dict {
        if arg0 in dict[arg1] {
          queue := dict[arg1][arg0];
        } else if cmd == CLSE {
          return;
        }
      } else if cmd == CLSE {
        return;
      }
      assert [] + [Entry(cmd, data)] == [Entry(cmd, data)];
      SetQueue(k, queue + [Entry(cmd, data)]);
    }
  }
}
