/**
 * The attribute dictionary that every node and way carries
 * (`nodeAttributes` / `wayAttributes`, a `std::unordered_map<std::string, std::string>`).
 *
 * A dictionary is a `map<string, string>`. The builder fills it one pair at a time
 * (`attrs[k] = v`, modelled by `Put`); `LastValue` and `Dict` are an independent,
 * declarative description of the result: each key maps to the value of its last pair.
 */
module Attributes {
  import opened Wrappers

  /** A key/value pair, as an element's inline attributes and `tag` elements supply them. */
  type Attr = (string, string)

  /** The value of the last pair in `entries` whose key is `k`, if there is one. */
  function LastValue(entries: seq<Attr>, k: string): Option<string>
  {
    if entries == [] then None
    else
      var later := LastValue(entries[1..], k);
      if later.Some? then later
      else if entries[0].0 == k then Some(entries[0].1)
      else None
  }

  /** The distinct keys that occur in `entries`. */
  function KeysOf(entries: seq<Attr>): set<string>
  {
    set i | 0 <= i < |entries| :: entries[i].0
  }

  /** The pairs of `entries` whose key is not in `reserved`, in their order. */
  function Without(entries: seq<Attr>, reserved: set<string>): seq<Attr>
  {
    if entries == [] then []
    else if entries[0].0 in reserved then Without(entries[1..], reserved)
    else [entries[0]] + Without(entries[1..], reserved)
  }

  /** Stores the pairs of `entries` into `m` one after the other, as `m[k] = v` does. */
  function Put(m: map<string, string>, entries: seq<Attr>): map<string, string>
    decreases |entries|
  {
    if entries == [] then m
    else Put(m[entries[0].0 := entries[0].1], entries[1..])
  }

  /** The dictionary that `entries` describe: every key that occurs, mapped to the value of its last pair. */
  function Dict(entries: seq<Attr>): map<string, string>
  {
    map k | k in KeysOf(entries) :: LastValue(entries, k).GetOr("")
  }

  /** Dictionary lookup as an option. */
  function Find(m: map<string, string>, k: string): Option<string>
  {
    if k in m then Some(m[k]) else None
  }

  /** A key has a last value exactly when it occurs, and that value is one of its pairs. */
  lemma {:induction false} LastValueFound(entries: seq<Attr>, k: string)
    ensures LastValue(entries, k).Some? <==> k in KeysOf(entries)
    ensures LastValue(entries, k).Some? ==>
      exists j :: 0 <= j < |entries| && entries[j] == (k, LastValue(entries, k).value)
    decreases |entries|
  {
    if entries != [] {
      LastValueFound(entries[1..], k);
      var later := LastValue(entries[1..], k);
      if later.Some? {
        var j :| 0 <= j < |entries[1..]| && entries[1..][j] == (k, later.value);
        assert entries[j + 1] == (k, later.value);
      }
      assert KeysOf(entries) == {entries[0].0} + KeysOf(entries[1..]) by {
        forall x | x in KeysOf(entries) ensures x in {entries[0].0} + KeysOf(entries[1..]) {
          var i :| 0 <= i < |entries| && entries[i].0 == x;
          if i > 0 { assert entries[1..][i - 1].0 == x; }
        }
        forall x | x in KeysOf(entries[1..]) ensures x in KeysOf(entries) {
          var i :| 0 <= i < |entries[1..]| && entries[1..][i].0 == x;
          assert entries[i + 1].0 == x;
        }
      }
    }
  }

  /** Later pairs win: the last value in `a + b` is `b`'s if `b` has one, else `a`'s. */
  lemma {:induction false} LastValueAppend(a: seq<Attr>, b: seq<Attr>, k: string)
    ensures LastValue(a + b, k) == if LastValue(b, k).Some? then LastValue(b, k) else LastValue(a, k)
    decreases |a|
  {
    if a == [] {
      assert a + b == b;
    } else {
      assert (a + b)[1..] == a[1..] + b;
      LastValueAppend(a[1..], b, k);
    }
  }

  /** Dropping reserved keys hides exactly their values. */
  lemma {:induction false} LastValueWithout(entries: seq<Attr>, reserved: set<string>, k: string)
    ensures LastValue(Without(entries, reserved), k) == if k in reserved then None else LastValue(entries, k)
    decreases |entries|
  {
    if entries != [] {
      LastValueWithout(entries[1..], reserved, k);
      if entries[0].0 !in reserved {
        assert ([entries[0]] + Without(entries[1..], reserved))[1..] == Without(entries[1..], reserved);
      }
    }
  }

  /** Storing pairs one by one leaves each key with the value of its last pair, or its old value. */
  lemma {:induction false} PutFind(m: map<string, string>, entries: seq<Attr>, k: string)
    ensures Find(Put(m, entries), k) == if LastValue(entries, k).Some? then LastValue(entries, k) else Find(m, k)
    decreases |entries|
  {
    if entries != [] {
      PutFind(m[entries[0].0 := entries[0].1], entries[1..], k);
    }
  }

  /** Storing `a` and then `b` is storing `a + b`. */
  lemma {:induction false} PutAppend(m: map<string, string>, a: seq<Attr>, b: seq<Attr>)
    ensures Put(m, a + b) == Put(Put(m, a), b)
    decreases |a|
  {
    if a == [] {
      assert a + b == b;
    } else {
      assert (a + b)[0] == a[0];
      assert (a + b)[1..] == a[1..] + b;
      PutAppend(m[a[0].0 := a[0].1], a[1..], b);
    }
  }

  /** Filling an empty dictionary pair by pair yields exactly the declarative dictionary. */
  lemma PutIsDict(entries: seq<Attr>)
    ensures Put(map[], entries) == Dict(entries)
  {
    var p, d := Put(map[], entries), Dict(entries);
    forall k ensures Find(p, k) == Find(d, k) {
      PutFind(map[], entries, k);
      LastValueFound(entries, k);
    }
    assert p.Keys == d.Keys by {
      forall k ensures k in p <==> k in d {
        assert Find(p, k) == Find(d, k);
      }
    }
    forall k | k in p ensures p[k] == d[k] {
      assert Find(p, k) == Find(d, k);
    }
  }

  /** The dictionary has one entry per distinct key: repeated keys overwrite and do not add entries. */
  lemma DictSize(entries: seq<Attr>)
    ensures Dict(entries).Keys == KeysOf(entries)
    ensures |Dict(entries)| == |KeysOf(entries)|
  {
  }

  /** A fixed enumeration of a set of keys: each key exactly once, in an unspecified order. */
  ghost function Enumeration(keys: set<string>): (r: seq<string>)
    ensures |r| == |keys|
    ensures forall i :: 0 <= i < |r| ==> r[i] in keys
    ensures forall k :: k in keys ==> k in r
    ensures forall i, j :: 0 <= i < j < |r| ==> r[i] != r[j]
    decreases keys
  {
    if keys == {} then []
    else
      var k :| k in keys;
      [k] + Enumeration(keys - {k})
  }

  /** `GetAttributeKey`: the key at `index` of the dictionary's enumeration, or `""` out of range. */
  ghost function KeyAt(m: map<string, string>, index: nat): (k: string)
    ensures index < |m| ==> k in m
    ensures index >= |m| ==> k == ""
  {
    var order := Enumeration(m.Keys);
    if index < |order| then order[index] else ""
  }

  /** Indices `0 .. |m|-1` enumerate every key of `m` exactly once. */
  lemma KeyAtEnumerates(m: map<string, string>)
    ensures forall i, j :: 0 <= i < j < |m| ==> KeyAt(m, i) != KeyAt(m, j)
    ensures forall k :: k in m <==> exists i :: 0 <= i < |m| && KeyAt(m, i) == k
  {
    var order := Enumeration(m.Keys);
    forall k | k in m ensures exists i :: 0 <= i < |m| && KeyAt(m, i) == k {
      var i :| 0 <= i < |order| && order[i] == k;
      assert KeyAt(m, i) == k;
    }
  }

  /** `GetAttribute`: the stored value, or `""` when the key is absent. */
  function ValueOr(m: map<string, string>, k: string): (v: string)
    ensures k in m ==> v == m[k]
    ensures k !in m ==> v == ""
  {
    if k in m then m[k] else ""
  }
}
