/**
 The ordered cursor scans of `kvstore.py` over one sub-database. A sub-database
 is its ascending key list; a cursor is an index into it.
 */
module KvStore {
  import opened Wrappers
  import opened ByteStrings

  /** `struct.pack(">Q", height)` */
  function HeightKey(height: nat): (key: Bytes)
    requires height < 0x1_0000_0000_0000_0000
    ensures |key| == 8
  {
    Pow256Values();
    BigEndian(height, 8)
  }

  predicate Within(k: Bytes, start: Option<Bytes>, end: Option<Bytes>) {
    && (start.Some? ==> LexLeq(start.value, k))
    && (end.Some? ==> LexLess(k, end.value))
  }

  /** The reference answer of a range scan: keep the keys within the bounds. */
  function Between(keys: seq<Bytes>, start: Option<Bytes>, end: Option<Bytes>): (r: seq<Bytes>)
    ensures forall k :: k in r <==> k in keys && Within(k, start, end)
  {
    if keys == [] then [] else
      assert keys == [keys[0]] + keys[1..];
      (if Within(keys[0], start, end) then [keys[0]] else []) + Between(keys[1..], start, end)
  }

  /** The reference answer of a prefix scan. */
  function WithPrefix(keys: seq<Bytes>, p: Bytes): (r: seq<Bytes>)
    ensures forall k :: k in r <==> k in keys && p <= k
  {
    if keys == [] then [] else
      assert keys == [keys[0]] + keys[1..];
      (if p <= keys[0] then [keys[0]] else []) + WithPrefix(keys[1..], p)
  }

  function Reverse<T>(s: seq<T>): (r: seq<T>)
    ensures |r| == |s|
    ensures forall i :: 0 <= i < |s| ==> r[i] == s[|s| - 1 - i]
  {
    if s == [] then [] else Reverse(s[1..]) + [s[0]]
  }

  lemma {:induction false} ReverseFrom<T>(s: seq<T>, lo: nat, hi: nat)
    requires lo < hi <= |s|
    ensures Reverse(s[lo..hi]) == Reverse(s[lo + 1..hi]) + [s[lo]]
  {
    assert s[lo..hi][1..] == s[lo + 1..hi];
  }

  lemma {:induction false} AscendingCons(k: Bytes, rest: seq<Bytes>)
    requires Ascending(rest)
    requires forall x :: x in rest ==> LexLess(k, x)
    ensures Ascending([k] + rest)
  {
    assert forall i :: 0 <= i < |rest| ==> rest[i] in rest;
  }

  lemma {:induction false} AscendingHead(keys: seq<Bytes>)
    requires Ascending(keys) && keys != []
    ensures Ascending(keys[1..])
    ensures forall x :: x in keys[1..] ==> LexLess(keys[0], x)
  {
  }

  lemma {:induction false} BetweenAscending(keys: seq<Bytes>, start: Option<Bytes>, end: Option<Bytes>)
    requires Ascending(keys)
    ensures Ascending(Between(keys, start, end))
  {
    if keys != [] {
      AscendingHead(keys);
      BetweenAscending(keys[1..], start, end);
      var rest := Between(keys[1..], start, end);
      if Within(keys[0], start, end) {
        AscendingCons(keys[0], rest);
      } else {
        assert Between(keys, start, end) == rest;
      }
    }
  }

  lemma {:induction false} WithPrefixAscending(keys: seq<Bytes>, p: Bytes)
    requires Ascending(keys)
    ensures Ascending(WithPrefix(keys, p))
  {
    if keys != [] {
      AscendingHead(keys);
      WithPrefixAscending(keys[1..], p);
      var rest := WithPrefix(keys[1..], p);
      if p <= keys[0] {
        AscendingCons(keys[0], rest);
      } else {
        assert WithPrefix(keys, p) == rest;
      }
    }
  }

  /** A contiguous piece of the key list that holds exactly the kept keys is the answer. */
  lemma {:induction false} SliceIsBetween(keys: seq<Bytes>, lo: nat, hi: nat, start: Option<Bytes>, end: Option<Bytes>)
    requires Ascending(keys) && lo <= hi <= |keys|
    requires forall i :: 0 <= i < |keys| ==> (Within(keys[i], start, end) <==> lo <= i < hi)
    ensures keys[lo..hi] == Between(keys, start, end)
  {
    BetweenAscending(keys, start, end);
    AscendingUnique(keys[lo..hi], Between(keys, start, end));
  }

  /** `cur.set_range(key)`: the first position at or after `key`. */
  method SetRange(keys: seq<Bytes>, key: Bytes) returns (pos: nat)
    requires Ascending(keys)
    ensures pos <= |keys|
    ensures forall i :: 0 <= i < |keys| ==> (LexLeq(key, keys[i]) <==> pos <= i)
  {
    pos := 0;
    while pos < |keys| && LexLess(keys[pos], key)
      invariant pos <= |keys|
      invariant forall i :: 0 <= i < pos ==> LexLess(keys[i], key)
    {
      pos := pos + 1;
    }
    if pos < |keys| {
      forall i | pos < i < |keys| ensures LexLeq(key, keys[i]) {
        LexLeqLess(key, keys[pos], keys[i]);
        LexTotal(key, keys[i]);
      }
    }
  }

  /** Once a key reaches `end`, every later key does. */
  lemma {:induction false} PastEnd(keys: seq<Bytes>, pos: nat, end: Bytes)
    requires Ascending(keys) && pos < |keys| && !LexLess(keys[pos], end)
    ensures forall i :: pos <= i < |keys| ==> !LexLess(keys[i], end)
  {
    forall i | pos < i < |keys| ensures !LexLess(keys[i], end) {
      if LexLess(keys[i], end) {
        LexTransitive(keys[pos], keys[i], end);
      }
    }
  }

  /** Below a key that is below `start`, every key is. */
  lemma {:induction false} BeforeStart(keys: seq<Bytes>, pos: nat, start: Bytes)
    requires Ascending(keys) && pos < |keys| && !LexLeq(start, keys[pos])
    ensures forall i :: 0 <= i <= pos ==> !LexLeq(start, keys[i])
  {
    forall i | 0 <= i < pos ensures !LexLeq(start, keys[i]) {
      LexTransitive(keys[i], keys[pos], start);
    }
  }

  method RangeForward(keys: seq<Bytes>, start: Option<Bytes>, end: Option<Bytes>)
    returns (out: seq<Bytes>)
    requires Ascending(keys)
    ensures out == Between(keys, start, end)
  {
    out := [];
    var lo := 0;
    if start.Some? {
      lo := SetRange(keys, start.value);
    }
    var pos := lo;
    while pos < |keys| && (end.None? || LexLess(keys[pos], end.value))
      invariant lo <= pos <= |keys|
      invariant out == keys[lo..pos]
      invariant forall i :: lo <= i < pos ==> end.None? || LexLess(keys[i], end.value)
    {
      out := out + [keys[pos]];
      pos := pos + 1;
    }
    if pos < |keys| {
      PastEnd(keys, pos, end.value);
    }
    SliceIsBetween(keys, lo, pos, start, end);
  }

  method RangeBackward(keys: seq<Bytes>, start: Option<Bytes>, end: Option<Bytes>)
    returns (out: seq<Bytes>)
    requires Ascending(keys)
    ensures out == Reverse(Between(keys, start, end))
  {
    hide Reverse, Between, Ascending;
    out := [];
    var hi := |keys|;
    if end.Some? {
      hi := SetRange(keys, end.value);
    }
    var pos := hi;
    assert keys[pos..hi] == [];
    while pos > 0 && (start.None? || LexLeq(start.value, keys[pos - 1]))
      invariant 0 <= pos <= hi
      invariant out == Reverse(keys[pos..hi])
      invariant forall i :: pos <= i < hi ==> start.None? || LexLeq(start.value, keys[i])
    {
      pos := pos - 1;
      ReverseFrom(keys, pos, hi);
      out := out + [keys[pos]];
    }
    if pos > 0 {
      BeforeStart(keys, pos - 1, start.value);
    }
    SliceIsBetween(keys, pos, hi, start, end);
  }

  /** `_LmdbTxn.range` */
  method Range(keys: seq<Bytes>, start: Option<Bytes>, end: Option<Bytes>, reverse: bool)
    returns (out: seq<Bytes>)
    requires Ascending(keys)
    ensures out == if reverse then Reverse(Between(keys, start, end)) else Between(keys, start, end)
  {
    if reverse {
      out := RangeBackward(keys, start, end);
    } else {
      out := RangeForward(keys, start, end);
    }
  }

  /** Keys that extend a prefix sit together in the key list, right after the prefix itself. */
  lemma {:induction false} PrefixContiguous(p: Bytes, a: Bytes, b: Bytes)
    requires LexLeq(p, a) && LexLess(a, b) && p <= b
    ensures p <= a
  {
    assert p == p + [] && b == p + b[|p|..];
    LexBetweenExtensions(p, [], b[|p|..], a);
  }

  lemma {:induction false} PrefixAtOrAfter(p: Bytes, k: Bytes)
    requires p <= k
    ensures LexLeq(p, k)
  {
    assert k == p + k[|p|..] && p == p + [];
    LexCommonPrefix(p, k[|p|..], []);
  }

  /** `_LmdbTxn.iterate` */
  method Iterate(keys: seq<Bytes>, p: Bytes) returns (out: seq<Bytes>)
    requires Ascending(keys)
    ensures out == WithPrefix(keys, p)
  {
    out := [];
    var lo := SetRange(keys, p);
    var pos := lo;
    while pos < |keys| && p <= keys[pos]
      invariant lo <= pos <= |keys|
      invariant out == keys[lo..pos]
      invariant forall i :: lo <= i < pos ==> p <= keys[i]
    {
      out := out + [keys[pos]];
      pos := pos + 1;
    }
    forall i | 0 <= i < |keys| && p <= keys[i] ensures lo <= i < pos {
      PrefixAtOrAfter(p, keys[i]);
      if pos < i {
        PrefixContiguous(p, keys[pos], keys[i]);
      }
    }
    WithPrefixAscending(keys, p);
    AscendingUnique(out, WithPrefix(keys, p));
  }
}
