/** dag/util.go: the bytes of maps and slices that go into a node's signature. */
module SigningBytes {
  import opened Text

  // ---------- the order of sort.Strings: bytewise, shorter first on a common prefix ----------

  predicate BytesBefore(x: seq<byte>, y: seq<byte>) {
    y != [] && (x == [] || x[0] < y[0] || (x[0] == y[0] && BytesBefore(x[1..], y[1..])))
  }

  ghost predicate FirstDifference(x: seq<byte>, y: seq<byte>, i: int) {
    0 <= i < |x| && i < |y| && x[..i] == y[..i] && x[i] != y[i]
  }

  // One text stands before another when it is a proper prefix or has the smaller byte where they differ.
  lemma {:induction false} BytesBeforeExactly(x: seq<byte>, y: seq<byte>)
    ensures BytesBefore(x, y) <==> x < y || exists i :: FirstDifference(x, y, i) && x[i] < y[i]
  {
    if x != [] && y != [] && x[0] == y[0] {
      BytesBeforeExactly(x[1..], y[1..]);
      assert x == [x[0]] + x[1..] && y == [y[0]] + y[1..];
      if i :| FirstDifference(x, y, i) && x[i] < y[i] {
        assert x[1..][..i - 1] == x[..i][1..] && y[1..][..i - 1] == y[..i][1..];
        assert FirstDifference(x[1..], y[1..], i - 1);
      }
      if i :| FirstDifference(x[1..], y[1..], i) && x[1..][i] < y[1..][i] {
        assert x[..i + 1] == [x[0]] + x[1..][..i] && y[..i + 1] == [y[0]] + y[1..][..i];
        assert FirstDifference(x, y, i + 1);
      }
    } else if x != [] && y != [] && x[0] < y[0] {
      assert FirstDifference(x, y, 0);
    }
  }

  predicate Before(s: string, t: string) {
    BytesBefore(Utf8(s), Utf8(t))
  }

  lemma {:induction false} BytesTotal(x: seq<byte>, y: seq<byte>)
    ensures BytesBefore(x, y) || x == y || BytesBefore(y, x)
    ensures !(BytesBefore(x, y) && BytesBefore(y, x)) && !BytesBefore(x, x)
  {
    if x != [] {
      BytesTotal(x[1..], x[1..]);
      if y != [] && x[0] == y[0] {
        BytesTotal(x[1..], y[1..]);
        assert x == [x[0]] + x[1..] && y == [y[0]] + y[1..];
      }
    }
  }

  lemma {:induction false} BytesTransitive(x: seq<byte>, y: seq<byte>, z: seq<byte>)
    requires BytesBefore(x, y) && BytesBefore(y, z)
    ensures BytesBefore(x, z)
  {
    if x != [] && x[0] == y[0] == z[0] {
      BytesTransitive(x[1..], y[1..], z[1..]);
    }
  }

  lemma Total(s: string, t: string)
    ensures Before(s, t) || s == t || Before(t, s)
    ensures !(Before(s, t) && Before(t, s)) && !Before(s, s)
  {
    BytesTotal(Utf8(s), Utf8(t));
    if Utf8(s) == Utf8(t) {
      Utf8Injective(s, t);
    }
  }

  ghost predicate Increasing(ks: seq<string>) {
    forall i, j :: 0 <= i < j < |ks| ==> Before(ks[i], ks[j])
  }

  // ---------- the sorted keys of a set, defined without an algorithm ----------

  ghost predicate IsFirst(k: string, s: set<string>) {
    k in s && forall x :: x in s && x != k ==> Before(k, x)
  }

  lemma {:induction false} FirstExists(s: set<string>)
    requires s != {}
    ensures exists k :: IsFirst(k, s)
    decreases |s|
  {
    var k :| k in s;
    if s == {k} {
      assert IsFirst(k, s);
    } else {
      FirstExists(s - {k});
      var f :| IsFirst(f, s - {k});
      Total(k, f);
      if Before(f, k) {
        assert IsFirst(f, s);
      } else {
        forall x | x in s && x != k ensures Before(k, x) {
          if x != f {
            assert x in s - {k} && Before(f, x);
            BytesTransitive(Utf8(k), Utf8(f), Utf8(x));
          }
        }
        assert IsFirst(k, s);
      }
    }
  }

  ghost function SortedKeys(s: set<string>): seq<string>
    decreases |s|
  {
    if s == {} then []
    else
      FirstExists(s);
      var k :| IsFirst(k, s);
      [k] + SortedKeys(s - {k})
  }

  // An increasing sequence is the only one with its set of elements.
  lemma {:induction false} IncreasingIsSortedKeys(ks: seq<string>, s: set<string>)
    requires Increasing(ks) && s == (set x | x in ks)
    ensures SortedKeys(s) == ks
    decreases |ks|
  {
    if ks != [] {
      assert ks[0] in s;
      FirstExists(s);
      forall k | IsFirst(k, s) ensures k == ks[0] {
        Total(k, ks[0]);
        assert ks[0] in s;
      }
      var rest := ks[1..];
      forall x | x in s - {ks[0]} ensures x in rest {
        var i :| 0 <= i < |ks| && ks[i] == x;
        assert rest[i - 1] == x;
      }
      forall x | x in rest ensures x != ks[0] {
        Total(x, ks[0]);
      }
      assert s - {ks[0]} == set x | x in rest;
      IncreasingIsSortedKeys(rest, s - {ks[0]});
    } else {
      assert s == {};
    }
  }

  // ---------- sort.Strings, as an insertion sort ----------

  function Insert(k: string, ks: seq<string>): seq<string> {
    if ks == [] || Before(k, ks[0]) then [k] + ks else [ks[0]] + Insert(k, ks[1..])
  }

  function Sort(ks: seq<string>): seq<string> {
    if ks == [] then [] else Insert(ks[0], Sort(ks[1..]))
  }

  lemma {:induction false} InsertSorts(k: string, ks: seq<string>)
    requires Increasing(ks) && k !in ks
    ensures Increasing(Insert(k, ks))
    ensures forall x :: x in Insert(k, ks) <==> x == k || x in ks
  {
    if ks != [] {
      Total(k, ks[0]);
      if Before(k, ks[0]) {
        forall j | 0 <= j < |ks| ensures Before(k, ks[j]) {
          if j > 0 {
            BytesTransitive(Utf8(k), Utf8(ks[0]), Utf8(ks[j]));
          }
        }
      } else {
        InsertSorts(k, ks[1..]);
        var rest := Insert(k, ks[1..]);
        forall j | 0 <= j < |rest| ensures Before(ks[0], rest[j]) {
          assert rest[j] == k || rest[j] in ks[1..];
        }
      }
    }
  }

  lemma {:induction false} SortSorts(ks: seq<string>)
    requires forall i, j :: 0 <= i < j < |ks| ==> ks[i] != ks[j]
    ensures Increasing(Sort(ks))
    ensures forall x :: x in Sort(ks) <==> x in ks
  {
    if ks != [] {
      SortSorts(ks[1..]);
      InsertSorts(ks[0], Sort(ks[1..]));
    }
  }

  // ---------- the bytes ----------

  function Entry(k: string, m: map<string, string>): seq<byte>
    requires k in m
  {
    Utf8(k) + Utf8(m[k])
  }

  // Each key followed by its value, in the order given.
  function Entries(ks: seq<string>, m: map<string, string>): seq<byte>
    requires forall k :: k in ks ==> k in m
  {
    if ks == [] then [] else Entry(ks[0], m) + Entries(ks[1..], m)
  }

  lemma FirstInFront(k: string, s: set<string>, rest: seq<string>)
    requires IsFirst(k, s) && Increasing(rest) && s - {k} == set x | x in rest
    ensures Increasing([k] + rest) && s == set x | x in [k] + rest
  {
    hide Before;
    forall j | 0 <= j < |rest| ensures Before(k, rest[j]) {
      assert rest[j] in s - {k};
    }
    assert s == {k} + (s - {k});
  }

  lemma NothingIncreases()
    ensures Increasing([])
  {
  }

  lemma FirstIsIn(k: string, s: set<string>)
    requires IsFirst(k, s)
    ensures k in s
  {
  }

  lemma {:induction false} SortedKeysIncrease(s: set<string>)
    ensures Increasing(SortedKeys(s)) && s == set x | x in SortedKeys(s)
    decreases |s|
  {
    hide Increasing, IsFirst;
    if s == {} {
      NothingIncreases();
    } else {
      FirstExists(s);
      forall k | IsFirst(k, s)
        ensures Increasing([k] + SortedKeys(s - {k})) && s == set x | x in [k] + SortedKeys(s - {k})
      {
        FirstIsIn(k, s);
        SortedKeysIncrease(s - {k});
        FirstInFront(k, s, SortedKeys(s - {k}));
      }
    }
  }

  ghost function MapBytes(m: map<string, string>): seq<byte> {
    SortedKeysIncrease(m.Keys);
    Entries(SortedKeys(m.Keys), m)
  }

  function SliceBytes(s: seq<string>): seq<byte> {
    if s == [] then [] else Utf8(s[0]) + SliceBytes(s[1..])
  }

  lemma {:induction false} EntriesAppend(ks: seq<string>, k: string, m: map<string, string>)
    requires k in m && forall x :: x in ks ==> x in m
    ensures Entries(ks + [k], m) == Entries(ks, m) + Entry(k, m)
  {
    hide Entry;
    if ks == [] {
      assert ks + [k] == [k];
    } else {
      assert (ks + [k])[1..] == ks[1..] + [k];
      EntriesAppend(ks[1..], k, m);
    }
  }

  lemma NoKeys()
    ensures MapBytes(map[]) == []
  {
    var none: map<string, string> := map[];
    assert none.Keys == {};
  }

  lemma SortedKeysGrow(s: set<string>, k: string)
    requires forall x :: x in s ==> Before(x, k)
    ensures k !in s && SortedKeys(s + {k}) == SortedKeys(s) + [k]
  {
    hide Before, SortedKeys;
    Total(k, k);
    SortedKeysIncrease(s);
    var ks := SortedKeys(s);
    assert forall i :: 0 <= i < |ks| ==> ks[i] in ks;
    assert forall x :: x in ks + [k] <==> x in ks || x == k;
    IncreasingIsSortedKeys(ks + [k], s + {k});
  }

  lemma {:induction false} SameEntries(ks: seq<string>, m: map<string, string>, m': map<string, string>)
    requires forall k :: k in ks ==> k in m && k in m' && m[k] == m'[k]
    ensures Entries(ks, m) == Entries(ks, m')
  {
    if ks != [] {
      SameEntries(ks[1..], m, m');
    }
  }

  // What the bytes of a map are, entry by entry: those of the other entries, then the last key and its
  // value.
  lemma MapBytesGrow(m: map<string, string>, k: string, v: string)
    requires forall x :: x in m ==> Before(x, k)
    ensures MapBytes(map[]) == []
    ensures MapBytes(m[k := v]) == MapBytes(m) + Utf8(k) + Utf8(v)
  {
    hide Utf8, Before, SortedKeys;
    SortedKeysIncrease(m.Keys);
    var ks := SortedKeys(m.Keys);
    SortedKeysGrow(m.Keys, k);
    assert m[k := v].Keys == m.Keys + {k};
    EntriesAppend(ks, k, m[k := v]);
    SameEntries(ks, m, m[k := v]);
    NoKeys();
  }

  lemma {:induction false} InsertKeepsSize(k: string, ks: seq<string>, m: map<string, string>)
    requires k in m && forall x :: x in ks ==> x in m
    ensures forall x :: x in Insert(k, ks) ==> x in m
    ensures |Entries(Insert(k, ks), m)| == |Entries([k] + ks, m)|
  {
    if ks != [] && !Before(k, ks[0]) {
      InsertKeepsSize(k, ks[1..], m);
      assert ([k] + ks)[1..] == ks && ([k] + ks[1..])[1..] == ks[1..];
    }
  }

  lemma {:induction false} SortKeepsSize(ks: seq<string>, m: map<string, string>)
    requires forall x :: x in ks ==> x in m
    ensures forall x :: x in Sort(ks) ==> x in m
    ensures |Entries(Sort(ks), m)| == |Entries(ks, m)|
  {
    if ks != [] {
      SortKeepsSize(ks[1..], m);
      InsertKeepsSize(ks[0], Sort(ks[1..]), m);
      assert ([ks[0]] + Sort(ks[1..]))[1..] == Sort(ks[1..]);
    }
  }

  ghost predicate Enumerates(ks: seq<string>, s: set<string>) {
    && (forall i, j :: 0 <= i < j < |ks| ==> ks[i] != ks[j])
    && (forall k :: k in ks <==> k in s)
  }

  lemma EnumeratesOneMore(ks: seq<string>, k: string, s: set<string>)
    requires Enumerates(ks, s) && k !in s
    ensures Enumerates(ks + [k], s + {k})
  {
  }

  lemma SortOfEnumeration(ks: seq<string>, m: map<string, string>)
    requires Enumerates(ks, m.Keys)
    ensures Sort(ks) == SortedKeys(m.Keys)
    ensures forall x :: x in Sort(ks) ==> x in m
    ensures Entries(Sort(ks), m) == MapBytes(m) && |MapBytes(m)| == |Entries(ks, m)|
  {
    SortKeepsSize(ks, m);
    SortSorts(ks);
    assert m.Keys == set x | x in Sort(ks);
    IncreasingIsSortedKeys(Sort(ks), m.Keys);
  }

  // Go enumerates a map's keys in any order: `:|` picks one freely at each turn.
  method CollectKeys(dataMap: map<string, string>) returns (keys: seq<string>, totalSize: nat)
    ensures Enumerates(keys, dataMap.Keys)
    ensures totalSize == |Entries(keys, dataMap)|
  {
    totalSize := 0;
    keys := [];
    var remaining := dataMap.Keys;
    while remaining != {}
      invariant remaining <= dataMap.Keys
      invariant Enumerates(keys, dataMap.Keys - remaining)
      invariant totalSize == |Entries(keys, dataMap)|
      decreases |remaining|
    {
      var k :| k in remaining;
      EnumeratesOneMore(keys, k, dataMap.Keys - remaining);
      EntriesAppend(keys, k, dataMap);
      keys := keys + [k];
      totalSize := totalSize + |Utf8(k)|;
      totalSize := totalSize + |Utf8(dataMap[k])|;
      assert dataMap.Keys - (remaining - {k}) == dataMap.Keys - remaining + {k};
      remaining := remaining - {k};
    }
    assert dataMap.Keys - remaining == dataMap.Keys;
  }

  lemma EntriesStep(ks: seq<string>, i: nat, m: map<string, string>)
    requires i < |ks| && forall x :: x in ks ==> x in m
    ensures Entries(ks[..i + 1], m) == Entries(ks[..i], m) + Entry(ks[i], m)
  {
    assert ks[..i + 1] == ks[..i] + [ks[i]];
    EntriesAppend(ks[..i], ks[i], m);
  }

  lemma NoEntries(m: map<string, string>)
    ensures Entries([], m) == []
  {
  }

  // The second loop of getMapBytes.
  method WriteEntries(keys: seq<string>, dataMap: map<string, string>) returns (result: seq<byte>)
    requires forall k :: k in keys ==> k in dataMap
    ensures result == Entries(keys, dataMap)
  {
    hide Entries, Utf8;
    NoEntries(dataMap);
    result := [];
    for i := 0 to |keys|
      invariant result == Entries(keys[..i], dataMap)
    {
      EntriesStep(keys, i, dataMap);
      result := result + Utf8(keys[i]);
      result := result + Utf8(dataMap[keys[i]]);
    }
    assert keys[..|keys|] == keys;
  }

  // Whatever the enumeration was, the bytes are those of the sorted keys, and they fill exactly the
  // capacity computed before they are written.
  method GetMapBytes(dataMap: map<string, string>) returns (result: seq<byte>, totalSize: nat)
    ensures result == MapBytes(dataMap)
    ensures totalSize == |result|
  {
    var keys;
    keys, totalSize := CollectKeys(dataMap);
    SortOfEnumeration(keys, dataMap);
    keys := Sort(keys);
    result := WriteEntries(keys, dataMap);
  }

  lemma {:induction false} SliceBytesAppend(s: seq<string>, x: string)
    ensures SliceBytes(s + [x]) == SliceBytes(s) + Utf8(x)
  {
    if s != [] {
      assert (s + [x])[1..] == s[1..] + [x];
      SliceBytesAppend(s[1..], x);
    }
  }

  method GetSliceBytes(dataSlice: seq<string>) returns (result: seq<byte>, totalSize: nat)
    ensures result == SliceBytes(dataSlice)
    ensures totalSize == |result|
  {
    totalSize := 0;
    for i := 0 to |dataSlice|
      invariant totalSize == |SliceBytes(dataSlice[..i])|
    {
      SliceBytesAppend(dataSlice[..i], dataSlice[i]);
      assert dataSlice[..i + 1] == dataSlice[..i] + [dataSlice[i]];
      totalSize := totalSize + |Utf8(dataSlice[i])|;
    }
    result := [];
    for i := 0 to |dataSlice|
      invariant result == SliceBytes(dataSlice[..i])
    {
      SliceBytesAppend(dataSlice[..i], dataSlice[i]);
      assert dataSlice[..i + 1] == dataSlice[..i] + [dataSlice[i]];
      result := result + Utf8(dataSlice[i]);
    }
    assert dataSlice[..|dataSlice|] == dataSlice;
  }
}
