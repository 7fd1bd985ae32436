/** The lookup of build settings: they are sorted once by key and value, and then searched by key alone. */
module BuildInfo {
  import opened Options

  datatype Setting = Setting(key: string, value: string)

  // strings.Compare
  function Compare(a: string, b: string): (r: int)
    ensures -1 <= r <= 1
  {
    if a == [] && b == [] then 0
    else if a == [] then -1
    else if b == [] then 1
    else if a[0] < b[0] then -1
    else if b[0] < a[0] then 1
    else Compare(a[1..], b[1..])
  }

  lemma {:induction false} CompareEqual(a: string, b: string)
    ensures Compare(a, b) == 0 <==> a == b
  {
    if a != [] && b != [] && a[0] == b[0] {
      CompareEqual(a[1..], b[1..]);
      assert a == [a[0]] + a[1..] && b == [b[0]] + b[1..];
    }
  }

  lemma {:induction false} CompareFlips(a: string, b: string)
    ensures Compare(a, b) == -Compare(b, a)
  {
    if a != [] && b != [] && a[0] == b[0] {
      CompareFlips(a[1..], b[1..]);
    }
  }

  lemma {:induction false} CompareTransitive(a: string, b: string, c: string)
    requires Compare(a, b) <= 0 && Compare(b, c) <= 0
    ensures Compare(a, c) <= 0
  {
    if a != [] && b != [] && c != [] && a[0] == b[0] == c[0] {
      CompareTransitive(a[1..], b[1..], c[1..]);
    }
  }

  // a comes before b: after a common part it ends, or goes on with a smaller character.
  ghost predicate Before(a: string, b: string) {
    exists k: nat :: BeforeAt(a, b, k)
  }

  ghost predicate BeforeAt(a: string, b: string, k: nat) {
    && k <= |a| && k < |b| && (forall i :: 0 <= i < k ==> a[i] == b[i])
    && (k == |a| || a[k] < b[k])
  }

  lemma {:induction false} BeforeIsLess(a: string, b: string, k: nat)
    requires BeforeAt(a, b, k)
    ensures Compare(a, b) == -1
  {
    if k > 0 {
      BeforeIsLess(a[1..], b[1..], k - 1);
    }
  }

  lemma {:induction false} LessIsBefore(a: string, b: string) returns (k: nat)
    requires Compare(a, b) < 0
    ensures BeforeAt(a, b, k)
  {
    k := 0;
    if a != [] && a[0] == b[0] {
      var j := LessIsBefore(a[1..], b[1..]);
      k := j + 1;
      assert forall i :: 0 < i < k ==> a[i] == a[1..][i - 1] && b[i] == b[1..][i - 1];
    }
  }

  // Strings are compared in lexicographic order.
  lemma CompareIsLexicographic(a: string, b: string)
    ensures Compare(a, b) < 0 <==> Before(a, b)
    ensures Compare(a, b) > 0 <==> Before(b, a)
  {
    CompareFlips(a, b);
    if Before(a, b) {
      var k: nat :| BeforeAt(a, b, k);
      BeforeIsLess(a, b, k);
    }
    if Before(b, a) {
      var k: nat :| BeforeAt(b, a, k);
      BeforeIsLess(b, a, k);
    }
    if Compare(a, b) < 0 {
      var k := LessIsBefore(a, b);
    }
    if Compare(b, a) < 0 {
      var k := LessIsBefore(b, a);
    }
  }

  // cmpBuildSettings
  function CompareSettings(a: Setting, b: Setting): int {
    var v := Compare(a.key, b.key);
    if v != 0 then v else Compare(a.value, b.value)
  }

  predicate AtMost(a: Setting, b: Setting) {
    CompareSettings(a, b) <= 0
  }

  // Settings are in the order of their keys, and those with the same key in the order of their values.
  lemma AtMostIsByKeyThenValue(a: Setting, b: Setting)
    ensures AtMost(a, b) <==> Before(a.key, b.key) || (a.key == b.key && !Before(b.value, a.value))
  {
    CompareIsLexicographic(a.key, b.key);
    CompareIsLexicographic(a.value, b.value);
    CompareEqual(a.key, b.key);
  }

  lemma AtMostIsTotalOrder(a: Setting, b: Setting, c: Setting)
    ensures AtMost(a, b) || AtMost(b, a)
    ensures AtMost(a, b) && AtMost(b, a) ==> a == b
    ensures AtMost(a, b) && AtMost(b, c) ==> AtMost(a, c)
  {
    CompareFlips(a.key, b.key);
    CompareFlips(a.value, b.value);
    CompareEqual(a.key, b.key);
    CompareEqual(a.value, b.value);
    CompareEqual(b.key, c.key);
    CompareEqual(a.key, c.key);
    if AtMost(a, b) && AtMost(b, c) {
      CompareTransitive(a.key, b.key, c.key);
      if a.key == c.key {
        CompareFlips(b.key, c.key);
        assert Compare(a.key, b.key) == 0;
        CompareTransitive(a.value, b.value, c.value);
      }
    }
  }

  ghost predicate Sorted(s: seq<Setting>) {
    forall i, j :: 0 <= i < j < |s| ==> AtMost(s[i], s[j])
  }

  lemma FirstIsLeast(s: seq<Setting>, e: Setting)
    requires Sorted(s) && e in s
    ensures AtMost(s[0], e)
  {
    AtMostIsTotalOrder(e, e, e);
    var i :| 0 <= i < |s| && s[i] == e;
  }

  lemma RestOf(s: seq<Setting>)
    requires s != []
    ensures multiset(s[1..]) == multiset(s) - multiset{s[0]}
    ensures Sorted(s) ==> Sorted(s[1..])
  {
    assert s == [s[0]] + s[1..];
  }

  /** Any two sorted arrangements of the same settings are equal, so it does not matter which algorithm the library
      sorts with. */
  lemma {:induction false} SortedIsUnique(a: seq<Setting>, b: seq<Setting>)
    requires Sorted(a) && Sorted(b) && multiset(a) == multiset(b)
    ensures a == b
  {
    assert |a| == |multiset(a)| == |multiset(b)| == |b|;
    if a != [] {
      assert a[0] in multiset(b) && b[0] in multiset(a);
      FirstIsLeast(a, b[0]);
      FirstIsLeast(b, a[0]);
      AtMostIsTotalOrder(a[0], b[0], a[0]);
      RestOf(a);
      RestOf(b);
      SortedIsUnique(a[1..], b[1..]);
      assert a == [a[0]] + a[1..] && b == [b[0]] + b[1..];
    }
  }

  // ---- The simple scan

  // The least value among the entries with the key, if there are any.
  function Scan(s: seq<Setting>, key: string): Option<string> {
    if s == [] then None
    else
      var rest := Scan(s[1..], key);
      if s[0].key != key then rest
      else if rest.None? || Compare(s[0].value, rest.value) <= 0 then Some(s[0].value)
      else rest
  }

  lemma {:induction false} ScanIsLeast(s: seq<Setting>, key: string)
    ensures Scan(s, key).None? <==> forall e :: e in s ==> e.key != key
    ensures Scan(s, key).Some? ==> Setting(key, Scan(s, key).value) in s
    ensures Scan(s, key).Some? ==> forall e :: e in s && e.key == key ==> Compare(Scan(s, key).value, e.value) <= 0
  {
    if s != [] {
      ScanIsLeast(s[1..], key);
      var rest := Scan(s[1..], key);
      assert forall e :: e in s <==> e == s[0] || e in s[1..];
      CompareEqual(s[0].value, s[0].value);
      if s[0].key == key && rest.Some? {
        CompareFlips(s[0].value, rest.value);
        assert s[0] == Setting(key, s[0].value);
        forall e | e in s[1..] && e.key == key && Compare(s[0].value, rest.value) <= 0
          ensures Compare(s[0].value, e.value) <= 0
        {
          CompareTransitive(s[0].value, rest.value, e.value);
        }
      } else if s[0].key == key {
        assert s[0] == Setting(key, s[0].value);
      }
    }
  }

  // ---- Sorting in place, and searching

  /** slices.SortFunc with cmpBuildSettings. */
  method SortSettings(a: array<Setting>)
    modifies a
    ensures Sorted(a[..]) && multiset(a[..]) == multiset(old(a[..]))
  {
    var i := 0;
    while i < a.Length
      invariant 0 <= i <= a.Length
      invariant Sorted(a[..i]) && multiset(a[..]) == multiset(old(a[..]))
    {
      InsertLast(a, i);
      i := i + 1;
    }
    assert a[..i] == a[..];
  }

  // The first i + 1 settings are in order, except for the one at j, which is at most the ones after it.
  ghost predicate SortedBut(s: seq<Setting>, i: nat, j: nat)
    requires j <= i < |s|
  {
    && (forall x, y :: 0 <= x < y <= i && x != j && y != j ==> AtMost(s[x], s[y]))
    && (forall y :: j < y <= i ==> AtMost(s[j], s[y]))
  }

  lemma SwapDown(s: seq<Setting>, i: nat, j: nat)
    requires 0 < j <= i < |s| && SortedBut(s, i, j) && !AtMost(s[j - 1], s[j])
    ensures SortedBut(s[j - 1 := s[j]][j := s[j - 1]], i, j - 1)
  {
    var s' := s[j - 1 := s[j]][j := s[j - 1]];
    AtMostIsTotalOrder(s[j - 1], s[j], s[j]);
    forall x, y | 0 <= x < y <= i && x != j - 1 && y != j - 1
      ensures AtMost(s'[x], s'[y])
    {
      var u, v := if x == j then j - 1 else x, if y == j then j - 1 else y;
      assert s'[x] == s[u] && s'[y] == s[v] && AtMost(s[u], s[v]);
    }
  }

  lemma SortedHere(s: seq<Setting>, i: nat, j: nat)
    requires j <= i < |s| && SortedBut(s, i, j) && (j == 0 || AtMost(s[j - 1], s[j]))
    ensures Sorted(s[..i + 1])
  {
    forall x | 0 <= x < j
      ensures AtMost(s[x], s[j])
    {
      if x < j - 1 {
        AtMostIsTotalOrder(s[x], s[j - 1], s[j]);
      }
    }
  }

  // Moves the i-th setting down to its place among the ones before it.
  method InsertLast(a: array<Setting>, i: nat)
    requires i < a.Length && Sorted(a[..i])
    modifies a
    ensures Sorted(a[..i + 1]) && multiset(a[..]) == multiset(old(a[..]))
  {
    var j := i;
    assert forall x, y :: 0 <= x < y < i ==> a[x] == a[..i][x] && a[y] == a[..i][y];
    while j > 0 && !AtMost(a[j - 1], a[j])
      invariant 0 <= j <= i && SortedBut(a[..], i, j)
      invariant multiset(a[..]) == multiset(old(a[..]))
    {
      ghost var s := a[..];
      SwapDown(s, i, j);
      a[j - 1], a[j] := a[j], a[j - 1];
      assert a[..] == s[j - 1 := s[j]][j := s[j - 1]];
      j := j - 1;
    }
    SortedHere(a[..], i, j);
    assert a[..][..i + 1] == a[..i + 1];
  }

  // Keys that are less than the key come before those that are not.
  lemma KeysInOrder(s: seq<Setting>, i: nat, j: nat, key: string)
    requires Sorted(s) && i <= j < |s|
    ensures Compare(s[j].key, key) < 0 ==> Compare(s[i].key, key) < 0
  {
    if i < j && Compare(s[j].key, key) < 0 {
      assert AtMost(s[i], s[j]);
      CompareTransitive(s[i].key, s[j].key, key);
      if Compare(s[i].key, key) == 0 {
        CompareEqual(s[i].key, key);
        CompareFlips(s[i].key, s[j].key);
      }
    }
  }

  /** slices.BinarySearchFunc with isKey: the leftmost place whose key is not less than the key. */
  method SearchKey(s: seq<Setting>, key: string) returns (idx: nat, found: bool)
    requires Sorted(s)
    ensures idx <= |s|
    ensures forall i :: 0 <= i < idx ==> Compare(s[i].key, key) < 0
    ensures forall i :: idx <= i < |s| ==> Compare(s[i].key, key) >= 0
    ensures found <==> idx < |s| && s[idx].key == key
  {
    var i, j := 0, |s|;
    while i < j
      invariant 0 <= i <= j <= |s|
      invariant forall k :: 0 <= k < i ==> Compare(s[k].key, key) < 0
      invariant forall k :: j <= k < |s| ==> Compare(s[k].key, key) >= 0
    {
      var h := (i + j) / 2;
      forall k | 0 <= k < |s|
        ensures k <= h && Compare(s[h].key, key) < 0 ==> Compare(s[k].key, key) < 0
        ensures h <= k && Compare(s[h].key, key) >= 0 ==> Compare(s[k].key, key) >= 0
      {
        if k <= h {
          KeysInOrder(s, k, h, key);
        } else {
          KeysInOrder(s, h, k, key);
        }
      }
      if Compare(s[h].key, key) < 0 {
        i := h + 1;
      } else {
        j := h;
      }
    }
    idx := i;
    if i < |s| {
      CompareEqual(s[i].key, key);
    }
    found := i < |s| && Compare(s[i].key, key) == 0;
  }

  lemma FirstOfKey(s: seq<Setting>, idx: nat, i: nat)
    requires Sorted(s) && idx <= i < |s| && s[idx].key == s[i].key
    requires Compare(s[i].value, s[idx].value) <= 0
    ensures s[idx] == s[i]
  {
    AtMostIsTotalOrder(s[idx], s[idx], s[idx]);
    assert AtMost(s[idx], s[i]);
    CompareEqual(s[idx].key, s[i].key);
    CompareFlips(s[idx].value, s[i].value);
    CompareEqual(s[idx].value, s[i].value);
  }

  // What the search finds in the sorted settings is what the scan finds in the original ones.
  lemma FoundIsLeast(original: seq<Setting>, s: seq<Setting>, key: string, idx: nat, found: bool)
    requires Sorted(s) && multiset(s) == multiset(original) && idx <= |s|
    requires forall i :: 0 <= i < idx ==> Compare(s[i].key, key) < 0
    requires forall i :: idx <= i < |s| ==> Compare(s[i].key, key) >= 0
    requires found <==> idx < |s| && s[idx].key == key
    ensures Scan(original, key) == if found then Some(s[idx].value) else None
  {
    ScanIsLeast(original, key);
    CompareEqual(key, key);
    assert forall e :: e in original <==> e in multiset(original);
    assert forall e :: e in s <==> e in multiset(s);
    var scan := Scan(original, key);
    if found {
      assert s[idx] in original;
      assert scan.Some? && Setting(key, scan.value) in s;
      var i :| 0 <= i < |s| && s[i] == Setting(key, scan.value);
      assert idx <= i;
      FirstOfKey(s, idx, i);
    } else if scan.Some? {
      var i :| 0 <= i < |s| && s[i] == Setting(key, scan.value);
      AbsentBeyond(s, key, idx, i);
    }
  }

  // If the search stops at another key, no later entry has the key either.
  lemma AbsentBeyond(s: seq<Setting>, key: string, idx: nat, i: nat)
    requires Sorted(s) && idx <= i < |s| && s[i].key == key && Compare(s[idx].key, key) >= 0
    ensures s[idx].key == key
  {
    if idx < i {
      assert AtMost(s[idx], s[i]);
      CompareEqual(s[idx].key, key);
    }
  }

  // value is what the settings have for the key: the least, if there are several.
  ghost predicate IsLeastFor(settings: seq<Setting>, key: string, value: string) {
    Setting(key, value) in settings && forall e :: e in settings && e.key == key ==> !Before(e.value, value)
  }

  lemma ScanIsLeastFor(settings: seq<Setting>, key: string)
    ensures Scan(settings, key).Some? ==> IsLeastFor(settings, key, Scan(settings, key).value)
    ensures Scan(settings, key).None? <==> forall e :: e in settings ==> e.key != key
  {
    ScanIsLeast(settings, key);
    if Scan(settings, key).Some? {
      var v := Scan(settings, key).value;
      forall e | e in settings && e.key == key
        ensures !Before(e.value, v)
      {
        CompareIsLexicographic(v, e.value);
      }
    }
  }

  // Whether some setting has the key.
  ghost predicate HasKey(settings: seq<Setting>, key: string) {
    exists e :: e in settings && e.key == key
  }

  /** getBuildInfoByKey: the settings are sorted in place, then searched. It agrees with the simple scan of the settings
      as they were before sorting. */
  method GetBuildInfoByKey(info: Option<array<Setting>>, key: string) returns (value: string)
    modifies if info.Some? then {info.value} else {}
    ensures info.None? ==> value == "invalid"
    ensures info.Some? ==> value == match Scan(old(info.value[..]), key) case Some(v) => v case None => "unknown"
    ensures info.Some? ==> if HasKey(old(info.value[..]), key) then IsLeastFor(old(info.value[..]), key, value)
                           else value == "unknown"
    ensures info.Some? ==> Sorted(info.value[..]) && multiset(info.value[..]) == multiset(old(info.value[..]))
  {
    if info.None? {
      return "invalid";
    }
    var a := info.value;
    SortSettings(a);
    var idx, found := SearchKey(a[..], key);
    FoundIsLeast(old(a[..]), a[..], key, idx, found);
    ScanIsLeastFor(old(a[..]), key);
    value := if found then a[idx].value else "unknown";
  }
}
