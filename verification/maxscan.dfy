/**
 The running-maximum scan of the playground. One accumulator, `largest`,
 starts at 0, is folded over a flat list of integers, and is then carried
 into a second fold over every inner list of a dictionary whose iteration
 order the language leaves unspecified. The accumulator is replaced only
 when an element is strictly greater than it.
 */
module MaxScan {

  /** The body of both loops: replace the accumulator only on a strict increase. */
  function Step(largest: int, num: int): int {
    if largest < num then num else largest
  }

  /** The mathematical maximum of two integers. */
  function Max(a: int, b: int): int {
    if a <= b then b else a
  }

  /** The loop body's update yields the maximum of the accumulator and the
      element; the strict comparison only decides which of two equal values
      is kept, not the value. */
  lemma StepIsMax(largest: int, num: int)
    ensures Step(largest, num) == Max(largest, num)
  {
  }

  /** `r` is what a running maximum over `s` started at `init` must be:
      no smaller than the start or any element, and either the start
      itself or one of the elements. */
  ghost predicate IsRunningMax(r: int, init: int, s: seq<int>) {
    && init <= r
    && (forall i :: 0 <= i < |s| ==> s[i] <= r)
    && (r == init || r in s)
  }

  /** At most one value is a running maximum of a given start and list. */
  lemma RunningMaxUnique(r1: int, r2: int, init: int, s: seq<int>)
    requires IsRunningMax(r1, init, s) && IsRunningMax(r2, init, s)
    ensures r1 == r2
  {
  }

  /** The fold `for num in s { if largest < num { largest = num } }`
      starting from `largest == init`. */
  function ScanMax(init: int, s: seq<int>): (r: int)
    ensures init <= r
    ensures forall i :: 0 <= i < |s| ==> s[i] <= r
    ensures r == init || r in s
    decreases |s|
  {
    if |s| == 0 then init
    else
      var prefix := s[..|s| - 1];
      assert s == prefix + [s[|s| - 1]];
      Step(ScanMax(init, prefix), s[|s| - 1])
  }

  /** The scan ends where it started exactly when no element exceeds the
      start: an element equal to the accumulator does not move it. */
  lemma ScanMaxUnchanged(init: int, s: seq<int>)
    ensures ScanMax(init, s) == init <==> forall i :: 0 <= i < |s| ==> s[i] <= init
  {
  }

  /** With the playground's baseline of 0, a list with no positive element
      leaves the accumulator at 0, and otherwise the result is positive. */
  lemma ZeroFloor(s: seq<int>)
    ensures (forall i :: 0 <= i < |s| ==> s[i] <= 0) ==> ScanMax(0, s) == 0
    ensures (exists i :: 0 <= i < |s| && s[i] > 0) ==> ScanMax(0, s) > 0
  {

  }

  /** Scanning a concatenation is scanning the second part from where the
      first part left the accumulator. */
  lemma {:induction false} ScanMaxAppend(init: int, a: seq<int>, b: seq<int>)
    ensures ScanMax(init, a + b) == ScanMax(ScanMax(init, a), b)
    decreases |b|
  {
    if |b| == 0 {
      assert a + b == a;
    } else {
      var b' := b[..|b| - 1];
      assert (a + b)[..|a + b| - 1] == a + b';
      ScanMaxAppend(init, a, b');
    }
  }

  /** Starting from the larger of two values is taking the larger of the
      start and the scan. */
  lemma ScanMaxFromMax(a: int, b: int, s: seq<int>)
    ensures ScanMax(Max(a, b), s) == Max(a, ScanMax(b, s))
  {

  }

  /** The imperative loop of lines 80-84 and 94-98. Besides the final
      accumulator it returns the ghost `held`: the index of the element whose value
      the accumulator holds, or -1 when it was never replaced. Because the
      comparison is strict, the held element is the FIRST occurrence of the
      maximum, and later equal elements do not displace it. */
  method ScanLoop(init: int, s: seq<int>) returns (largest: int, ghost held: int)
    ensures largest == ScanMax(init, s)
    ensures -1 <= held < |s|
    ensures held == -1 <==> forall j :: 0 <= j < |s| ==> s[j] <= init
    ensures held == -1 ==> largest == init
    ensures 0 <= held ==> init < s[held] == largest
    ensures 0 <= held ==> forall j :: 0 <= j < held ==> s[j] < largest
  {
    largest := init;
    held := -1;
    var i := 0;
    while i < |s|
      invariant 0 <= i <= |s|
      invariant largest == ScanMax(init, s[..i])
      invariant -1 <= held < i
      invariant held == -1 <==> forall j :: 0 <= j < i ==> s[j] <= init
      invariant held == -1 ==> largest == init
      invariant 0 <= held ==> init < s[held] == largest
      invariant 0 <= held ==> forall j :: 0 <= j < held ==> s[j] < largest
      invariant forall j :: 0 <= j < i ==> s[j] <= largest
    {
      assert s[..i + 1][..i] == s[..i];
      var num := s[i];
      if largest < num {
        largest := num;
        held := i;
      }
      i := i + 1;
    }
    assert s[..i] == s;
  }

  /** The running maximum over a sequence of lists: every element of every
      list is scanned, list after list. */
  ghost predicate IsNestedRunningMax(r: int, init: int, lists: seq<seq<int>>) {
    && init <= r
    && (forall i, j :: 0 <= i < |lists| && 0 <= j < |lists[i]| ==> lists[i][j] <= r)
    && (r == init || exists i :: 0 <= i < |lists| && r in lists[i])
  }

  /** Scans the lists in the given order, carrying the accumulator across. */
  function ScanLists(init: int, lists: seq<seq<int>>): (r: int)
    ensures IsNestedRunningMax(r, init, lists)
    decreases |lists|
  {
    if |lists| == 0 then init
    else
      var prefix := lists[..|lists| - 1];
      assert forall i :: 0 <= i < |prefix| ==> prefix[i] == lists[i];
      ScanMax(ScanLists(init, prefix), lists[|lists| - 1])
  }

  /** Two lists scanned in either order give the larger of the two
      single-list scans. */
  lemma ScanTwoListsCommute(init: int, s: seq<int>, t: seq<int>)
    ensures ScanLists(init, [s, t]) == ScanLists(init, [t, s])
    ensures ScanLists(init, [s, t]) == Max(ScanMax(init, s), ScanMax(init, t))
  {

  }

  /** `order` lists every key of `d` exactly once: one possible order in
      which `for (key, value) in d` visits the dictionary. */
  predicate IsEnumeration(order: seq<string>, d: map<string, seq<int>>) {
    && (forall i, j :: 0 <= i < j < |order| ==> order[i] != order[j])
    && (forall i :: 0 <= i < |order| ==> order[i] in d)
    && (forall k :: k in d ==> k in order)
  }

  /** The dictionary's lists, in the order the keys are visited. */
  function Values(d: map<string, seq<int>>, order: seq<string>): seq<seq<int>>
    requires forall i :: 0 <= i < |order| ==> order[i] in d
  {
    seq(|order|, i requires 0 <= i < |order| => d[order[i]])
  }

  /** Visiting one more key scans that key's list after the others. */
  lemma ValuesSnoc(d: map<string, seq<int>>, order: seq<string>, k: string)
    requires forall i :: 0 <= i < |order| ==> order[i] in d
    requires k in d
    ensures forall init :: ScanLists(init, Values(d, order + [k])) == ScanMax(ScanLists(init, Values(d, order)), d[k])
  {
    var lists := Values(d, order + [k]);
    assert lists[..|lists| - 1] == Values(d, order);
  }

  /** All elements of the lists, list after list. */
  function Flatten(lists: seq<seq<int>>): seq<int>
    decreases |lists|
  {
    if |lists| == 0 then [] else Flatten(lists[..|lists| - 1]) + lists[|lists| - 1]
  }

  /** Scanning list after list, carrying the accumulator, is one scan over
      all their elements in the same order. */
  lemma {:induction false} ScanListsIsFlatScan(init: int, lists: seq<seq<int>>)
    ensures ScanLists(init, lists) == ScanMax(init, Flatten(lists))
    decreases |lists|
  {
    if |lists| > 0 {
      var prefix := lists[..|lists| - 1];
      ScanListsIsFlatScan(init, prefix);
      ScanMaxAppend(init, Flatten(prefix), lists[|lists| - 1]);
    }
  }

  /** The order-free meaning of the dictionary scan: no smaller than the
      carried value or any element of any list, and either the carried
      value itself or an element of some list. */
  ghost predicate IsDictRunningMax(r: int, init: int, d: map<string, seq<int>>) {
    && init <= r
    && (forall k, j :: k in d && 0 <= j < |d[k]| ==> d[k][j] <= r)
    && (r == init || exists k :: k in d && r in d[k])
  }

  /** The loop of lines 93-99 for one particular visiting order. */
  function ScanDict(init: int, d: map<string, seq<int>>, order: seq<string>): (r: int)
    requires IsEnumeration(order, d)
    ensures IsDictRunningMax(r, init, d)
  {
    var lists := Values(d, order);
    var r := ScanLists(init, lists);
    assert forall k :: k in d ==> exists i :: 0 <= i < |order| && order[i] == k && lists[i] == d[k];
    assert r != init ==> exists i :: 0 <= i < |lists| && r in lists[i] && order[i] in d && lists[i] == d[order[i]];
    r
  }

  /** At most one value is the dictionary scan of a given start and dictionary. */
  lemma DictRunningMaxUnique(r1: int, r2: int, init: int, d: map<string, seq<int>>)
    requires IsDictRunningMax(r1, init, d) && IsDictRunningMax(r2, init, d)
    ensures r1 == r2
  {
  }

  /** The dictionary scan does not depend on the order in which the keys
      are visited. */
  lemma ScanDictOrderIndependent(init: int, d: map<string, seq<int>>, o1: seq<string>, o2: seq<string>)
    requires IsEnumeration(o1, d) && IsEnumeration(o2, d)
    ensures ScanDict(init, d, o1) == ScanDict(init, d, o2)
  {

  }

  /** Lines 78-100: the flat scan from the baseline 0, then the dictionary
      scan carrying the accumulator on. The keys are taken in an arbitrary
      order, as the language does; whatever order is taken, the result is
      the dictionary scan for every possible order. */
  method FindLargest(numArr: seq<int>, numDict: map<string, seq<int>>) returns (afterArr: int, largest: int)
    ensures afterArr == ScanMax(0, numArr)
    ensures IsDictRunningMax(largest, afterArr, numDict)
    ensures forall order :: IsEnumeration(order, numDict) ==> largest == ScanDict(afterArr, numDict, order)
    ensures forall order :: IsEnumeration(order, numDict) ==>
      largest == ScanMax(0, numArr + Flatten(Values(numDict, order)))
  {
    ghost var held;
    largest, held := ScanLoop(0, numArr);
    afterArr := largest;
    var remaining := numDict.Keys;
    ghost var visited: seq<string> := [];
    while remaining != {}
      invariant remaining <= numDict.Keys
      invariant forall i, j :: 0 <= i < j < |visited| ==> visited[i] != visited[j]
      invariant forall i :: 0 <= i < |visited| ==> visited[i] in numDict && visited[i] !in remaining
      invariant forall k :: k in numDict ==> k in remaining || k in visited
      invariant largest == ScanLists(afterArr, Values(numDict, visited))
      decreases remaining
    {
      var key :| key in remaining;
      var value := numDict[key];
      largest, held := ScanLoop(largest, value);
      ValuesSnoc(numDict, visited, key);
      visited := visited + [key];
      remaining := remaining - {key};
    }
    assert IsEnumeration(visited, numDict);
    forall order | IsEnumeration(order, numDict)
      ensures largest == ScanDict(afterArr, numDict, order)
      ensures largest == ScanMax(0, numArr + Flatten(Values(numDict, order)))
    {
      ScanDictOrderIndependent(afterArr, numDict, visited, order);
      ScanListsIsFlatScan(afterArr, Values(numDict, order));
      ScanMaxAppend(0, numArr, Flatten(Values(numDict, order)));
    }
  }

  /** The playground's flat list. */
  const NumArr: seq<int> := [34, 54, 64, 23, 66, 88]

  /** The playground's dictionary. */
  const NumDict: map<string, seq<int>> := map[
    "my" := [23, 63, 31, 3, 5, 31],
    "your" := [903, 394, 32, 32],
    "her" := [3, 53, 23, 66, 45]
  ]

  /** The playground's values: the flat scan yields 88, and the dictionary
      scan carried on from it yields 903 in every visiting order. */
  lemma PlaygroundValues()
    ensures ScanMax(0, NumArr) == 88
    ensures forall order :: IsEnumeration(order, NumDict) ==> ScanDict(88, NumDict, order) == 903
  {
    assert IsRunningMax(88, 0, NumArr);
    RunningMaxUnique(88, ScanMax(0, NumArr), 0, NumArr);
    assert 903 in NumDict["your"];
    assert IsDictRunningMax(903, 88, NumDict);
    forall order | IsEnumeration(order, NumDict)
      ensures ScanDict(88, NumDict, order) == 903
    {
      DictRunningMaxUnique(903, ScanDict(88, NumDict, order), 88, NumDict);
    }
  }
}
