/**
 * The example add-in's check of its command group against what the host remembers: the ids the
 * host stored for the group are compared with the ids the add-in defines, order ignored, and a
 * mismatch makes the add-in ask the host to ignore the stored group.
 */
module Example {

  /** `CMD_PMP_ID`: the only command id the example add-in defines. */
  const CMD_PMP_ID: int := 1

  ghost predicate Sorted(s: seq<int>) {
    forall i, j | 0 <= i < j < |s| :: s[i] <= s[j]
  }

  /** Every element of `s` is at least `v`. */
  ghost predicate AtLeast(v: int, s: seq<int>) {
    forall k | 0 <= k < |s| :: v <= s[k]
  }

  /** A value no larger than any element of a sorted list may go in front of it. */
  lemma ConsSorted(v: int, s: seq<int>)
    requires Sorted(s) && AtLeast(v, s)
    ensures Sorted([v] + s)
  {
  }

  /** A lower bound of every element of a multiset is a lower bound of any list holding it. */
  lemma AtLeastByMultiset(v: int, s: seq<int>, t: seq<int>, x: int)
    requires AtLeast(v, t) && v <= x && multiset(s) == multiset(t) + multiset{x}
    ensures AtLeast(v, s)
  {
    forall k | 0 <= k < |s| ensures v <= s[k] {
      assert s[k] in multiset(s);
      if s[k] != x {
        assert s[k] in multiset(t);
        assert s[k] in t;
      }
    }
  }

  /** Inserting into a sorted list keeps it sorted and adds exactly that element. */
  function Insert(x: int, s: seq<int>): (r: seq<int>)
    requires Sorted(s)
    ensures Sorted(r) && multiset(r) == multiset(s) + multiset{x}
  {
    if s == [] || x <= s[0] then
      assert AtLeast(x, s);
      ConsSorted(x, s);
      [x] + s
    else
      assert s == [s[0]] + s[1..];
      var rest := Insert(x, s[1..]);
      AtLeastByMultiset(s[0], rest, s[1..], x);
      ConsSorted(s[0], rest);
      [s[0]] + rest
  }

  /** `List<int>.Sort()` on a copy: an ascending arrangement of the same elements. */
  function Sort(s: seq<int>): (r: seq<int>)
    ensures Sorted(r) && multiset(r) == multiset(s)
  {
    if s == [] then []
    else
      assert s == [s[0]] + s[1..];
      Insert(s[0], Sort(s[1..]))
  }

  /** The first element of a sorted list is at most every element it holds. */
  lemma SortedHeadIsLeast(s: seq<int>, x: int)
    requires Sorted(s) && x in multiset(s)
    ensures |s| > 0 && s[0] <= x
  {
    assert x in s;
  }

  /** Two lists with the same elements and the same head have tails with the same elements. */
  lemma SameTails(a: seq<int>, b: seq<int>)
    requires |a| > 0 && |b| > 0 && a[0] == b[0] && multiset(a) == multiset(b)
    ensures multiset(a[1..]) == multiset(b[1..])
  {
    assert a == [a[0]] + a[1..] && b == [b[0]] + b[1..];
    var ta, tb := multiset(a[1..]), multiset(b[1..]);
    assert forall y :: ta[y] == multiset(a)[y] - (if y == a[0] then 1 else 0);
    assert forall y :: tb[y] == multiset(b)[y] - (if y == a[0] then 1 else 0);
    assert ta == tb;
  }

  /** There is only one sorted arrangement of a multiset of ids. */
  lemma {:induction false} SortedArrangementIsUnique(a: seq<int>, b: seq<int>)
    requires Sorted(a) && Sorted(b) && multiset(a) == multiset(b)
    ensures a == b
  {
    if a == [] {
      assert |multiset(b)| == 0;
    } else {
      SortedHeadIsLeast(b, a[0]);
      SortedHeadIsLeast(a, b[0]);
      SameTails(a, b);
      SortedArrangementIsUnique(a[1..], b[1..]);
    }
  }

  /** Sorted copies compare equal exactly when the two id lists hold the same ids as often. */
  lemma SortedCopiesEqualIffSameIds(a: seq<int>, b: seq<int>)
    ensures Sort(a) == Sort(b) <==> multiset(a) == multiset(b)
  {
    if multiset(a) == multiset(b) {
      SortedArrangementIsUnique(Sort(a), Sort(b));
    }
  }

  /**
   * `CompareIDs`: sorts copies of both id arrays and compares them element by element. The
   * arrays themselves are not changed.
   */
  method CompareIDs(storedIDs: array<int>, addinIDs: array<int>) returns (same: bool)
    ensures same <==> multiset(storedIDs[..]) == multiset(addinIDs[..])
  {
    var storedList := storedIDs[..];
    var addinList := addinIDs[..];

    addinList := Sort(addinList);
    storedList := Sort(storedList);

    same := addinList == storedList;
    SortedCopiesEqualIffSameIds(addinIDs[..], storedIDs[..]);
  }

  /** The comparison ignores the order of both id lists. */
  lemma SameIdsIgnoreOrder(a: seq<int>, a': seq<int>, b: seq<int>, b': seq<int>)
    requires multiset(a) == multiset(a') && multiset(b) == multiset(b')
    ensures (Sort(a) == Sort(b)) == (Sort(a') == Sort(b'))
  {
    SortedCopiesEqualIffSameIds(a, b);
    SortedCopiesEqualIffSameIds(a', b');
  }

  /**
   * The `ignorePrevious` decision of `AddCommandMgr`: set only when the host returned stored
   * group data and those ids differ from the ids the add-in defines.
   */
  method DecideIgnorePrevious(getDataResult: bool, registryIDs: array<int>) returns (ignorePrevious: bool)
    ensures ignorePrevious <==> getDataResult && multiset(registryIDs[..]) != multiset{CMD_PMP_ID}
  {
    ignorePrevious := false;

    var knownIDs := new int[1];
    knownIDs[0] := CMD_PMP_ID;
    assert knownIDs[..] == [CMD_PMP_ID];

    if getDataResult {
      var same := CompareIDs(registryIDs, knownIDs);
      if !same {
        ignorePrevious := true;
      }
    }
  }
}
