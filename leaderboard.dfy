/**
 * The leaderboard of src/app.ts: finished games ranked by grid size, then
 * score (high first), then time, then moves (low first), with at most ten
 * entries kept per grid size. Everything here is a function of the list and
 * the new entry; the controller stores the result in its field.
 */
module Leaderboard {

  /** `LeaderboardEntry`: the `date` is the locale date string of the day the game ended. */
  datatype Entry = Entry(
    name: string,
    time: int,
    moves: int,
    score: int,
    gridSize: int,
    date: string,
    difficulty: string)

  /** `maxEntries` in `addToLeaderboard`: entries kept per grid size. */
  const MaxPerDifficulty: nat := 10
  /** The length of the slice the all-difficulties view shows. */
  const MaxShownAll: nat := 20

  function Min(a: nat, b: nat): nat {
    if a <= b then a else b
  }

  /** `getDifficultyName`: the label stored with an entry of the given grid size. */
  function DifficultyName(gridSize: int): (d: string)
    ensures d == "Easy" <==> gridSize == 4
    ensures d == "Medium" <==> gridSize == 6
    ensures d == "Hard" <==> gridSize == 8
    ensures d == "Custom" <==> gridSize != 4 && gridSize != 6 && gridSize != 8
  {
    if gridSize == 4 then "Easy"
    else if gridSize == 6 then "Medium"
    else if gridSize == 8 then "Hard"
    else "Custom"
  }

  /** The comparator passed to `sort`: negative when `a` belongs before `b`. */
  function Compare(a: Entry, b: Entry): int {
    if a.gridSize != b.gridSize then a.gridSize - b.gridSize
    else if a.score != b.score then b.score - a.score
    else if a.time != b.time then a.time - b.time
    else a.moves - b.moves
  }

  /** `a` may stand before `b` in a sorted leaderboard. */
  predicate Precedes(a: Entry, b: Entry) {
    Compare(a, b) <= 0
  }

  /** The comparator is the lexicographic order on (grid size ascending, score descending, time ascending, moves ascending). */
  lemma CompareIsLexicographic(a: Entry, b: Entry)
    ensures Compare(a, b) < 0 <==>
      a.gridSize < b.gridSize
      || (a.gridSize == b.gridSize && a.score > b.score)
      || (a.gridSize == b.gridSize && a.score == b.score && a.time < b.time)
      || (a.gridSize == b.gridSize && a.score == b.score && a.time == b.time && a.moves < b.moves)
    ensures Compare(a, b) == 0 <==>
      a.gridSize == b.gridSize && a.score == b.score && a.time == b.time && a.moves == b.moves
    ensures Compare(b, a) == -Compare(a, b)
  {
  }

  /** `Precedes` is a total preorder, so sorting by it is well defined. */
  lemma PrecedesTotalPreorder(a: Entry, b: Entry, c: Entry)
    ensures Precedes(a, b) || Precedes(b, a)
    ensures Precedes(a, b) && Precedes(b, c) ==> Precedes(a, c)
  {
  }

  ghost predicate Sorted(s: seq<Entry>) {
    forall i, j :: 0 <= i < j < |s| ==> Precedes(s[i], s[j])
  }

  ghost predicate PrecedesAll(x: Entry, s: seq<Entry>) {
    forall k :: 0 <= k < |s| ==> Precedes(x, s[k])
  }

  lemma PrecedesAllSub(x: Entry, u: seq<Entry>, v: seq<Entry>)
    requires multiset(u) <= multiset(v) && PrecedesAll(x, v)
    ensures PrecedesAll(x, u)
  {
    forall k | 0 <= k < |u| ensures Precedes(x, u[k]) {
      assert u[k] in multiset(u);
      assert u[k] in v;
    }
  }

  /** One step of a stable insertion sort: `x` goes after every entry that does not rank strictly below it. */
  function Insert(t: seq<Entry>, x: Entry): seq<Entry>
  {
    if t == [] then [x]
    else if Compare(x, t[0]) < 0 then [x] + t
    else [t[0]] + Insert(t[1..], x)
  }

  lemma {:induction false} InsertMultiset(t: seq<Entry>, x: Entry)
    ensures multiset(Insert(t, x)) == multiset(t) + multiset{x}
  {
    if t != [] && Compare(x, t[0]) >= 0 {
      InsertMultiset(t[1..], x);
      assert t == [t[0]] + t[1..];
    }
  }

  lemma {:induction false} InsertSorted(t: seq<Entry>, x: Entry)
    requires Sorted(t)
    ensures Sorted(Insert(t, x))
  {
    if t == [] {
    } else if Compare(x, t[0]) < 0 {
      forall j | 0 <= j < |t| ensures Precedes(x, t[j]) {
        PrecedesTotalPreorder(x, t[0], t[j]);
      }
    } else {
      var rest := Insert(t[1..], x);
      InsertSorted(t[1..], x);
      InsertMultiset(t[1..], x);
      CompareIsLexicographic(x, t[0]);
      assert PrecedesAll(t[0], t[1..] + [x]) by {
        forall k | 0 <= k < |t[1..] + [x]| ensures Precedes(t[0], (t[1..] + [x])[k]) {
          if k < |t| - 1 {
            assert (t[1..] + [x])[k] == t[k + 1];
          }
        }
      }
      assert multiset(rest) == multiset(t[1..] + [x]);
      PrecedesAllSub(t[0], rest, t[1..] + [x]);
      ConsSorted(t[0], rest);
    }
  }

  /** Putting an entry that precedes all of a sorted list in front keeps it sorted. */
  lemma ConsSorted(x: Entry, rest: seq<Entry>)
    requires Sorted(rest) && PrecedesAll(x, rest)
    ensures Sorted([x] + rest)
  {
    var r := [x] + rest;
    forall i, j | 0 <= i < j < |r| ensures Precedes(r[i], r[j]) {
      if i > 0 {
        assert r[i] == rest[i - 1] && r[j] == rest[j - 1];
      } else {
        assert r[j] == rest[j - 1];
      }
    }
  }

  /** The list after `sort` with the comparator above. */
  function Sort(s: seq<Entry>): seq<Entry>
  {
    if s == [] then [] else Insert(Sort(s[..|s| - 1]), s[|s| - 1])
  }

  /** Sorting yields an ordered permutation of the list. */
  lemma {:induction false} SortSpec(s: seq<Entry>)
    ensures Sorted(Sort(s))
    ensures multiset(Sort(s)) == multiset(s)
    ensures |Sort(s)| == |s|
  {
    if s != [] {
      var init := s[..|s| - 1];
      SortSpec(init);
      InsertSorted(Sort(init), s[|s| - 1]);
      InsertMultiset(Sort(init), s[|s| - 1]);
      assert s == init + [s[|s| - 1]];
    }
    assert |multiset(Sort(s))| == |Sort(s)|;
  }

  /** The entries of `s` that tie `e` on all four keys, in list order. */
  function Ties(s: seq<Entry>, e: Entry): (r: seq<Entry>)
    ensures |r| <= |s|
    ensures forall k :: 0 <= k < |r| ==> Compare(r[k], e) == 0
  {
    if s == [] then []
    else (if Compare(s[0], e) == 0 then [s[0]] else []) + Ties(s[1..], e)
  }

  lemma {:induction false} TiesConcat(a: seq<Entry>, b: seq<Entry>, e: Entry)
    ensures Ties(a + b, e) == Ties(a, e) + Ties(b, e)
  {
    if a == [] {
      assert a + b == b;
    } else {
      var head := if Compare(a[0], e) == 0 then [a[0]] else [];
      assert (a + b)[0] == a[0];
      assert (a + b)[1..] == a[1..] + b;
      assert Ties(a + b, e) == head + Ties(a[1..] + b, e);
      TiesConcat(a[1..], b, e);
      assert Ties(a, e) == head + Ties(a[1..], e);
    }
  }

  /** A list none of whose entries ties `e` has no ties of `e`. */
  lemma {:induction false} TiesNone(s: seq<Entry>, e: Entry)
    requires forall k :: 0 <= k < |s| ==> Compare(s[k], e) != 0
    ensures Ties(s, e) == []
  {
    if s != [] {
      TiesNone(s[1..], e);
    }
  }

  /** An entry that ranks strictly above `y` does not tie anything `y` precedes. */
  lemma AboveDoesNotTie(x: Entry, y: Entry, z: Entry, e: Entry)
    requires Compare(x, y) < 0 && Precedes(y, z) && Compare(x, e) == 0
    ensures Compare(z, e) != 0
  {
  }

  lemma SortedTail(t: seq<Entry>)
    requires t != [] && Sorted(t)
    ensures Sorted(t[1..])
  {
    forall i, j | 0 <= i < j < |t[1..]| ensures Precedes(t[1..][i], t[1..][j]) {
      assert t[1..][i] == t[i + 1] && t[1..][j] == t[j + 1];
    }
  }

  /** Inserting into a sorted list puts `x` after every entry it ties. */
  lemma {:induction false} InsertTies(t: seq<Entry>, x: Entry, e: Entry)
    requires Sorted(t)
    ensures Ties(Insert(t, x), e) == Ties(t, e) + (if Compare(x, e) == 0 then [x] else [])
  {
    var tail := if Compare(x, e) == 0 then [x] else [];
    if t == [] {
      assert Ties([x], e) == tail + Ties([], e);
    } else if Compare(x, t[0]) < 0 {
      assert ([x] + t)[1..] == t;
      assert Ties([x] + t, e) == tail + Ties(t, e);
      if Compare(x, e) == 0 {
        forall k | 0 <= k < |t| ensures Compare(t[k], e) != 0 {
          assert Precedes(t[0], t[k]);
          AboveDoesNotTie(x, t[0], t[k], e);
        }
        TiesNone(t, e);
      }
    } else {
      var head := if Compare(t[0], e) == 0 then [t[0]] else [];
      var rest := Insert(t[1..], x);
      SortedTail(t);
      InsertTies(t[1..], x, e);
      assert ([t[0]] + rest)[1..] == rest;
      assert Ties([t[0]] + rest, e) == head + Ties(rest, e);
      assert Ties(t, e) == head + Ties(t[1..], e);
    }
  }

  /**
   * The sort is stable, like `Array.prototype.sort`: entries that tie on all
   * four keys keep their relative order.
   */
  lemma {:induction false} SortStable(s: seq<Entry>, e: Entry)
    ensures Ties(Sort(s), e) == Ties(s, e)
  {
    if s != [] {
      var init := s[..|s| - 1];
      SortStable(init, e);
      SortSpec(init);
      InsertTies(Sort(init), s[|s| - 1], e);
      assert s == init + [s[|s| - 1]];
      TiesConcat(init, [s[|s| - 1]], e);
    }
  }

  /** A new entry sorts after every older entry with the same four keys. */
  lemma RecordNewEntryLast(lb: seq<Entry>, e: Entry)
    ensures Ties(Sort(lb + [e]), e) == Ties(lb, e) + [e]
  {
    SortStable(lb + [e], e);
    TiesConcat(lb, [e], e);
  }

  /** `filter(entry => entry.gridSize === g)`: the entries of one grid size, in list order. */
  function OfSize(s: seq<Entry>, g: int): (r: seq<Entry>)
    ensures |r| <= |s|
    ensures forall k :: 0 <= k < |r| ==> r[k].gridSize == g
  {
    if s == [] then []
    else (if s[0].gridSize == g then [s[0]] else []) + OfSize(s[1..], g)
  }

  /** The number of entries of grid size `g`. */
  function Count(s: seq<Entry>, g: int): nat {
    |OfSize(s, g)|
  }

  /** How often an entry occurs among the entries of size `g`: as often as in the whole list when it has that size, else never. */
  lemma {:induction false} OfSizeMultiplicity(s: seq<Entry>, g: int, x: Entry)
    ensures multiset(OfSize(s, g))[x] == if x.gridSize == g then multiset(s)[x] else 0
  {
    if s != [] {
      OfSizeMultiplicity(s[1..], g, x);
      assert s == [s[0]] + s[1..];
    }
  }

  /** Entries of one size depend only on which entries the list holds, not on their order. */
  lemma OfSizePermutation(s: seq<Entry>, t: seq<Entry>, g: int)
    requires multiset(s) == multiset(t)
    ensures multiset(OfSize(s, g)) == multiset(OfSize(t, g))
    ensures Count(s, g) == Count(t, g)
  {
    forall x ensures multiset(OfSize(s, g))[x] == multiset(OfSize(t, g))[x] {
      OfSizeMultiplicity(s, g, x);
      OfSizeMultiplicity(t, g, x);
    }
    assert multiset(OfSize(s, g)) == multiset(OfSize(t, g));
    assert |multiset(OfSize(s, g))| == |OfSize(s, g)|;
    assert |multiset(OfSize(t, g))| == |OfSize(t, g)|;
  }

  lemma OfSizeAppend(s: seq<Entry>, x: Entry, g: int)
    ensures multiset(OfSize(s + [x], g)) == multiset(OfSize(s, g)) + (if x.gridSize == g then multiset{x} else multiset{})
  {
    forall y ensures multiset(OfSize(s + [x], g))[y] == (multiset(OfSize(s, g)) + (if x.gridSize == g then multiset{x} else multiset{}))[y] {
      OfSizeMultiplicity(s + [x], g, y);
      OfSizeMultiplicity(s, g, y);
      assert multiset(s + [x]) == multiset(s) + multiset{x};
    }
  }

  lemma OfSizeSub(s: seq<Entry>, g: int)
    ensures multiset(OfSize(s, g)) <= multiset(s)
  {
    forall y ensures multiset(OfSize(s, g))[y] <= multiset(s)[y] {
      OfSizeMultiplicity(s, g, y);
    }
  }

  lemma {:induction false} OfSizeSorted(s: seq<Entry>, g: int)
    requires Sorted(s)
    ensures Sorted(OfSize(s, g))
  {
    if s != [] {
      OfSizeSorted(s[1..], g);
      var rest := OfSize(s[1..], g);
      OfSizeSub(s[1..], g);
      assert s == [s[0]] + s[1..];
      PrecedesAllSub(s[0], rest, s[1..]);
      if s[0].gridSize == g {
        ConsSorted(s[0], rest);
      }
    }
  }

  /**
   * The retention step of `addToLeaderboard`: walking the sorted list, keep the
   * first `keep` entries of grid size `g` and every entry of another size.
   * (The source collects the surplus entries of size `g` and splices each out
   * by its position; entries are distinct objects, so this is the same list.)
   */
  function Trim(s: seq<Entry>, g: int, keep: nat): seq<Entry>
  {
    if s == [] then []
    else if s[0].gridSize != g then [s[0]] + Trim(s[1..], g, keep)
    else if keep > 0 then [s[0]] + Trim(s[1..], g, keep - 1)
    else Trim(s[1..], g, 0)
  }

  /** Trimming keeps exactly the first `keep` entries of size `g`, in order. */
  lemma {:induction false} TrimTier(s: seq<Entry>, g: int, keep: nat)
    ensures OfSize(Trim(s, g, keep), g) == OfSize(s, g)[..Min(keep, Count(s, g))]
  {
    if s != [] {
      TrimTier(s[1..], g, if s[0].gridSize == g && keep > 0 then keep - 1 else keep);
    }
  }

  /** Trimming the tier of size `g` leaves the entries of every other size as they were. */
  lemma {:induction false} TrimOtherSizes(s: seq<Entry>, g: int, keep: nat, h: int)
    requires h != g
    ensures OfSize(Trim(s, g, keep), h) == OfSize(s, h)
  {
    if s != [] {
      TrimOtherSizes(s[1..], g, if s[0].gridSize == g && keep > 0 then keep - 1 else keep, h);
    }
  }

  /** Trimming only removes entries, so it keeps a sorted list sorted. */
  lemma {:induction false} TrimSorted(s: seq<Entry>, g: int, keep: nat)
    requires Sorted(s)
    ensures Sorted(Trim(s, g, keep))
    ensures multiset(Trim(s, g, keep)) <= multiset(s)
  {
    if s != [] {
      var k' := if s[0].gridSize == g && keep > 0 then keep - 1 else keep;
      TrimSorted(s[1..], g, k');
      var rest := Trim(s[1..], g, k');
      assert s == [s[0]] + s[1..];
      PrecedesAllSub(s[0], rest, s[1..]);
      if Trim(s, g, keep) != rest {
        ConsSorted(s[0], rest);
      }
    }
  }

  /**
   * The removal loop of `addToLeaderboard`: every entry of grid size `g` past
   * the first `keep` of them is spliced out; the rest keep their order.
   */
  method Prune(s: seq<Entry>, g: int, keep: nat) returns (r: seq<Entry>)
    ensures r == Trim(s, g, keep)
  {
    r := [];
    var left := keep;
    var i := 0;
    while i < |s|
      invariant 0 <= i <= |s|
      invariant r + Trim(s[i..], g, left) == Trim(s, g, keep)
    {
      assert s[i..][1..] == s[i + 1..];
      if s[i].gridSize != g {
        r := r + [s[i]];
      } else if left > 0 {
        r := r + [s[i]];
        left := left - 1;
      }
      i := i + 1;
    }
    assert s[|s|..] == [];
  }

  /**
   * `addToLeaderboard` on the list: append the entry, sort the whole list, then
   * keep only the best `MaxPerDifficulty` entries of the entry's grid size.
   */
  function Record(lb: seq<Entry>, e: Entry): seq<Entry>
  {
    Trim(Sort(lb + [e]), e.gridSize, MaxPerDifficulty)
  }

  /** After recording, the list is sorted by the four keys and the new entry's tier holds at most ten entries. */
  lemma RecordSortedAndCapped(lb: seq<Entry>, e: Entry)
    ensures Sorted(Record(lb, e))
    ensures Count(Record(lb, e), e.gridSize) == Min(MaxPerDifficulty, Count(lb, e.gridSize) + 1)
  {
    var sorted := Sort(lb + [e]);
    SortSpec(lb + [e]);
    TrimSorted(sorted, e.gridSize, MaxPerDifficulty);
    TrimTier(sorted, e.gridSize, MaxPerDifficulty);
    OfSizePermutation(sorted, lb + [e], e.gridSize);
    OfSizeAppend(lb, e, e.gridSize);
    assert |multiset(OfSize(lb + [e], e.gridSize))| == Count(lb, e.gridSize) + 1;
  }

  /** Entries of every other grid size are neither dropped nor duplicated by recording. */
  lemma RecordOtherSizes(lb: seq<Entry>, e: Entry, h: int)
    requires h != e.gridSize
    ensures multiset(OfSize(Record(lb, e), h)) == multiset(OfSize(lb, h))
  {
    var sorted := Sort(lb + [e]);
    SortSpec(lb + [e]);
    TrimOtherSizes(sorted, e.gridSize, MaxPerDifficulty, h);
    OfSizePermutation(sorted, lb + [e], h);
    OfSizeAppend(lb, e, h);
  }

  /**
   * The entries of the new entry's size that survive are the best-ranked ones:
   * the tier of the sorted list, cut after ten, and every kept entry ranks at
   * least as high as every dropped one.
   */
  lemma RecordKeepsBest(lb: seq<Entry>, e: Entry)
    ensures var tier := OfSize(Sort(lb + [e]), e.gridSize);
      && multiset(tier) == multiset(OfSize(lb, e.gridSize)) + multiset{e}
      && OfSize(Record(lb, e), e.gridSize) == tier[..Min(MaxPerDifficulty, |tier|)]
      && forall i, j :: 0 <= i < Min(MaxPerDifficulty, |tier|) <= j < |tier| ==> Precedes(tier[i], tier[j])
  {
    var sorted := Sort(lb + [e]);
    var tier := OfSize(sorted, e.gridSize);
    SortSpec(lb + [e]);
    OfSizePermutation(sorted, lb + [e], e.gridSize);
    OfSizeAppend(lb, e, e.gridSize);
    TrimTier(sorted, e.gridSize, MaxPerDifficulty);
    OfSizeSorted(sorted, e.gridSize);
  }

  /** No grid size holds more than ten entries. */
  ghost predicate Capped(lb: seq<Entry>) {
    forall g :: Count(lb, g) <= MaxPerDifficulty
  }

  /** Recording keeps every tier within its cap, so the cap holds after any sequence of records from a capped list. */
  lemma RecordPreservesCap(lb: seq<Entry>, e: Entry)
    requires Capped(lb)
    ensures Capped(Record(lb, e))
  {
    forall g ensures Count(Record(lb, e), g) <= MaxPerDifficulty {
      if g == e.gridSize {
        RecordSortedAndCapped(lb, e);
      } else {
        RecordOtherSizes(lb, e, g);
        assert |multiset(OfSize(Record(lb, e), g))| == Count(Record(lb, e), g);
        assert |multiset(OfSize(lb, g))| == Count(lb, g);
      }
    }
  }

  /** `getLeaderboardForCurrentDifficulty`: the first ten entries of grid size `g`, in list order. */
  function QueryDifficulty(lb: seq<Entry>, g: int): (r: seq<Entry>)
    ensures |r| == Min(MaxPerDifficulty, Count(lb, g))
    ensures forall k :: 0 <= k < |r| ==> r[k].gridSize == g
    ensures r <= OfSize(lb, g)
  {
    OfSize(lb, g)[..Min(MaxPerDifficulty, Count(lb, g))]
  }

  /** `getAllLeaderboard`: the first twenty entries of the whole list. */
  function QueryAll(lb: seq<Entry>): (r: seq<Entry>)
    ensures |r| == Min(MaxShownAll, |lb|)
    ensures r <= lb
  {
    lb[..Min(MaxShownAll, |lb|)]
  }

  /** On a capped list the per-difficulty query shows the whole tier. */
  lemma QueryShowsWholeTier(lb: seq<Entry>, g: int)
    requires Capped(lb)
    ensures QueryDifficulty(lb, g) == OfSize(lb, g)
  {
    assert Count(lb, g) <= MaxPerDifficulty;
  }
}
