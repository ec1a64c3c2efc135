/** Substring search by Knuth, Morris and Pratt, from left to right and from right to
    left, with tables that skip every border followed by the same character. */
module UtString {
  import opened Basics

  // ----- borders and tables -----

  /** The first k characters of the first i are also the last k of them. */
  ghost predicate Border(p: seq<char>, k: int, i: int) {
    0 <= k < i <= |p| && p[..k] == p[i - k..i]
  }

  /** A border worth falling back to: the character after it is another one. */
  ghost predicate Fallback(p: seq<char>, k: int, i: int) {
    Border(p, k, i) && (i < |p| ==> p[k] != p[i])
  }

  /** The table holds at i the longest border worth falling back to, or -1. */
  ghost predicate IsEntry(p: seq<char>, i: int, t: int) {
    && -1 <= t < i
    && (t >= 0 ==> Fallback(p, t, i))
    && forall k :: t < k ==> !Fallback(p, k, i)
  }

  ghost predicate IsTable(p: seq<char>, table: seq<int>) {
    |table| == |p| + 1 && Filled(p, table, |p|)
  }

  ghost predicate Filled(p: seq<char>, table: seq<int>, i: int) {
    i < |table| && forall n :: Unlocked(EntryLock, n) ==> forall x :: 0 <= x <= i ==> IsEntry(p, x, table[x])
  }

  lemma FilledFirst(p: seq<char>, table: seq<int>)
    requires |table| > 0 && table[0] == -1
    ensures Filled(p, table, 0)
  {
  }

  lemma EntryAt(p: seq<char>, table: seq<int>, i: int, x: int)
    requires Filled(p, table, i) && 0 <= x <= i
    ensures IsEntry(p, x, table[x])
  {
    assert Unlocked(EntryLock, 0);
  }

  ghost predicate IsLongest(p: seq<char>, i: int, j: int) {
    && -1 <= j < i
    && (j >= 0 ==> Border(p, j, i))
    && forall k :: j < k ==> !Border(p, k, i)
  }

  /** No border longer than j can be extended by the character at i. */
  ghost predicate Trying(p: seq<char>, i: int, j: int) {
    && -1 <= j < i < |p|
    && (j >= 0 ==> Border(p, j, i))
    && forall k :: j < k && Border(p, k, i) ==> p[k] != p[i]
  }

  lemma BorderOfBorder(p: seq<char>, a: int, b: int, c: int)
    requires Border(p, a, b) && Border(p, b, c)
    ensures Border(p, a, c)
  {
    assert p[b - a..b] == p[..b][b - a..b];
    assert p[c - a..c] == p[c - b..c][b - a..b];
  }

  /** The shorter of two borders is a border of the longer one. */
  lemma ShorterBorder(p: seq<char>, a: int, b: int, c: int)
    requires Border(p, a, c) && Border(p, b, c) && a < b
    ensures Border(p, a, b)
  {
    assert p[b - a..b] == p[..b][b - a..b];
    assert p[c - a..c] == p[c - b..c][b - a..b];
  }

  lemma TryNext(p: seq<char>, i: int, j: int, t: int)
    requires Trying(p, i, j) && j >= 0 && p[i] != p[j] && IsEntry(p, j, t)
    ensures Trying(p, i, t)
  {
    if t >= 0 {
      BorderOfBorder(p, t, j, i);
    }
    forall k | t < k && Border(p, k, i)
      ensures p[k] != p[i]
    {
      if k < j {
        ShorterBorder(p, k, j, i);
        assert !Fallback(p, k, j);
      }
    }
  }

  lemma TryDone(p: seq<char>, i: int, j: int)
    requires Trying(p, i, j) && (j == -1 || p[i] == p[j])
    ensures IsLongest(p, i + 1, j + 1)
  {
    if j >= 0 {
      assert p[i - j..i + 1] == p[i - j..i] + [p[i]] && p[..j + 1] == p[..j] + [p[j]];
    }
    var i' := i + 1;
    forall k | j + 1 < k
      ensures !Border(p, k, i')
    {
      if Border(p, k, i') {
        BorderShrinks(p, k, i);
      }
    }
  }

  lemma BorderShrinks(p: seq<char>, k: int, i: int)
    requires Border(p, k, i + 1) && k > 0
    ensures Border(p, k - 1, i) && p[k - 1] == p[i]
  {
    assert p[..k][..k - 1] == p[..k - 1] && p[i + 1 - k..i + 1][..k - 1] == p[i + 1 - k..i];
    assert p[..k][k - 1] == p[k - 1] && p[i + 1 - k..i + 1][k - 1] == p[i];
  }

  /** Where the same character follows, the entry is that of the border. */
  lemma EntrySame(p: seq<char>, i: int, j: int, t: int)
    requires IsLongest(p, i, j) && 0 <= j && i < |p| && p[i] == p[j] && IsEntry(p, j, t)
    ensures IsEntry(p, i, t)
  {
    if t >= 0 {
      BorderOfBorder(p, t, j, i);
    }
    forall k | t < k
      ensures !Fallback(p, k, i)
    {
      if Fallback(p, k, i) {
        SameFallback(p, i, j, k);
      }
    }
  }

  lemma SameFallback(p: seq<char>, i: int, j: int, k: int)
    requires IsLongest(p, i, j) && 0 <= j && i < |p| && p[i] == p[j] && Fallback(p, k, i)
    ensures Fallback(p, k, j)
  {
    ShorterBorder(p, k, j, i);
  }

  lemma EntryOther(p: seq<char>, i: int, j: int)
    requires IsLongest(p, i, j) && 0 <= j && (i < |p| ==> p[i] != p[j])
    ensures IsEntry(p, i, j)
  {
  }

  /** The entry that a round of the outer loop writes. */
  ghost function Entry(p: seq<char>, table: seq<int>, i: int, j: int): int
    requires 0 <= j < i <= |p| && |table| == |p| + 1
  {
    if i < |p| && p[i] == p[j] then table[j] else j
  }

  lemma Round(p: seq<char>, table: seq<int>, i: int, j: int)
    requires |table| == |p| + 1 && Filled(p, table, i) && Trying(p, i, j) && (j == -1 || p[i] == p[j])
    ensures 0 <= j + 1 <= i && IsLongest(p, i + 1, j + 1)
    ensures Filled(p, table[i + 1 := Entry(p, table, i + 1, j + 1)], i + 1)
  {
    assert Unlocked(EntryLock, 0);
    TryDone(p, i, j);
    assert IsEntry(p, j + 1, table[j + 1]);
    if i + 1 < |p| && p[i + 1] == p[j + 1] {
      EntrySame(p, i + 1, j + 1, table[j + 1]);
    } else {
      EntryOther(p, i + 1, j + 1);
    }
  }

  method BuildTable(needle: seq<char>, table: array<int>)
    requires table.Length == |needle| + 1
    modifies table
    ensures IsTable(needle, table[..])
  {
    var i, j := 0, -1;
    table[i] := j;
    while i < |needle|
      invariant 0 <= i <= |needle| && IsLongest(needle, i, j)
      invariant Filled(needle, table[..], i)
    {
      while j > -1 && needle[i] != needle[j]
        invariant Trying(needle, i, j) && Filled(needle, table[..], i)
        decreases j
      {
        EntryAt(needle, table[..], i, j);
        TryNext(needle, i, j, table[j]);
        j := table[j];
      }
      Round(needle, table[..], i, j);
      i := i + 1;
      j := j + 1;
      ghost var before := table[..];
      if i < |needle| {
        if needle[i] == needle[j] {
          table[i] := table[j];
        } else {
          table[i] := j;
        }
      } else {
        table[i] := j;
      }
      assert table[..] == before[i := Entry(needle, before, i, j)];
    }
  }

  // ----- search -----

  ghost predicate Occurs(h: seq<char>, p: seq<char>, s: int) {
    0 <= s && s + |p| <= |h| && h[s..s + |p|] == p
  }

  ghost predicate IsLeftmost(h: seq<char>, p: seq<char>, r: int) {
    && (r == -1 || Occurs(h, p, r))
    && forall s :: (r == -1 || s < r) ==> !Occurs(h, p, s)
  }

  ghost predicate IsRightmost(h: seq<char>, p: seq<char>, r: int) {
    && (r == -1 || Occurs(h, p, r))
    && forall s :: s > r ==> !Occurs(h, p, s)
  }

  /** The i characters before j match the needle's first i, and the needle occurs nowhere
      further left.  Closed. */
  ghost predicate Matching(h: seq<char>, p: seq<char>, j: int, i: int) {
    && 0 <= j <= |h| && -1 <= i <= |p| && i <= j
    && forall n :: Unlocked(MatchLock, n) ==>
      && (i >= 0 ==> p[..i] == h[j - i..j])
      && forall s :: s < j - i ==> !Occurs(h, p, s)
  }

  /** An occurrence that covers a position matches up to it. */
  lemma OccursCovers(h: seq<char>, p: seq<char>, s: int, j: int)
    requires Occurs(h, p, s) && s <= j < s + |p|
    ensures p[..j - s] == h[s..j] && p[j - s] == h[j]
  {
    assert h[s..s + |p|][..j - s] == h[s..j];
    assert h[s..s + |p|][j - s] == h[j];
  }

  lemma MatchNext(h: seq<char>, p: seq<char>, j: int, i: int, t: int)
    requires Matching(h, p, j, i) && 0 <= i < |p| && j < |h| && p[i] != h[j] && IsEntry(p, i, t)
    ensures Matching(h, p, j, t)
  {
    assert Unlocked(MatchLock, 0);
    if t >= 0 {
      assert p[i - t..i] == p[..i][i - t..i] && h[j - t..j] == h[j - i..j][i - t..i];
    }
    forall s | s < j - t
      ensures !Occurs(h, p, s)
    {
      if Occurs(h, p, s) {
        OccursFalls(h, p, j, i, s);
      }
    }
  }

  /** Where the match ends, an occurrence that has begun shows a border to fall back to. */
  lemma OccursFalls(h: seq<char>, p: seq<char>, j: int, i: int, s: int)
    requires Matching(h, p, j, i) && 0 <= i < |p| && j < |h| && p[i] != h[j] && Occurs(h, p, s) && s <= j
    ensures Fallback(p, j - s, i)
  {
    assert Unlocked(MatchLock, 0);
    OccursCovers(h, p, s, j);
    var k := j - s;
    assert p[i - k..i] == p[..i][i - k..i] && h[j - k..j] == h[j - i..j][i - k..i];
  }

  lemma MatchDone(h: seq<char>, p: seq<char>, j: int, i: int)
    requires Matching(h, p, j, i) && i < |p| && j < |h| && (i == -1 || p[i] == h[j])
    ensures Matching(h, p, j + 1, i + 1)
  {
    assert Unlocked(MatchLock, 0);
    if i >= 0 {
      assert h[j - i..j + 1] == h[j - i..j] + [h[j]] && p[..i + 1] == p[..i] + [p[i]];
    }
  }

  /** Stopping when what is left is too short loses nothing. */
  lemma TooShort(h: seq<char>, p: seq<char>, j: int, i: int)
    requires Matching(h, p, j, i) && 0 <= i < |p| && (j >= |h| || |h| - j + i < |p|)
    ensures IsLeftmost(h, p, -1)
  {
    assert Unlocked(MatchLock, 0);
  }

  lemma Found(h: seq<char>, p: seq<char>, j: int)
    requires Matching(h, p, j, |p|)
    ensures IsLeftmost(h, p, j - |p|)
  {
    assert Unlocked(MatchLock, 0);
    assert p[..|p|] == p;
  }

  method FindWithTable(haystack: seq<char>, needle: seq<char>, table: array<int>) returns (r: int)
    requires needle != [] && IsTable(needle, table[..])
    ensures IsLeftmost(haystack, needle, r)
  {
    r := -1;
    var i, j := 0, 0;
    while j < |haystack| && |haystack| - j + i >= |needle|
      invariant 0 <= i < |needle| && Matching(haystack, needle, j, i)
    {
      while i > -1 && needle[i] != haystack[j]
        invariant -1 <= i < |needle| && Matching(haystack, needle, j, i)
        decreases i
      {
        EntryAt(needle, table[..], |needle|, i);
        MatchNext(haystack, needle, j, i, table[i]);
        i := table[i];
      }
      MatchDone(haystack, needle, j, i);
      i := i + 1;
      j := j + 1;
      if i >= |needle| {
        Found(haystack, needle, j);
        return j - i;
      }
    }
    TooShort(haystack, needle, j, i);
  }

  // ----- the mirror image -----

  ghost function Rev<T>(s: seq<T>): (r: seq<T>)
    ensures |r| == |s|
  {
    if s == [] then [] else Rev(s[1..]) + [s[0]]
  }

  lemma {:induction false} RevAt<T>(s: seq<T>, x: int)
    requires 0 <= x < |s|
    ensures Rev(s)[|s| - 1 - x] == s[x]
  {
    if x > 0 {
      RevAt(s[1..], x - 1);
    }
  }

  /** p is needle read from the other end.  Closed. */
  ghost predicate Reflects(needle: seq<char>, p: seq<char>) {
    |p| == |needle| && forall n :: Unlocked(MirrorLock, n) ==> forall x, y :: 0 <= x < |p| && y == |p| - 1 - x ==> p[x] == needle[y]
  }

  lemma ReflectsAt(needle: seq<char>, p: seq<char>, x: int, y: int)
    requires Reflects(needle, p) && 0 <= x < |p| && y == |p| - 1 - x
    ensures p[x] == needle[y]
  {
    assert Unlocked(MirrorLock, 0);
  }

  lemma RevReflects(s: seq<char>)
    ensures Reflects(s, Rev(s))
  {
    forall x, y | 0 <= x < |s| && y == |s| - 1 - x
      ensures Rev(s)[x] == s[y]
    {
      RevAt(s, y);
    }
  }

  lemma ReflectsBack(s: seq<char>, t: seq<char>)
    requires Reflects(s, t)
    ensures Reflects(t, s)
  {
    assert Unlocked(MirrorLock, 0);
  }

  /** An occurrence is one in the mirror, counted from the other end. */
  lemma OccursReflected(h: seq<char>, p: seq<char>, h': seq<char>, p': seq<char>, s: int)
    requires Reflects(h, h') && Reflects(p, p') && Occurs(h, p, s)
    ensures Occurs(h', p', |h| - |p| - s)
  {
    var t := |h| - |p| - s;
    forall x | 0 <= x < |p|
      ensures h'[t + x] == p'[x]
    {
      var y := |p| - 1 - x;
      ReflectsAt(h, h', t + x, s + y);
      ReflectsAt(p, p', x, y);
      assert h[s..s + |p|][y] == h[s + y];
    }
    assert h'[t..t + |p|] == p';
  }

  lemma OccursMirror(h: seq<char>, p: seq<char>, h': seq<char>, p': seq<char>, s: int)
    requires Reflects(h, h') && Reflects(p, p')
    ensures Occurs(h, p, s) <==> Occurs(h', p', |h| - |p| - s)
  {
    if Occurs(h, p, s) {
      OccursReflected(h, p, h', p', s);
    }
    if Occurs(h', p', |h| - |p| - s) {
      ReflectsBack(h, h');
      ReflectsBack(p, p');
      OccursReflected(h', p', h, p, |h| - |p| - s);
    }
  }

  /** The rightmost occurrence is the leftmost one in the mirror. */
  lemma RightmostIsLeftmost(h: seq<char>, p: seq<char>, h': seq<char>, p': seq<char>, r: int)
    requires Reflects(h, h') && Reflects(p, p') && (-1 <= r <= |h| - |p| || r == -1)
    ensures IsRightmost(h, p, r) <==> IsLeftmost(h', p', if r == -1 then -1 else |h| - |p| - r)
  {
    var d := |h| - |p|;
    if r != -1 {
      OccursMirror(h, p, h', p', r);
    }
    if IsRightmost(h, p, r) {
      forall t | r == -1 || t < d - r
        ensures !Occurs(h', p', t)
      {
        OccursMirror(h, p, h', p', d - t);
      }
    } else if r == -1 || Occurs(h, p, r) {
      OtherFurtherRight(h, p, h', p', r);
    }
  }

  lemma OtherFurtherRight(h: seq<char>, p: seq<char>, h': seq<char>, p': seq<char>, r: int)
    requires Reflects(h, h') && Reflects(p, p')
    requires (-1 <= r <= |h| - |p| || r == -1) && (r == -1 || Occurs(h, p, r)) && !IsRightmost(h, p, r)
    ensures !IsLeftmost(h', p', if r == -1 then -1 else |h| - |p| - r)
  {
    var s :| s > r && Occurs(h, p, s);
    OccursMirror(h, p, h', p', s);
    var t := |h| - |p| - s;
    assert Occurs(h', p', t);
  }

  /** The table of the search from right to left: entries and positions count from the
      other end. */
  ghost predicate Mirrors(table: seq<int>, t: seq<int>) {
    |t| == |table| && forall n :: Unlocked(MirrorLock, n) ==>
      forall x, y :: 0 <= x < |t| && y == |t| - 1 - x ==> t[x] == |t| - 2 - table[y]
  }

  lemma MirrorsAt(table: seq<int>, t: seq<int>, x: int, y: int)
    requires Mirrors(table, t) && 0 <= x < |t| && y == |t| - 1 - x
    ensures t[x] == |t| - 2 - table[y]
  {
    assert Unlocked(MirrorLock, 0);
  }

  ghost predicate IsTableR(p: seq<char>, table: seq<int>) {
    exists t :: Mirrors(table, t) && IsTable(Rev(p), t)
  }

  lemma MirrorsUpdate(table: seq<int>, t: seq<int>, i: int, a: int, v: int)
    requires Mirrors(table, t) && 0 <= i < |table| && a == |t| - 1 - i
    ensures Mirrors(table[i := v], t[a := |t| - 2 - v])
  {
    assert Unlocked(MirrorLock, 0);
  }

  method BuildTableR(needle: seq<char>, table: array<int>)
    requires table.Length == |needle| + 1
    modifies table
    ensures IsTableR(needle, table[..])
  {
    RevReflects(needle);
    ghost var t := BuildMirrored(needle, table, Rev(needle));
  }

  ghost function MirrorOf(table: seq<int>): (t: seq<int>)
    ensures Mirrors(table, t)
  {
    seq(|table|, x requires 0 <= x < |table| => |table| - 2 - table[|table| - 1 - x])
  }

  /** The loops are those of BuildTable: a and b are the images of i and j in the mirror,
      t is that of the table. */
  method BuildMirrored(needle: seq<char>, table: array<int>, ghost p: seq<char>) returns (ghost t: seq<int>)
    requires table.Length == |needle| + 1 && Reflects(needle, p)
    modifies table
    ensures Mirrors(table[..], t) && IsTable(p, t)
  {
    var n := |needle|;
    ghost var a, b := 0, -1;
    var i := n - 1;
    var j := i + 1;
    table[i + 1] := j;
    t := MirrorOf(table[..]);
    MirrorsAt(table[..], t, 0, n);
    FilledFirst(p, t);
    while i >= 0
      invariant a == n - 1 - i && b == n - 1 - j && -1 <= i
      invariant IsLongest(p, a, b) && Mirrors(table[..], t) && Filled(p, t, a)
    {
      j, b := FallBackR(needle, table, i, j, p, t, a, b);
      Round(p, t, a, b);
      i, a := i - 1, a + 1;
      j, b := j - 1, b + 1;
      WriteEntryR(needle, table, i, j, p, t, a, b);
      ghost var t' := t[a := Entry(p, t, a, b)];
      assert Filled(p, t', a) && Mirrors(table[..], t') && IsLongest(p, a, b);
      t := t';
    }
  }

  method FallBackR(needle: seq<char>, table: array<int>, i: int, j0: int,
                   ghost p: seq<char>, ghost t: seq<int>, ghost a: int, ghost b0: int)
    returns (j: int, ghost b: int)
    requires table.Length == |needle| + 1 && Reflects(needle, p) && Mirrors(table[..], t) && Filled(p, t, a)
    requires a == |needle| - 1 - i && b0 == |needle| - 1 - j0 && Trying(p, a, b0)
    ensures b == |needle| - 1 - j && Trying(p, a, b) && (b == -1 || p[a] == p[b])
  {
    j, b := j0, b0;
    MirrorTry(needle, p, i, j, a, b);
    while j < |needle| && needle[i] != needle[j]
      invariant b == |needle| - 1 - j && Trying(p, a, b) && (b >= 0 ==> p[a] == needle[i] && p[b] == needle[j])
      decreases |needle| - j
    {
      EntryAt(p, t, a, b);
      MirrorsAt(table[..], t, b, j + 1);
      TryNext(p, a, b, t[b]);
      j := table[j + 1];
      b := t[b];
      MirrorTry(needle, p, i, j, a, b);
    }
  }

  lemma MirrorTry(needle: seq<char>, p: seq<char>, i: int, j: int, a: int, b: int)
    requires Reflects(needle, p) && a == |p| - 1 - i && b == |p| - 1 - j && -1 <= b < a < |p|
    ensures b >= 0 ==> p[a] == needle[i] && p[b] == needle[j]
  {
    ReflectsAt(needle, p, a, i);
    if b >= 0 {
      ReflectsAt(needle, p, b, j);
    }
  }

  method WriteEntryR(needle: seq<char>, table: array<int>, i: int, j: int,
                     ghost p: seq<char>, ghost t: seq<int>, ghost a: int, ghost b: int)
    requires table.Length == |needle| + 1 && Reflects(needle, p) && Mirrors(table[..], t)
    requires a == |needle| - 1 - i && b == |needle| - 1 - j && 0 <= b < a <= |needle|
    modifies table
    ensures Mirrors(table[..], t[a := Entry(p, t, a, b)])
  {
    ghost var v := |needle| - 1 - Entry(p, t, a, b);
    ghost var before := table[..];
    MirrorsUpdate(before, t, i + 1, a, v);
    MirrorsAt(before, t, b, j + 1);
    if i >= 0 {
      MirrorTry(needle, p, i, j, a, b);
      if needle[i] == needle[j] {
        table[i + 1] := table[j + 1];
      } else {
        table[i + 1] := j;
      }
    } else {
      table[i + 1] := j;
    }
    assert table[..] == before[i + 1 := v];
  }

  method FindWithTableR(haystack: seq<char>, needle: seq<char>, table: array<int>) returns (r: int)
    requires needle != [] && IsTableR(needle, table[..])
    ensures IsRightmost(haystack, needle, r)
  {
    RevReflects(haystack);
    RevReflects(needle);
    ghost var t :| Mirrors(table[..], t) && IsTable(Rev(needle), t);
    r := FindMirrored(haystack, needle, table, Rev(haystack), Rev(needle), t);
    RightmostIsLeftmost(haystack, needle, Rev(haystack), Rev(needle), r);
  }

  /** Falls back until the character matches or nothing is left to match. */
  method MatchBackR(c: char, needle: seq<char>, table: array<int>, i0: int,
                    ghost h: seq<char>, ghost p: seq<char>, ghost t: seq<int>, ghost a0: int, ghost b: int)
    returns (i: int, ghost a: int)
    requires Reflects(needle, p) && Mirrors(table[..], t) && IsTable(p, t)
    requires a0 == |needle| - 1 - i0 && 0 <= i0 < |needle| && b < |h| && Matching(h, p, b, a0) && h[b] == c
    ensures a == |needle| - 1 - i && 0 <= i <= |needle| && Matching(h, p, b, a) && (a == -1 || p[a] == c)
  {
    i, a := i0, a0;
    ReflectsAt(needle, p, a, i);
    while i < |needle| && needle[i] != c
      invariant a == |needle| - 1 - i && 0 <= i <= |needle| && Matching(h, p, b, a) && (a >= 0 ==> p[a] == needle[i])
      decreases |needle| - i
    {
      EntryAt(p, t, |p|, a);
      MirrorsAt(table[..], t, a, i + 1);
      MatchNext(h, p, b, a, t[a]);
      i := table[i + 1];
      a := t[a];
      if a >= 0 {
        ReflectsAt(needle, p, a, i);
      }
    }
  }

  method FindMirrored(haystack: seq<char>, needle: seq<char>, table: array<int>, ghost h: seq<char>, ghost p: seq<char>, ghost t: seq<int>)
    returns (r: int)
    requires needle != [] && Reflects(haystack, h) && Reflects(needle, p) && Mirrors(table[..], t) && IsTable(p, t)
    ensures r == -1 || 0 <= r <= |h| - |p|
    ensures IsLeftmost(h, p, if r == -1 then -1 else |h| - |p| - r)
  {
    r := -1;
    var m, n := |haystack|, |needle|;
    ghost var a, b := 0, 0;
    var j, i := m - 1, n - 1;
    while j >= 0 && j >= i
      invariant a == n - 1 - i && b == m - 1 - j && 0 <= i < n && Matching(h, p, b, a)
    {
      ReflectsAt(haystack, h, b, j);
      i, a := MatchBackR(haystack[j], needle, table, i, h, p, t, a, b);
      MatchDone(h, p, b, a);
      i, a := i - 1, a + 1;
      j, b := j - 1, b + 1;
      if i < 0 {
        Found(h, p, b);
        return j + 1;
      }
    }
    TooShort(h, p, b, a);
  }

  // ----- one-time search -----

  /** The characters in memory from one address up to another. */
  function Text(mem: int -> char, from: int, to: int): seq<char> {
    if from >= to then [] else seq(to - from, k requires 0 <= k < to - from => mem(from + k))
  }

  /** Where a start position points to: a negative one counts from the end. */
  function Position(length: nat, start: int): int {
    if start < 0 then length + start else start
  }

  /** What a search from a start position on is to return. */
  ghost predicate IsFind(mem: int -> char, length: nat, start: int, needle: seq<char>, r: int) {
    var from := Position(length, start);
    if needle == [] || from > length then r == -1
    else exists k :: IsLeftmost(Text(mem, from, length), needle, k) && r == if k == -1 then -1 else from + k
  }

  /** What a search backwards from a start position is to return. */
  ghost predicate IsFindR(mem: int -> char, length: nat, start: int, needle: seq<char>, r: int) {
    var last := Position(length, start);
    if needle == [] || last < 0 then r == -1
    else IsRightmost(Text(mem, 0, last + 1), needle, r)
  }

  /** Searches from a start position on in a text that lies at addresses 0 to length; mem
      is what memory holds there and around it. */
  method Find(mem: int -> char, length: nat, start: int, needle: seq<char>) returns (r: int)
    ensures IsFind(mem, length, start, needle, r)
    ensures needle == [] || start > length ==> r == -1
  {
    r := -1;
    var from := Position(length, start);
    if length - from >= |needle| && |needle| > 0 {
      var table := new int[|needle| + 1];
      BuildTable(needle, table);
      r := FindWithTable(Text(mem, from, length), needle, table);
      assert IsLeftmost(Text(mem, from, length), needle, r);
      if r >= 0 {
        r := r + from;
      }
    } else if needle != [] {
      assert IsLeftmost(Text(mem, from, length), needle, -1);
    }
  }

  /** Searches backwards from a start position. */
  method FindR(mem: int -> char, length: nat, start: int, needle: seq<char>) returns (r: int)
    ensures IsFindR(mem, length, start, needle, r)
    ensures needle == [] || length + start < 0 ==> r == -1
  {
    r := -1;
    var last := Position(length, start);
    if last + 1 >= |needle| && |needle| > 0 {
      var table := new int[|needle| + 1];
      BuildTableR(needle, table);
      r := FindWithTableR(Text(mem, 0, last + 1), needle, table);
    }
  }

  /** Inside the text, what is searched is a part of it. */
  lemma TextInside(mem: int -> char, d: seq<char>, from: int, to: int)
    requires 0 <= from <= to <= |d| && forall k :: 0 <= k < |d| ==> mem(k) == d[k]
    ensures Text(mem, from, to) == d[from..to]
  {
  }

  /** From a start inside the text, Find returns the leftmost occurrence in what follows,
      as a position in the whole text. */
  lemma FindInside(mem: int -> char, d: seq<char>, start: int, needle: seq<char>, r: int)
    requires (forall k :: 0 <= k < |d| ==> mem(k) == d[k]) && -|d| <= start <= |d| && needle != []
    ensures var from := if start < 0 then |d| + start else start;
      IsFind(mem, |d|, start, needle, r) <==>
      if r == -1 then forall k | from <= k :: !Occurs(d, needle, k)
      else from <= r && Occurs(d, needle, r) && forall k | from <= k < r :: !Occurs(d, needle, k)
  {
    var from := Position(|d|, start);
    TextInside(mem, d, from, |d|);
    assert Text(mem, from, |d|) == d[from..];
    OccursAfter(d, from, needle);
    if from <= r && Occurs(d, needle, r) && forall k | from <= k < r :: !Occurs(d, needle, k) {
      assert IsLeftmost(d[from..], needle, r - from) && r == from + (r - from);
    } else if r == -1 && forall k | from <= k :: !Occurs(d, needle, k) {
      assert IsLeftmost(d[from..], needle, -1);
    }
  }

  lemma OccursAfter(d: seq<char>, from: nat, needle: seq<char>)
    requires from <= |d|
    ensures forall s | Occurs(d[from..], needle, s) :: 0 <= s && Occurs(d, needle, from + s)
    ensures forall k | from <= k && Occurs(d, needle, k) :: Occurs(d[from..], needle, k - from)
  {
    forall s | Occurs(d[from..], needle, s)
      ensures Occurs(d, needle, from + s)
    {
      assert d[from..][s..s + |needle|] == d[from + s..from + s + |needle|];
    }
    forall k | from <= k && Occurs(d, needle, k)
      ensures Occurs(d[from..], needle, k - from)
    {
      assert d[from..][k - from..k - from + |needle|] == d[k..k + |needle|];
    }
  }

  /** From a start inside the text, FindR returns the rightmost of the occurrences that end
      there or before. */
  lemma FindRInside(mem: int -> char, d: seq<char>, start: int, needle: seq<char>, r: int)
    requires (forall k :: 0 <= k < |d| ==> mem(k) == d[k]) && -|d| <= start < |d| && needle != []
    ensures var last := if start < 0 then |d| + start else start;
      IsFindR(mem, |d|, start, needle, r) <==>
      && (r == -1 || (Occurs(d, needle, r) && r + |needle| <= last + 1))
      && forall k | r < k && Occurs(d, needle, k) :: k + |needle| > last + 1
  {
    var last := Position(|d|, start);
    TextInside(mem, d, 0, last + 1);
    OccursBefore(d, last + 1, needle);
  }

  lemma OccursBefore(d: seq<char>, to: nat, needle: seq<char>)
    requires to <= |d|
    ensures forall s :: Occurs(d[..to], needle, s) <==> Occurs(d, needle, s) && s + |needle| <= to
  {
    forall s
      ensures Occurs(d[..to], needle, s) <==> Occurs(d, needle, s) && s + |needle| <= to
    {
      assert 0 <= s && s + |needle| <= to ==> d[..to][s..s + |needle|] == d[s..s + |needle|];
    }
  }
}
