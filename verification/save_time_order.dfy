/** The order of the loaded list: favorites entries sorted by save time,
    most recent first, with the comparator `b.save_time - a.save_time`
    handed to the stable `Array.prototype.sort` (ECMA-262 requires
    stability since its 10th edition, section 22.1.3.27). The sort is
    modelled by a stable insertion sort; `SortUnique` shows that every
    stable descending arrangement of the same entries is this one. */
module SaveTimeOrder {
  import opened FavoriteTypes

  /** Save times never increase along `s`. */
  ghost predicate NonIncreasing(s: seq<Entry>)
  {
    forall i, j :: 0 <= i < j < |s| ==> s[i].fav.saveTime >= s[j].fav.saveTime
  }

  /** The entries of `s` saved at time `t`, in their order in `s`: the
      entries the comparator calls equal to one another. */
  function SavedAt(s: seq<Entry>, t: int): (r: seq<Entry>)
  {
    if s == [] then []
    else (if s[0].fav.saveTime == t then [s[0]] else []) + SavedAt(s[1..], t)
  }

  /** Places `x` before the first entry of `s` saved no later than it. */
  function Insert(x: Entry, s: seq<Entry>): (r: seq<Entry>)
  {
    if s == [] || s[0].fav.saveTime <= x.fav.saveTime then [x] + s
    else [s[0]] + Insert(x, s[1..])
  }

  function SortBySaveTime(s: seq<Entry>): (r: seq<Entry>)
  {
    if s == [] then [] else Insert(s[0], SortBySaveTime(s[1..]))
  }

  lemma {:induction false} InsertPermutes(x: Entry, s: seq<Entry>)
    ensures multiset(Insert(x, s)) == multiset(s) + multiset{x}
  {
    if s != [] && s[0].fav.saveTime > x.fav.saveTime {
      InsertPermutes(x, s[1..]);
      assert s == [s[0]] + s[1..];
    }
  }

  lemma {:induction false} InsertKeepsOrder(x: Entry, s: seq<Entry>)
    requires NonIncreasing(s)
    ensures NonIncreasing(Insert(x, s))
  {
    if s != [] && s[0].fav.saveTime > x.fav.saveTime {
      var rest := Insert(x, s[1..]);
      InsertKeepsOrder(x, s[1..]);
      InsertPermutes(x, s[1..]);
      forall k | 0 <= k < |rest|
        ensures rest[k].fav.saveTime <= s[0].fav.saveTime
      {
        assert rest[k] in multiset(rest);
        if rest[k] != x {
          assert rest[k] in multiset(s[1..]);
          var j :| 0 <= j < |s[1..]| && s[1..][j] == rest[k];
          assert s[j + 1] == rest[k];
        }
      }
    }
  }

  lemma SavedAtCons(x: Entry, s: seq<Entry>, t: int)
    ensures SavedAt([x] + s, t) == (if x.fav.saveTime == t then [x] else []) + SavedAt(s, t)
  {
    assert ([x] + s)[1..] == s;
  }

  /** Inserting `x` adds it at the head of its own save-time group and
      leaves every other group as it was. */
  lemma {:induction false} InsertSavedAt(x: Entry, s: seq<Entry>, t: int)
    ensures SavedAt(Insert(x, s), t)
         == (if x.fav.saveTime == t then [x] else []) + SavedAt(s, t)
  {
    if s != [] && s[0].fav.saveTime > x.fav.saveTime {
      InsertSavedAt(x, s[1..], t);
      SavedAtCons(s[0], Insert(x, s[1..]), t);
      SavedAtCons(s[0], s[1..], t);
      assert s == [s[0]] + s[1..];
    } else {
      SavedAtCons(x, s, t);
    }
  }

  /** The sorted list is ordered by save time, most recent first. */
  lemma {:induction false} SortIsOrdered(s: seq<Entry>)
    ensures NonIncreasing(SortBySaveTime(s))
  {
    if s != [] {
      SortIsOrdered(s[1..]);
      InsertKeepsOrder(s[0], SortBySaveTime(s[1..]));
    }
  }

  /** The sorted list holds exactly the input entries, each as many times. */
  lemma {:induction false} SortPermutes(s: seq<Entry>)
    ensures multiset(SortBySaveTime(s)) == multiset(s)
    ensures |SortBySaveTime(s)| == |s|
  {
    if s != [] {
      SortPermutes(s[1..]);
      InsertPermutes(s[0], SortBySaveTime(s[1..]));
      assert s == [s[0]] + s[1..];
    }
  }

  /** Stability: entries with equal save times keep their input order. */
  lemma {:induction false} SortIsStable(s: seq<Entry>, t: int)
    ensures SavedAt(SortBySaveTime(s), t) == SavedAt(s, t)
  {
    if s != [] {
      SortIsStable(s[1..], t);
      InsertSavedAt(s[0], SortBySaveTime(s[1..]), t);
    }
  }

  lemma {:induction false} SavedAtMember(s: seq<Entry>, t: int, x: Entry)
    requires x in SavedAt(s, t)
    ensures x in s && x.fav.saveTime == t
  {
    if s[0] != x || s[0].fav.saveTime != t {
      SavedAtMember(s[1..], t, x);
    }
  }

  lemma HeadIsLatest(s: seq<Entry>, x: Entry)
    requires NonIncreasing(s) && x in s
    ensures x.fav.saveTime <= s[0].fav.saveTime
  {
    var j :| 0 <= j < |s| && s[j] == x;
  }

  /** Two nonempty sequences with the same save-time groups and the same
      head have the same groups after the head. */
  lemma TailGroups(a: seq<Entry>, b: seq<Entry>)
    requires a != [] && b != [] && a[0] == b[0]
    requires forall t :: SavedAt(a, t) == SavedAt(b, t)
    ensures forall t :: SavedAt(a[1..], t) == SavedAt(b[1..], t)
  {
    forall t ensures SavedAt(a[1..], t) == SavedAt(b[1..], t) {
      assert a == [a[0]] + a[1..] && b == [b[0]] + b[1..];
      SavedAtCons(a[0], a[1..], t);
      SavedAtCons(b[0], b[1..], t);
      var head := if a[0].fav.saveTime == t then [a[0]] else [];
      assert SavedAt(a, t) == head + SavedAt(a[1..], t);
      assert SavedAt(b, t) == head + SavedAt(b[1..], t);
      assert (head + SavedAt(a[1..], t))[|head|..] == SavedAt(a[1..], t);
      assert (head + SavedAt(b[1..], t))[|head|..] == SavedAt(b[1..], t);
    }
  }

  /** Two arrangements ordered by save time with the same save-time groups
      are the same sequence. */
  lemma {:induction false} SameGroupsSame(a: seq<Entry>, b: seq<Entry>)
    requires NonIncreasing(a) && NonIncreasing(b)
    requires forall t :: SavedAt(a, t) == SavedAt(b, t)
    ensures a == b
    decreases |a|
  {
    if a != [] {
      assert SavedAt(a, a[0].fav.saveTime) != [];
    }
    if b != [] {
      assert SavedAt(b, b[0].fav.saveTime) != [];
    }
    if a != [] && b != [] {
      var ta, tb := a[0].fav.saveTime, b[0].fav.saveTime;
      assert SavedAt(a, ta)[0] == a[0] == SavedAt(b, ta)[0];
      SavedAtMember(b, ta, a[0]);
      HeadIsLatest(b, a[0]);
      assert SavedAt(b, tb)[0] == b[0] == SavedAt(a, tb)[0];
      SavedAtMember(a, tb, b[0]);
      HeadIsLatest(a, b[0]);
      TailGroups(a, b);
      SameGroupsSame(a[1..], b[1..]);
      assert a == [a[0]] + a[1..] && b == [b[0]] + b[1..];
    }
  }

  /** Any arrangement ordered by save time, most recent first, in which
      entries with equal save times keep their input order, is the result
      of `SortBySaveTime`: a stable descending sort has one outcome. */
  lemma SortUnique(s: seq<Entry>, r: seq<Entry>)
    requires NonIncreasing(r)
    requires forall t :: SavedAt(r, t) == SavedAt(s, t)
    ensures r == SortBySaveTime(s)
  {
    SortIsOrdered(s);
    forall t ensures SavedAt(r, t) == SavedAt(SortBySaveTime(s), t) {
      SortIsStable(s, t);
    }
    SameGroupsSame(r, SortBySaveTime(s));
  }
}
