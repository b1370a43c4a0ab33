/** Ordering of hospital records by their recomputed distance. The service
    sorts with Python's `list.sort(key=...)`, which is stable; this module gives
    that sort as a reference function and proves it is the unique stable sort. */
module Ranking {
  import opened Records

  /** Distances never decrease along `s`. */
  predicate Sorted(s: seq<HospitalRecord>) {
    forall i, j :: 0 <= i < j < |s| ==> s[i].distance <= s[j].distance
  }

  /** The records of `s` at distance `d`, in their order in `s`. Two orderings
      with the same `WithDistance` for every `d` put equal-distance records in
      the same relative order. */
  function WithDistance(s: seq<HospitalRecord>, d: nat): seq<HospitalRecord> {
    if s == [] then []
    else (if s[0].distance == d then [s[0]] else []) + WithDistance(s[1..], d)
  }

  /** `r` is what a stable sort by distance makes of `s`. */
  ghost predicate IsStableSortOf(r: seq<HospitalRecord>, s: seq<HospitalRecord>) {
    Sorted(r) && forall d: nat :: WithDistance(r, d) == WithDistance(s, d)
  }

  /** Puts `h` in front of the first record that is not closer than `h`. */
  function Insert(h: HospitalRecord, s: seq<HospitalRecord>): seq<HospitalRecord> {
    if s == [] || h.distance <= s[0].distance then [h] + s
    else [s[0]] + Insert(h, s[1..])
  }

  /** `hospitals.sort(key=lambda x: x['distance'])`, written as an insertion
      sort that inserts each record in front of the sorted rest. */
  function SortByDistance(s: seq<HospitalRecord>): seq<HospitalRecord> {
    if s == [] then [] else Insert(s[0], SortByDistance(s[1..]))
  }

  lemma {:induction false} WithDistanceMembers(s: seq<HospitalRecord>, d: nat)
    ensures forall x :: x in WithDistance(s, d) <==> x in s && x.distance == d
  {
    if s != [] {
      WithDistanceMembers(s[1..], d);
      assert s == [s[0]] + s[1..];
    }
  }

  lemma {:induction false} InsertPermutes(h: HospitalRecord, s: seq<HospitalRecord>)
    ensures multiset(Insert(h, s)) == multiset(s) + multiset{h}
  {
    if s == [] || h.distance <= s[0].distance {
    } else {
      InsertPermutes(h, s[1..]);
      assert s == [s[0]] + s[1..];
    }
  }

  lemma {:induction false} InsertSorted(h: HospitalRecord, s: seq<HospitalRecord>)
    requires Sorted(s)
    ensures Sorted(Insert(h, s))
  {
    if s == [] || h.distance <= s[0].distance {
    } else {
      var t := Insert(h, s[1..]);
      InsertSorted(h, s[1..]);
      InsertPermutes(h, s[1..]);
      forall k | 0 <= k < |t| ensures s[0].distance <= t[k].distance {
        assert t[k] in multiset(t);
        assert t[k] == h || t[k] in s[1..];
      }
    }
  }

  lemma {:induction false} InsertWithDistance(h: HospitalRecord, s: seq<HospitalRecord>, d: nat)
    ensures WithDistance(Insert(h, s), d)
         == if h.distance == d then [h] + WithDistance(s, d) else WithDistance(s, d)
  {
    if s == [] || h.distance <= s[0].distance {
      assert ([h] + s)[1..] == s;
    } else {
      InsertWithDistance(h, s[1..], d);
      assert ([s[0]] + Insert(h, s[1..]))[1..] == Insert(h, s[1..]);
    }
  }

  /** The sort yields non-decreasing distances. */
  lemma {:induction false} SortByDistanceSorted(s: seq<HospitalRecord>)
    ensures Sorted(SortByDistance(s))
  {
    if s != [] {
      SortByDistanceSorted(s[1..]);
      InsertSorted(s[0], SortByDistance(s[1..]));
    }
  }

  /** The sort neither loses nor invents records. */
  lemma {:induction false} SortByDistancePermutes(s: seq<HospitalRecord>)
    ensures multiset(SortByDistance(s)) == multiset(s)
    ensures |SortByDistance(s)| == |s|
  {
    if s != [] {
      SortByDistancePermutes(s[1..]);
      InsertPermutes(s[0], SortByDistance(s[1..]));
      assert s == [s[0]] + s[1..];
    }
    assert |multiset(SortByDistance(s))| == |multiset(s)|;
  }

  /** Records at equal distance keep their original order. */
  lemma {:induction false} SortByDistanceKeepsTies(s: seq<HospitalRecord>, d: nat)
    ensures WithDistance(SortByDistance(s), d) == WithDistance(s, d)
  {
    if s != [] {
      SortByDistanceKeepsTies(s[1..], d);
      InsertWithDistance(s[0], SortByDistance(s[1..]), d);
    }
  }

  /** `SortByDistance` is a stable sort. */
  lemma SortByDistanceIsStable(s: seq<HospitalRecord>)
    ensures IsStableSortOf(SortByDistance(s), s)
    ensures multiset(SortByDistance(s)) == multiset(s)
  {
    SortByDistanceSorted(s);
    SortByDistancePermutes(s);
    forall d: nat ensures WithDistance(SortByDistance(s), d) == WithDistance(s, d) {
      SortByDistanceKeepsTies(s, d);
    }
  }

  /** Two sorted sequences that agree on every distance class are equal. */
  lemma {:induction false} SortedClassesDetermine(r: seq<HospitalRecord>, t: seq<HospitalRecord>)
    requires Sorted(r) && Sorted(t)
    requires forall d: nat :: WithDistance(r, d) == WithDistance(t, d)
    ensures r == t
  {
    if r == [] || t == [] {
      if r != [] {
        WithDistanceMembers(r, r[0].distance);
        assert false;
      }
      if t != [] {
        WithDistanceMembers(t, t[0].distance);
        assert false;
      }
    } else {
      var m, n := r[0].distance, t[0].distance;
      WithDistanceMembers(r, n);
      WithDistanceMembers(t, n);
      WithDistanceMembers(r, m);
      WithDistanceMembers(t, m);
      assert t[0] in WithDistance(t, n);
      assert r[0] in WithDistance(r, m);
      assert m == n;
      assert r[0] == t[0] by {
        assert WithDistance(r, m)[0] == r[0];
        assert WithDistance(t, m)[0] == t[0];
      }
      forall d: nat ensures WithDistance(r[1..], d) == WithDistance(t[1..], d) {
        assert WithDistance(r, d) == WithDistance(t, d);
        if m == d {
          assert WithDistance(r, d) == [r[0]] + WithDistance(r[1..], d);
          assert WithDistance(t, d) == [t[0]] + WithDistance(t[1..], d);
          assert ([r[0]] + WithDistance(r[1..], d))[1..] == WithDistance(r[1..], d);
          assert ([t[0]] + WithDistance(t[1..], d))[1..] == WithDistance(t[1..], d);
        } else {
          assert WithDistance(r, d) == WithDistance(r[1..], d);
          assert WithDistance(t, d) == WithDistance(t[1..], d);
        }
      }
      SortedClassesDetermine(r[1..], t[1..]);
      assert r == [r[0]] + r[1..];
      assert t == [t[0]] + t[1..];
    }
  }

  /** Any stable sort of `s` is `SortByDistance(s)`: the reference definition
      and the declarative one agree in both directions. */
  lemma StableSortIsUnique(r: seq<HospitalRecord>, s: seq<HospitalRecord>)
    ensures IsStableSortOf(r, s) <==> r == SortByDistance(s)
  {
    SortByDistanceIsStable(s);
    if IsStableSortOf(r, s) {
      SortedClassesDetermine(r, SortByDistance(s));
    }
  }

  /** Sorting an already sorted sequence changes nothing, so sorting twice is
      sorting once. */
  lemma {:induction false} SortByDistanceOfSorted(s: seq<HospitalRecord>)
    requires Sorted(s)
    ensures SortByDistance(s) == s
  {
    if s != [] {
      SortByDistanceOfSorted(s[1..]);
      assert s == [s[0]] + s[1..];
    }
  }
}
