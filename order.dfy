/**
  The order the archive is kept in: `list.sort(key=saved_at, reverse=True)`.
  Python compares strings code point by code point, and its sort is stable
  also when reversed, so records with equal keys keep their input order.
  */
module Order {
  import opened Posts

  /** `a <= b` for Python strings: lexicographic on code points, a prefix first. */
  predicate LexLeq(a: string, b: string)
    decreases |a|
  {
    a == [] || (b != [] && (a[0] < b[0] || (a[0] == b[0] && LexLeq(a[1..], b[1..]))))
  }

  lemma {:induction false} LexLeqRefl(a: string)
    ensures LexLeq(a, a)
    decreases |a|
  {
    if a != [] {
      LexLeqRefl(a[1..]);
    }
  }

  lemma {:induction false} LexLeqTotal(a: string, b: string)
    ensures LexLeq(a, b) || LexLeq(b, a)
    decreases |a|
  {
    if a != [] && b != [] && a[0] == b[0] {
      LexLeqTotal(a[1..], b[1..]);
    }
  }

  lemma {:induction false} LexLeqTrans(a: string, b: string, c: string)
    requires LexLeq(a, b) && LexLeq(b, c)
    ensures LexLeq(a, c)
    decreases |a|
  {
    if a != [] && a[0] == b[0] && b[0] == c[0] {
      LexLeqTrans(a[1..], b[1..], c[1..]);
    }
  }

  lemma {:induction false} LexLeqAntisym(a: string, b: string)
    requires LexLeq(a, b) && LexLeq(b, a)
    ensures a == b
    decreases |a|
  {
    if a != [] {
      LexLeqAntisym(a[1..], b[1..]);
      assert a == [a[0]] + a[1..] && b == [b[0]] + b[1..];
    }
  }

  /** Newest first: no record has a smaller `saved_at` than one after it. */
  predicate SortedDesc(s: seq<Post>) {
    forall i, j :: 0 <= i < j < |s| ==> LexLeq(s[j].savedAt, s[i].savedAt)
  }

  /** Insert `x` in front of the first record whose key is not greater than its own. */
  function Insert(x: Post, t: seq<Post>): (r: seq<Post>)
    ensures |r| == |t| + 1
    decreases |t|
  {
    if t == [] || LexLeq(t[0].savedAt, x.savedAt) then [x] + t
    else [t[0]] + Insert(x, t[1..])
  }

  /** The stable descending sort, one insertion per record from the back. */
  function SortDesc(s: seq<Post>): (r: seq<Post>)
    ensures |r| == |s|
    decreases |s|
  {
    if s == [] then [] else Insert(s[0], SortDesc(s[1..]))
  }

  /** The records with a given key, in order. */
  function WithKey(s: seq<Post>, key: string): (r: seq<Post>)
    ensures forall p :: p in r ==> p in s && p.savedAt == key
    decreases |s|
  {
    if s == [] then []
    else (if s[0].savedAt == key then [s[0]] else []) + WithKey(s[1..], key)
  }

  lemma {:induction false} InsertPermutes(x: Post, t: seq<Post>)
    ensures multiset(Insert(x, t)) == multiset([x] + t)
    decreases |t|
  {
    if t != [] && !LexLeq(t[0].savedAt, x.savedAt) {
      InsertPermutes(x, t[1..]);
      assert t == [t[0]] + t[1..];
    }
  }

  /** The records of an insertion are the inserted one and the others. */
  lemma {:induction false} InsertMembers(x: Post, t: seq<Post>)
    ensures forall p :: p in Insert(x, t) <==> p == x || p in t
    decreases |t|
  {
    if t != [] && !LexLeq(t[0].savedAt, x.savedAt) {
      InsertMembers(x, t[1..]);
      assert forall p :: p in t <==> p == t[0] || p in t[1..] by {
        assert t == [t[0]] + t[1..];
      }
    }
  }

  /** A list is newest first when its head is newest and its tail is sorted. */
  lemma SortedCons(h: Post, r: seq<Post>)
    ensures SortedDesc([h] + r) <==>
      (forall p :: p in r ==> LexLeq(p.savedAt, h.savedAt)) && SortedDesc(r)
  {
    var s := [h] + r;
    if (forall p :: p in r ==> LexLeq(p.savedAt, h.savedAt)) && SortedDesc(r) {
      forall i, j | 0 <= i < j < |s| ensures LexLeq(s[j].savedAt, s[i].savedAt) {
        assert s[j] == r[j - 1];
        if i > 0 { assert s[i] == r[i - 1]; }
      }
    }
    if SortedDesc(s) {
      forall p | p in r ensures LexLeq(p.savedAt, h.savedAt) {
        var k :| 0 <= k < |r| && r[k] == p;
        assert s[0] == h && s[k + 1] == p;
      }
      forall i, j | 0 <= i < j < |r| ensures LexLeq(r[j].savedAt, r[i].savedAt) {
        assert s[i + 1] == r[i] && s[j + 1] == r[j];
      }
    }
  }

  lemma {:induction false} InsertSorted(x: Post, t: seq<Post>)
    requires SortedDesc(t)
    ensures SortedDesc(Insert(x, t))
    decreases |t|
  {
    if t == [] || LexLeq(t[0].savedAt, x.savedAt) {
      if t != [] {
        assert t == [t[0]] + t[1..];
        SortedCons(t[0], t[1..]);
        forall p | p in t ensures LexLeq(p.savedAt, x.savedAt) {
          if p != t[0] { LexLeqTrans(p.savedAt, t[0].savedAt, x.savedAt); }
        }
      }
      SortedCons(x, t);
    } else {
      assert t == [t[0]] + t[1..];
      SortedCons(t[0], t[1..]);
      InsertSorted(x, t[1..]);
      InsertMembers(x, t[1..]);
      LexLeqTotal(t[0].savedAt, x.savedAt);
      SortedCons(t[0], Insert(x, t[1..]));
    }
  }

  /** The sort is a permutation. */
  lemma {:induction false} SortPermutes(s: seq<Post>)
    ensures multiset(SortDesc(s)) == multiset(s)
    decreases |s|
  {
    if s != [] {
      SortPermutes(s[1..]);
      InsertPermutes(s[0], SortDesc(s[1..]));
      assert s == [s[0]] + s[1..];
    }
  }

  /** The sort puts the newest first. */
  lemma {:induction false} SortSorted(s: seq<Post>)
    ensures SortedDesc(SortDesc(s))
    decreases |s|
  {
    if s != [] {
      SortSorted(s[1..]);
      InsertSorted(s[0], SortDesc(s[1..]));
    }
  }

  lemma {:induction false} WithKeyInsert(x: Post, t: seq<Post>, key: string)
    ensures WithKey(Insert(x, t), key) == WithKey([x] + t, key)
    decreases |t|
  {
    if t != [] && !LexLeq(t[0].savedAt, x.savedAt) {
      WithKeyInsert(x, t[1..], key);
      if t[0].savedAt == key {
        LexLeqRefl(key);
        assert x.savedAt != key;
      }
      assert ([x] + t)[1..] == t;
      assert ([x] + t[1..])[1..] == t[1..];
      assert ([t[0]] + Insert(x, t[1..]))[1..] == Insert(x, t[1..]);
    }
  }

  /** Stability: the records that share a key keep their input order. */
  lemma {:induction false} SortStable(s: seq<Post>, key: string)
    ensures WithKey(SortDesc(s), key) == WithKey(s, key)
    decreases |s|
  {
    if s != [] {
      SortStable(s[1..], key);
      WithKeyInsert(s[0], SortDesc(s[1..]), key);
      assert ([s[0]] + SortDesc(s[1..]))[1..] == SortDesc(s[1..]);
    }
  }

  /** Sorting a list that is already newest first changes nothing. */
  lemma {:induction false} SortOfSorted(s: seq<Post>)
    requires SortedDesc(s)
    ensures SortDesc(s) == s
    decreases |s|
  {
    if s != [] {
      assert SortedDesc(s[1..]);
      SortOfSorted(s[1..]);
      assert s == [s[0]] + s[1..];
      if |s| > 1 {
        assert LexLeq(s[1].savedAt, s[0].savedAt);
      }
    }
  }

  /** A list has distinct ids when its head's id is new and its tail has distinct ids. */
  lemma DistinctCons(h: Post, r: seq<Post>)
    ensures DistinctIds([h] + r) <==> h.postId !in IdsOf(r) && DistinctIds(r)
    ensures IdsOf([h] + r) == {h.postId} + IdsOf(r)
  {
    var s := [h] + r;
    IdsOfAppend([h], r);
    assert IdsOf([h]) == {h.postId};
    if h.postId !in IdsOf(r) && DistinctIds(r) {
      forall i, j | 0 <= i < j < |s| ensures s[i].postId != s[j].postId {
        assert s[j] == r[j - 1];
        if i > 0 { assert s[i] == r[i - 1]; }
      }
    }
    if DistinctIds(s) {
      forall p | p in r ensures p.postId != h.postId {
        var k :| 0 <= k < |r| && r[k] == p;
        assert s[0] == h && s[k + 1] == p;
      }
      forall i, j | 0 <= i < j < |r| ensures r[i].postId != r[j].postId {
        assert s[i + 1] == r[i] && s[j + 1] == r[j];
      }
    }
  }

  lemma {:induction false} InsertIds(x: Post, t: seq<Post>)
    ensures IdsOf(Insert(x, t)) == {x.postId} + IdsOf(t)
    ensures DistinctIds(Insert(x, t)) <==> x.postId !in IdsOf(t) && DistinctIds(t)
    decreases |t|
  {
    if t == [] || LexLeq(t[0].savedAt, x.savedAt) {
      DistinctCons(x, t);
    } else {
      InsertIds(x, t[1..]);
      DistinctCons(t[0], Insert(x, t[1..]));
      DistinctCons(t[0], t[1..]);
      assert t == [t[0]] + t[1..];
    }
  }

  /** The sort keeps exactly the ids, and distinct ids stay distinct. */
  lemma {:induction false} SortIds(s: seq<Post>)
    ensures IdsOf(SortDesc(s)) == IdsOf(s)
    ensures DistinctIds(SortDesc(s)) <==> DistinctIds(s)
    decreases |s|
  {
    if s != [] {
      SortIds(s[1..]);
      InsertIds(s[0], SortDesc(s[1..]));
      DistinctCons(s[0], s[1..]);
      assert s == [s[0]] + s[1..];
    }
  }
}
