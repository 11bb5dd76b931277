/** `permutations` of bindings/python/rad_util.py. */
module Permutations {
  import opened Collections

  /** `list.insert`. */
  function Insert<T>(s: seq<T>, i: nat, x: T): seq<T>
    requires i <= |s|
  {
    s[..i] + [x] + s[i..]
  }

  /** The first item at each of the first `k` positions. */
  ghost function Inserted<T>(s: seq<T>, x: T, k: nat): seq<seq<T>>
    requires k <= |s| + 1
  {
    if k == 0 then [] else Inserted(s, x, k - 1) + [Insert(s, k - 1, x)]
  }

  ghost predicate AllLong<T>(subs: seq<seq<T>>, n: nat) {
    forall m :: 0 <= m < |subs| ==> |subs[m]| == n
  }

  /** The same for each of the first `m` lists of one length. */
  ghost function InsertedAll<T>(subs: seq<seq<T>>, x: T, n: nat, m: nat): seq<seq<T>>
    requires m <= |subs| && AllLong(subs, n)
  {
    if m == 0 then [] else InsertedAll(subs, x, n, m - 1) + Inserted(subs[m - 1], x, n + 1)
  }

  function Factorial(n: nat): nat {
    if n == 0 then 1 else n * Factorial(n - 1)
  }

  lemma {:induction false} InsertedFacts<T>(s: seq<T>, x: T, k: nat)
    requires k <= |s| + 1
    ensures |Inserted(s, x, k)| == k
    ensures forall i :: 0 <= i < k ==> Inserted(s, x, k)[i] == Insert(s, i, x)
  {
    hide Insert;
    if k > 0 {
      InsertedFacts(s, x, k - 1);
    }
  }

  lemma {:induction false} OneRoundMore(m: nat, n: nat)
    ensures (m + 1) * n == m * n + n
  {
  }

  lemma {:induction false} LengthOfAll<T>(subs: seq<seq<T>>, x: T, n: nat, m: nat)
    requires m <= |subs| && AllLong(subs, n)
    ensures |InsertedAll(subs, x, n, m)| == m * (n + 1)
  {
    hide Inserted;
    if m > 0 {
      LengthOfAll(subs, x, n, m - 1);
      InsertedFacts(subs[m - 1], x, n + 1);
      OneRoundMore(m - 1, n + 1);
    }
  }

  /** Each entry is an insertion, and each insertion an entry. */
  lemma {:induction false} InsertedAllFacts<T>(subs: seq<seq<T>>, x: T, n: nat, m: nat)
    requires m <= |subs| && AllLong(subs, n)
    ensures forall j, i :: 0 <= j < m && 0 <= i <= n ==> Insert(subs[j], i, x) in InsertedAll(subs, x, n, m)
    ensures forall p :: p in InsertedAll(subs, x, n, m) ==>
              exists j, i :: 0 <= j < m && 0 <= i <= n && p == Insert(subs[j], i, x)
  {
    hide Insert, Inserted;
    if m > 0 {
      InsertedAllFacts(subs, x, n, m - 1);
      InsertedFacts(subs[m - 1], x, n + 1);
      var before, more := InsertedAll(subs, x, n, m - 1), Inserted(subs[m - 1], x, n + 1);
      forall j, i | 0 <= j < m && 0 <= i <= n
        ensures Insert(subs[j], i, x) in before + more
      {
        if j == m - 1 {
          assert more[i] == Insert(subs[j], i, x);
        }
      }
    }
  }

  lemma {:induction false} Untwisted<T>(s: seq<T>, i: nat, t: seq<T>, j: nat, x: T)
    requires x !in s && x !in t && i <= |s| && j <= |t| && Insert(s, i, x) == Insert(t, j, x)
    ensures i == j && s == t
  {
    var p := Insert(s, i, x);
    assert p[i] == x && p[j] == x;
    assert forall k :: 0 <= k < |p| && k != i ==> p[k] == if k < i then s[k] else s[k - 1];
    assert i == j;
    assert s == p[..i] + p[i + 1..] == t;
  }

  lemma {:induction false} InsertedOnce<T>(s: seq<T>, x: T, k: nat)
    requires k <= |s| + 1 && x !in s
    ensures NoDup(Inserted(s, x, k))
  {
    hide Insert;
    InsertedFacts(s, x, k);
    forall i, j | 0 <= i < j < k
      ensures Insert(s, i, x) != Insert(s, j, x)
    {
      if Insert(s, i, x) == Insert(s, j, x) {
        Untwisted(s, i, s, j, x);
      }
    }
  }

  lemma {:induction false} InsertedAllOnce<T>(subs: seq<seq<T>>, x: T, n: nat, m: nat)
    requires m <= |subs| && AllLong(subs, n) && NoDup(subs) && forall j :: 0 <= j < |subs| ==> x !in subs[j]
    ensures NoDup(InsertedAll(subs, x, n, m))
  {
    hide Insert, Inserted;
    if m > 0 {
      var before, more := InsertedAll(subs, x, n, m - 1), Inserted(subs[m - 1], x, n + 1);
      InsertedAllOnce(subs, x, n, m - 1);
      InsertedAllFacts(subs, x, n, m - 1);
      InsertedFacts(subs[m - 1], x, n + 1);
      InsertedOnce(subs[m - 1], x, n + 1);
      forall a, b | 0 <= a < |before| && 0 <= b < |more|
        ensures before[a] != more[b]
      {
        assert before[a] in before;
        var j, i :| 0 <= j < m - 1 && 0 <= i <= n && before[a] == Insert(subs[j], i, x);
        if before[a] == more[b] {
          Untwisted(subs[j], i, subs[m - 1], b, x);
        }
      }
    }
  }

  lemma {:induction false} InsertRearranges<T>(s: seq<T>, i: nat, x: T)
    requires i <= |s|
    ensures multiset(Insert(s, i, x)) == multiset(s) + multiset{x} && |Insert(s, i, x)| == |s| + 1
  {
    assert s == s[..i] + s[i..];
  }

  lemma {:induction false} TakenOut<T>(p: seq<T>, x: T) returns (i: nat, rest: seq<T>)
    requires x in p
    ensures i <= |rest| && p == Insert(rest, i, x) && multiset(rest) == multiset(p) - multiset{x}
  {
    i :| i < |p| && p[i] == x;
    rest := p[..i] + p[i + 1..];
    assert p == Insert(rest, i, x);
    InsertRearranges(rest, i, x);
  }

  lemma {:induction false} SameLength<T>(p: seq<T>, q: seq<T>)
    requires multiset(p) == multiset(q)
    ensures |p| == |q|
  {
    assert |multiset(p)| == |p| && |multiset(q)| == |q|;
  }

  /** The lists are the rearrangements of one list. */
  ghost predicate Holds<T(!new)>(list: seq<T>, lists: seq<seq<T>>) {
    forall p :: p in lists <==> multiset(p) == multiset(list)
  }

  /** All rearrangements, each once where the items differ; `n!` of them in any case. */
  ghost predicate Rearrangements<T(!new)>(list: seq<T>, lists: seq<seq<T>>) {
    && |lists| == Factorial(|list|)
    && AllLong(lists, |list|)
    && Holds(list, lists)
    && (NoDup(list) ==> NoDup(lists))
  }

  lemma {:induction false} OneItem<T(!new)>(list: seq<T>)
    requires |list| <= 1
    ensures Rearrangements(list, [list])
  {
    forall p
      ensures p in [list] <==> multiset(p) == multiset(list)
    {
      if multiset(p) == multiset(list) {
        SameLength(p, list);
        if list != [] {
          assert p[0] in multiset(p);
        }
        assert p == list;
      }
    }
    assert Factorial(0) == 1 && Factorial(1) == 1;
  }

  lemma {:induction false} HeadAndTail<T>(list: seq<T>)
    requires list != []
    ensures multiset(list) == multiset(list[1..]) + multiset{list[0]}
  {
    assert list == [list[0]] + list[1..];
  }

  lemma {:induction false} InsertionRearranges<T(!new)>(list: seq<T>, subs: seq<seq<T>>, p: seq<T>)
    requires |list| > 1 && Holds(list[1..], subs) && AllLong(subs, |list| - 1)
    requires p in InsertedAll(subs, list[0], |list| - 1, |subs|)
    ensures multiset(p) == multiset(list)
  {
    hide Inserted, InsertedAll, Insert;
    InsertedAllFacts(subs, list[0], |list| - 1, |subs|);
    var j, i :| 0 <= j < |subs| && 0 <= i <= |list| - 1 && p == Insert(subs[j], i, list[0]);
    InsertRearranges(subs[j], i, list[0]);
    HeadAndTail(list);
    assert subs[j] in subs;
  }

  lemma {:induction false} RearrangementInserted<T(!new)>(list: seq<T>, subs: seq<seq<T>>, p: seq<T>)
    requires |list| > 1 && Holds(list[1..], subs) && AllLong(subs, |list| - 1) && multiset(p) == multiset(list)
    ensures p in InsertedAll(subs, list[0], |list| - 1, |subs|)
  {
    hide Inserted, InsertedAll, Insert;
    InsertedAllFacts(subs, list[0], |list| - 1, |subs|);
    HeadAndTail(list);
    assert list[0] in multiset(p);
    var i, rest := TakenOut(p, list[0]);
    assert rest in subs;
    var j :| 0 <= j < |subs| && subs[j] == rest;
    assert Insert(subs[j], i, list[0]) == p;
  }

  lemma {:induction false} InsertionsOnce<T(!new)>(list: seq<T>, subs: seq<seq<T>>)
    requires |list| > 1 && Holds(list[1..], subs) && AllLong(subs, |list| - 1) && NoDup(subs) && NoDup(list)
    ensures NoDup(InsertedAll(subs, list[0], |list| - 1, |subs|))
  {
    hide Inserted, InsertedAll, NoDup;
    FirstElsewhere(list);
    forall j | 0 <= j < |subs|
      ensures list[0] !in subs[j]
    {
      assert subs[j] in subs;
      assert list[0] !in multiset(subs[j]);
    }
    InsertedAllOnce(subs, list[0], |list| - 1, |subs|);
  }

  lemma {:induction false} AllSameLength<T(!new)>(list: seq<T>, lists: seq<seq<T>>)
    requires Holds(list, lists)
    ensures AllLong(lists, |list|)
  {
    forall m | 0 <= m < |lists|
      ensures |lists[m]| == |list|
    {
      assert lists[m] in lists;
      SameLength(lists[m], list);
    }
  }

  lemma {:induction false} InsertedRearranges<T(!new)>(list: seq<T>, subs: seq<seq<T>>)
    requires |list| > 1 && Rearrangements(list[1..], subs)
    ensures Rearrangements(list, InsertedAll(subs, list[0], |list| - 1, |subs|))
  {
    hide Factorial, Inserted, InsertedAll, NoDup, AllLong;
    var lists := InsertedAll(subs, list[0], |list| - 1, |subs|);
    forall p
      ensures p in lists <==> multiset(p) == multiset(list)
    {
      if p in lists {
        InsertionRearranges(list, subs, p);
      }
      if multiset(p) == multiset(list) {
        RearrangementInserted(list, subs, p);
      }
    }
    InsertedAllFacts(subs, list[0], |list| - 1, |subs|);
    LengthOfAll(subs, list[0], |list| - 1, |subs|);
    FactorialStep(|list| - 1, |subs|);
    AllSameLength(list, lists);
    if NoDup(list) {
      FirstElsewhere(list);
      InsertionsOnce(list, subs);
    }
  }

  lemma {:induction false} FactorialStep(n: nat, k: nat)
    requires k == Factorial(n)
    ensures k * (n + 1) == Factorial(n + 1)
  {
  }

  lemma {:induction false} FirstElsewhere<T>(list: seq<T>)
    requires list != [] && NoDup(list)
    ensures list[0] !in list[1..] && list[0] !in multiset(list[1..]) && NoDup(list[1..])
  {
    assert forall i :: 0 <= i < |list| - 1 ==> list[1..][i] == list[i + 1];
  }

  /** The first item at every place of the first rearrangement of the others, then of the second, and so on. */
  ghost predicate HeadGoesRound<T(!new)>(list: seq<T>, lists: seq<seq<T>>)
    requires list != []
  {
    exists subs :: Rearrangements(list[1..], subs) && RoundOf(list[0], subs, |list|, lists)
  }

  ghost predicate RoundOf<T>(x: T, subs: seq<seq<T>>, n: nat, lists: seq<seq<T>>) {
    && |lists| == |subs| * n
    && forall m :: 0 <= m < |subs| ==> RoundAt(x, subs[m], n, lists, m * n)
  }

  /** From `start` on, the lists are `sub` with `x` at its places in turn. */
  ghost predicate RoundAt<T>(x: T, sub: seq<T>, n: nat, lists: seq<seq<T>>, start: nat) {
    && |sub| + 1 == n && start + n <= |lists|
    && forall i :: 0 <= i < n ==> lists[start + i] == sub[..i] + [x] + sub[i..]
  }

  lemma {:induction false} RoundLonger<T>(x: T, sub: seq<T>, n: nat, lists: seq<seq<T>>, more: seq<seq<T>>, start: nat)
    requires RoundAt(x, sub, n, lists, start)
    ensures RoundAt(x, sub, n, lists + more, start)
  {
  }

  lemma {:induction false} RoundLast<T>(x: T, sub: seq<T>, n: nat, lists: seq<seq<T>>)
    requires |sub| + 1 == n
    ensures RoundAt(x, sub, n, lists + Inserted(sub, x, n), |lists|)
  {
    InsertedFacts(sub, x, n);
    hide Inserted;
  }

  lemma {:induction false} InsertedRounds<T>(subs: seq<seq<T>>, x: T, n: nat, m: nat)
    requires m <= |subs| && AllLong(subs, n)
    ensures forall j :: 0 <= j < m ==> RoundAt(x, subs[j], n + 1, InsertedAll(subs, x, n, m), j * (n + 1))
  {
    hide Inserted, RoundAt;
    if m > 0 {
      InsertedRounds(subs, x, n, m - 1);
      LengthOfAll(subs, x, n, m - 1);
      LengthOfAll(subs, x, n, m);
      forall j | 0 <= j < m
        ensures RoundAt(x, subs[j], n + 1, InsertedAll(subs, x, n, m), j * (n + 1))
      {
        if j < m - 1 {
          RoundLonger(x, subs[j], n + 1, InsertedAll(subs, x, n, m - 1), Inserted(subs[m - 1], x, n + 1), j * (n + 1));
        } else {
          RoundLast(x, subs[j], n + 1, InsertedAll(subs, x, n, m - 1));
        }
      }
    }
  }

  lemma {:induction false} GoesRound<T(!new)>(list: seq<T>, subs: seq<seq<T>>)
    requires list != [] && Rearrangements(list[1..], subs) && AllLong(subs, |list| - 1)
    ensures HeadGoesRound(list, InsertedAll(subs, list[0], |list| - 1, |subs|))
  {
    hide Rearrangements, RoundAt, InsertedAll, AllLong;
    InsertedRounds(subs, list[0], |list| - 1, |subs|);
    LengthOfAll(subs, list[0], |list| - 1, |subs|);
    assert RoundOf(list[0], subs, |list|, InsertedAll(subs, list[0], |list| - 1, |subs|));
  }

  /** The documentation shows another order. */
  lemma {:induction false} NotAsDocumented(lists: seq<string>)
    requires HeadGoesRound("abc", lists)
    ensures lists != ["abc", "acb", "bac", "bca", "cab", "cba"]
  {
    hide Rearrangements;
    var subs :| Rearrangements("abc"[1..], subs) && RoundOf('a', subs, 3, lists);
    if |lists| == 6 {
      assert |subs| == 2;
      assert RoundAt('a', subs[0], 3, lists, 0 * 3);
      assert lists[0 + 1] == subs[0][..1] + ['a'] + subs[0][1..];
      assert lists[1][1] == 'a' && "acb"[1] == 'c';
    }
  }

  method Permutations<T(!new)>(inputList: seq<T>) returns (outLists: seq<seq<T>>)
    ensures Rearrangements(inputList, outLists)
    ensures |inputList| > 1 ==> HeadGoesRound(inputList, outLists)
    decreases |inputList|
  {
    hide Rearrangements, HeadGoesRound;
    outLists := [];
    if |inputList| > 1 {
      var item, n := inputList[0], |inputList| - 1;
      var subLists := Permutations(inputList[1..]);
      LongAsRest(inputList, subLists);
      for m := 0 to |subLists|
        invariant outLists == InsertedAll(subLists, item, n, m)
      {
        ghost var before := outLists;
        for i := 0 to |inputList|
          invariant outLists == before + Inserted(subLists[m], item, i)
        {
          var newList := subLists[m][..i] + [item] + subLists[m][i..];
          outLists := outLists + [newList];
        }
      }
      InsertedRearranges(inputList, subLists);
      GoesRound(inputList, subLists);
    } else {
      outLists := [inputList];
      OneItem(inputList);
    }
  }

  lemma {:induction false} LongAsRest<T(!new)>(list: seq<T>, subs: seq<seq<T>>)
    requires list != [] && Rearrangements(list[1..], subs)
    ensures AllLong(subs, |list| - 1)
  {
  }
}
