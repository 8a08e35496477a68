/** Sorting of members by replica id, as the Lighthouse and every ManagerServer do it. */
module ReplicaOrder {
  import opened Protocol

  /** The strict order of Rust's `String::cmp`. */
  predicate Below(a: string, b: string)
  {
    if b == "" then false
    else if a == "" then true
    else if a[0] == b[0] then Below(a[1..], b[1..])
    else a[0] < b[0]
  }

  lemma {:induction false} BelowIsTotal(a: string, b: string)
    ensures Below(a, b) || a == b || Below(b, a)
    ensures !(Below(a, b) && Below(b, a))
    ensures !Below(a, a)
  {
    if a != "" && b != "" {
      BelowIsTotal(a[1..], b[1..]);
      if a[0] == b[0] && a[1..] == b[1..] {
        assert a == [a[0]] + a[1..] == b;
      }
    }
    if a != "" {
      BelowIsTotal(a[1..], a[1..]);
    }
  }

  lemma {:induction false} BelowIsTransitive(a: string, b: string, c: string)
    requires Below(a, b) && Below(b, c)
    ensures Below(a, c)
  {
    if a != "" && a[0] == b[0] && b[0] == c[0] {
      BelowIsTransitive(a[1..], b[1..], c[1..]);
    }
  }

  ghost predicate Sorted(ms: seq<Member>) {
    forall i, j :: 0 <= i < j < |ms| ==> !Below(ms[j].replicaId, ms[i].replicaId)
  }

  ghost predicate StrictlySorted(ms: seq<Member>) {
    forall i, j :: 0 <= i < j < |ms| ==> Below(ms[i].replicaId, ms[j].replicaId)
  }

  function Insert(m: Member, ms: seq<Member>): (r: seq<Member>)
  {
    if ms == [] || !Below(ms[0].replicaId, m.replicaId) then [m] + ms
    else [ms[0]] + Insert(m, ms[1..])
  }

  /** A stable sort by replica id. */
  function SortById(ms: seq<Member>): (r: seq<Member>)
  {
    if ms == [] then [] else Insert(ms[0], SortById(ms[1..]))
  }

  lemma {:induction false} InsertKeeps(m: Member, ms: seq<Member>)
    requires Sorted(ms)
    ensures Sorted(Insert(m, ms))
    ensures multiset(Insert(m, ms)) == multiset([m] + ms)
  {
    if ms == [] {
    } else if !Below(ms[0].replicaId, m.replicaId) {
      forall j | 0 <= j < |ms| ensures !Below(ms[j].replicaId, m.replicaId) {
        if Below(ms[j].replicaId, m.replicaId) {
          BelowIsTotal(ms[0].replicaId, ms[j].replicaId);
          if Below(ms[0].replicaId, ms[j].replicaId) {
            BelowIsTransitive(ms[0].replicaId, ms[j].replicaId, m.replicaId);
          }
        }
      }
    } else {
      InsertKeeps(m, ms[1..]);
      var rest := Insert(m, ms[1..]);
      assert ms == [ms[0]] + ms[1..];
      assert multiset(rest) == multiset{m} + multiset(ms[1..]);
      forall j | 0 <= j < |rest| ensures !Below(rest[j].replicaId, ms[0].replicaId) {
        assert rest[j] in multiset(rest);
        if rest[j] == m {
          BelowIsTotal(ms[0].replicaId, m.replicaId);
        } else {
          assert rest[j] in ms[1..];
        }
      }
    }
  }

  /** Sorting yields an ordered permutation. */
  lemma {:induction false} SortByIdSorts(ms: seq<Member>)
    ensures Sorted(SortById(ms))
    ensures multiset(SortById(ms)) == multiset(ms)
    ensures |SortById(ms)| == |ms|
  {
    if ms != [] {
      SortByIdSorts(ms[1..]);
      InsertKeeps(ms[0], SortById(ms[1..]));
      assert ms == [ms[0]] + ms[1..];
    }
    assert |multiset(SortById(ms))| == |SortById(ms)|;
  }

  /** Uniqueness of ids only depends on which members there are. */
  lemma UniqueIdsOfPermutation(a: seq<Member>, b: seq<Member>)
    requires multiset(a) == multiset(b) && UniqueIds(a)
    ensures UniqueIds(b)
  {
    forall i, j | 0 <= i < j < |b| ensures b[i].replicaId != b[j].replicaId {
      if b[i].replicaId == b[j].replicaId {
        assert b[i] in multiset(a) && b[j] in multiset(a);
        if b[i] == b[j] {
          TwiceInMultiset(b, i, j);
          NoRepeats(a, b[i]);
        }
      }
    }
  }

  lemma TwiceInMultiset(b: seq<Member>, i: nat, j: nat)
    requires i < j < |b| && b[i] == b[j]
    ensures multiset(b)[b[i]] >= 2
  {
    assert b == b[..i] + [b[i]] + b[i + 1..j] + [b[j]] + b[j + 1..];
  }

  lemma {:induction false} NoRepeats(a: seq<Member>, m: Member)
    requires UniqueIds(a)
    ensures multiset(a)[m] <= 1
  {
    if a != [] {
      NoRepeats(a[1..], m);
      assert a == [a[0]] + a[1..];
      if a[0] == m {
        assert m !in a[1..];
      }
    }
  }

  /** With unique ids the order is strict. */
  lemma SortByIdIsStrict(ms: seq<Member>)
    requires UniqueIds(ms)
    ensures StrictlySorted(SortById(ms)) && UniqueIds(SortById(ms))
  {
    SortByIdSorts(ms);
    var s := SortById(ms);
    UniqueIdsOfPermutation(ms, s);
    forall i, j | 0 <= i < j < |s| ensures Below(s[i].replicaId, s[j].replicaId) {
      BelowIsTotal(s[i].replicaId, s[j].replicaId);
    }
  }

  lemma StrictlySortedIsUnique(ms: seq<Member>)
    requires StrictlySorted(ms)
    ensures UniqueIds(ms)
  {
    forall i, j | 0 <= i < j < |ms| ensures ms[i].replicaId != ms[j].replicaId {
      BelowIsTotal(ms[i].replicaId, ms[j].replicaId);
    }
  }

  /** Two strictly ordered sequences with the same members are the same sequence. */
  lemma {:induction false} StrictOrderIsCanonical(a: seq<Member>, b: seq<Member>)
    requires StrictlySorted(a) && StrictlySorted(b)
    requires forall m :: m in a <==> m in b
    ensures a == b
  {
    assert b != [] ==> b[0] in a;
    if a != [] {
      assert a[0] in b && b != [];
      assert b[0] in a;
      var i :| 0 <= i < |b| && b[i] == a[0];
      var j :| 0 <= j < |a| && a[j] == b[0];
      BelowIsTotal(a[0].replicaId, b[0].replicaId);
      assert i == 0 && j == 0;
      StrictlySortedIsUnique(a);
      StrictlySortedIsUnique(b);
      forall m ensures m in a[1..] <==> m in b[1..] {
        if m in a[1..] { assert m in b && m != b[0]; }
        if m in b[1..] { assert m in a && m != a[0]; }
      }
      StrictOrderIsCanonical(a[1..], b[1..]);
      assert a == [a[0]] + a[1..] && b == [b[0]] + b[1..];
    }
  }

  /** The sorted member list does not depend on the order in which members are listed. */
  lemma SortIgnoresOrder(a: seq<Member>, b: seq<Member>)
    requires UniqueIds(a) && multiset(a) == multiset(b)
    ensures SortById(a) == SortById(b)
  {
    UniqueIdsOfPermutation(a, b);
    SortByIdIsStrict(a);
    SortByIdIsStrict(b);
    SortByIdSorts(a);
    SortByIdSorts(b);
    forall m ensures m in SortById(a) <==> m in SortById(b) {
      assert m in SortById(a) <==> m in multiset(SortById(a));
      assert m in SortById(b) <==> m in multiset(SortById(b));
    }
    StrictOrderIsCanonical(SortById(a), SortById(b));
  }

  /** Sorting a strictly ordered list changes nothing. */
  lemma SortOfSorted(a: seq<Member>)
    requires StrictlySorted(a)
    ensures SortById(a) == a
  {
    StrictlySortedIsUnique(a);
    SortByIdIsStrict(a);
    SortByIdSorts(a);
    forall m ensures m in SortById(a) <==> m in a {
      assert m in SortById(a) <==> m in multiset(SortById(a));
    }
    StrictOrderIsCanonical(SortById(a), a);
  }

  /** The shorter of two strings comes first if it starts the other; else the first difference decides. */
  ghost predicate DiffersAt(a: string, b: string, i: nat) {
    i <= |a| && i < |b| && a[..i] == b[..i] && (i == |a| || a[i] < b[i])
  }

  lemma {:induction false} BelowExactly(a: string, b: string)
    ensures Below(a, b) <==> exists i: nat :: DiffersAt(a, b, i)
  {
    if b == "" {
    } else if a == "" {
      assert DiffersAt(a, b, 0);
    } else if a[0] == b[0] {
      BelowExactly(a[1..], b[1..]);
      if Below(a, b) {
        var i: nat :| DiffersAt(a[1..], b[1..], i);
        assert a[..i + 1] == [a[0]] + a[1..][..i] && b[..i + 1] == [b[0]] + b[1..][..i];
        assert DiffersAt(a, b, i + 1);
      }
      if i: nat :| DiffersAt(a, b, i) {
        assert i > 0;
        assert a[1..][..i - 1] == a[..i][1..] && b[1..][..i - 1] == b[..i][1..];
        assert DiffersAt(a[1..], b[1..], i - 1);
      }
    } else {
      assert a[0] < b[0] ==> DiffersAt(a, b, 0);
      if i: nat :| DiffersAt(a, b, i) {
        assert i > 0 ==> a[..i][0] == b[..i][0];
      }
    }
  }

  // ----- Positions as counts

  ghost function Among(ms: seq<Member>): set<Member> {
    if ms == [] then {} else Among(ms[..|ms| - 1]) + {ms[|ms| - 1]}
  }

  lemma {:induction false} AmongCounts(ms: seq<Member>)
    requires UniqueIds(ms)
    ensures |Among(ms)| == |ms| && forall m :: m in Among(ms) <==> m in ms
  {
    if ms != [] {
      var n := |ms| - 1;
      AmongCounts(ms[..n]);
      assert ms == ms[..n] + [ms[n]];
      assert ms[n] !in ms[..n];
    }
  }

  lemma BeforeInOrder(hs: seq<Member>, i: nat)
    requires StrictlySorted(hs) && i < |hs|
    ensures forall x :: x in hs[..i] <==> x in hs && Below(x.replicaId, hs[i].replicaId)
  {
    forall x | x in hs && Below(x.replicaId, hs[i].replicaId) ensures x in hs[..i] {
      var j :| 0 <= j < |hs| && hs[j] == x;
      BelowIsTotal(hs[i].replicaId, x.replicaId);
    }
  }
}
