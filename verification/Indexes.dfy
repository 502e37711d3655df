/** The two subscriber indexes (internal/router/index.go, internal/router/wildcard.go),
    proved against maps of sets and of sequences. Each method holds the index lock
    for its whole body, so it is one atomic step. */
module Indexes {

  // ----- Reference: maps of buckets, no bucket ever empty -----

  ghost function SetAt<T>(m: map<string, set<T>>, key: string): set<T> {
    if key in m then m[key] else {}
  }

  ghost function SetAdded<T>(m: map<string, set<T>>, key: string, x: T): map<string, set<T>> {
    m[key := SetAt(m, key) + {x}]
  }

  ghost function SetRemoved<T>(m: map<string, set<T>>, key: string, x: T): map<string, set<T>> {
    if SetAt(m, key) - {x} == {} then m - {key} else m[key := SetAt(m, key) - {x}]
  }

  ghost function SetMembers<T>(m: map<string, set<T>>): set<T> {
    set k, x | k in m && x in m[k] :: x
  }

  ghost function SeqAt<T>(m: map<string, seq<T>>, key: string): seq<T> {
    if key in m then m[key] else []
  }

  ghost function SeqAdded<T>(m: map<string, seq<T>>, key: string, x: T): map<string, seq<T>> {
    m[key := SeqAt(m, key) + [x]]
  }

  // The first occurrence of x in the bucket goes; an emptied bucket goes too.
  ghost function SeqRemoved<T>(m: map<string, seq<T>>, key: string, x: T): map<string, seq<T>> {
    var rest := WithoutFirst(SeqAt(m, key), x);
    if rest == [] then m - {key} else m[key := rest]
  }

  ghost function SeqMembers<T>(m: map<string, seq<T>>): set<T> {
    set k, x | k in m && x in m[k] :: x
  }

  // The position of x in s, or |s|.
  function FirstIndex<T(==)>(s: seq<T>, x: T): (i: nat)
    ensures i <= |s|
    ensures forall j :: 0 <= j < i ==> s[j] != x
    ensures i < |s| ==> s[i] == x
  {
    if s == [] || s[0] == x then 0 else 1 + FirstIndex(s[1..], x)
  }

  ghost function WithoutFirst<T>(s: seq<T>, x: T): seq<T> {
    var i := FirstIndex(s, x);
    if i == |s| then s else s[..i] + s[i + 1..]
  }

  // Sum of the bucket sizes, in any order.
  ghost function Total(sizes: map<string, nat>): nat
    decreases sizes.Keys
  {
    if sizes == map[] then 0 else
      var k :| k in sizes.Keys;
      assert (sizes - {k}).Keys == sizes.Keys - {k};
      sizes[k] + Total(sizes - {k})
  }

  lemma {:induction false} TotalRemove(sizes: map<string, nat>, k: string)
    requires k in sizes
    ensures Total(sizes) == sizes[k] + Total(sizes - {k})
    decreases sizes.Keys
  {
    var j :| j in sizes.Keys && Total(sizes) == sizes[j] + Total(sizes - {j});
    if j != k {
      assert (sizes - {j}).Keys == sizes.Keys - {j} && (sizes - {k}).Keys == sizes.Keys - {k};
      TotalRemove(sizes - {j}, k);
      TotalRemove(sizes - {k}, j);
      assert sizes - {j} - {k} == sizes - {k} - {j};
    }
  }

  ghost function SetSizes<T>(m: map<string, set<T>>): map<string, nat> {
    map k | k in m :: |m[k]|
  }

  ghost function SeqSizes<T>(m: map<string, seq<T>>): map<string, nat> {
    map k | k in m :: |m[k]|
  }

  ghost function SetTotal<T>(m: map<string, set<T>>): nat {
    Total(SetSizes(m))
  }

  ghost function SeqTotal<T>(m: map<string, seq<T>>): nat {
    Total(SeqSizes(m))
  }

  lemma SetWithout<T>(m: map<string, set<T>>, key: string)
    ensures SetTotal(m) == |SetAt(m, key)| + SetTotal(m - {key})
  {
    assert SetSizes(m - {key}) == SetSizes(m) - {key};
    if key in m {
      TotalRemove(SetSizes(m), key);
    } else {
      assert m - {key} == m;
    }
  }

  lemma SetWith<T>(m: map<string, set<T>>, key: string, bucket: set<T>)
    ensures SetTotal(m[key := bucket]) == |bucket| + SetTotal(m - {key})
  {
    SetWithout(m[key := bucket], key);
    assert m[key := bucket] - {key} == m - {key};
  }

  lemma SeqWithout<T>(m: map<string, seq<T>>, key: string)
    ensures SeqTotal(m) == |SeqAt(m, key)| + SeqTotal(m - {key})
  {
    assert SeqSizes(m - {key}) == SeqSizes(m) - {key};
    if key in m {
      TotalRemove(SeqSizes(m), key);
    } else {
      assert m - {key} == m;
    }
  }

  lemma SeqWith<T>(m: map<string, seq<T>>, key: string, bucket: seq<T>)
    ensures SeqTotal(m[key := bucket]) == |bucket| + SeqTotal(m - {key})
  {
    SeqWithout(m[key := bucket], key);
    assert m[key := bucket] - {key} == m - {key};
  }

  /** Adding changes one bucket, leaves none empty, and lengthens the index by one
      unless the subscriber was there. */
  lemma SetAddEffect<T>(m: map<string, set<T>>, key: string, x: T)
    ensures SetTotal(SetAdded(m, key, x)) == SetTotal(m) + if x in SetAt(m, key) then 0 else 1
  {
    SetWithout(m, key);
    SetWith(m, key, SetAt(m, key) + {x});
    assert x in SetAt(m, key) ==> SetAt(m, key) + {x} == SetAt(m, key);
  }

  lemma SetAddMembers<T>(m: map<string, set<T>>, key: string, x: T)
    ensures SetMembers(SetAdded(m, key, x)) == SetMembers(m) + {x}
  {
    MembersAfter(m, key, SetAt(m, key) + {x});
    MembersAfter(m, key, SetAt(m, key));
    SetAtSame(m, key);
  }

  lemma SetAtSame<T>(m: map<string, set<T>>, key: string)
    ensures SetMembers(m[key := SetAt(m, key)]) == SetMembers(m)
  {
    if key in m {
      assert m[key := m[key]] == m;
    } else {
      SetMembersSplit(m[key := {}], key);
      assert m[key := {}] - {key} == m;
    }
  }

  lemma MembersAfter<T>(m: map<string, set<T>>, key: string, bucket: set<T>)
    ensures SetMembers(m[key := bucket]) == bucket + SetMembers(m - {key})
  {
    SetMembersSplit(m[key := bucket], key);
    assert m[key := bucket] - {key} == m - {key};
  }

  /** Removing changes one bucket, leaves none empty, and shortens the index by one
      unless the subscriber was not there. */
  lemma SetRemoveEffect<T>(m: map<string, set<T>>, key: string, x: T)
    ensures SetTotal(SetRemoved(m, key, x)) == SetTotal(m) - if x in SetAt(m, key) then 1 else 0
  {
    SetWithout(m, key);
    SetWith(m, key, SetAt(m, key) - {x});
    assert x !in SetAt(m, key) ==> SetAt(m, key) - {x} == SetAt(m, key);
  }

  lemma SetRemoveMembers<T>(m: map<string, set<T>>, key: string, x: T)
    requires forall k :: k in m && x in m[k] ==> k == key
    ensures SetMembers(SetRemoved(m, key, x)) == SetMembers(m) - {x}
  {
    MembersAfter(m, key, SetAt(m, key) - {x});
    MembersAfter(m, key, SetAt(m, key));
    SetAtSame(m, key);
    assert x !in SetMembers(m - {key});
  }

  /** The same for sequences of subscribers, which may hold one twice. */
  lemma SeqEditEffect<T>(m: map<string, seq<T>>, key: string, x: T)
    ensures SeqTotal(SeqAdded(m, key, x)) == SeqTotal(m) + 1
    ensures SeqTotal(SeqRemoved(m, key, x)) == SeqTotal(m) - if x in SeqAt(m, key) then 1 else 0
  {
    SeqWithout(m, key);
    SeqWith(m, key, SeqAt(m, key) + [x]);
    SeqWith(m, key, WithoutFirst(SeqAt(m, key), x));
  }

  lemma SeqAddMembers<T>(m: map<string, seq<T>>, key: string, x: T)
    ensures SeqMembers(SeqAdded(m, key, x)) == SeqMembers(m) + {x}
  {
    var added := SeqAdded(m, key, x);
    forall y | y in SeqMembers(m) + {x}
      ensures y in SeqMembers(added)
    {
      if y == x {
        assert x in added[key];
      } else {
        var k :| k in m && y in m[k];
        assert k in added && y in added[k];
      }
    }
  }

  lemma WithoutFirstMembers<T>(s: seq<T>, x: T, y: T)
    requires y != x
    ensures y in WithoutFirst(s, x) <==> y in s
  {
    var i := FirstIndex(s, x);
    if i < |s| {
      assert s == s[..i] + [x] + s[i + 1..];
    }
  }

  // rest is s without its first x, in the same order, or s where it holds none.
  ghost predicate FirstGone<T>(s: seq<T>, x: T, rest: seq<T>) {
    if x !in s then rest == s
    else exists i :: 0 <= i < |s| && s[i] == x && x !in s[..i] && rest == s[..i] + s[i + 1..]
  }

  lemma FirstGoes<T>(s: seq<T>, x: T)
    ensures FirstGone(s, x, WithoutFirst(s, x))
  {
    var i := FirstIndex(s, x);
    if i < |s| {
      assert s[i] == x && x !in s[..i];
    }
  }

  lemma RestStays<K, V>(m: map<K, V>, key: K, v: V)
    ensures m[key := v] - {key} == m - {key} && m - {key} - {key} == m - {key}
  {
  }

  /** Adding puts a subscriber at the end of one bucket; removing takes its first
      occurrence out of one, in order, and the key with the last; no other bucket moves. */
  lemma SeqEditsOneBucket<T>(m: map<string, seq<T>>, key: string, x: T)
    ensures var added, s := SeqAdded(m, key, x), if key in m then m[key] else [];
      key in added && added[key] == s + [x] && added - {key} == m - {key}
    ensures var removed, s := SeqRemoved(m, key, x), if key in m then m[key] else [];
      && FirstGone(s, x, if key in removed then removed[key] else [])
      && (key in removed ==> removed[key] != []) && removed - {key} == m - {key}
  {
    var rest := WithoutFirst(SeqAt(m, key), x);
    FirstGoes(SeqAt(m, key), x);
    RestStays(m, key, SeqAt(m, key) + [x]);
    RestStays(m, key, rest);
  }

  /** The same for sets of subscribers. */
  lemma SetEditsOneBucket<T>(m: map<string, set<T>>, key: string, x: T)
    ensures var added := SetAdded(m, key, x);
      key in added && added[key] == (if key in m then m[key] else {}) + {x} && added - {key} == m - {key}
    ensures var removed := SetRemoved(m, key, x);
      && (if key in removed then removed[key] else {}) == (if key in m then m[key] else {}) - {x}
      && (key in removed ==> removed[key] != {}) && removed - {key} == m - {key}
  {
    RestStays(m, key, SetAt(m, key) + {x});
    RestStays(m, key, SetAt(m, key) - {x});
  }

  // What removing x takes out of the bucket: x, unless it is there a second time.
  ghost function TakenOut<T>(s: seq<T>, x: T): set<T> {
    if x in WithoutFirst(s, x) then {} else {x}
  }

  lemma SeqRemoveMembers<T>(m: map<string, seq<T>>, key: string, x: T)
    requires forall k :: k in m && x in m[k] ==> k == key
    ensures SeqMembers(SeqRemoved(m, key, x)) == SeqMembers(m) - TakenOut(SeqAt(m, key), x)
  {
    var removed := SeqRemoved(m, key, x);
    forall y | y != x
      ensures y in SeqMembers(removed) <==> y in SeqMembers(m)
    {
      WithoutFirstMembers(SeqAt(m, key), x, y);
      if k :| k in m && y in m[k] {
        assert k in removed && y in removed[k];
      }
      if k :| k in removed && y in removed[k] {
        assert k in m && y in m[k];
      }
    }
    if x in WithoutFirst(SeqAt(m, key), x) {
      assert key in removed && x in removed[key];
      assert key in m && x in m[key];
    } else {
      assert x !in SeqMembers(removed);
    }
  }

  // ----- Members filed under the one key that fits them -----

  ghost predicate SetFiled<T>(m: map<string, set<T>>, fits: (string, T) -> bool) {
    forall k :: k in m ==> SetFits(k, m[k], fits)
  }

  ghost predicate SetFits<T>(k: string, bucket: set<T>, fits: (string, T) -> bool) {
    bucket != {} && forall x :: x in bucket ==> fits(k, x)
  }

  ghost predicate SeqFiled<T>(m: map<string, seq<T>>, fits: (string, T) -> bool) {
    forall k :: k in m ==> SeqFits(k, m[k], fits)
  }

  ghost predicate SeqFits<T>(k: string, bucket: seq<T>, fits: (string, T) -> bool) {
    bucket != [] && forall x :: x in bucket ==> fits(k, x)
  }

  ghost predicate FitsOnly<T>(fits: (string, T) -> bool, key: string, x: T) {
    forall k :: fits(k, x) <==> k == key
  }

  lemma SetMemberAt<T>(m: map<string, set<T>>, fits: (string, T) -> bool, key: string, x: T)
    requires SetFiled(m, fits) && FitsOnly(fits, key, x)
    ensures x in SetMembers(m) <==> x in SetAt(m, key)
  {
    if k :| k in m && x in m[k] {
      assert SetFits(k, m[k], fits);
    }
  }

  lemma SeqMemberAt<T>(m: map<string, seq<T>>, fits: (string, T) -> bool, key: string, x: T)
    requires SeqFiled(m, fits) && FitsOnly(fits, key, x)
    ensures x in SeqMembers(m) <==> x in SeqAt(m, key)
  {
    if k :| k in m && x in m[k] {
      assert SeqFits(k, m[k], fits);
    }
  }

  lemma SetFiledAdd<T>(m: map<string, set<T>>, fits: (string, T) -> bool, key: string, x: T)
    requires SetFiled(m, fits) && FitsOnly(fits, key, x)
    ensures SetFiled(SetAdded(m, key, x), fits)
  {
    assert key in m ==> SetFits(key, m[key], fits);
    assert SetFits(key, SetAt(m, key) + {x}, fits);
  }

  lemma SetFiledAddMembers<T>(m: map<string, set<T>>, fits: (string, T) -> bool, key: string, x: T)
    requires SetFiled(m, fits) && FitsOnly(fits, key, x)
    ensures SetMembers(SetAdded(m, key, x)) == SetMembers(m) + {x}
    ensures SetTotal(SetAdded(m, key, x)) == SetTotal(m) + if x in SetMembers(m) then 0 else 1
  {
    SetMemberAt(m, fits, key, x);
    SetAddMembers(m, key, x);
    SetAddEffect(m, key, x);
  }

  lemma SetFiledRemove<T>(m: map<string, set<T>>, fits: (string, T) -> bool, key: string, x: T)
    requires SetFiled(m, fits) && FitsOnly(fits, key, x)
    ensures SetFiled(SetRemoved(m, key, x), fits)
    ensures SetMembers(SetRemoved(m, key, x)) == SetMembers(m) - {x}
    ensures SetTotal(SetRemoved(m, key, x)) == SetTotal(m) - if x in SetMembers(m) then 1 else 0
  {
    assert key in m ==> SetFits(key, m[key], fits);
    SetMemberAt(m, fits, key, x);
    forall k | k in m && x in m[k]
      ensures k == key
    {
      assert SetFits(k, m[k], fits);
    }
    SetRemoveMembers(m, key, x);
    SetRemoveEffect(m, key, x);
  }

  lemma SeqFiledAdd<T>(m: map<string, seq<T>>, fits: (string, T) -> bool, key: string, x: T)
    requires SeqFiled(m, fits) && FitsOnly(fits, key, x)
    ensures SeqFiled(SeqAdded(m, key, x), fits)
    ensures SeqMembers(SeqAdded(m, key, x)) == SeqMembers(m) + {x}
    ensures SeqTotal(SeqAdded(m, key, x)) == SeqTotal(m) + 1
  {
    assert key in m ==> SeqFits(key, m[key], fits);
    SeqAddMembers(m, key, x);
    SeqEditEffect(m, key, x);
  }

  lemma SeqFiledRemove<T>(m: map<string, seq<T>>, fits: (string, T) -> bool, key: string, x: T)
    requires SeqFiled(m, fits) && FitsOnly(fits, key, x)
    ensures SeqFiled(SeqRemoved(m, key, x), fits)
    ensures SeqMembers(SeqRemoved(m, key, x)) == SeqMembers(m) - TakenOut(SeqAt(m, key), x)
    ensures SeqTotal(SeqRemoved(m, key, x)) == SeqTotal(m) - if x in SeqMembers(m) then 1 else 0
  {
    assert key in m ==> SeqFits(key, m[key], fits);
    SeqMemberAt(m, fits, key, x);
    forall k | k in m && x in m[k]
      ensures k == key
    {
      assert SeqFits(k, m[k], fits);
    }
    SeqRemoveMembers(m, key, x);
    SeqEditEffect(m, key, x);
  }

  // ----- Exact index: a map of sets -----

  class Index<T(==)> {
    var subs: map<string, set<T>>

    constructor ()
      ensures subs == map[]
    {
      subs := map[];
    }

    method Add(key: string, sub: T)
      modifies this
      ensures subs == SetAdded(old(subs), key, sub)
    {
      if key !in subs {
        subs := subs[key := {}];
      }
      subs := subs[key := subs[key] + {sub}];
    }

    method Remove(key: string, sub: T)
      modifies this
      ensures subs == SetRemoved(old(subs), key, sub)
    {
      if key in subs {
        subs := subs[key := subs[key] - {sub}];
      }
      if key !in subs || subs[key] == {} {
        subs := subs - {key};
      }
    }

    method Lookup(key: string) returns (out: seq<T>)
      ensures |out| == |SetAt(subs, key)|
      ensures forall x :: x in out <==> x in SetAt(subs, key)
    {
      if key !in subs {
        return [];
      }
      out := ListOf(subs[key]);
    }

    method Len() returns (total: nat)
      ensures total == SetTotal(subs)
    {
      total := 0;
      var todo := subs;
      while todo != map[]
        invariant total + SetTotal(todo) == SetTotal(subs)
        decreases todo.Keys
      {
        var k :| k in todo.Keys;
        SetWithout(todo, k);
        total := total + |todo[k]|;
        todo := todo - {k};
      }
    }

    method Snapshot() returns (out: seq<T>)
      ensures forall x :: x in out <==> x in SetMembers(subs)
    {
      out := [];
      var todo := subs;
      while todo != map[]
        invariant forall x :: x in SetMembers(subs) <==> x in out || x in SetMembers(todo)
        decreases todo.Keys
      {
        var k :| k in todo.Keys;
        var part := ListOf(todo[k]);
        out := out + part;
        SetMembersSplit(todo, k);
        todo := todo - {k};
      }
    }
  }

  lemma SetMembersSplit<T>(m: map<string, set<T>>, key: string)
    requires key in m
    ensures SetMembers(m) == m[key] + SetMembers(m - {key})
  {
    forall x | x in SetMembers(m)
      ensures x in m[key] + SetMembers(m - {key})
    {
      var k :| k in m && x in m[k];
      assert k != key ==> k in m - {key} && x in (m - {key})[k];
    }
  }

  lemma SeqMembersSplit<T>(m: map<string, seq<T>>, key: string)
    requires key in m
    ensures forall x :: x in SeqMembers(m) <==> x in m[key] || x in SeqMembers(m - {key})
  {
    forall x | x in SeqMembers(m)
      ensures x in m[key] || x in SeqMembers(m - {key})
    {
      var k :| k in m && x in m[k];
      assert k != key ==> k in m - {key} && x in (m - {key})[k];
    }
  }

  // Ranging over a set visits every member once, in an unspecified order.
  method ListOf<T(==)>(s: set<T>) returns (out: seq<T>)
    ensures |out| == |s|
    ensures forall x :: x in out <==> x in s
  {
    out := [];
    var todo := s;
    while todo != {}
      invariant todo <= s
      invariant |out| + |todo| == |s|
      invariant forall x :: x in out <==> x in s && x !in todo
      decreases todo
    {
      var x :| x in todo;
      out := out + [x];
      todo := todo - {x};
    }
  }

  // ----- Wildcard index: a map of slices, shifted in place -----

  // A Go slice: the first len cells of a backing array.
  datatype Slice<T> = Slice(cells: array<T>, len: nat)

  class WildcardIndex<T(==)> {
    var m: map<string, Slice<T>>
    // What the slices hold.
    ghost var buckets: map<string, seq<T>>

    ghost function Cells(): set<object>
      reads this
    {
      set k | k in m :: m[k].cells
    }

    // Each bucket has a backing array of its own.
    ghost predicate Shaped()
      reads this
    {
      && m.Keys == buckets.Keys
      && (forall k :: k in m ==> 0 < m[k].len <= m[k].cells.Length)
      && (forall j, k :: j in m && k in m && j != k ==> m[j].cells != m[k].cells)
    }

    ghost predicate Holds(k: string)
      requires Shaped() && k in m
      reads this, m[k].cells
    {
      m[k].cells[..m[k].len] == buckets[k]
    }

    ghost predicate Valid()
      reads this, Cells()
    {
      Shaped() && forall k :: k in m ==> Holds(k)
    }

    constructor ()
      ensures Valid() && buckets == map[] && Cells() == {}
    {
      m, buckets := map[], map[];
    }

    // m[key] = s
    method Put(key: string, s: Slice<T>)
      requires Shaped() && forall k :: k in m && k != key ==> Holds(k) && m[k].cells != s.cells
      requires 0 < s.len <= s.cells.Length
      modifies this
      ensures Valid() && Cells() <= old(Cells()) + {s.cells}
      ensures buckets == old(buckets)[key := s.cells[..s.len]]
    {
      m, buckets := m[key := s], buckets[key := s.cells[..s.len]];
      assert Shaped();
      assert Holds(key);
      assert forall k :: k in m && k != key ==> Holds(k);
    }

    method Add(key: string, sub: T)
      requires Valid()
      modifies this, Cells()
      ensures Valid() && fresh(Cells() - old(Cells()))
      ensures buckets == SeqAdded(old(buckets), key, sub)
    {
      if key in m && m[key].len < m[key].cells.Length {
        AppendInPlace(key, sub);
      } else {
        var from := if key in m then m[key].cells[..m[key].len] else [];
        assert key in m ==> Holds(key);
        var cells := Grown(from, sub);
        Put(key, Slice(cells, |from| + 1));
      }
    }

    method AppendInPlace(key: string, sub: T)
      requires Valid() && key in m && m[key].len < m[key].cells.Length
      modifies this, m[key].cells
      ensures Valid() && Cells() <= old(Cells())
      ensures buckets == SeqAdded(old(buckets), key, sub)
    {
      var cells, len := m[key].cells, m[key].len;
      assert Holds(key);
      cells[len] := sub;
      assert cells[..len + 1] == old(buckets[key]) + [sub];
      Put(key, Slice(cells, len + 1));
    }

    method Remove(key: string, sub: T)
      requires Valid()
      modifies this, Cells()
      ensures Valid() && Cells() <= old(Cells())
      ensures buckets == SeqRemoved(old(buckets), key, sub)
    {
      if key !in m {
        assert buckets - {key} == buckets;
        return;
      }
      assert Holds(key);
      var i := Position(m[key].cells, m[key].len, sub);
      if i == m[key].len {
        assert buckets[key := buckets[key]] == buckets;
        return;
      }
      RemoveAt(key, i);
    }

    // append(s[:i], s[i+1:]...), and the key goes with its last subscriber.
    method RemoveAt(key: string, i: nat)
      requires Valid() && key in m && i < m[key].len
      modifies this, m[key].cells
      ensures Valid() && Cells() <= old(Cells())
      ensures |old(buckets[key])| == old(m[key].len)
      ensures var rest := old(buckets[key])[..i] + old(buckets[key])[i + 1..];
        buckets == if rest == [] then old(buckets) - {key} else old(buckets)[key := rest]
    {
      var cells, len := m[key].cells, m[key].len;
      assert Holds(key);
      ShiftLeft(cells, i, len);
      assert cells[..len - 1] == old(buckets[key])[..i] + old(buckets[key])[i + 1..];
      if len == 1 {
        m, buckets := m - {key}, buckets - {key};
        assert forall k :: k in m ==> Holds(k);
      } else {
        Put(key, Slice(cells, len - 1));
      }
    }

    // The copy shares no cell with the index.
    method Lookup(key: string) returns (out: array<T>)
      requires Valid()
      ensures fresh(out) && out[..] == SeqAt(buckets, key)
    {
      if key !in m {
        out := new T[0];
      } else {
        assert Holds(key);
        out := Copied(m[key].cells[..m[key].len]);
      }
    }

    method Len() returns (total: nat)
      requires Valid()
      ensures total == SeqTotal(buckets)
    {
      total := 0;
      ghost var rest := buckets;
      var todo := m;
      while todo != map[]
        invariant todo.Keys == rest.Keys
        invariant forall k :: k in todo ==> k in m && todo[k] == m[k] && rest[k] == buckets[k]
        invariant total + SeqTotal(rest) == SeqTotal(buckets)
        decreases todo.Keys
      {
        var k :| k in todo.Keys;
        assert Holds(k);
        SeqWithout(rest, k);
        total := total + todo[k].len;
        todo, rest := todo - {k}, rest - {k};
      }
    }

    method Snapshot() returns (out: seq<T>)
      requires Valid()
      ensures forall x :: x in out <==> x in SeqMembers(buckets)
    {
      out := [];
      ghost var rest := buckets;
      var todo := m;
      while todo != map[]
        invariant todo.Keys == rest.Keys
        invariant forall k :: k in todo ==> k in m && todo[k] == m[k] && rest[k] == buckets[k]
        invariant forall x :: x in SeqMembers(buckets) <==> x in out || x in SeqMembers(rest)
        decreases todo.Keys
      {
        var k :| k in todo.Keys;
        assert Holds(k);
        out := out + todo[k].cells[..todo[k].len];
        SeqMembersSplit(rest, k);
        todo, rest := todo - {k}, rest - {k};
      }
    }
  }

  method Copied<T>(s: seq<T>) returns (cells: array<T>)
    ensures fresh(cells) && cells[..] == s
  {
    cells := new T[|s|](i requires 0 <= i < |s| => s[i]);
  }

  // A larger backing array holding from followed by sub; the spare cells are arbitrary.
  method Grown<T>(from: seq<T>, sub: T) returns (cells: array<T>)
    ensures fresh(cells) && cells.Length > |from|
    ensures cells[..|from| + 1] == from + [sub]
  {
    cells := new T[2 * |from| + 1](i => if 0 <= i < |from| then from[i] else sub);
  }

  method Position<T(==)>(cells: array<T>, len: nat, sub: T) returns (i: nat)
    requires len <= cells.Length
    ensures i == FirstIndex(cells[..len], sub)
  {
    i := 0;
    while i < len && cells[i] != sub
      invariant 0 <= i <= len
      invariant forall j :: 0 <= j < i ==> cells[j] != sub
    {
      i := i + 1;
    }
  }

  // Cells i+1.. of one backing array move down by one.
  method ShiftLeft<T>(cells: array<T>, i: nat, len: nat)
    requires i < len <= cells.Length
    modifies cells
    ensures cells[..len - 1] == old(cells[..i] + cells[i + 1..len])
    ensures cells[len - 1..] == old(cells[len - 1..])
  {
    for j := i to len - 1
      invariant forall k :: 0 <= k < i || j <= k < cells.Length ==> cells[k] == old(cells[k])
      invariant forall k :: i <= k < j ==> cells[k] == old(cells[k + 1])
    {
      cells[j] := cells[j + 1];
    }
  }

  datatype Edit<T> = Insert(key: string, sub: T) | Delete(key: string, sub: T)

  /** A looked-up copy keeps its contents through any later edits of the index. */
  method LookupCopyIsStable<T(==)>(w: WildcardIndex<T>, key: string, edits: seq<Edit<T>>) returns (copied: array<T>)
    requires w.Valid()
    modifies w, w.Cells()
    ensures copied[..] == old(SeqAt(w.buckets, key))
  {
    copied := w.Lookup(key);
    for n := 0 to |edits|
      invariant w.Valid() && copied !in w.Cells()
      invariant fresh(w.Cells() - old(w.Cells()))
      invariant copied[..] == old(SeqAt(w.buckets, key))
    {
      match edits[n]
      case Insert(k, sub) => w.Add(k, sub);
      case Delete(k, sub) => w.Remove(k, sub);
    }
  }
}
