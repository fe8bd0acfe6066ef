/** The JPA repositories, as in-memory tables: a map from id to record plus
    the order in which `findAll` returns the records, and stream filters over
    that order. */
module Tables {
  import opened Common

  /** One repository. `ids` lists the stored ids in `findAll` order; `nextId`
      is the next identity the database will hand out. */
  datatype Table<T(!new)> = Table(rows: map<Id, T>, ids: seq<Id>, nextId: Id) {

    ghost predicate Valid() {
      && (forall i, j :: 0 <= i < j < |ids| ==> ids[i] != ids[j])
      && (forall k :: k in rows <==> k in ids)
      && (forall k :: k in rows ==> k < nextId)
    }

    /** `findById` */
    function Get(id: Id): (r: Option<T>)
      ensures r.Some? <==> id in rows
      ensures r.Some? ==> r.value == rows[id]
    {
      if id in rows then Some(rows[id]) else None
    }

    /** `save` of a new record: the database assigns the next identity. */
    function Insert(row: T): (r: Table<T>)
      requires Valid()
      ensures r.Valid()
      ensures nextId !in rows && r.rows == rows[nextId := row]
      ensures r.ids == ids + [nextId] && r.nextId == nextId + 1
    {
      NextIdFresh();
      Table(rows[nextId := row], ids + [nextId], nextId + 1)
    }

    /** The next identity is not in use yet. */
    lemma NextIdFresh()
      requires Valid()
      ensures nextId !in rows && nextId !in ids
    {
    }

    /** `save` of a record that is already stored: overwrites it in place. */
    function Put(id: Id, row: T): (r: Table<T>)
      requires Valid() && id in rows
      ensures r.Valid()
      ensures r.rows == rows[id := row] && r.rows.Keys == rows.Keys
      ensures r.ids == ids && r.nextId == nextId
    {
      Table(rows[id := row], ids, nextId)
    }

    /** `deleteById`: drops the record, if there is one; an absent id is
        ignored. The others keep their `findAll` order. */
    function Remove(id: Id): (r: Table<T>)
      requires Valid()
      ensures r.Valid()
      ensures r.rows == rows - {id} && r.nextId == nextId
      ensures r.ids == Filter(ids, k => k != id)
    {
      FilterDistinct(ids, k => k != id);
      Table(rows - {id}, Filter(ids, k => k != id), nextId)
    }

    /** `findAll`: every stored record with its id, in store order. */
    function All(): (r: seq<(Id, T)>)
      requires Valid()
      ensures |r| == |ids|
      ensures forall i :: 0 <= i < |r| ==> r[i] == (ids[i], rows[ids[i]])
      ensures forall e: (Id, T) :: e in r <==> e.0 in rows && rows[e.0] == e.1
      ensures Distinct(r)
    {
      var r := seq(|ids|, i requires 0 <= i < |ids| => (ids[i], rows[ids[i]]));
      assert forall e: (Id, T) :: e.0 in rows && rows[e.0] == e.1 ==> e in r by {
        forall e: (Id, T) | e.0 in rows && rows[e.0] == e.1 ensures e in r {
          var i :| 0 <= i < |ids| && ids[i] == e.0;
          assert r[i] == e;
        }
      }
      r
    }
  }

  /** A stream filter over `findAll`: the records `p` keeps, each once, in
      `findAll` order. Every list query of the services is one of these. */
  function Where<T(!new)>(t: Table<T>, p: ((Id, T)) -> bool): (r: seq<(Id, T)>)
    requires t.Valid()
    ensures Distinct(r) && Subsequence(r, t.All())
    ensures forall e: (Id, T) :: e in r <==> e.0 in t.rows && t.rows[e.0] == e.1 && p(e)
  {
    FilterDistinct(t.All(), p);
    FilterSubsequence(t.All(), p);
    Filter(t.All(), p)
  }

  /** `findAll` returns exactly `count()` records: the listed ids are the
      stored keys, each once. */
  lemma SizeIsIdCount<T(!new)>(t: Table<T>)
    requires t.Valid()
    ensures |t.rows| == |t.ids| == |t.All()|
  {
    assert t.rows.Keys == Elements(t.ids);
    DistinctCardinality(t.ids);
  }

  function Elements(s: seq<Id>): set<Id> {
    set i | i in s
  }

  lemma {:induction false} DistinctCardinality(s: seq<Id>)
    requires forall i, j :: 0 <= i < j < |s| ==> s[i] != s[j]
    ensures |Elements(s)| == |s|
  {
    if s == [] {
      assert Elements(s) == {};
    } else {
      var t := s[1..];
      forall i, j | 0 <= i < j < |t| ensures t[i] != t[j] {
        assert t[i] == s[i + 1] && t[j] == s[j + 1];
      }
      DistinctCardinality(t);
      forall k | 0 <= k < |t| ensures t[k] != s[0] {
        assert t[k] == s[k + 1];
      }
      assert Elements(s) == Elements(t) + {s[0]} by {
        assert s == [s[0]] + t;
      }
    }
  }

  function EmptyTable<T(!new)>(): (t: Table<T>)
    ensures t.Valid() && t.rows == map[] && t.ids == []
  {
    Table(map[], [], 0)
  }

  /** `stream().filter(p).toList()` */
  function Filter<E(!new)>(s: seq<E>, p: E -> bool): (r: seq<E>)
    ensures |r| <= |s|
    ensures forall x :: x in r <==> x in s && p(x)
  {
    KeptMembers(s, p);
    Kept(s, p)
  }

  /** The elements a filter keeps, first to last. */
  function Kept<E>(s: seq<E>, p: E -> bool): seq<E> {
    if s == [] then [] else (if p(s[0]) then [s[0]] else []) + Kept(s[1..], p)
  }

  lemma {:induction false} KeptMembers<E>(s: seq<E>, p: E -> bool)
    ensures |Kept(s, p)| <= |s|
    ensures forall x :: x in Kept(s, p) <==> x in s && p(x)
  {
    if s != [] {
      KeptMembers(s[1..], p);
      assert s == [s[0]] + s[1..];
    }
  }

  /** Filtering keeps the order of the input: it distributes over
      concatenation, so each kept element stays where it was relative to the
      others. */
  lemma {:induction false} FilterAppend<E(!new)>(a: seq<E>, b: seq<E>, p: E -> bool)
    ensures Filter(a + b, p) == Filter(a, p) + Filter(b, p)
  {
    if a == [] {
      assert a + b == b;
    } else {
      assert (a + b)[0] == a[0] && (a + b)[1..] == a[1..] + b;
      FilterAppend(a[1..], b, p);
    }
  }

  /** Two complementary filters split the input between them: together they
      return every element exactly once. */
  lemma FilterPartition<E(!new)>(s: seq<E>, p: E -> bool, q: E -> bool)
    requires forall i :: 0 <= i < |s| ==> (q(s[i]) <==> !p(s[i]))
    ensures multiset(Filter(s, p)) + multiset(Filter(s, q)) == multiset(s)
    ensures |Filter(s, p)| + |Filter(s, q)| == |s|
  {
    KeptPartition(s, p, q);
    assert |multiset(Filter(s, p)) + multiset(Filter(s, q))| == |multiset(s)|;
  }

  lemma {:induction false} KeptPartition<E>(s: seq<E>, p: E -> bool, q: E -> bool)
    requires forall i :: 0 <= i < |s| ==> (q(s[i]) <==> !p(s[i]))
    ensures multiset(Kept(s, p)) + multiset(Kept(s, q)) == multiset(s)
  {
    if s != [] {
      var x, t := s[0], s[1..];
      assert forall i :: 0 <= i < |t| ==> t[i] == s[i + 1];
      KeptPartition(t, p, q);
      assert s == [x] + t;
      assert q(x) == !p(x);
      MultisetStep(x, Kept(t, p), Kept(t, q), t, p(x));
    }
  }

  /** One more element goes to exactly one side of a split. */
  lemma MultisetStep<E>(x: E, a: seq<E>, b: seq<E>, t: seq<E>, left: bool)
    requires multiset(a) + multiset(b) == multiset(t)
    ensures multiset((if left then [x] else []) + a) + multiset((if left then [] else [x]) + b) == multiset([x] + t)
  {
  }

  /** Filters that agree on every element give the same list. */
  lemma {:induction false} FilterSame<E(!new)>(s: seq<E>, p: E -> bool, q: E -> bool)
    requires forall x :: x in s ==> (p(x) <==> q(x))
    ensures Filter(s, p) == Filter(s, q)
  {
    if s != [] {
      assert forall x :: x in s[1..] ==> x in s;
      FilterSame(s[1..], p, q);
    }
  }

  /** No element occurs twice. */
  ghost predicate Distinct<E>(s: seq<E>) {
    forall i, j :: 0 <= i < j < |s| ==> s[i] != s[j]
  }

  /** `r` is `s` with some elements left out and the rest in their order. */
  ghost predicate Subsequence<E>(r: seq<E>, s: seq<E>)
    decreases |s|
  {
    if r == [] then true
    else if s == [] then false
    else (r[0] == s[0] && Subsequence(r[1..], s[1..])) || Subsequence(r, s[1..])
  }

  /** A filter only leaves elements out: the kept ones stay in input order. */
  lemma {:induction false} FilterSubsequence<E(!new)>(s: seq<E>, p: E -> bool)
    ensures Subsequence(Filter(s, p), s)
  {
    KeptSubsequence(s, p);
  }

  lemma {:induction false} KeptSubsequence<E>(s: seq<E>, p: E -> bool)
    ensures Subsequence(Kept(s, p), s)
  {
    if s != [] {
      KeptSubsequence(s[1..], p);
      var r := Kept(s, p);
      if p(s[0]) {
        assert r[0] == s[0] && r[1..] == Kept(s[1..], p);
      } else {
        assert r == Kept(s[1..], p);
      }
    }
  }

  /** A list without repeats whose only possible member is `x`, and which
      holds it, is `[x]`: a query that one record satisfies lists it alone. */
  lemma OnlyElement<E>(r: seq<E>, x: E)
    requires Distinct(r) && x in r
    requires forall y :: y in r ==> y == x
    ensures r == [x]
  {
    assert forall i :: 0 <= i < |r| ==> r[i] == x by {
      forall i | 0 <= i < |r| ensures r[i] == x {
        assert r[i] in r;
      }
    }
    FirstTwoDiffer(r);
  }

  lemma FirstTwoDiffer<E>(r: seq<E>)
    requires Distinct(r)
    ensures |r| > 1 ==> r[0] != r[1]
  {
  }

  /** Filtering a list without repeats gives a list without repeats. */
  lemma {:induction false} FilterDistinct<E(!new)>(s: seq<E>, p: E -> bool)
    requires Distinct(s)
    ensures Distinct(Filter(s, p))
  {
    if s != [] {
      var t := s[1..];
      forall i, j | 0 <= i < j < |t| ensures t[i] != t[j] {
        assert t[i] == s[i + 1] && t[j] == s[j + 1];
      }
      FilterDistinct(t, p);
      var f := Filter(t, p);
      if p(s[0]) {
        assert s[0] !in t by {
          forall k | 0 <= k < |t| ensures t[k] != s[0] {
            assert t[k] == s[k + 1];
          }
        }
        var r := [s[0]] + f;
        forall i, j | 0 <= i < j < |r| ensures r[i] != r[j] {
          if i == 0 {
            assert r[j] == f[j - 1] && r[j] in f;
          } else {
            assert r[i] == f[i - 1] && r[j] == f[j - 1];
          }
        }
      } else {
        assert Filter(s, p) == f;
      }
    }
  }

  /** A lookup declared as `Optional<T> findBy...`: the first match in store
      order, or none. */
  function FindFirst<E(!new)>(s: seq<E>, p: E -> bool): (r: Option<E>)
    ensures r.Some? ==> r.value in s && p(r.value)
    ensures r.None? <==> forall x :: x in s ==> !p(x)
  {
    var m := Filter(s, p);
    if m == [] then None else Some(m[0])
  }
}

/** `findAllById`, the one repository query that takes a set of ids. */
module BatchLookup {
  import opened Common

  /** `findAllById(ids)`: the stored records among the requested ids; ids
      with no record are skipped silently. */
  function FindAllById<T(==,!new)>(ids: set<Id>, rows: map<Id, T>): (r: set<(Id, T)>)
    ensures forall e :: e in r <==> e.0 in ids && e.0 in rows && rows[e.0] == e.1
  {
    set id | id in ids && id in rows :: (id, rows[id])
  }

  /** Each requested id is either found or missing, once. */
  lemma {:induction false} FindAllByIdCount<T(!new)>(ids: set<Id>, rows: map<Id, T>)
    ensures |FindAllById(ids, rows)| + |ids - rows.Keys| == |ids|
    decreases ids
  {
    if ids != {} {
      var x :| x in ids;
      var rest := ids - {x};
      FindAllByIdCount(rest, rows);
      assert ids == rest + {x};
      FindAllByIdStep(rest, rows, x);
    }
  }

  lemma FindAllByIdStep<T(!new)>(rest: set<Id>, rows: map<Id, T>, x: Id)
    requires x !in rest
    ensures |FindAllById(rest + {x}, rows)| + |(rest + {x}) - rows.Keys|
         == |FindAllById(rest, rows)| + |rest - rows.Keys| + 1
  {
    var keys := rows.Keys;
    if x in keys {
      FoundOneMore(rest, rows, x);
      MissingSame(rest, keys, x);
    } else {
      FoundNoneMore(rest, rows, x);
      MissingOneMore(rest, keys, x);
    }
  }

  lemma MissingSame(rest: set<Id>, keys: set<Id>, x: Id)
    requires x in keys
    ensures (rest + {x}) - keys == rest - keys
  {
  }

  lemma MissingOneMore(rest: set<Id>, keys: set<Id>, x: Id)
    requires x !in rest && x !in keys
    ensures |(rest + {x}) - keys| == |rest - keys| + 1
  {
    assert (rest + {x}) - keys == (rest - keys) + {x};
  }

  lemma FoundOneMore<T(!new)>(rest: set<Id>, rows: map<Id, T>, x: Id)
    requires x !in rest && x in rows
    ensures |FindAllById(rest + {x}, rows)| == |FindAllById(rest, rows)| + 1
  {
    var a, b := FindAllById(rest, rows), FindAllById(rest + {x}, rows);
    var e := (x, rows[x]);
    assert e !in a;
    forall y: (Id, T) ensures y in b <==> y in a + {e} {
      if y in b && y != e {
        assert y.0 in rest;
      }
    }
    assert b == a + {e};
  }

  lemma FoundNoneMore<T(!new)>(rest: set<Id>, rows: map<Id, T>, x: Id)
    requires x !in rows
    ensures FindAllById(rest + {x}, rows) == FindAllById(rest, rows)
  {
    var a, b := FindAllById(rest, rows), FindAllById(rest + {x}, rows);
    forall y: (Id, T) ensures y in b <==> y in a {
    }
  }

  /** So comparing the number of records found with the number requested
      detects exactly the case where some id has no record. */
  lemma FindAllByIdComplete<T(!new)>(ids: set<Id>, rows: map<Id, T>)
    ensures |FindAllById(ids, rows)| == |ids| <==> ids <= rows.Keys
  {
    FindAllByIdCount(ids, rows);
    if !(ids <= rows.Keys) {
      var x :| x in ids && x !in rows.Keys;
      assert x in ids - rows.Keys;
    }
  }
}
