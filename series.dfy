/** Time-indexed frames as sequences of stamped rows, and the two
    index-level operations the script applies to them: looking a stamp up
    and dropping rows whose stamp occurred earlier
    (index.duplicated(keep='first')). */
module Series {
  import opened Wrappers

  /** One row of a frame: its index entry (an instant in whole minutes) and
      its column values. */
  datatype Stamped<V> = Stamped(t: int, v: V)

  function Stamps<V>(rows: seq<Stamped<V>>): set<int>
  {
    set i | 0 <= i < |rows| :: rows[i].t
  }

  /** No two rows share a stamp. */
  predicate Distinct<V>(rows: seq<Stamped<V>>)
  {
    forall i, j :: 0 <= i < j < |rows| ==> rows[i].t != rows[j].t
  }

  /** Stamps strictly increase along the rows (sorted, hence distinct). */
  predicate Increasing<V>(rows: seq<Stamped<V>>)
  {
    forall i, j :: 0 <= i < j < |rows| ==> rows[i].t < rows[j].t
  }

  /** The values of the first row stamped t, or None when no row is. */
  function Lookup<V>(rows: seq<Stamped<V>>, t: int): Option<V>
  {
    if rows == [] then None
    else if rows[0].t == t then Some(rows[0].v)
    else Lookup(rows[1..], t)
  }

  /** The rows of `rows` in order, less every row whose stamp is in `seen`
      or occurs earlier in `rows`. */
  function DedupAfter<V>(rows: seq<Stamped<V>>, seen: set<int>): seq<Stamped<V>>
  {
    if rows == [] then []
    else if rows[0].t in seen then DedupAfter(rows[1..], seen)
    else [rows[0]] + DedupAfter(rows[1..], seen + {rows[0].t})
  }

  /** rows[~rows.index.duplicated(keep='first')] */
  function Dedup<V>(rows: seq<Stamped<V>>): seq<Stamped<V>>
  {
    DedupAfter(rows, {})
  }

  /** a is what remains of b after deleting some elements. */
  ghost predicate IsSubsequence<T>(a: seq<T>, b: seq<T>)
    decreases |b|
  {
    if a == [] then true
    else if b == [] then false
    else (a[0] == b[0] && IsSubsequence(a[1..], b[1..])) || IsSubsequence(a, b[1..])
  }

  lemma StampsCons<V>(x: Stamped<V>, rows: seq<Stamped<V>>)
    ensures Stamps([x] + rows) == {x.t} + Stamps(rows)
  {
    var s := [x] + rows;
    forall t | t in Stamps(s) ensures t in {x.t} + Stamps(rows) {
      var i :| 0 <= i < |s| && s[i].t == t;
      if i > 0 { assert rows[i - 1].t == t; }
    }
    forall t | t in Stamps(rows) ensures t in Stamps(s) {
      var i :| 0 <= i < |rows| && rows[i].t == t;
      assert s[i + 1].t == t;
    }
    assert s[0].t == x.t;
  }

  lemma EmptyStamps<V>(rows: seq<Stamped<V>>)
    ensures Stamps(rows) == {} <==> rows == []
  {
    if rows != [] {
      assert rows[0].t in Stamps(rows);
    }
  }

  lemma StampsAppend<V>(a: seq<Stamped<V>>, b: seq<Stamped<V>>)
    ensures Stamps(a + b) == Stamps(a) + Stamps(b)
  {
    var s := a + b;
    forall t | t in Stamps(s) ensures t in Stamps(a) + Stamps(b) {
      var i :| 0 <= i < |s| && s[i].t == t;
      if i >= |a| { assert b[i - |a|].t == t; }
    }
    forall t | t in Stamps(a) + Stamps(b) ensures t in Stamps(s) {
      if t in Stamps(a) {
        var i :| 0 <= i < |a| && a[i].t == t;
        assert s[i].t == t;
      } else {
        var i :| 0 <= i < |b| && b[i].t == t;
        assert s[i + |a|].t == t;
      }
    }
  }

  lemma DistinctCons<V>(x: Stamped<V>, rows: seq<Stamped<V>>)
    requires x.t !in Stamps(rows) && Distinct(rows)
    ensures Distinct([x] + rows)
  {
    var s := [x] + rows;
    forall i, j | 0 <= i < j < |s| ensures s[i].t != s[j].t {
      if i == 0 {
        assert s[j].t == rows[j - 1].t;
      } else {
        assert s[i] == rows[i - 1] && s[j] == rows[j - 1];
      }
    }
  }

  /** Lookup misses exactly the stamps no row carries. */
  lemma {:induction false} LookupMisses<V>(rows: seq<Stamped<V>>, t: int)
    ensures Lookup(rows, t).None? <==> t !in Stamps(rows)
  {
    if rows != [] {
      LookupMisses(rows[1..], t);
      StampsCons(rows[0], rows[1..]);
      assert rows == [rows[0]] + rows[1..];
    }
  }

  /** Lookup returns the values of the first row with the stamp. */
  lemma {:induction false} LookupFindsFirst<V>(rows: seq<Stamped<V>>, i: nat)
    requires i < |rows|
    requires forall j :: 0 <= j < i ==> rows[j].t != rows[i].t
    ensures Lookup(rows, rows[i].t) == Some(rows[i].v)
  {
    if i > 0 {
      LookupFindsFirst(rows[1..], i - 1);
    }
  }

  /** Looking up a concatenation: the first part answers for its own stamps. */
  lemma {:induction false} LookupAppend<V>(a: seq<Stamped<V>>, b: seq<Stamped<V>>, t: int)
    ensures Lookup(a + b, t) == if t in Stamps(a) then Lookup(a, t) else Lookup(b, t)
  {
    LookupMisses(a, t);
    if a != [] {
      assert (a + b)[1..] == a[1..] + b;
      LookupAppend(a[1..], b, t);
      LookupMisses(a[1..], t);
    } else {
      assert a + b == b;
    }
  }

  lemma {:induction false} DedupAfterStamps<V>(rows: seq<Stamped<V>>, seen: set<int>)
    ensures Stamps(DedupAfter(rows, seen)) == Stamps(rows) - seen
  {
    if rows != [] {
      var x, rest := rows[0], rows[1..];
      assert rows == [x] + rest;
      StampsCons(x, rest);
      if x.t in seen {
        DedupAfterStamps(rest, seen);
      } else {
        DedupAfterStamps(rest, seen + {x.t});
        StampsCons(x, DedupAfter(rest, seen + {x.t}));
      }
    }
  }

  lemma {:induction false} DedupAfterDistinct<V>(rows: seq<Stamped<V>>, seen: set<int>)
    ensures Distinct(DedupAfter(rows, seen))
  {
    if rows != [] {
      var x, rest := rows[0], rows[1..];
      if x.t in seen {
        DedupAfterDistinct(rest, seen);
      } else {
        var tail := DedupAfter(rest, seen + {x.t});
        DedupAfterDistinct(rest, seen + {x.t});
        DedupAfterStamps(rest, seen + {x.t});
        DistinctCons(x, tail);
      }
    }
  }

  lemma {:induction false} DedupAfterLookup<V>(rows: seq<Stamped<V>>, seen: set<int>, t: int)
    ensures Lookup(DedupAfter(rows, seen), t) == if t in seen then None else Lookup(rows, t)
  {
    if rows != [] {
      var x, rest := rows[0], rows[1..];
      if x.t in seen {
        DedupAfterLookup(rest, seen, t);
      } else {
        DedupAfterLookup(rest, seen + {x.t}, t);
      }
    }
  }

  lemma {:induction false} DedupAfterSubsequence<V>(rows: seq<Stamped<V>>, seen: set<int>)
    ensures IsSubsequence(DedupAfter(rows, seen), rows)
  {
    if rows != [] {
      var x, rest := rows[0], rows[1..];
      if x.t in seen {
        DedupAfterSubsequence(rest, seen);
        SubsequenceSkip(DedupAfter(rest, seen), x, rest);
      } else {
        DedupAfterSubsequence(rest, seen + {x.t});
        var d := DedupAfter(rows, seen);
        assert d[0] == x && d[1..] == DedupAfter(rest, seen + {x.t});
      }
    }
  }

  lemma SubsequenceSkip<T>(a: seq<T>, x: T, b: seq<T>)
    requires IsSubsequence(a, b)
    ensures IsSubsequence(a, [x] + b)
  {
    if a != [] {
      assert ([x] + b)[1..] == b;
    }
  }

  /** Row i is the first row carrying its stamp. */
  predicate FirstOfStamp<V>(rows: seq<Stamped<V>>, i: nat)
    requires i < |rows|
  {
    forall j :: 0 <= j < i ==> rows[j].t != rows[i].t
  }

  /** By position: the rows among the first n that are the first with their
      stamp, in the order of their positions. */
  function FirstRows<V>(rows: seq<Stamped<V>>, n: nat): seq<Stamped<V>>
    requires n <= |rows|
  {
    if n == 0 then []
    else FirstRows(rows, n - 1) + (if FirstOfStamp(rows, n - 1) then [rows[n - 1]] else [])
  }

  /** Dropping duplicates from the front agrees with the positional
      description, prefix by prefix. */
  lemma {:induction false} DedupIsFirstRows<V>(rows: seq<Stamped<V>>, n: nat)
    requires n <= |rows|
    ensures Dedup(rows[..n]) == FirstRows(rows, n)
  {
    if n > 0 {
      DedupIsFirstRows(rows, n - 1);
      var p, x := rows[..n - 1], rows[n - 1];
      assert rows[..n] == p + [x];
      DedupAfterAppend(p, [x], {});
      assert {} + Stamps(p) == Stamps(p);
      assert [x][1..] == [];
      if FirstOfStamp(rows, n - 1) {
        assert x.t !in Stamps(p) by {
          forall j | 0 <= j < |p| ensures p[j].t != x.t {
            assert p[j] == rows[j];
          }
        }
        assert DedupAfter([x], Stamps(p)) == [x];
      } else {
        var j :| 0 <= j < n - 1 && rows[j].t == x.t;
        assert p[j].t == x.t;
        assert DedupAfter([x], Stamps(p)) == [];
      }
    }
  }

  /** index.duplicated(keep='first'): the result is exactly the rows that are
      the first with their stamp, in input order; so it has pairwise distinct
      stamps, the same set of stamps as the input, and for every stamp the
      values of its first occurrence. */
  lemma DedupKeepsFirst<V>(rows: seq<Stamped<V>>)
    ensures Dedup(rows) == FirstRows(rows, |rows|)
    ensures Distinct(Dedup(rows))
    ensures Stamps(Dedup(rows)) == Stamps(rows)
    ensures forall t :: Lookup(Dedup(rows), t) == Lookup(rows, t)
    ensures IsSubsequence(Dedup(rows), rows)
  {
    assert rows[..|rows|] == rows;
    DedupIsFirstRows(rows, |rows|);
    DedupAfterDistinct(rows, {});
    DedupAfterStamps(rows, {});
    forall t ensures Lookup(Dedup(rows), t) == Lookup(rows, t) {
      DedupAfterLookup(rows, {}, t);
    }
    DedupAfterSubsequence(rows, {});
  }

  /** Rows that already have distinct stamps, none of them seen, pass through. */
  lemma {:induction false} DedupAfterOfDistinct<V>(rows: seq<Stamped<V>>, seen: set<int>)
    requires Distinct(rows) && Stamps(rows) !! seen
    ensures DedupAfter(rows, seen) == rows
  {
    if rows != [] {
      var x, rest := rows[0], rows[1..];
      assert rows == [x] + rest;
      StampsCons(x, rest);
      assert x.t !in Stamps(rest) by {
        forall j | 0 <= j < |rest| ensures rest[j].t != x.t {
          assert rows[j + 1] == rest[j];
        }
      }
      DedupAfterOfDistinct(rest, seen + {x.t});
    }
  }

  /** Deduplicating a concatenation: the second part loses every stamp the
      first part already has. */
  lemma {:induction false} DedupAfterAppend<V>(a: seq<Stamped<V>>, b: seq<Stamped<V>>, seen: set<int>)
    ensures DedupAfter(a + b, seen) == DedupAfter(a, seen) + DedupAfter(b, seen + Stamps(a))
  {
    if a == [] {
      assert a + b == b;
      assert Stamps(a) == {};
      assert seen + Stamps(a) == seen;
    } else {
      var x, rest := a[0], a[1..];
      assert (a + b)[0] == x && (a + b)[1..] == rest + b;
      assert a == [x] + rest;
      StampsCons(x, rest);
      if x.t in seen {
        DedupAfterAppend(rest, b, seen);
        assert seen + Stamps(rest) == seen + Stamps(a);
      } else {
        DedupAfterAppend(rest, b, seen + {x.t});
        assert seen + {x.t} + Stamps(rest) == seen + Stamps(a);
      }
    }
  }

  lemma DedupIdempotent<V>(rows: seq<Stamped<V>>)
    ensures Dedup(Dedup(rows)) == Dedup(rows)
  {
    DedupAfterDistinct(rows, {});
    DedupAfterOfDistinct(Dedup(rows), {});
  }

  /** Of two readings at the same instant, the first one in file order stays. */
  lemma FirstReadingWins<V>(t: int, first: V, second: V)
    ensures Dedup([Stamped(t, first), Stamped(t, second)]) == [Stamped(t, first)]
  {
    var rows := [Stamped(t, first), Stamped(t, second)];
    var rest := rows[1..];
    assert rest == [Stamped(t, second)] && rest[0].t in {t} && rest[1..] == [];
    assert DedupAfter(rest, {t}) == DedupAfter(rest[1..], {t}) == [];
    assert Dedup(rows) == [rows[0]] + DedupAfter(rest, {} + {t});
    assert {} + {t} == {t};
  }
}
