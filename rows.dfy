/**
 * The rows of a CDX index reply and the deduplication `list_rows` applies to
 * them: a row is kept only the first time its original URL is seen.
 */
module Rows {
  import opened Sequences

  /** One line of the CDX reply, split on whitespace into its seven fields. */
  datatype Row = Row(
    urlkey: string,
    timestamp: string,
    original: string,
    mimetype: string,
    statuscode: string,
    digest: string,
    length: string)

  /** The result of `list_rows`: the kept rows and how many were dropped. */
  datatype Listing = Listing(rows: seq<Row>, duplicates: nat)

  /** The original URLs (field 2) that occur in `rows`. */
  function Originals(rows: seq<Row>): set<string> {
    set r | r in rows :: r.original
  }

  /** No original URL occurs twice. */
  predicate DistinctOriginals(rows: seq<Row>) {
    forall i, j :: 0 <= i < j < |rows| ==> rows[i].original != rows[j].original
  }

  lemma OriginalsCons(rows: seq<Row>)
    requires rows != []
    ensures Originals(rows) == {rows[0].original} + Originals(rows[1..])
  {
    assert rows == [rows[0]] + rows[1..];
    forall k | k in Originals(rows)
      ensures k in {rows[0].original} + Originals(rows[1..])
    {
      var r :| r in rows && r.original == k;
      if r != rows[0] {
        assert r in rows[1..];
      }
    }
  }

  /**
   * The comprehension of `list_rows` from some point on, where `seen` is the
   * `unique` set it has filled so far.
   */
  function DedupFrom(rows: seq<Row>, seen: set<string>): (kept: seq<Row>)
    ensures |kept| <= |rows|
    ensures DistinctOriginals(kept)
    ensures Originals(kept) == Originals(rows) - seen
    decreases |rows|
  {
    if rows == [] then []
    else
      OriginalsCons(rows);
      if rows[0].original in seen then DedupFrom(rows[1..], seen)
      else
        var rest := DedupFrom(rows[1..], seen + {rows[0].original});
        var kept := [rows[0]] + rest;
        assert kept[0] == rows[0] && kept[1..] == rest;
        OriginalsCons(kept);
        DistinctCons(kept);
        kept
  }

  /** The rows `list_rows` keeps, starting with an empty `unique` set. */
  function Dedup(rows: seq<Row>): (kept: seq<Row>)
    ensures DistinctOriginals(kept) && Originals(kept) == Originals(rows)
  {
    DedupFrom(rows, {})
  }

  /** `list_rows` once the reply is split: the kept rows and `total - len(rows)`. */
  function ListRows(rows: seq<Row>): (l: Listing)
    ensures l.rows == Dedup(rows)
    ensures l.duplicates + |l.rows| == |rows|
  {
    var kept := Dedup(rows);
    Listing(kept, |rows| - |kept|)
  }

  /** The first row whose original URL is `key`. */
  function FirstWith(rows: seq<Row>, key: string): (r: Row)
    requires key in Originals(rows)
    ensures r in rows && r.original == key
  {
    OriginalsCons(rows);
    if rows[0].original == key then rows[0] else FirstWith(rows[1..], key)
  }

  /** Deduplication only deletes rows: the kept ones stay in reply order. */
  lemma {:induction false} DedupSubsequence(rows: seq<Row>, seen: set<string>)
    ensures IsSubsequence(DedupFrom(rows, seen), rows)
    decreases |rows|
  {
    if rows != [] {
      DedupSubsequence(rows[1..], if rows[0].original in seen then seen else seen + {rows[0].original});
      var kept := DedupFrom(rows, seen);
      if kept != [] && rows[0].original !in seen {
        assert kept[0] == rows[0] && kept[1..] == DedupFrom(rows[1..], seen + {rows[0].original});
      }
    }
  }

  /** Every kept row is the first row of the reply with its original URL. */
  lemma {:induction false} DedupKeepsFirst(rows: seq<Row>, seen: set<string>)
    ensures forall k :: 0 <= k < |DedupFrom(rows, seen)| ==>
      && DedupFrom(rows, seen)[k].original in Originals(rows)
      && DedupFrom(rows, seen)[k] == FirstWith(rows, DedupFrom(rows, seen)[k].original)
    decreases |rows|
  {
    if rows != [] {
      var kept := DedupFrom(rows, seen);
      var key := rows[0].original;
      OriginalsCons(rows);
      if key in seen {
        DedupKeepsFirst(rows[1..], seen);
        assert kept == DedupFrom(rows[1..], seen);
        forall k | 0 <= k < |kept|
          ensures kept[k].original in Originals(rows) && kept[k] == FirstWith(rows, kept[k].original)
        {
          assert kept[k] in kept;
        }
      } else {
        var rest := DedupFrom(rows[1..], seen + {key});
        DedupKeepsFirst(rows[1..], seen + {key});
        assert kept == [rows[0]] + rest;
        forall k | 0 <= k < |kept|
          ensures kept[k].original in Originals(rows) && kept[k] == FirstWith(rows, kept[k].original)
        {
          if k > 0 {
            assert kept[k] == rest[k - 1];
            assert rest[k - 1].original in Originals(rest);
          }
        }
      }
    }
  }

  /** Deduplicating a concatenation: the second part starts with the URLs of the first already seen. */
  lemma {:induction false} DedupAppend(a: seq<Row>, b: seq<Row>, seen: set<string>)
    ensures DedupFrom(a + b, seen) == DedupFrom(a, seen) + DedupFrom(b, seen + Originals(a))
    decreases |a|
  {
    if a == [] {
      assert a + b == b;
      assert seen + Originals(a) == seen;
    } else {
      var key := a[0].original;
      var next := if key in seen then seen else seen + {key};
      DedupAppend(a[1..], b, next);
      DedupAppendStep(a, b, seen);
    }
  }

  /** The step of `DedupAppend`: the first row of `a` leads both sides, given the claim for the rest of `a`. */
  lemma DedupAppendStep(a: seq<Row>, b: seq<Row>, seen: set<string>)
    requires a != []
    requires var key := a[0].original;
      var next := if key in seen then seen else seen + {key};
      DedupFrom(a[1..] + b, next) == DedupFrom(a[1..], next) + DedupFrom(b, next + Originals(a[1..]))
    ensures DedupFrom(a + b, seen) == DedupFrom(a, seen) + DedupFrom(b, seen + Originals(a))
  {
    var key := a[0].original;
    var next := if key in seen then seen else seen + {key};
    assert (a + b)[0] == a[0] && (a + b)[1..] == a[1..] + b;
    SeenThrough(a, seen);
    DedupFromCons(a + b, seen);
    DedupFromCons(a, seen);
    if key !in seen {
      AppendAssoc([a[0]], DedupFrom(a[1..], next), DedupFrom(b, seen + Originals(a)));
    }
  }

  /** One step of the comprehension: the first row is kept exactly when its URL is unseen. */
  lemma DedupFromCons(rows: seq<Row>, seen: set<string>)
    requires rows != []
    ensures var key := rows[0].original;
      DedupFrom(rows, seen)
      == (if key in seen then [] else [rows[0]])
         + DedupFrom(rows[1..], if key in seen then seen else seen + {key})
  {
  }

  /** The URLs seen after the first row, together with the rest, are those seen after all of them. */
  lemma SeenThrough(rows: seq<Row>, seen: set<string>)
    requires rows != []
    ensures var key := rows[0].original;
      (if key in seen then seen else seen + {key}) + Originals(rows[1..]) == seen + Originals(rows)
  {
    OriginalsCons(rows);
  }

  /**
   * The comprehension, one row at a time: a row is appended to the kept rows
   * exactly when no earlier row had its original URL.
   */
  lemma DedupSnoc(rows: seq<Row>, x: Row)
    ensures Dedup(rows + [x]) == Dedup(rows) + (if x.original in Originals(rows) then [] else [x])
  {
    var seen := Originals(rows);
    DedupAppend(rows, [x], {});
    assert {} + Originals(rows) == seen;
    assert [x][1..] == [];
    assert DedupFrom([x], seen) == if x.original in seen then [] else [x];
  }

  /** Distinctness, one row at a time. */
  lemma DistinctCons(rows: seq<Row>)
    requires rows != []
    ensures DistinctOriginals(rows) <==>
      DistinctOriginals(rows[1..]) && rows[0].original !in Originals(rows[1..])
  {
    var tail := rows[1..];
    if DistinctOriginals(rows) {
      forall i, j | 0 <= i < j < |tail|
        ensures tail[i].original != tail[j].original
      {
        assert tail[i] == rows[i + 1] && tail[j] == rows[j + 1];
      }
      forall r | r in tail
        ensures r.original != rows[0].original
      {
        var j :| 0 <= j < |tail| && tail[j] == r;
        assert rows[j + 1] == r;
      }
    }
    if DistinctOriginals(tail) && rows[0].original !in Originals(tail) {
      forall i, j | 0 <= i < j < |rows|
        ensures rows[i].original != rows[j].original
      {
        assert rows[j] == tail[j - 1];
        if i > 0 {
          assert rows[i] == tail[i - 1];
        } else {
          assert rows[j] in tail;
        }
      }
    }
  }

  /** When a URL repeats, or one was seen before, something is dropped. */
  lemma {:induction false} DedupDrops(rows: seq<Row>, seen: set<string>)
    requires !(DistinctOriginals(rows) && Originals(rows) !! seen)
    ensures |DedupFrom(rows, seen)| < |rows|
    decreases |rows|
  {
    var key := rows[0].original;
    OriginalsCons(rows);
    DistinctCons(rows);
    if key !in seen {
      DedupDrops(rows[1..], seen + {key});
    }
  }

  /** When no URL repeats and none was seen before, every row is kept. */
  lemma {:induction false} DedupKeepsAll(rows: seq<Row>, seen: set<string>)
    requires DistinctOriginals(rows) && Originals(rows) !! seen
    ensures DedupFrom(rows, seen) == rows
    decreases |rows|
  {
    if rows != [] {
      var key := rows[0].original;
      OriginalsCons(rows);
      DistinctCons(rows);
      DedupKeepsAll(rows[1..], seen + {key});
    }
  }

  /** Nothing is dropped exactly when no URL repeats and none was seen before. */
  lemma DedupIdentity(rows: seq<Row>, seen: set<string>)
    ensures DedupFrom(rows, seen) == rows <==> DistinctOriginals(rows) && Originals(rows) !! seen
    ensures |DedupFrom(rows, seen)| == |rows| <==> DistinctOriginals(rows) && Originals(rows) !! seen
  {
    if DistinctOriginals(rows) && Originals(rows) !! seen {
      DedupKeepsAll(rows, seen);
    } else {
      DedupDrops(rows, seen);
    }
  }

  /** Rows with distinct original URLs: as many URLs as rows. */
  lemma {:induction false} DistinctCardinality(rows: seq<Row>)
    requires DistinctOriginals(rows)
    ensures |Originals(rows)| == |rows|
    decreases |rows|
  {
    if rows != [] {
      OriginalsCons(rows);
      DistinctCons(rows);
      DistinctCardinality(rows[1..]);
    }
  }

  /**
   * `list_rows` keeps exactly one row per distinct original URL, and reports
   * no duplicates exactly when the reply had none.
   */
  lemma ListRowsCounts(rows: seq<Row>)
    ensures |ListRows(rows).rows| == |Originals(rows)|
    ensures ListRows(rows).duplicates == |rows| - |Originals(rows)|
    ensures ListRows(rows).duplicates == 0 <==> DistinctOriginals(rows)
  {
    DistinctCardinality(Dedup(rows));
    DedupIdentity(rows, {});
  }

  /** Deduplicating the kept rows again changes nothing and removes nothing. */
  lemma ListRowsIdempotent(rows: seq<Row>)
    ensures ListRows(ListRows(rows).rows) == Listing(ListRows(rows).rows, 0)
  {
    var kept := Dedup(rows);
    DedupIdentity(kept, {});
  }
}
