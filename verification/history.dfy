/**
 * The transaction history of the customer detail screen: a copy of the list
 * sorted newest first by a stable sort, each entry shown with a sign.
 * Sequences are values, so the caller's list is never reordered.
 */
module History {
  import opened Wrappers
  import opened Types
  import opened Seqs

  /**
   * Insert `x` into a newest-first list in front of the first element that is
   * not newer than it: `x` ends up before every element with the same date.
   */
  function Insert(x: Transaction, sorted: seq<Transaction>): seq<Transaction>
  {
    if |sorted| == 0 then [x]
    else if x.date >= sorted[0].date then [x] + sorted
    else [sorted[0]] + Insert(x, sorted[1..])
  }

  /**
   * The history's sort of a copy of the list, by a comparator that subtracts the
   * first transaction's timestamp from the second's, so newer comes first: an
   * insertion sort taking elements from the back, so that of two transactions
   * with the same date the earlier one stays first (the engine's sort is stable
   * since ECMAScript 2019).
   */
  function SortByDateDesc(txs: seq<Transaction>): seq<Transaction>
  {
    if |txs| == 0 then [] else Insert(txs[0], SortByDateDesc(txs[1..]))
  }

  /** Newest first: no entry is older than the entry after it. */
  ghost predicate NewestFirst(s: seq<Transaction>)
  {
    forall i, j :: 0 <= i < j < |s| ==> s[i].date >= s[j].date
  }

  /** The predicate `t => t.date === d`. */
  function AtDate(d: int): Transaction -> bool
  {
    (t: Transaction) => t.date == d
  }

  lemma {:induction false} InsertPermutes(x: Transaction, sorted: seq<Transaction>)
    ensures multiset(Insert(x, sorted)) == multiset(sorted) + multiset{x}
    decreases |sorted|
  {
    if |sorted| > 0 && x.date < sorted[0].date {
      InsertPermutes(x, sorted[1..]);
      assert sorted == [sorted[0]] + sorted[1..];
    }
  }

  lemma {:induction false} InsertKeepsOrder(x: Transaction, sorted: seq<Transaction>)
    requires NewestFirst(sorted)
    ensures NewestFirst(Insert(x, sorted))
    decreases |sorted|
  {
    if |sorted| > 0 && x.date < sorted[0].date {
      var rest := Insert(x, sorted[1..]);
      InsertKeepsOrder(x, sorted[1..]);
      InsertPermutes(x, sorted[1..]);
      forall k | 0 <= k < |rest|
        ensures sorted[0].date >= rest[k].date
      {
        assert rest[k] in multiset(rest);
        assert rest[k] == x || rest[k] in multiset(sorted[1..]);
        if rest[k] != x {
          var m :| 0 <= m < |sorted[1..]| && sorted[1..][m] == rest[k];
          assert sorted[1 + m] == rest[k];
        }
      }
    }
  }

  /** Inserting `x` adds it to its own date's slice in front; other slices are untouched. */
  lemma {:induction false} InsertSlice(x: Transaction, sorted: seq<Transaction>, d: int)
    ensures Filter(Insert(x, sorted), AtDate(d)) ==
      (if x.date == d then [x] else []) + Filter(sorted, AtDate(d))
    decreases |sorted|
  {
    if |sorted| == 0 {
      FilterCons(x, [], AtDate(d));
    } else if x.date >= sorted[0].date {
      FilterCons(x, sorted, AtDate(d));
    } else {
      var head, tail := sorted[0], sorted[1..];
      assert sorted == [head] + tail;
      InsertSlice(x, tail, d);
      FilterCons(head, Insert(x, tail), AtDate(d));
      FilterCons(head, tail, AtDate(d));
      assert x.date == d ==> head.date != d;
    }
  }

  /** The sorted list is a permutation of the input. */
  lemma {:induction false} SortPermutes(txs: seq<Transaction>)
    ensures multiset(SortByDateDesc(txs)) == multiset(txs)
    decreases |txs|
  {
    if |txs| > 0 {
      SortPermutes(txs[1..]);
      InsertPermutes(txs[0], SortByDateDesc(txs[1..]));
      assert txs == [txs[0]] + txs[1..];
    }
  }

  /** The sorted list is newest first. */
  lemma {:induction false} SortOrders(txs: seq<Transaction>)
    ensures NewestFirst(SortByDateDesc(txs))
    decreases |txs|
  {
    if |txs| > 0 {
      SortOrders(txs[1..]);
      InsertKeepsOrder(txs[0], SortByDateDesc(txs[1..]));
    }
  }

  /**
   * Stability: for every date, the transactions carrying it appear in the
   * sorted list in exactly their original relative order.
   */
  lemma {:induction false} SortIsStable(txs: seq<Transaction>, d: int)
    ensures Filter(SortByDateDesc(txs), AtDate(d)) == Filter(txs, AtDate(d))
    decreases |txs|
  {
    if |txs| > 0 {
      SortIsStable(txs[1..], d);
      InsertSlice(txs[0], SortByDateDesc(txs[1..]), d);
    }
  }

  /** The sign printed before an amount: `+` for a debt, `-` for a payment. */
  function AmountSign(t: Transaction): (r: char)
    ensures r == '+' <==> t.kind.Debt?
    ensures r == '-' <==> t.kind.Payment?
  {
    if t.kind.Debt? then '+' else '-'
  }

  /** The glyph in the round badge: a minus sign (U+2212) for a debt, `+` for a payment. */
  function BadgeGlyph(t: Transaction): (r: char)
    ensures r == '+' <==> t.kind.Payment?
    ensures r == '−' <==> t.kind.Debt?
  {
    if t.kind.Debt? then '−' else '+'
  }

  /** One row of the history list. */
  datatype Entry = Entry(id: string, description: string, date: int, badge: char, sign: char, amount: int)

  function ToEntry(t: Transaction): Entry
  {
    Entry(t.id, t.description, t.date, BadgeGlyph(t), AmountSign(t), t.amount)
  }

  /**
   * The rows rendered for a (possibly absent) list: none for an absent or empty
   * list, otherwise one row per transaction, newest first.
   */
  function Entries(transactions: Option<seq<Transaction>>): (r: seq<Entry>)
    ensures transactions.None? || transactions == Some([]) ==> r == []
    ensures transactions.Some? ==> |r| == |transactions.value|
    ensures |r| == |SortByDateDesc(transactions.GetOr([]))|
    ensures forall i :: 0 <= i < |r| ==> r[i] == ToEntry(SortByDateDesc(transactions.GetOr([]))[i])
    ensures forall i, j :: 0 <= i < j < |r| ==> r[i].date >= r[j].date
    ensures forall t :: t in transactions.GetOr([]) ==> ToEntry(t) in r
    ensures forall e :: e in r ==> exists t :: t in transactions.GetOr([]) && e == ToEntry(t)
  {
    var txs := transactions.GetOr([]);
    var sorted := SortByDateDesc(txs);
    SortPermutes(txs);
    SortOrders(txs);
    assert |sorted| == |multiset(sorted)| == |txs|;
    assert forall t :: t in txs <==> t in sorted by {
      forall t ensures t in txs <==> t in sorted {
        assert t in txs <==> t in multiset(txs);
        assert t in sorted <==> t in multiset(sorted);
      }
    }
    var r := seq(|sorted|, i requires 0 <= i < |sorted| => ToEntry(sorted[i]));
    assert forall t :: t in sorted ==> ToEntry(t) in r by {
      forall t | t in sorted ensures ToEntry(t) in r {
        var k :| 0 <= k < |sorted| && sorted[k] == t;
        assert r[k] == ToEntry(t);
      }
    }
    r
  }
}
