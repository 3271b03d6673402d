/**
 * Customer search of the newer dashboard: a case-insensitive substring match
 * of the query against a customer's name or phone. Lower-casing is ASCII only.
 */
module Search {
  import opened Types
  import opened Seqs
  import opened Totals

  /** ASCII `toLowerCase` of one character. */
  function LowerChar(ch: char): (r: char)
    ensures 'A' <= ch <= 'Z' ==> r as int == ch as int + 32
    ensures !('A' <= ch <= 'Z') ==> r == ch
    ensures !('A' <= r <= 'Z')
  {
    if 'A' <= ch <= 'Z' then (ch as int + 32) as char else ch
  }

  /** ASCII `toLowerCase` of a string: same length, each character lowered. */
  function Lower(s: string): (r: string)
    ensures |r| == |s|
    ensures forall i :: 0 <= i < |s| ==> r[i] == LowerChar(s[i])
  {
    seq(|s|, i requires 0 <= i < |s| => LowerChar(s[i]))
  }

  /** Lowering an already lowered string changes nothing. */
  lemma LowerIdempotent(s: string)
    ensures Lower(Lower(s)) == Lower(s)
  {
  }

  /** `sub` occurs in `s` starting at position `i`. */
  ghost predicate OccursAt(s: string, sub: string, i: int)
  {
    0 <= i && i + |sub| <= |s| && s[i..i + |sub|] == sub
  }

  /** `s.includes(sub)`: `sub` is a prefix of `s` or of one of its suffixes. */
  function Contains(s: string, sub: string): bool
  {
    sub <= s || (|s| > 0 && Contains(s[1..], sub))
  }

  /** An occurrence in the tail of `s` is an occurrence in `s` one position later, and back. */
  lemma OccursInTail(s: string, sub: string, i: int)
    requires |s| > 0 && 0 <= i
    ensures OccursAt(s[1..], sub, i) <==> OccursAt(s, sub, i + 1)
  {
    if i + |sub| <= |s| - 1 {
      assert s[1..][i..i + |sub|] == s[i + 1..i + 1 + |sub|];
    }
  }

  /** `Contains` holds exactly when `sub` occurs at some position of `s`. */
  lemma {:induction false} ContainsIffOccurs(s: string, sub: string)
    ensures Contains(s, sub) <==> exists i :: OccursAt(s, sub, i)
    decreases |s|
  {
    if sub <= s {
      assert OccursAt(s, sub, 0);
    } else if |s| == 0 {
      assert forall i :: !OccursAt(s, sub, i);
    } else {
      ContainsIffOccurs(s[1..], sub);
      if Contains(s[1..], sub) {
        var i :| OccursAt(s[1..], sub, i);
        OccursInTail(s, sub, i);
      } else {
        forall i | OccursAt(s, sub, i)
          ensures false
        {
          assert i != 0;
          OccursInTail(s, sub, i - 1);
        }
      }
    }
  }

  /** The empty query is contained in every string. */
  lemma ContainsEmpty(s: string)
    ensures Contains(s, "")
  {
  }

  /** The search predicate for an already lowered query. */
  function MatchesLowered(c: Customer, lowered: string): bool
  {
    Contains(Lower(c.name), lowered) || Contains(Lower(c.phone), lowered)
  }

  /** The filter callback of `filteredCustomers`. */
  function Matcher(lowered: string): Customer -> bool
  {
    (c: Customer) => MatchesLowered(c, lowered)
  }

  /** A customer matches a query: its lowered name or lowered phone contains the lowered query. */
  ghost predicate Matches(c: Customer, query: string)
  {
    (exists i :: OccursAt(Lower(c.name), Lower(query), i)) || (exists i :: OccursAt(Lower(c.phone), Lower(query), i))
  }

  /**
   * `filteredCustomers`: the whole list when the lowered query is empty,
   * otherwise the customers that match it, in their original order.
   */
  function FilterCustomers(customers: seq<Customer>, query: string): (r: seq<Customer>)
    ensures query == "" ==> r == customers
    ensures forall c :: c in r <==> c in customers && Matches(c, query)
    ensures IsSubsequence(r, customers)
    ensures forall c :: multiset(r)[c] == if Matches(c, query) then multiset(customers)[c] else 0
  {
    var lowered := Lower(query);
    forall c ensures MatchesLowered(c, lowered) <==> Matches(c, query) {
      ContainsIffOccurs(Lower(c.name), lowered);
      ContainsIffOccurs(Lower(c.phone), lowered);
    }
    if lowered == "" then
      assert forall c :: Matches(c, query) by {
        forall c ensures MatchesLowered(c, lowered) {
          ContainsEmpty(Lower(c.name));
        }
      }
      FilterKeepsAll(customers, Matcher(lowered));
      FilterCounts(customers, Matcher(lowered));
      FilterIsSubsequence(customers, Matcher(lowered));
      customers
    else
      FilterCounts(customers, Matcher(lowered));
      FilterIsSubsequence(customers, Matcher(lowered));
      Filter(customers, Matcher(lowered))
  }

  /** The search ignores the case of the query: lowering it first changes nothing. */
  lemma QueryCaseInsensitive(customers: seq<Customer>, query: string)
    ensures FilterCustomers(customers, Lower(query)) == FilterCustomers(customers, query)
  {
    LowerIdempotent(query);
  }

  /** Searching the result of a search again with the same query changes nothing. */
  lemma FilterCustomersIdempotent(customers: seq<Customer>, query: string)
    ensures FilterCustomers(FilterCustomers(customers, query), query) == FilterCustomers(customers, query)
  {
    var lowered := Lower(query);
    if lowered != "" {
      FilterIdempotent(customers, Matcher(lowered));
    }
  }

  /** `" "` occurs in `s` exactly at the positions that hold a space. */
  lemma SpaceOccurrences(s: string)
    ensures forall i :: OccursAt(s, " ", i) <==> 0 <= i < |s| && s[i] == ' '
  {
    forall i | 0 <= i < |s|
      ensures OccursAt(s, " ", i) <==> s[i] == ' '
    {
      assert s[i..i + 1] == [s[i]];
    }
  }

  /** A string has a space at some position. */
  ghost predicate HasSpace(s: string)
  {
    exists k :: 0 <= k < |s| && s[k] == ' '
  }

  /** Lowering neither creates nor removes a space. */
  lemma LowerKeepsSpaces(s: string)
    ensures HasSpace(Lower(s)) <==> HasSpace(s)
  {
    if HasSpace(Lower(s)) {
      var k :| 0 <= k < |s| && Lower(s)[k] == ' ';
      assert s[k] == ' ';
    }
    if HasSpace(s) {
      var k :| 0 <= k < |s| && s[k] == ' ';
      assert Lower(s)[k] == ' ';
    }
  }

  /**
   * Only the empty string skips filtering: a query of a single space is
   * matched literally, so exactly the customers with a space in name or phone
   * are kept.
   */
  lemma BlankQueryIsLiteral(customers: seq<Customer>, c: Customer)
    ensures c in FilterCustomers(customers, " ") <==> c in customers && (HasSpace(c.name) || HasSpace(c.phone))
  {
    assert Lower(" ") == " ";
    SpaceOccurrences(Lower(c.name));
    SpaceOccurrences(Lower(c.phone));
    LowerKeepsSpaces(c.name);
    LowerKeepsSpaces(c.phone);
    assert (exists i :: OccursAt(Lower(c.name), " ", i)) <==> HasSpace(Lower(c.name));
    assert (exists i :: OccursAt(Lower(c.phone), " ", i)) <==> HasSpace(Lower(c.phone));
  }

  /** The newer dashboard: the report over the full list and the listed (searched) customers. */
  datatype DashboardView = DashboardView(report: Report, listed: seq<Customer>)

  /**
   * The report is computed over all customers, never the searched subset, so
   * the query only decides which customers are listed.
   */
  method ShowDashboard(customers: seq<Customer>, query: string) returns (v: DashboardView)
    ensures v.report.totalDebt == TotalDebt(customers) && v.report.totalPayments == TotalPayments(customers)
    ensures v.report.totalOutstanding == v.report.totalDebt - v.report.totalPayments
    ensures forall c :: c in v.listed <==> c in customers && Matches(c, query)
    ensures v.listed == FilterCustomers(customers, query)
    ensures IsSubsequence(v.listed, customers)
    ensures forall c :: multiset(v.listed)[c] == if Matches(c, query) then multiset(customers)[c] else 0
  {
    var report := ComputeReport(customers);
    v := DashboardView(report, FilterCustomers(customers, query));
  }
}
