/**
 * The team catalogue of the teams page: a search box (case-insensitive
 * substring of the team name), a sport menu ("All" or one sport) and a sort
 * selector (fan tokens, markets closed or win rate, highest first).
 *
 * The page keeps its teams in one module-level array. Its effect starts from
 * that very array; each active filter replaces the working array by a fresh
 * filtered copy, and the final in-place sort therefore reorders the
 * module-level array itself whenever no filter is active.
 */
module TeamsCatalogue {
  import opened Common

  datatype Team = Team(
    id: int,
    name: string,
    sport: string,
    fanTokens: int,
    marketsClosed: int,
    winRate: int,
    color: string)

  /** The three values of the sort selector. */
  datatype SortKey = FanTokens | MarketsClosed | WinRate

  /** The sport menu entry that switches the sport filter off. */
  const AllSports: string := "All"

  function Key(t: Team, k: SortKey): int
  {
    match k
    case FanTokens => t.fanTokens
    case MarketsClosed => t.marketsClosed
    case WinRate => t.winRate
  }

  // ---------------------------------------------------------------------
  // Case-insensitive substring search
  // ---------------------------------------------------------------------

  /** Lower-casing of one character (ASCII letters only). */
  function LowerChar(c: char): char
  {
    if 'A' <= c <= 'Z' then (c as int + 32) as char else c
  }

  function Lower(s: string): string
  {
    seq(|s|, i requires 0 <= i < |s| => LowerChar(s[i]))
  }

  /** String `includes`: true when `sub` occurs in `s` at some position. */
  function Includes(s: string, sub: string): bool
    decreases |s|
  {
    if sub <= s then true
    else if |s| == 0 then false
    else Includes(s[1..], sub)
  }

  /** `sub` occurs in `s` starting at position `i`. */
  predicate OccursAt(s: string, sub: string, i: int)
  {
    0 <= i && i + |sub| <= |s| && s[i..i + |sub|] == sub
  }

  /** `Includes` finds exactly the occurrences of `sub` in `s`. */
  lemma {:induction false} IncludesIff(s: string, sub: string)
    ensures Includes(s, sub) <==> exists i :: OccursAt(s, sub, i)
    decreases |s|
  {
    if sub <= s {
      assert OccursAt(s, sub, 0);
    } else if |s| == 0 {
    } else {
      IncludesIff(s[1..], sub);
      if exists i :: OccursAt(s, sub, i) {
        var i :| OccursAt(s, sub, i);
        assert i != 0;
        assert s[1..][i - 1..i - 1 + |sub|] == sub;
        assert OccursAt(s[1..], sub, i - 1);
      }
      if exists i :: OccursAt(s[1..], sub, i) {
        var i :| OccursAt(s[1..], sub, i);
        assert s[i + 1..i + 1 + |sub|] == sub;
        assert OccursAt(s, sub, i + 1);
      }
    }
  }

  /** The name test of the search box: both sides lower-cased, then `includes`. */
  predicate NameMatches(t: Team, term: string)
  {
    Includes(Lower(t.name), Lower(term))
  }

  /** Everything the two filters together let through. */
  predicate Passes(t: Team, term: string, sport: string)
  {
    (term == "" || NameMatches(t, term)) && (sport == AllSports || t.sport == sport)
  }

  // ---------------------------------------------------------------------
  // The two filters and their specification
  // ---------------------------------------------------------------------

  /** The search filter: keeps the teams whose name contains the term. */
  function FilterByName(ts: seq<Team>, term: string): (r: seq<Team>)
    ensures forall t :: t in r ==> NameMatches(t, term)
    ensures forall t :: multiset(r)[t] == if NameMatches(t, term) then multiset(ts)[t] else 0
  {
    if ts == [] then []
    else
      assert ts == [ts[0]] + ts[1..];
      (if NameMatches(ts[0], term) then [ts[0]] else []) + FilterByName(ts[1..], term)
  }

  /** The sport filter: keeps the teams of exactly that sport. */
  function FilterBySport(ts: seq<Team>, sport: string): (r: seq<Team>)
    ensures forall t :: t in r ==> t.sport == sport
    ensures forall t :: multiset(r)[t] == if t.sport == sport then multiset(ts)[t] else 0
  {
    if ts == [] then []
    else
      assert ts == [ts[0]] + ts[1..];
      (if ts[0].sport == sport then [ts[0]] else []) + FilterBySport(ts[1..], sport)
  }

  /**
   * Reference definition of the catalogue's contents: the teams that pass
   * both filters, in their original order.
   */
  function Qualifying(ts: seq<Team>, term: string, sport: string): (r: seq<Team>)
    ensures forall t :: t in r ==> t in ts && Passes(t, term, sport)
    ensures forall t :: multiset(r)[t] == if Passes(t, term, sport) then multiset(ts)[t] else 0
  {
    if ts == [] then []
    else
      assert ts == [ts[0]] + ts[1..];
      (if Passes(ts[0], term, sport) then [ts[0]] else []) + Qualifying(ts[1..], term, sport)
  }

  /** With no search term and sport "All" nothing is filtered out. */
  lemma {:induction false} QualifyingUnfiltered(ts: seq<Team>)
    ensures Qualifying(ts, "", AllSports) == ts
  {
    if ts != [] {
      QualifyingUnfiltered(ts[1..]);
    }
  }

  /**
   * Applying the search filter (when a term is typed) and then the sport
   * filter (when a sport is chosen) yields the same multiset of teams as the
   * reference definition: no qualifying team is lost, none is added.
   */
  lemma FiltersYieldQualifying(ts: seq<Team>, term: string, sport: string)
    ensures var afterName := if term != "" then FilterByName(ts, term) else ts;
            var afterSport := if sport != AllSports then FilterBySport(afterName, sport) else afterName;
            multiset(afterSport) == multiset(Qualifying(ts, term, sport))
  {
    var q := Qualifying(ts, term, sport);
    if term == "" && sport == AllSports {
      QualifyingUnfiltered(ts);
    } else if term == "" {
      var r := FilterBySport(ts, sport);
      forall t: Team
        ensures multiset(r)[t] == multiset(q)[t]
      {
      }
      assert multiset(r) == multiset(q);
    } else if sport == AllSports {
      var r := FilterByName(ts, term);
      forall t: Team
        ensures multiset(r)[t] == multiset(q)[t]
      {
      }
      assert multiset(r) == multiset(q);
    } else {
      BothFiltersYieldQualifying(ts, term, sport);
    }
  }

  lemma BothFiltersYieldQualifying(ts: seq<Team>, term: string, sport: string)
    requires term != "" && sport != AllSports
    ensures multiset(FilterBySport(FilterByName(ts, term), sport)) == multiset(Qualifying(ts, term, sport))
  {
    var n := FilterByName(ts, term);
    var r := FilterBySport(n, sport);
    var q := Qualifying(ts, term, sport);
    forall t: Team
      ensures multiset(r)[t] == multiset(q)[t]
    {
      assert multiset(r)[t] == if t.sport == sport then multiset(n)[t] else 0;
      assert multiset(n)[t] == if NameMatches(t, term) then multiset(ts)[t] else 0;
    }
    assert multiset(r) == multiset(q);
  }

  // ---------------------------------------------------------------------
  // Sorting, highest key first
  // ---------------------------------------------------------------------

  predicate SortedDesc(s: seq<Team>, k: SortKey)
  {
    forall p, q :: 0 <= p < q < |s| ==> Key(s[p], k) >= Key(s[q], k)
  }

  /** Exchanges two neighbouring elements, both inside the prefix `a[..n]`. */
  method SwapAdjacent(a: array<Team>, j: int, n: int)
    requires 0 < j < n <= a.Length
    modifies a
    ensures a[..] == old(a[..])[j - 1 := old(a[j])][j := old(a[j - 1])]
    ensures multiset(a[..n]) == old(multiset(a[..n]))
    ensures multiset(a[..]) == old(multiset(a[..]))
  {
    a[j - 1], a[j] := a[j], a[j - 1];
    assert a[..n] == old(a[..n])[j - 1 := old(a[j])][j := old(a[j - 1])];
  }

  /**
   * One pass of insertion: moves `a[i]` left past every element with a
   * smaller key, so that a prefix sorted up to `i` becomes sorted up to `i + 1`.
   */
  method InsertDescending(a: array<Team>, i: int, k: SortKey)
    requires 0 <= i < a.Length
    requires SortedDesc(a[..i], k)
    modifies a
    ensures SortedDesc(a[..i + 1], k)
    ensures forall m :: i < m < a.Length ==> a[m] == old(a[m])
    ensures multiset(a[..i + 1]) == old(multiset(a[..i + 1]))
    ensures multiset(a[..]) == old(multiset(a[..]))
  {
    var j := i;
    InsertionStarts(a[..], i, k);
    while 0 < j && Key(a[j - 1], k) < Key(a[j], k)
      invariant 0 <= j <= i
      invariant SortedBesides(a[..], i + 1, j, k) && AboveRest(a[..], i + 1, j, k)
      invariant forall m :: i < m < a.Length ==> a[m] == old(a[m])
      invariant multiset(a[..i + 1]) == old(multiset(a[..i + 1]))
      invariant multiset(a[..]) == old(multiset(a[..]))
    {
      InsertionSteps(a[..], i, j, k);
      SwapAdjacent(a, j, i + 1);
      j := j - 1;
    }
    InsertionSorted(a[..], i, j, k);
  }

  /** Keys do not increase along `s[..n]`, position `j` left aside. */
  predicate SortedBesides(s: seq<Team>, n: int, j: int, k: SortKey)
    requires 0 <= n <= |s|
  {
    forall p, q :: 0 <= p < q < n && p != j && q != j ==> Key(s[p], k) >= Key(s[q], k)
  }

  /** The element at `j` has a larger key than every element after it in `s[..n]`. */
  predicate AboveRest(s: seq<Team>, n: int, j: int, k: SortKey)
    requires 0 <= j < n <= |s|
  {
    forall q :: j < q < n ==> Key(s[j], k) > Key(s[q], k)
  }

  /** Before the pass, the prefix below `i` is sorted and `a[i]` is set aside. */
  lemma InsertionStarts(s: seq<Team>, i: int, k: SortKey)
    requires 0 <= i < |s| && SortedDesc(s[..i], k)
    ensures SortedBesides(s, i + 1, i, k) && AboveRest(s, i + 1, i, k)
  {
    forall p, q | 0 <= p < q < i + 1 && p != i && q != i
      ensures Key(s[p], k) >= Key(s[q], k)
    {
      assert s[p] == s[..i][p] && s[q] == s[..i][q];
    }
  }

  /** Swapping the moving element with a smaller left neighbour keeps both invariants. */
  lemma InsertionSteps(s: seq<Team>, i: int, j: int, k: SortKey)
    requires 0 < j <= i < |s|
    requires SortedBesides(s, i + 1, j, k) && AboveRest(s, i + 1, j, k)
    requires Key(s[j - 1], k) < Key(s[j], k)
    ensures var t := s[j - 1 := s[j]][j := s[j - 1]];
            SortedBesides(t, i + 1, j - 1, k) && AboveRest(t, i + 1, j - 1, k)
  {
    var t := s[j - 1 := s[j]][j := s[j - 1]];
    forall p, q | 0 <= p < q < i + 1 && p != j - 1 && q != j - 1
      ensures Key(t[p], k) >= Key(t[q], k)
    {
      if p == j {
        assert Key(s[j - 1], k) >= Key(s[q], k);
      } else if q == j {
        assert Key(s[p], k) >= Key(s[j - 1], k);
      }
    }
  }

  /** When the pass stops, the element it moved sits between a larger and a smaller key. */
  lemma InsertionSorted(s: seq<Team>, i: int, j: int, k: SortKey)
    requires 0 <= j <= i < |s|
    requires SortedBesides(s, i + 1, j, k) && AboveRest(s, i + 1, j, k)
    requires j == 0 || Key(s[j - 1], k) >= Key(s[j], k)
    ensures SortedDesc(s[..i + 1], k)
  {
    forall p, q | 0 <= p < q <= i
      ensures Key(s[p], k) >= Key(s[q], k)
    {
      if q == j && p < j - 1 {
        assert Key(s[p], k) >= Key(s[j - 1], k);
      }
    }
  }

  /**
   * The comparator `(a, b) => b[key] - a[key]` run by the array's in-place
   * sort, as an insertion sort by adjacent swaps (stable, like the
   * standard library's sort).
   */
  method SortDescending(a: array<Team>, k: SortKey)
    modifies a
    ensures SortedDesc(a[..], k)
    ensures multiset(a[..]) == old(multiset(a[..]))
  {
    var i := 0;
    while i < a.Length
      invariant 0 <= i <= a.Length
      invariant SortedDesc(a[..i], k)
      invariant multiset(a[..]) == old(multiset(a[..]))
    {
      InsertDescending(a, i, k);
      i := i + 1;
    }
    assert a[..a.Length] == a[..];
  }

  /** A fresh array holding `s` (what `Array.prototype.filter` returns). */
  method NewArray(s: seq<Team>) returns (a: array<Team>)
    ensures fresh(a) && a[..] == s
  {
    a := new Team[|s|](i requires 0 <= i < |s| => s[i]);
  }

  /**
   * The body of the page's effect. It returns the array that becomes
   * `filteredTeams`. When no filter is active this is the module-level
   * `teams` array itself, sorted in place; otherwise it is a fresh array
   * and `teams` keeps its contents.
   */
  method ApplyFilters(teams: array<Team>, searchTerm: string, selectedSport: string, sortBy: SortKey)
    returns (result: array<Team>)
    modifies teams
    ensures SortedDesc(result[..], sortBy)
    ensures multiset(result[..]) == multiset(Qualifying(old(teams[..]), searchTerm, selectedSport))
    ensures searchTerm == "" && selectedSport == AllSports ==>
              result == teams && multiset(teams[..]) == multiset(old(teams[..]))
    ensures searchTerm != "" || selectedSport != AllSports ==>
              fresh(result) && teams[..] == old(teams[..])
  {
    result := teams;
    if searchTerm != "" {
      result := NewArray(FilterByName(result[..], searchTerm));
    }
    if selectedSport != AllSports {
      result := NewArray(FilterBySport(result[..], selectedSport));
    }
    FiltersYieldQualifying(teams[..], searchTerm, selectedSport);
    SortDescending(result, sortBy);
  }

  /** Every team shown passes both filters (from the multiset statement). */
  lemma ShownTeamsPass(shown: seq<Team>, teams: seq<Team>, term: string, sport: string, t: Team)
    requires multiset(shown) == multiset(Qualifying(teams, term, sport))
    requires t in shown
    ensures t in teams
    ensures term != "" ==> NameMatches(t, term)
    ensures sport != AllSports ==> t.sport == sport
  {
    assert multiset(shown)[t] > 0;
  }

  // ---------------------------------------------------------------------
  // The sport menu
  // ---------------------------------------------------------------------

  function Sports(ts: seq<Team>): seq<string>
  {
    seq(|ts|, i requires 0 <= i < |ts| => ts[i].sport)
  }

  /**
   * The elements of `s` in order of first occurrence, each once (the
   * iteration order of a set built from `s`).
   */
  function Distinct(s: seq<string>): (r: seq<string>)
    ensures forall x :: x in r <==> x in s
    ensures NoDuplicates(r)
  {
    if s == [] then []
    else
      var init, last := s[..|s| - 1], s[|s| - 1];
      assert s == init + [last];
      Distinct(init) + (if last in init then [] else [last])
  }

  /** Position of the first occurrence of `x` in `s`. */
  function FirstIndex<T(==)>(s: seq<T>, x: T): (r: nat)
    requires x in s
    ensures r < |s| && s[r] == x && x !in s[..r]
  {
    if s[0] == x then 0
    else
      assert s == [s[0]] + s[1..];
      1 + FirstIndex(s[1..], x)
  }

  lemma FirstIndexUnique<T>(s: seq<T>, x: T, k: nat)
    requires k < |s| && s[k] == x && x !in s[..k]
    ensures FirstIndex(s, x) == k
  {
  }

  /** `Distinct` lists the elements in the order of their first occurrence. */
  lemma {:induction false} DistinctFirstOccurrenceOrder(s: seq<string>)
    ensures forall i, j :: 0 <= i < j < |Distinct(s)| ==>
              FirstIndex(s, Distinct(s)[i]) < FirstIndex(s, Distinct(s)[j])
  {
    if s != [] {
      var init, last := s[..|s| - 1], s[|s| - 1];
      assert s == init + [last];
      DistinctFirstOccurrenceOrder(init);
      var d, r := Distinct(init), Distinct(s);
      assert r == d + (if last in init then [] else [last]);
      forall x | x in init
        ensures FirstIndex(s, x) == FirstIndex(init, x)
      {
        var f := FirstIndex(init, x);
        assert s[..f] == init[..f];
        FirstIndexUnique(s, x, f);
      }
      if last !in init {
        assert s[..|s| - 1] == init;
        FirstIndexUnique(s, last, |s| - 1);
      }
      forall i, j | 0 <= i < j < |r|
        ensures FirstIndex(s, r[i]) < FirstIndex(s, r[j])
      {
        assert r[i] == d[i] && r[i] in init;
        if j < |d| {
          assert r[j] == d[j];
        }
      }
    }
  }

  /**
   * The sport menu: "All" followed by the distinct sports of the teams, in
   * the order the teams stand in `ts` at the time the menu is built.
   */
  function SportOptions(ts: seq<Team>): (r: seq<string>)
    ensures |r| >= 1 && r[0] == AllSports
    ensures forall x :: x in r[1..] <==> x in Sports(ts)
  {
    assert ([AllSports] + Distinct(Sports(ts)))[1..] == Distinct(Sports(ts));
    [AllSports] + Distinct(Sports(ts))
  }

  /**
   * The menu starts with "All", offers exactly the teams' sports after it,
   * each once and in order of first appearance; it has no repeated entry at
   * all unless some team's sport is itself named "All".
   */
  lemma SportOptionsShape(ts: seq<Team>)
    ensures var r := SportOptions(ts);
            && r[0] == AllSports
            && (forall x :: x in r[1..] <==> exists t :: t in ts && t.sport == x)
            && NoDuplicates(r[1..])
            && (forall i, j :: 1 <= i < j < |r| ==>
                  FirstIndex(Sports(ts), r[i]) < FirstIndex(Sports(ts), r[j]))
            && ((forall t :: t in ts ==> t.sport != AllSports) ==> NoDuplicates(r))
  {
    var r := SportOptions(ts);
    assert r[1..] == Distinct(Sports(ts));
    DistinctFirstOccurrenceOrder(Sports(ts));
    forall x
      ensures x in r[1..] <==> exists t :: t in ts && t.sport == x
    {
      InSports(ts, x);
    }
    if forall t :: t in ts ==> t.sport != AllSports {
      forall j | 1 <= j < |r|
        ensures r[j] != AllSports
      {
        assert r[j] in r[1..];
        InSports(ts, r[j]);
      }
    }
  }

  /** A sport is listed exactly when some team plays it. */
  lemma InSports(ts: seq<Team>, x: string)
    ensures x in Sports(ts) <==> exists t :: t in ts && t.sport == x
  {
    if x in Sports(ts) {
      var i :| 0 <= i < |ts| && Sports(ts)[i] == x;
      assert ts[i] in ts;
    }
    if exists t :: t in ts && t.sport == x {
      var t :| t in ts && t.sport == x;
      var i :| 0 <= i < |ts| && ts[i] == t;
      assert Sports(ts)[i] == x;
    }
  }


  /**
   * Reordering the teams (as the unfiltered in-place sort does to the
   * module-level array) keeps the entries of the sport menu; only their
   * order may change.
   */
  lemma SportOptionsReordered(a: seq<Team>, b: seq<Team>)
    requires multiset(a) == multiset(b)
    ensures SportOptions(a)[0] == SportOptions(b)[0] == AllSports
    ensures forall x :: x in SportOptions(a) <==> x in SportOptions(b)
  {
    forall t
      ensures t in a <==> t in b
    {
      assert t in a <==> multiset(a)[t] > 0;
      assert t in b <==> multiset(b)[t] > 0;
    }
    forall x
      ensures x in SportOptions(a) <==> x in SportOptions(b)
    {
      InSports(a, x);
      InSports(b, x);
      var ra, rb := SportOptions(a), SportOptions(b);
      assert ra == [ra[0]] + ra[1..];
      assert rb == [rb[0]] + rb[1..];
    }
  }

  /**
   * The order of the menu does change: two teams in one order give one menu,
   * the same teams sorted the other way give the other.
   */
  lemma SportOptionsFollowArrayOrder()
    ensures var x := Team(1, "Lakers", "Basketball", 10, 0, 0, "");
            var y := Team(2, "Yankees", "Baseball", 20, 0, 0, "");
            && SportOptions([x, y]) == [AllSports, "Basketball", "Baseball"]
            && SportOptions([y, x]) == [AllSports, "Baseball", "Basketball"]
  {
    var x := Team(1, "Lakers", "Basketball", 10, 0, 0, "");
    var y := Team(2, "Yankees", "Baseball", 20, 0, 0, "");
    assert Sports([x, y]) == ["Basketball", "Baseball"];
    assert Sports([y, x]) == ["Baseball", "Basketball"];
    assert Distinct(["Basketball"]) == ["Basketball"];
    assert Distinct(["Baseball"]) == ["Baseball"];
    assert ["Basketball", "Baseball"][..1] == ["Basketball"];
    assert ["Baseball", "Basketball"][..1] == ["Baseball"];
  }
}
