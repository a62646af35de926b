/** The canonical settlement candidates of a book, and why they bound every settlement price. */
module WriterCandidates {
  import opened Numbers
  import opened WriterSeries

  predicate Rising(s: seq<u64>) {
    forall i, j :: 0 <= i < j < |s| ==> s[i] < s[j]
  }

  /** Sorted insertion without duplicates. */
  function Insert(s: seq<u64>, v: u64): seq<u64> {
    if s == [] then [v]
    else
      var last := s[|s| - 1];
      if last < v then s + [v] else if last == v then s else Insert(s[..|s| - 1], v) + [last]
  }

  /** `t` holds every point of `s`. */
  predicate Extends(s: seq<u64>, t: seq<u64>) {
    forall x :: x in s ==> x in t
  }

  lemma {:induction false} InsertFacts(s: seq<u64>, v: u64)
    requires Rising(s)
    ensures Rising(Insert(s, v)) && v in Insert(s, v) && Extends(s, Insert(s, v))
    ensures forall x :: x in Insert(s, v) ==> x in s || x == v
    ensures |Insert(s, v)| == if v in s then |s| else |s| + 1
  {
    if s != [] && s[|s| - 1] > v {
      var n := |s| - 1;
      InsertFacts(s[..n], v);
      var t := Insert(s[..n], v);
      assert s == s[..n] + [s[n]];
      forall i | 0 <= i < |t| ensures t[i] < s[n] {
        assert t[i] in t;
        assert forall x :: x in s[..n] ==> x < s[n];
      }
    } else if s != [] && s[|s| - 1] < v {
      assert v !in s;
    }
  }

  function InsertAdjacent(s: seq<u64>, b: u64): seq<u64> {
    var below := if b > 0 then Insert(s, b - 1) else s;
    var at := Insert(below, b);
    if b < U64_MAX then Insert(at, b + 1) else at
  }

  lemma InsertAdjacentFacts(s: seq<u64>, b: u64)
    requires Rising(s)
    ensures var t := InsertAdjacent(s, b);
            Rising(t) && b in t && Extends(s, t) && |t| <= |s| + 3
  {
    hide Insert, Rising;
    var below := if b > 0 then Insert(s, b - 1) else s;
    if b > 0 { InsertFacts(s, b - 1); }
    InsertFacts(below, b);
    if b < U64_MAX { InsertFacts(Insert(below, b), b + 1); }
  }

  /** Every strike and cap of the book is a point of `cs`. */
  predicate BookIn(cs: seq<u64>, book: seq<Series>) {
    forall i :: 0 <= i < |book| ==> book[i].strike in cs && book[i].cap in cs
  }

  lemma BookInExtends(cs: seq<u64>, t: seq<u64>, book: seq<Series>)
    requires BookIn(cs, book) && Extends(cs, t)
    ensures BookIn(t, book)
  {}

  lemma BookInSnoc(cs: seq<u64>, book: seq<Series>, s: Series)
    requires BookIn(cs, book) && s.strike in cs && s.cap in cs
    ensures BookIn(cs, book + [s])
  {}

  /** Zero and the neighbourhood of every strike and cap. */
  function SeriesPoints(book: seq<Series>): seq<u64> {
    if book == [] then [0]
    else
      var s := book[|book| - 1];
      InsertAdjacent(InsertAdjacent(SeriesPoints(book[..|book| - 1]), s.strike), s.cap)
  }

  function LargestBreak(book: seq<Series>): u64 {
    if book == [] then 0
    else Max(Max(LargestBreak(book[..|book| - 1]), book[|book| - 1].strike), book[|book| - 1].cap)
  }

  lemma NextSeries(book: seq<Series>, i: nat)
    requires i < |book|
    ensures SeriesPoints(book[..i + 1])
            == InsertAdjacent(InsertAdjacent(SeriesPoints(book[..i]), book[i].strike), book[i].cap)
    ensures LargestBreak(book[..i + 1]) == Max(Max(LargestBreak(book[..i]), book[i].strike), book[i].cap)
  {
    assert book[..i + 1][..i] == book[..i];
    hide InsertAdjacent;
  }

  /** The canonical sorted, unique candidate set (`canonical_candidate_points`). */
  function Candidates(book: seq<Series>, lower: u64, upper: u64): seq<u64> {
    var tails := InsertAdjacent(InsertAdjacent(SeriesPoints(book), lower), upper);
    if LargestBreak(book) < U64_MAX then Insert(tails, LargestBreak(book) + 1) else tails
  }

  lemma {:induction false} SeriesPointsFacts(book: seq<Series>)
    ensures var cs := SeriesPoints(book);
            Rising(cs) && 0 in cs && |cs| <= 1 + 6 * |book| && BookIn(cs, book)
  {
    if book != [] {
      hide Rising, InsertAdjacent, BookIn;
      var n := |book| - 1;
      var s := book[n];
      SeriesPointsFacts(book[..n]);
      var cs := SeriesPoints(book[..n]);
      var ds := InsertAdjacent(cs, s.strike);
      InsertAdjacentFacts(cs, s.strike);
      InsertAdjacentFacts(ds, s.cap);
      BookInExtends(cs, SeriesPoints(book), book[..n]);
      BookInSnoc(SeriesPoints(book), book[..n], s);
      assert book == book[..n] + [s];
    }
  }

  /** What the candidate set of any book holds; for at most twenty series it fits the fixed buffer. */
  lemma CandidatesFacts(book: seq<Series>, lower: u64, upper: u64)
    ensures var cs := Candidates(book, lower, upper);
            && Rising(cs) && 0 in cs && lower in cs && upper in cs && BookIn(cs, book)
            && |cs| <= 8 + 6 * |book|
            && (|book| <= MAX_SERIES ==> |cs| <= MAX_CANDIDATE_POINTS)
  {
    hide Rising, InsertAdjacent, Insert, SeriesPoints, BookIn;
    SeriesPointsFacts(book);
    var points := SeriesPoints(book);
    InsertAdjacentFacts(points, lower);
    InsertAdjacentFacts(InsertAdjacent(points, lower), upper);
    var tails := InsertAdjacent(InsertAdjacent(points, lower), upper);
    if LargestBreak(book) < U64_MAX {
      InsertFacts(tails, LargestBreak(book) + 1);
    }
    BookInExtends(points, Candidates(book, lower, upper), book);
  }

  lemma RisingFirst(s: seq<u64>)
    requires Rising(s) && 0 in s
    ensures s[0] == 0
  {
    var i :| 0 <= i < |s| && s[i] == 0;
  }

  // ---- Every price is bounded by candidates -----------------------------------------------------

  /** The neighbouring candidates of a price: `cs[i] <= x`, and `x < cs[i + 1]` when there is one. */
  lemma {:induction false} Neighbour(cs: seq<u64>, x: int) returns (i: nat)
    requires Rising(cs) && cs != [] && cs[0] <= x
    ensures i < |cs| && cs[i] <= x && (i + 1 < |cs| ==> x < cs[i + 1])
  {
    i := 0;
    while i + 1 < |cs| && cs[i + 1] <= x
      invariant i < |cs| && cs[i] <= x
    {
      i := i + 1;
    }
  }

  ghost predicate Holds(cs: seq<u64>, book: seq<Series>) {
    Rising(cs) && 0 in cs && BookIn(cs, book)
  }

  /** Between two neighbouring candidates there is no breakpoint. */
  lemma GapHasNoBreak(cs: seq<u64>, book: seq<Series>, i: nat)
    requires Holds(cs, book) && i + 1 < |cs|
    ensures NoBreakInside(book, cs[i], cs[i + 1])
  {
    forall k | 0 <= k < |book| ensures !(cs[i] < book[k].strike < cs[i + 1]) && !(cs[i] < book[k].cap < cs[i + 1]) {
      var a :| 0 <= a < |cs| && cs[a] == book[k].strike;
      var b :| 0 <= b < |cs| && cs[b] == book[k].cap;
      assert a < i ==> cs[a] < cs[i];
      assert a > i + 1 ==> cs[a] > cs[i + 1];
      assert b < i ==> cs[b] < cs[i];
      assert b > i + 1 ==> cs[b] > cs[i + 1];
    }
  }

  /**
   * At any settlement price any weighted book pays at most what it pays at some candidate, and that candidate
   * lies in the same tail as the price whenever the tail's boundary is itself a candidate.
   */
  lemma CandidateBounds(cs: seq<u64>, book: seq<Series>, w: seq<int>, x: u64, lower: u64, upper: u64) returns (c: u64)
    requires Holds(cs, book) && AllValid(book) && |w| == |book| && lower in cs && upper in cs
    ensures c in cs && Weighted(book, w, x) <= Weighted(book, w, c)
    ensures x <= lower ==> c <= lower
    ensures x >= upper ==> c >= upper
  {
    RisingFirst(cs);
    var i := Neighbour(cs, x);
    var l :| 0 <= l < |cs| && cs[l] == lower;
    var u :| 0 <= u < |cs| && cs[u] == upper;
    assert l > i ==> i + 1 < |cs| && cs[i + 1] <= cs[l];
    assert u <= i ==> cs[u] <= cs[i];
    if cs[i] == x {
      c := x;
    } else if i + 1 < |cs| {
      GapHasNoBreak(cs, book, i);
      WeightedAtMostEnds(book, w, cs[i], x, cs[i + 1]);
      c := if Weighted(book, w, x) <= Weighted(book, w, cs[i]) then cs[i] else cs[i + 1];
      assert x <= lower ==> l > i;
      assert x >= upper ==> u <= i;
    } else {
      c := cs[i];
      forall k | 0 <= k < |book| ensures book[k].strike <= c && book[k].cap <= c {
        var a :| 0 <= a < |cs| && cs[a] == book[k].strike;
        var b :| 0 <= b < |cs| && cs[b] == book[k].cap;
        assert a < i ==> cs[a] < cs[i];
        assert b < i ==> cs[b] < cs[i];
      }
      WeightedFlat(book, w, c, x);
    }
  }

  // ---- The program's fixed buffer ---------------------------------------------------------------

  /** Position of `v` in a rising sequence, or where it belongs. */
  method BinarySearch(s: seq<u64>, v: u64) returns (found: bool, index: nat)
    requires Rising(s)
    ensures index <= |s|
    ensures found <==> v in s
    ensures found ==> index < |s| && s[index] == v
    ensures !found ==> (forall i :: 0 <= i < index ==> s[i] < v) && (forall i :: index <= i < |s| ==> v < s[i])
  {
    var lo: nat, hi: nat := 0, |s|;
    while lo < hi
      invariant lo <= hi <= |s|
      invariant forall i :: 0 <= i < lo ==> s[i] < v
      invariant forall i :: hi <= i < |s| ==> v < s[i]
    {
      var mid := (lo + hi) / 2;
      if s[mid] < v {
        lo := mid + 1;
      } else if s[mid] == v {
        return true, mid;
      } else {
        hi := mid;
      }
    }
    return false, lo;
  }

  lemma {:induction false} InsertAt(s: seq<u64>, v: u64, index: nat)
    requires Rising(s) && v !in s && index <= |s|
    requires (forall i :: 0 <= i < index ==> s[i] < v) && (forall i :: index <= i < |s| ==> v < s[i])
    ensures Insert(s, v) == s[..index] + [v] + s[index..]
  {
    if index == |s| {
      assert s == [] || s[|s| - 1] < v;
      assert s[..index] == s && s[index..] == [];
    } else {
      var n := |s| - 1;
      InsertAt(s[..n], v, index);
      assert s[..n][..index] == s[..index] && s[..n][index..] + [s[n]] == s[index..];
    }
  }

  lemma {:induction false} InsertPresent(s: seq<u64>, v: u64)
    requires Rising(s) && v in s
    ensures Insert(s, v) == s
  {
    var n := |s| - 1;
    if s[n] != v {
      assert v in s[..n];
      var i :| 0 <= i < |s| && s[i] == v;
      assert s[i] < s[n];
      InsertPresent(s[..n], v);
    }
  }

  /** Move the slots `index..len` one up and store `value` at `index`. */
  method ShiftUp(values: array<u64>, index: nat, len: nat, value: u64)
    requires index <= len < values.Length
    modifies values
    ensures values[..len + 1] == old(values[..index]) + [value] + old(values[index..len])
  {
    var destination := len;
    while destination > index
      invariant index <= destination <= len
      invariant values[..destination] == old(values[..destination])
      invariant forall i :: destination < i <= len ==> values[i] == old(values[i - 1])
    {
      values[destination] := values[destination - 1];
      destination := destination - 1;
    }
    values[index] := value;
  }

  class CandidatePoints {
    const values: array<u64>
    var len: nat

    constructor ()
      ensures Valid() && Contents() == [] && fresh(values)
    {
      values := new u64[MAX_CANDIDATE_POINTS](_ => 0);
      len := 0;
    }

    ghost predicate Valid()
      reads this, values
    {
      values.Length == MAX_CANDIDATE_POINTS && len <= MAX_CANDIDATE_POINTS && Rising(values[..len])
    }

    function Contents(): seq<u64>
      requires len <= values.Length
      reads this, values
    {
      values[..len]
    }

    /** Shift the tail one slot and put the value in place; a full buffer refuses a new value. */
    method InsertValue(value: u64) returns (r: Result<()>)
      requires Valid()
      modifies this, values
      ensures Valid()
      ensures r == if value !in old(Contents())
              && |old(Contents())| == MAX_CANDIDATE_POINTS then Err(TooManyCandidatePoints) else Ok(())
      ensures Contents() == if r.Ok? then Insert(old(Contents()), value) else old(Contents())
      ensures |old(Contents())| < MAX_CANDIDATE_POINTS ==> r.Ok?
      ensures |Contents()| <= |old(Contents())| + 1
    {
      hide Rising, Insert;
      ghost var before := Contents();
      InsertFacts(before, value);
      var found, index := BinarySearch(values[..len], value);
      if found {
        InsertPresent(before, value);
        return Ok(());
      }
      if len == MAX_CANDIDATE_POINTS { return Err(TooManyCandidatePoints); }
      ghost var front, back := values[..index], values[index..len];
      assert before[..index] == front && before[index..] == back;
      ShiftUp(values, index, len, value);
      len := len + 1;
      InsertAt(before, value, index);
      return Ok(());
    }

    method InsertNeighbours(b: u64) returns (r: Result<()>)
      requires Valid()
      modifies this, values
      ensures Valid()
      ensures |old(Contents())| + 3 <= MAX_CANDIDATE_POINTS ==> r.Ok?
      ensures |Contents()| <= |old(Contents())| + 3
      ensures r.Ok? ==> Contents() == InsertAdjacent(old(Contents()), b)
      ensures r.Err? ==> r.error == TooManyCandidatePoints
    {
      hide Insert, Rising;
      if b > 0 {
        r := InsertValue(b - 1);
        if r.Err? { return; }
      }
      r := InsertValue(b);
      if r.Err? { return; }
      if b < U64_MAX {
        r := InsertValue(b + 1);
      }
    }

    /** Zero and the neighbourhood of every strike and cap of the book, in the buffer. */
    method InsertBook(book: seq<Series>) returns (largest: u64)
      requires Valid() && Contents() == [] && |book| <= MAX_SERIES
      modifies this, values
      ensures Valid() && Contents() == SeriesPoints(book) && largest == LargestBreak(book)
    {
      var step := InsertValue(0);
      largest := 0;
      assert Contents() == SeriesPoints(book[..0]);
      assert LargestBreak(book[..0]) == 0;
      hide Rising, InsertAdjacent, Insert, SeriesPoints, LargestBreak;
      for i := 0 to |book|
        invariant Valid() && Contents() == SeriesPoints(book[..i]) && largest == LargestBreak(book[..i])
      {
        NextSeries(book, i);
        SeriesPointsFacts(book[..i]);
        InsertAdjacentFacts(Contents(), book[i].strike);
        step := InsertNeighbours(book[i].strike);
        step := InsertNeighbours(book[i].cap);
        largest := Max(Max(largest, book[i].strike), book[i].cap);
      }
      assert book[..|book|] == book;
    }

    /** The whole candidate set of a book of at most twenty series fits the buffer. */
    method InsertCandidates(book: seq<Series>, lower: u64, upper: u64)
      requires Valid() && Contents() == [] && |book| <= MAX_SERIES
      modifies this, values
      ensures Valid() && Contents() == Candidates(book, lower, upper)
    {
      hide Rising, InsertAdjacent, Insert, SeriesPoints, LargestBreak;
      var largest := InsertBook(book);
      SeriesLength(book);
      var step := InsertNeighbours(lower);
      step := InsertNeighbours(upper);
      if largest < U64_MAX {
        step := InsertValue(largest + 1);
      }
    }
  }

  lemma SeriesLength(book: seq<Series>)
    ensures |SeriesPoints(book)| <= 1 + 6 * |book|
  {
    SeriesPointsFacts(book);
  }

  /** Build the candidate set in the fixed buffer; on a valid book it never runs out of room. */
  method BuildCandidates(book: seq<Series>, lower: u64, upper: u64) returns (r: Result<seq<u64>>)
    ensures r == CandidateSet(book, lower, upper)
  {
    var valid := CheckBook(book);
    if valid.Err? { return Err(valid.error); }
    if lower >= upper { return Err(InvalidTailBoundaries); }
    hide Candidates, Rising, Distinct;
    var points := new CandidatePoints();
    points.InsertCandidates(book, lower, upper);
    return Ok(points.Contents());
  }

  function CandidateSet(book: seq<Series>, lower: u64, upper: u64): Result<seq<u64>> {
    var _ :- ValidateBook(book);
    if lower >= upper then Err(InvalidTailBoundaries) else Ok(Candidates(book, lower, upper))
  }
}
