/** Sparse proposal fills against the dense fills of a sorted book of arcs. */
module DenseFills {
  import opened Numbers
  import opened Sums
  import opened Sorting
  import opened Leb128
  import opened ProposalCodec
  import opened ProposalTheorem

  function KeyOf(): ArcId -> int { (id: ArcId) => IdKey(id) }

  /** The arcs with a positive fill, paired up to the shorter of the two sequences. */
  function Positive(arcs: seq<ArcId>, fills: seq<u64>): seq<Fill> {
    if arcs == [] || fills == [] then []
    else if fills[0] > 0 then [Fill(arcs[0], fills[0])] + Positive(arcs[1..], fills[1..])
    else Positive(arcs[1..], fills[1..])
  }

  /** `Proposal::from_fills`. */
  function FromFills(arcs: seq<ArcId>, fills: seq<u64>, takerFill: u64, potentials: seq<i64>): Proposal {
    Proposal(Sort(Positive(arcs, fills), FillKey()), takerFill, potentials)
  }

  /** `Proposal::dense` from the arcs not yet passed: one value per arc, in one walk over both. */
  function DenseFrom(fills: seq<Fill>, arcs: seq<ArcId>): Result<seq<u64>>
    decreases |arcs|
  {
    if arcs == [] then (if fills == [] then Ok([]) else DecodeError)
    else if fills == [] || IdKey(arcs[0]) < IdKey(fills[0].id) then
      var tail :- DenseFrom(fills, arcs[1..]);
      Ok([0] + tail)
    else if arcs[0] != fills[0].id then DecodeError
    else
      var tail :- DenseFrom(fills[1..], arcs[1..]);
      Ok([fills[0].lots] + tail)
  }

  function Dense(p: Proposal, arcs: seq<ArcId>): Result<seq<u64>> {
    DenseFrom(p.fills, arcs)
  }

  // ---- The walk as the program runs it ---------------------------------------------------------------

  lemma Ahead(done: seq<u64>, v: u64, rest: Result<seq<u64>>)
    requires rest.Ok?
    ensures done + ([v] + rest.value) == (done + [v]) + rest.value
  {}

  /** What the walk produces behind the values already fixed. */
  function Fronted(done: seq<u64>, rest: Result<seq<u64>>): Result<seq<u64>> {
    if rest.Ok? then Ok(done + rest.value) else DecodeError
  }

  lemma SkipArc(done: seq<u64>, fills: seq<Fill>, arcs: seq<ArcId>)
    requires arcs != [] && (fills == [] || IdKey(arcs[0]) < IdKey(fills[0].id))
    ensures Fronted(done, DenseFrom(fills, arcs)) == Fronted(done + [0], DenseFrom(fills, arcs[1..]))
  {
    var rest := DenseFrom(fills, arcs[1..]);
    if rest.Ok? { Ahead(done, 0, rest); }
  }

  lemma TakeArc(done: seq<u64>, fills: seq<Fill>, arcs: seq<ArcId>)
    requires arcs != [] && fills != [] && arcs[0] == fills[0].id
    ensures Fronted(done, DenseFrom(fills, arcs)) == Fronted(done + [fills[0].lots], DenseFrom(fills[1..], arcs[1..]))
  {
    var rest := DenseFrom(fills[1..], arcs[1..]);
    if rest.Ok? { Ahead(done, fills[0].lots, rest); }
  }

  lemma WrongArc(fills: seq<Fill>, arcs: seq<ArcId>)
    requires fills != [] && (arcs == [] || (IdKey(arcs[0]) >= IdKey(fills[0].id) && arcs[0] != fills[0].id))
    ensures DenseFrom(fills, arcs).DecodeError?
  {}

  lemma {:induction false} Zeros(arcs: seq<ArcId>)
    ensures DenseFrom([], arcs).Ok? && |DenseFrom([], arcs).value| == |arcs|
    ensures forall k :: 0 <= k < |arcs| ==> DenseFrom([], arcs).value[k] == 0
  {
    if arcs != [] { Zeros(arcs[1..]); }
  }

  lemma FrontedNothing(rest: Result<seq<u64>>)
    ensures Fronted([], rest) == rest
  {
    if rest.Ok? { assert [] + rest.value == rest.value; }
  }

  /** Once the fills are used up, the zeros still in place are the rest of the walk. */
  lemma ZerosRemain(out: seq<u64>, i: nat, arcs: seq<ArcId>)
    requires i <= |arcs| == |out| && forall k :: i <= k < |out| ==> out[k] == 0
    ensures Fronted(out[..i], DenseFrom([], arcs[i..])) == Ok(out)
  {
    Zeros(arcs[i..]);
    assert out == out[..i] + DenseFrom([], arcs[i..]).value;
  }

  lemma FrontedError(done: seq<u64>, rest: Result<seq<u64>>)
    requires rest.DecodeError?
    ensures Fronted(done, rest).DecodeError?
  {}

  /** The nested loops over a zero-filled vector compute the same walk. */
  method DenseLoop(p: Proposal, arcs: seq<ArcId>) returns (r: Result<seq<u64>>)
    ensures r == Dense(p, arcs)
  {
    ghost var whole := Dense(p, arcs);
    FrontedNothing(whole);
    assert whole == DenseFrom(p.fills, arcs);
    hide DenseFrom, Dense, IdKey, Fronted;
    var out: seq<u64> := seq(|arcs|, _ => 0);
    var i := 0;
    var f := 0;
    assert p.fills[0..] == p.fills && arcs[0..] == arcs && out[..0] == [];
    while f < |p.fills|
      invariant 0 <= f <= |p.fills| && 0 <= i <= |arcs| && |out| == |arcs|
      invariant forall k :: i <= k < |out| ==> out[k] == 0
      invariant Fronted(out[..i], DenseFrom(p.fills[f..], arcs[i..])) == whole
    {
      var Fill(id, m) := p.fills[f];
      while i < |arcs| && IdKey(arcs[i]) < IdKey(id)
        invariant 0 <= i <= |arcs|
        invariant forall k :: i <= k < |out| ==> out[k] == 0
        invariant Fronted(out[..i], DenseFrom(p.fills[f..], arcs[i..])) == whole
      {
        SkipArc(out[..i], p.fills[f..], arcs[i..]);
        assert arcs[i..][1..] == arcs[i + 1..] && out[..i + 1] == out[..i] + [0];
        i := i + 1;
      }
      if i == |arcs| || arcs[i] != id {
        WrongArc(p.fills[f..], arcs[i..]);
        FrontedError(out[..i], DenseFrom(p.fills[f..], arcs[i..]));
        return DecodeError;
      }
      TakeArc(out[..i], p.fills[f..], arcs[i..]);
      assert arcs[i..][1..] == arcs[i + 1..] && p.fills[f..][1..] == p.fills[f + 1..];
      ghost var before := out[..i];
      out := out[i := m];
      assert out[..i + 1] == before + [m];
      i := i + 1;
      f := f + 1;
    }
    ZerosRemain(out, i, arcs);
    return Ok(out);
  }

  // ---- Round trips -----------------------------------------------------------------------------------

  lemma {:induction false} PositiveFacts(arcs: seq<ArcId>, fills: seq<u64>)
    requires Ascending(arcs, KeyOf())
    ensures Ascending(Positive(arcs, fills), IdOf())
    ensures forall f :: f in Positive(arcs, fills) ==> f.id in arcs && f.lots > 0
  {
    if arcs != [] && fills != [] {
      PositiveFacts(arcs[1..], fills[1..]);
      forall f | f in Positive(arcs[1..], fills[1..]) ensures IdKey(arcs[0]) < IdKey(f.id) {
        var k :| 0 <= k < |arcs[1..]| && arcs[1..][k] == f.id;
        assert KeyOf()(arcs[0]) < KeyOf()(arcs[k + 1]);
      }
    }
  }

  /** Fills for the arcs, missing ones as zero. */
  function Padded(fills: seq<u64>, n: nat): (r: seq<u64>)
    ensures |r| == n && forall i :: 0 <= i < n ==> r[i] == if i < |fills| then fills[i] else 0
  {
    seq(n, i requires 0 <= i < n => if i < |fills| then fills[i] else 0)
  }

  lemma {:induction false} DensePositive(arcs: seq<ArcId>, fills: seq<u64>)
    requires Ascending(arcs, KeyOf())
    ensures DenseFrom(Positive(arcs, fills), arcs) == Ok(Padded(fills, |arcs|))
  {
    if fills == [] || arcs == [] {
      Zeros(arcs);
      assert DenseFrom([], arcs).value == Padded(fills, |arcs|);
    } else {
      DensePositive(arcs[1..], fills[1..]);
      DenseHead(arcs, fills);
      assert Padded(fills, |arcs|) == [fills[0]] + Padded(fills[1..], |arcs| - 1);
      hide DenseFrom, Positive;
    }
  }

  /** The first arc contributes its own fill in front of the others'. */
  lemma DenseHead(arcs: seq<ArcId>, fills: seq<u64>)
    requires Ascending(arcs, KeyOf()) && arcs != [] && fills != []
             && DenseFrom(Positive(arcs[1..], fills[1..]), arcs[1..]).Ok?
    ensures DenseFrom(Positive(arcs, fills), arcs)
            == Ok([fills[0]] + DenseFrom(Positive(arcs[1..], fills[1..]), arcs[1..]).value)
  {
    var rest := Positive(arcs[1..], fills[1..]);
    if fills[0] > 0 {
      assert Positive(arcs, fills) == [Fill(arcs[0], fills[0])] + rest;
      hide Positive, DenseFrom;
      DenseTakes(Fill(arcs[0], fills[0]), rest, arcs);
    } else {
      assert Positive(arcs, fills) == rest;
      PositiveFacts(arcs[1..], fills[1..]);
      hide Positive, DenseFrom;
      FirstIsLater(rest, arcs);
      DenseSkips(rest, arcs);
    }
  }

  lemma DenseTakes(f: Fill, rest: seq<Fill>, arcs: seq<ArcId>)
    requires arcs != [] && arcs[0] == f.id && DenseFrom(rest, arcs[1..]).Ok?
    ensures DenseFrom([f] + rest, arcs) == Ok([f.lots] + DenseFrom(rest, arcs[1..]).value)
  {
    assert ([f] + rest)[1..] == rest;
  }

  lemma DenseSkips(fills: seq<Fill>, arcs: seq<ArcId>)
    requires arcs != [] && (fills == [] || IdKey(arcs[0]) < IdKey(fills[0].id)) && DenseFrom(fills, arcs[1..]).Ok?
    ensures DenseFrom(fills, arcs) == Ok([0] + DenseFrom(fills, arcs[1..]).value)
  {}

  /** Fills of later arcs lie strictly behind the first arc. */
  lemma FirstIsLater(rest: seq<Fill>, arcs: seq<ArcId>)
    requires arcs != [] && Ascending(arcs, KeyOf()) && forall f :: f in rest ==> f.id in arcs[1..]
    ensures rest == [] || IdKey(arcs[0]) < IdKey(rest[0].id)
  {
    if rest != [] {
      assert rest[0] in rest;
      var k :| 0 <= k < |arcs[1..]| && arcs[1..][k] == rest[0].id;
      assert KeyOf()(arcs[0]) < KeyOf()(arcs[k + 1]);
    }
  }

  /** For strictly sorted arcs the dense fills of the sparse ones are the fills themselves. */
  lemma DenseOfSparse(arcs: seq<ArcId>, fills: seq<u64>, takerFill: u64, potentials: seq<i64>)
    requires Ascending(arcs, KeyOf())
    ensures Dense(FromFills(arcs, fills, takerFill, potentials), arcs) == Ok(Padded(fills, |arcs|))
    ensures |fills| == |arcs| ==> Dense(FromFills(arcs, fills, takerFill, potentials), arcs) == Ok(fills)
  {
    PositiveFacts(arcs, fills);
    AscendingByKey(Positive(arcs, fills));
    SortIsIdentity(Positive(arcs, fills), FillKey());
    DensePositive(arcs, fills);
    if |fills| == |arcs| { assert Padded(fills, |arcs|) == fills; }
  }

  predicate Listed(fills: seq<Fill>, arcs: seq<ArcId>) {
    forall f :: f in fills ==> f.id in arcs && f.lots > 0
  }

  lemma {:induction false} SparseOf(fills: seq<Fill>, arcs: seq<ArcId>)
    requires Ascending(arcs, KeyOf()) && Ascending(fills, IdOf()) && forall f :: f in fills ==> f.lots > 0
    ensures DenseFrom(fills, arcs).Ok? <==> Listed(fills, arcs)
    ensures DenseFrom(fills, arcs).Ok? ==>
            |DenseFrom(fills, arcs).value| == |arcs| && Positive(arcs, DenseFrom(fills, arcs).value) == fills
    decreases |arcs|
  {
    if arcs == [] {
      assert Listed(fills, arcs) ==> fills == [] by {
        if fills != [] { assert fills[0] in fills; }
      }
    } else if fills == [] || IdKey(arcs[0]) < IdKey(fills[0].id) {
      SparseOf(fills, arcs[1..]);
      NotFirst(fills, arcs);
    } else if arcs[0] != fills[0].id {
      FirstMissing(fills, arcs);
    } else {
      SparseOf(fills[1..], arcs[1..]);
      FirstListed(fills, arcs);
    }
  }

  lemma NotFirst(fills: seq<Fill>, arcs: seq<ArcId>)
    requires arcs != [] && Ascending(fills, IdOf()) && (fills == [] || IdKey(arcs[0]) < IdKey(fills[0].id))
    ensures Listed(fills, arcs) <==> Listed(fills, arcs[1..])
  {
    assert arcs == [arcs[0]] + arcs[1..];
    forall f | f in fills ensures f.id != arcs[0] {
      var k :| 0 <= k < |fills| && fills[k] == f;
      assert k == 0 || IdOf()(fills[0]) < IdOf()(fills[k]);
    }
  }

  lemma FirstMissing(fills: seq<Fill>, arcs: seq<ArcId>)
    requires arcs != [] && fills != [] && Ascending(arcs, KeyOf())
    requires IdKey(arcs[0]) >= IdKey(fills[0].id) && arcs[0] != fills[0].id
    ensures !Listed(fills, arcs)
  {
    var id := fills[0].id;
    forall k | 0 <= k < |arcs| ensures arcs[k] != id {
      assert k == 0 || KeyOf()(arcs[0]) < KeyOf()(arcs[k]);
    }
    assert fills[0] in fills;
  }

  lemma FirstListed(fills: seq<Fill>, arcs: seq<ArcId>)
    requires arcs != [] && fills != [] && Ascending(fills, IdOf()) && arcs[0] == fills[0].id && fills[0].lots > 0
    ensures Listed(fills, arcs) <==> Listed(fills[1..], arcs[1..])
  {
    assert arcs == [arcs[0]] + arcs[1..] && fills == [fills[0]] + fills[1..];
    forall f | f in fills[1..] ensures f.id != arcs[0] {
      var k :| 0 <= k < |fills[1..]| && fills[1..][k] == f;
      assert IdOf()(fills[0]) < IdOf()(fills[k + 1]);
    }
  }

  /**
   * A well-formed proposal is dense over sorted arcs exactly when every fill names one of them, and nothing is lost.
   */
  lemma SparseOfDense(p: Proposal, arcs: seq<ArcId>)
    requires WellFormed(p) && Ascending(arcs, KeyOf())
    ensures Dense(p, arcs).Ok? <==> forall f :: f in p.fills ==> f.id in arcs
    ensures Dense(p, arcs).Ok? ==> FromFills(arcs, Dense(p, arcs).value, p.takerFill, p.potentials) == p
  {
    SparseOf(p.fills, arcs);
    AscendingByKey(p.fills);
    SortIsIdentity(p.fills, FillKey());
  }
}
