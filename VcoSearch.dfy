/** The VCO candidates of SetPllFrequency (FPGA_common.cpp): every multiple of an
    output frequency that lies in the VCO range, and each candidate's score, the
    number of enabled outputs it divides exactly. Frequencies are whole hertz, as
    the code's unsigned long and int casts make them. */
module VcoSearch {
  import opened Arith
  import opened PllClock
  import opened PllStages

  /** The multiples out*q for q0 <= q < q1. */
  function MultiplesBetween(out: nat, q0: nat, q1: nat): set<nat>
  {
    set q: nat | q0 <= q < q1 :: out * q
  }

  lemma MultiplesBetweenSnoc(out: nat, q0: nat, q: nat)
    requires q0 <= q
    ensures MultiplesBetween(out, q0, q + 1) == MultiplesBetween(out, q0, q) + {out * q}
  {
  }

  /** Membership in MultiplesBetween, without the quotient: a multiple of out in
      [out*q0, out*q1). */
  lemma MultiplesBetweenMembers(out: nat, q0: nat, q1: nat, f: nat)
    requires out > 0
    ensures f in MultiplesBetween(out, q0, q1) <==> f % out == 0 && out * q0 <= f < out * q1
  {
    if f in MultiplesBetween(out, q0, q1) {
      var q: nat :| q0 <= q < q1 && f == out * q;
      DivModUnique(f, out, q, 0);
      MulMono(q0, q, out);
      MulLess(q, q1, out);
    }
    if f % out == 0 && out * q0 <= f < out * q1 {
      var q := f / out;
      assert f == q * out == out * q;
      if q < q0 {
        MulLess(q, q0, out);
      }
      if q >= q1 {
        MulMono(q1, q, out);
      }
      assert f in MultiplesBetween(out, q0, q1);
    }
  }

  /** The first multiple the enumeration tries, as written: out*(int(600e6/out) + 1),
      the first multiple strictly above 600 MHz. */
  function FirstQuotientAsWritten(out: nat): nat
    requires out > 0
  {
    VcoMinHz / out + 1
  }

  /** The first multiple at or above 600 MHz, the lower end of the VCO range the
      range test accepts. */
  function FirstQuotient(out: nat): nat
    requires out > 0
  {
    (VcoMinHz + out - 1) / out
  }

  /** One past the last multiple at or below 1050 MHz. */
  function EndQuotient(out: nat): nat
    requires out > 0
  {
    VcoMaxHz / out + 1
  }

  lemma EndQuotientBound(out: nat, q: nat)
    requires out > 0
    ensures q < EndQuotient(out) <==> out * q <= VcoMaxHz
  {
    var e := VcoMaxHz / out;
    assert VcoMaxHz == e * out + VcoMaxHz % out;
    if q <= e {
      MulMono(q, e, out);
    } else {
      MulLess(e, q, out);
    }
  }

  /** The candidates one output contributes, as written: the multiples of out in
      (600 MHz, 1050 MHz]. */
  lemma CandidatesAsWritten(out: nat, f: nat)
    requires out > 0
    ensures f in MultiplesBetween(out, FirstQuotientAsWritten(out), EndQuotient(out))
            <==> f % out == 0 && VcoMinHz < f <= VcoMaxHz
  {
    var q0, q1 := FirstQuotientAsWritten(out), EndQuotient(out);
    MultiplesBetweenMembers(out, q0, q1, f);
    var d := VcoMinHz / out;
    assert VcoMinHz == d * out + VcoMinHz % out;
    assert out * q0 == d * out + out;
    EndQuotientBound(out, q1);
    EndQuotientBound(out, q1 - 1);
    if f % out == 0 {
      var k := f / out;
      assert f == k * out;
      EndQuotientBound(out, k);
      if k <= d {
        MulMono(k, d, out);
      } else {
        MulLess(d, k, out);
      }
    }
  }

  /** The candidates one output contributes, corrected: the multiples of out in
      [600 MHz, 1050 MHz]. */
  lemma Candidates(out: nat, f: nat)
    requires out > 0
    ensures f in MultiplesBetween(out, FirstQuotient(out), EndQuotient(out))
            <==> f % out == 0 && VcoMinHz <= f <= VcoMaxHz
  {
    var q0, q1 := FirstQuotient(out), EndQuotient(out);
    MultiplesBetweenMembers(out, q0, q1, f);
    var p := VcoMinHz + out - 1;
    assert p == q0 * out + p % out;
    if f % out == 0 {
      var k := f / out;
      assert f == k * out;
      EndQuotientBound(out, k);
      if k < q0 {
        MulLess(k, q0, out);
      } else {
        MulMono(q0, k, out);
      }
    }
  }

  /** A 600 MHz output has 600 MHz itself, divider one, as its only VCO candidate;
      the enumeration as written starts at 1200 MHz, past the range, and finds none. */
  lemma SixHundredMegahertzOutput()
    ensures MultiplesBetween(600_000_000, FirstQuotientAsWritten(600_000_000), EndQuotient(600_000_000)) == {}
    ensures 600_000_000 in MultiplesBetween(600_000_000, FirstQuotient(600_000_000), EndQuotient(600_000_000))
  {
    Candidates(600_000_000, 600_000_000);
  }

  /** The inner enumeration loop: from the first multiple, every multiple of out
      that is still within the VCO range. */
  method AddMultiples(vcos: set<nat>, out: nat, q0: nat) returns (r: set<nat>)
    requires out > 0 && out * q0 >= VcoMinHz
    ensures r == vcos + MultiplesBetween(out, q0, EndQuotient(out))
  {
    r := vcos;
    var freq := out * q0;
    ghost var q := q0;
    while freq >= VcoMinHz && freq <= VcoMaxHz
      invariant freq == out * q && q0 <= q && freq >= VcoMinHz
      invariant q == q0 || out * (q - 1) <= VcoMaxHz
      invariant r == vcos + MultiplesBetween(out, q0, q)
      decreases VcoMaxHz + 1 - freq
    {
      MultiplesBetweenSnoc(out, q0, q);
      MulSucc(q, out);
      r := r + {freq};
      freq := freq + out;
      q := q + 1;
    }
    LoopEnd(out, q0, q);
  }

  /** Where the enumeration loop leaves: at the first multiple above the range. */
  lemma LoopEnd(out: nat, q0: nat, q: nat)
    requires out > 0 && q0 <= q && out * q > VcoMaxHz
    requires q == q0 || out * (q - 1) <= VcoMaxHz
    ensures MultiplesBetween(out, q0, q) == MultiplesBetween(out, q0, EndQuotient(out))
  {
    EndQuotientBound(out, q);
    if q == q0 {
      MultiplesBetweenEmpty(out, q0, q);
      MultiplesBetweenEmpty(out, q0, EndQuotient(out));
    } else {
      EndQuotientBound(out, q - 1);
    }
  }

  lemma MultiplesBetweenEmpty(out: nat, q0: nat, q1: nat)
    requires q1 <= q0
    ensures MultiplesBetween(out, q0, q1) == {}
  {
  }

  /** Every candidate any output contributes. */
  function AllCandidates(cs: seq<Clock>): set<nat>
    requires AllConfigured(cs)
    decreases |cs|
  {
    if cs == [] then {}
    else
      var l := |cs| - 1;
      AllCandidates(cs[..l]) + MultiplesBetween(Out(cs[l]), FirstQuotient(Out(cs[l])), EndQuotient(Out(cs[l])))
  }

  /** The candidates are exactly the frequencies in the VCO range that are a
      multiple of some output's frequency. */
  lemma {:induction false} AllCandidatesMembers(cs: seq<Clock>, f: nat)
    requires AllConfigured(cs)
    ensures f in AllCandidates(cs) <==>
              VcoMinHz <= f <= VcoMaxHz && exists i :: 0 <= i < |cs| && f % Out(cs[i]) == 0
    decreases |cs|
  {
    if cs != [] {
      var l := |cs| - 1;
      AllCandidatesMembers(cs[..l], f);
      Candidates(Out(cs[l]), f);
      if VcoMinHz <= f <= VcoMaxHz && exists i :: 0 <= i < |cs| && f % Out(cs[i]) == 0 {
        var i :| 0 <= i < |cs| && f % Out(cs[i]) == 0;
        if i < l {
          assert cs[..l][i] == cs[i];
        }
      }
      if exists i :: 0 <= i < l && f % Out(cs[..l][i]) == 0 {
        var i :| 0 <= i < l && f % Out(cs[..l][i]) == 0;
        assert cs[..l][i] == cs[i];
      }
    }
  }

  /** The enumeration loop over all outputs, into the keys of availableVCOs. */
  method EnumerateVcos(clocks: array<Clock>) returns (vcos: set<nat>)
    requires AllConfigured(clocks[..])
    ensures vcos == AllCandidates(clocks[..])
  {
    vcos := {};
    var i := 0;
    while i < clocks.Length
      invariant 0 <= i <= clocks.Length
      invariant vcos == AllCandidates(clocks[..i])
    {
      var out := Out(clocks[i]);
      var p := VcoMinHz + out - 1;
      assert p == FirstQuotient(out) * out + p % out;
      assert clocks[..i + 1][..i] == clocks[..i];
      vcos := AddMultiples(vcos, out, FirstQuotient(out));
      i := i + 1;
    }
    assert clocks[..i] == clocks[..];
  }

  // ---------------------------------------------------------------------------
  // Scores

  /** An output counts towards a candidate's score when it is enabled and divides
      the candidate exactly. */
  predicate Divides(f: nat, c: Clock)
    requires Configured(c)
  {
    !c.bypass && f % Out(c) == 0
  }

  /** The number of outputs of cs that count towards f's score. */
  function Score(f: nat, cs: seq<Clock>): nat
    requires AllConfigured(cs)
    decreases |cs|
  {
    if cs == [] then 0
    else Score(f, cs[..|cs| - 1]) + (if Divides(f, cs[|cs| - 1]) then 1 else 0)
  }

  /** The score counts the outputs dividing f: it is at most their number, it is
      the full number exactly when every output divides f, and zero exactly when
      none does. */
  lemma {:induction false} ScoreCounts(f: nat, cs: seq<Clock>)
    requires AllConfigured(cs)
    ensures Score(f, cs) <= |cs|
    ensures Score(f, cs) == |cs| <==> forall i :: 0 <= i < |cs| ==> Divides(f, cs[i])
    ensures Score(f, cs) == 0 <==> forall i :: 0 <= i < |cs| ==> !Divides(f, cs[i])
    decreases |cs|
  {
    if cs != [] {
      var l := |cs| - 1;
      ScoreCounts(f, cs[..l]);
      forall i | 0 <= i < l
        ensures cs[..l][i] == cs[i]
      {
      }
    }
  }

  /** The inner scoring loop: one candidate against every output. */
  method ScoreOf(f: nat, clocks: array<Clock>) returns (score: nat)
    requires AllConfigured(clocks[..])
    ensures score == Score(f, clocks[..])
  {
    score := 0;
    var i := 0;
    while i < clocks.Length
      invariant 0 <= i <= clocks.Length
      invariant score == Score(f, clocks[..i])
    {
      assert clocks[..i + 1][..i] == clocks[..i];
      if !clocks[i].bypass && f % Out(clocks[i]) == 0 {
        score := score + 1;
      }
      i := i + 1;
    }
    assert clocks[..i] == clocks[..];
  }

  /** The scoring loop over availableVCOs: every candidate's score, and bestScore,
      the highest of them (zero when there is no candidate). */
  method ScoreVcos(vcos: set<nat>, clocks: array<Clock>) returns (scores: map<nat, nat>, best: nat)
    requires AllConfigured(clocks[..])
    ensures scores.Keys == vcos
    ensures forall f | f in scores :: scores[f] == Score(f, clocks[..])
    ensures forall f | f in scores :: scores[f] <= best
    ensures best == 0 || exists f | f in scores :: scores[f] == best
  {
    scores, best := map[], 0;
    var remaining := vcos;
    while remaining != {}
      invariant remaining <= vcos && scores.Keys == vcos - remaining
      invariant forall f | f in scores :: scores[f] == Score(f, clocks[..])
      invariant forall f | f in scores :: scores[f] <= best
      invariant best == 0 || exists f | f in scores :: scores[f] == best
      decreases remaining
    {
      var f :| f in remaining;
      var s := ScoreOf(f, clocks);
      scores := scores[f := s];
      if s > best {
        best := s;
      }
      remaining := remaining - {f};
    }
  }
}
