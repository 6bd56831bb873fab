/**
 * The per-column evidence store: base letter (upper case = forward strand,
 * lower case = reverse strand) to a histogram from base-call quality to
 * the number of calls seen with that quality, and the queries over it
 * (`get_counts_for_base`, `get_all_base_counts`, `get_base_and_qual_hist`).
 */
module Evidence {
  import opened Text

  /** Quality score to number of base calls with that quality. */
  type Hist = map<int, nat>
  /** Base letter, its case giving the strand, to its quality histogram. */
  type Evidence = map<char, Hist>

  /** `VALID_BASES`. */
  const ValidBases: seq<char> := ['A', 'C', 'G', 'T', 'N']
  const UpperKeys: set<char> := {'A', 'C', 'G', 'T', 'N'}
  const TenKeys: set<char> := {'A', 'C', 'G', 'T', 'N', 'a', 'c', 'g', 't', 'n'}

  /** The evidence of a freshly constructed column: ten keys, each with an empty histogram. */
  const EmptyEvidence: Evidence := map b | b in TenKeys :: map[]

  /** `hist.get(q, 0)`. */
  function Get(h: Hist, q: int): nat { if q in h then h[q] else 0 }

  /** The letters the evidence keeps are exactly those whose upper-case form is a valid base. */
  lemma ValidLetter(b: char)
    ensures UpperChar(b) in ValidBases <==> b in TenKeys
    ensures b in TenKeys ==> LowerChar(UpperChar(b)) in TenKeys && UpperChar(b) in UpperKeys
  {
  }

  /* ---------- sums over a histogram ---------- */

  /** Keep every quality. */
  function AnyQual(): int -> bool { q => true }
  /** Keep the qualities at or above `minQual`. */
  function AtLeast(minQual: int): int -> bool { q => q >= minQual }

  function Term(h: Hist, q: int, keep: int -> bool): nat { if keep(q) then Get(h, q) else 0 }

  /** A non-empty set of qualities has a member. */
  lemma NonEmpty(keys: set<int>)
    requires keys != {}
    ensures exists q :: q in keys
  {
    if forall q :: q !in keys {
      assert false;
    }
  }

  /** A non-empty set of letters has a member. */
  lemma NonEmptyLetters(keys: set<char>)
    requires keys != {}
    ensures exists b :: b in keys
  {
    if forall b :: b !in keys {
      assert false;
    }
  }

  /** The counts of `h` at the qualities in `keys` that `keep` accepts. */
  ghost function SumWhere(h: Hist, keys: set<int>, keep: int -> bool): nat
    decreases keys
  {
    if keys == {} then 0
    else
      NonEmpty(keys);
      var q :| q in keys;
      Term(h, q, keep) + SumWhere(h, keys - {q}, keep)
  }

  /** A sum may be split at any of its qualities, whichever the definition picked first. */
  lemma {:induction false} SumWhereSplit(h: Hist, keys: set<int>, keep: int -> bool, p: int)
    requires p in keys
    ensures SumWhere(h, keys, keep) == Term(h, p, keep) + SumWhere(h, keys - {p}, keep)
    decreases keys
  {
    var q :| q in keys && SumWhere(h, keys, keep) == Term(h, q, keep) + SumWhere(h, keys - {q}, keep);
    if q != p {
      SumWhereSplit(h, keys - {q}, keep, p);
      SumWhereSplit(h, keys - {p}, keep, q);
      assert keys - {q} - {p} == keys - {p} - {q};
    }
  }

  /** A sum depends only on the counts at the qualities it ranges over. */
  lemma {:induction false} SumWhereFrame(h: Hist, h': Hist, keys: set<int>, keep: int -> bool)
    requires forall q :: q in keys ==> Get(h, q) == Get(h', q)
    ensures SumWhere(h, keys, keep) == SumWhere(h', keys, keep)
    decreases keys
  {
    if keys != {} {
      NonEmpty(keys);
      var q :| q in keys;
      SumWhereSplit(h, keys, keep, q);
      SumWhereSplit(h', keys, keep, q);
      SumWhereFrame(h, h', keys - {q}, keep);
    }
  }

  /** Qualities absent from the histogram contribute nothing. */
  lemma {:induction false} SumWhereRestrict(h: Hist, keys: set<int>, keep: int -> bool)
    ensures SumWhere(h, keys, keep) == SumWhere(h, keys * h.Keys, keep)
    decreases keys
  {
    if keys != {} {
      NonEmpty(keys);
      var q :| q in keys;
      SumWhereSplit(h, keys, keep, q);
      SumWhereRestrict(h, keys - {q}, keep);
      if q in h {
        SumWhereSplit(h, keys * h.Keys, keep, q);
        assert (keys - {q}) * h.Keys == keys * h.Keys - {q};
      } else {
        assert (keys - {q}) * h.Keys == keys * h.Keys;
      }
    }
  }

  /** Summing a pointwise sum of histograms is the sum of the two sums. */
  lemma {:induction false} SumWhereAdd(m: Hist, a: Hist, b: Hist, keys: set<int>, keep: int -> bool)
    requires forall q :: Get(m, q) == Get(a, q) + Get(b, q)
    ensures SumWhere(m, keys, keep) == SumWhere(a, keys, keep) + SumWhere(b, keys, keep)
    decreases keys
  {
    if keys != {} {
      NonEmpty(keys);
      var q :| q in keys;
      SumWhereSplit(m, keys, keep, q);
      SumWhereSplit(a, keys, keep, q);
      SumWhereSplit(b, keys, keep, q);
      SumWhereAdd(m, a, b, keys - {q}, keep);
    }
  }

  /** Raising the quality threshold never raises a count. */
  lemma {:induction false} SumWhereMonotone(h: Hist, keys: set<int>, lo: int, hi: int)
    requires lo <= hi
    ensures SumWhere(h, keys, AtLeast(hi)) <= SumWhere(h, keys, AtLeast(lo))
    decreases keys
  {
    if keys != {} {
      NonEmpty(keys);
      var q :| q in keys;
      SumWhereSplit(h, keys, AtLeast(hi), q);
      SumWhereSplit(h, keys, AtLeast(lo), q);
      SumWhereMonotone(h, keys - {q}, lo, hi);
    }
  }

  /** All calls in a histogram. */
  ghost function Total(h: Hist): nat { SumWhere(h, h.Keys, AnyQual()) }

  /** The calls in a histogram with quality at least `minQual`. */
  ghost function CountAtLeast(h: Hist, minQual: int): nat { SumWhere(h, h.Keys, AtLeast(minQual)) }

  /* ---------- recording base calls ---------- */

  /** `hist[q] = hist.get(q, 0) + 1`. */
  function Bump(h: Hist, q: int): (r: Hist)
    ensures r.Keys == h.Keys + {q}
    ensures Get(r, q) == Get(h, q) + 1
    ensures forall p :: p != q ==> Get(r, p) == Get(h, p)
  {
    h[q := Get(h, q) + 1]
  }

  /** One more call recorded means one more in the total. */
  lemma TotalBump(h: Hist, q: int)
    ensures Total(Bump(h, q)) == Total(h) + 1
  {
    var r := Bump(h, q);
    SumWhereSplit(r, r.Keys, AnyQual(), q);
    SumWhereFrame(r, h, r.Keys - {q}, AnyQual());
    if q in h {
      SumWhereSplit(h, h.Keys, AnyQual(), q);
    }
    assert r.Keys - {q} == h.Keys - {q};
    assert q !in h ==> h.Keys - {q} == h.Keys;
  }

  /** `_bases_and_quals[b][q] += 1` for a letter already in the store. */
  function Record(ev: Evidence, b: char, q: int): (r: Evidence)
    requires b in ev
    ensures r.Keys == ev.Keys
  {
    ev[b := Bump(ev[b], q)]
  }

  /**
   * The histogram loop of the generic decoder: every base whose upper-case
   * form is a valid base is recorded with the quality at the same position;
   * any other letter is skipped.
   */
  function Fill(ev: Evidence, bases: string, quals: seq<int>): (r: Evidence)
    requires ev.Keys == TenKeys
    requires |bases| <= |quals|
    ensures r.Keys == TenKeys
    decreases |bases|
  {
    if bases == [] then ev
    else
      ValidLetter(bases[0]);
      var ev' := if UpperChar(bases[0]) in ValidBases then Record(ev, bases[0], quals[0]) else ev;
      Fill(ev', bases[1..], quals[1..])
  }

  /** The number of positions holding base `b` with quality `q`. */
  function Occurrences(bases: string, quals: seq<int>, b: char, q: int): nat
    requires |bases| <= |quals|
    decreases |bases|
  {
    if bases == [] then 0
    else (if bases[0] == b && quals[0] == q then 1 else 0) + Occurrences(bases[1..], quals[1..], b, q)
  }

  /**
   * After filling, the count of base `b` at quality `q` has grown by exactly
   * the number of positions pairing `b` with `q`: each call lands under its
   * own letter (and so its own strand) and its own quality, and nowhere else.
   */
  lemma {:induction false} FillEntries(ev: Evidence, bases: string, quals: seq<int>, b: char, q: int)
    requires ev.Keys == TenKeys && |bases| <= |quals| && b in TenKeys
    ensures Get(Fill(ev, bases, quals)[b], q) == Get(ev[b], q) + Occurrences(bases, quals, b, q)
    decreases |bases|
  {
    if bases != [] {
      ValidLetter(bases[0]);
      var ev' := if UpperChar(bases[0]) in ValidBases then Record(ev, bases[0], quals[0]) else ev;
      FillEntries(ev', bases[1..], quals[1..], b, q);
    }
  }

  /** After filling, the total for letter `b` has grown by the number of `b`s in the bases. */
  lemma {:induction false} FillTotals(ev: Evidence, bases: string, quals: seq<int>, b: char)
    requires ev.Keys == TenKeys && |bases| <= |quals| && b in TenKeys
    ensures Total(Fill(ev, bases, quals)[b]) == Total(ev[b]) + Count(bases, b)
    decreases |bases|
  {
    if bases != [] {
      ValidLetter(bases[0]);
      var ev' := if UpperChar(bases[0]) in ValidBases then Record(ev, bases[0], quals[0]) else ev;
      if bases[0] == b {
        TotalBump(ev[b], quals[0]);
      }
      FillTotals(ev', bases[1..], quals[1..], b);
    }
  }

  /** The total over the letters in `keys`. */
  ghost function TotalOver(ev: Evidence, keys: set<char>): nat
    requires keys <= ev.Keys
    decreases keys
  {
    if keys == {} then 0
    else
      NonEmptyLetters(keys);
      var b :| b in keys;
      Total(ev[b]) + TotalOver(ev, keys - {b})
  }

  /** A total may be split at any of its letters. */
  lemma {:induction false} TotalOverSplit(ev: Evidence, keys: set<char>, b: char)
    requires keys <= ev.Keys && b in keys
    ensures TotalOver(ev, keys) == Total(ev[b]) + TotalOver(ev, keys - {b})
    decreases keys
  {
    var c :| c in keys && TotalOver(ev, keys) == Total(ev[c]) + TotalOver(ev, keys - {c});
    if c != b {
      TotalOverSplit(ev, keys - {c}, b);
      TotalOverSplit(ev, keys - {b}, c);
      assert keys - {c} - {b} == keys - {b} - {c};
    }
  }

  /** All calls recorded in the evidence, over the ten letters. */
  ghost function EvidenceTotal(ev: Evidence): nat
    requires ev.Keys == TenKeys
  {
    TotalOver(ev, TenKeys)
  }

  /** Recording a call adds one to a total that ranges over its letter, and nothing to any other. */
  lemma {:induction false} TotalOverRecord(ev: Evidence, keys: set<char>, b: char, q: int)
    requires b in ev && keys <= ev.Keys
    ensures TotalOver(Record(ev, b, q), keys) == TotalOver(ev, keys) + (if b in keys then 1 else 0)
    decreases keys
  {
    if keys != {} {
      var ev' := Record(ev, b, q);
      NonEmptyLetters(keys);
      var c :| c in keys;
      TotalOverSplit(ev, keys, c);
      TotalOverSplit(ev', keys, c);
      TotalOverRecord(ev, keys - {c}, b, q);
      if c == b {
        TotalBump(ev[b], q);
      }
    }
  }

  /** The number of letters whose upper-case form is a valid base. */
  function ValidCount(s: string): nat
  {
    if s == [] then 0 else (if UpperChar(s[0]) in ValidBases then 1 else 0) + ValidCount(s[1..])
  }

  /** Filling adds one call to the total for every base letter it keeps, and none for the others. */
  lemma {:induction false} FillEvidenceTotal(ev: Evidence, bases: string, quals: seq<int>)
    requires ev.Keys == TenKeys && |bases| <= |quals|
    ensures EvidenceTotal(Fill(ev, bases, quals)) == EvidenceTotal(ev) + ValidCount(bases)
    decreases |bases|
  {
    if bases != [] {
      var b := bases[0];
      ValidLetter(b);
      if UpperChar(b) in ValidBases {
        var ev' := Record(ev, b, quals[0]);
        TotalOverRecord(ev, TenKeys, b, quals[0]);
        assert EvidenceTotal(ev') == EvidenceTotal(ev) + 1;
        FillEvidenceTotal(ev', bases[1..], quals[1..]);
        assert Fill(ev, bases, quals) == Fill(ev', bases[1..], quals[1..]);
      } else {
        FillEvidenceTotal(ev, bases[1..], quals[1..]);
        assert Fill(ev, bases, quals) == Fill(ev, bases[1..], quals[1..]);
      }
    }
  }

  /* ---------- queries ---------- */

  /** Forward and reverse histograms merged over the union of their qualities. */
  function Merge(fw: Hist, rv: Hist): (m: Hist)
    ensures m.Keys == fw.Keys + rv.Keys
    ensures forall q :: Get(m, q) == Get(fw, q) + Get(rv, q)
  {
    map q | q in fw.Keys + rv.Keys :: Get(fw, q) + Get(rv, q)
  }

  /**
   * `get_base_and_qual_hist(keep_strand_info=False)`: one histogram per
   * upper-case base, counting both strands.
   */
  function Collapse(ev: Evidence): (r: Evidence)
    requires ev.Keys == TenKeys
    ensures r.Keys == UpperKeys
    ensures forall b, q :: b in UpperKeys ==> Get(r[b], q) == Get(ev[b], q) + Get(ev[LowerChar(b)], q)
  {
    map b | b in UpperKeys :: Merge(ev[b], ev[LowerChar(b)])
  }

  /** `get_base_and_qual_hist`: a copy of the store, or its strand-collapsed form. */
  function BaseAndQualHist(ev: Evidence, keepStrand: bool): (r: Evidence)
    requires ev.Keys == TenKeys
    ensures keepStrand ==> r == ev
    ensures !keepStrand ==> r.Keys == UpperKeys
    ensures !keepStrand ==> forall b, q :: b in UpperKeys ==> Get(r[b], q) == Get(ev[b], q) + Get(ev[LowerChar(b)], q)
  {
    if keepStrand then ev else Collapse(ev)
  }

  datatype BaseCount = Stranded(fw: nat, rv: nat) | Combined(total: nat)

  /**
   * `get_counts_for_base`: calls of `base` at quality `minQual` or more, per
   * strand or summed; zero for a letter that is not a key.
   */
  ghost function CountsForBase(ev: Evidence, base: char, minQual: int, keepStrand: bool): (r: BaseCount)
    requires ev.Keys == TenKeys
    ensures r.Stranded? <==> keepStrand
  {
    if base !in ev then
      (if keepStrand then Stranded(0, 0) else Combined(0))
    else
      ValidLetter(base);
      var fw := CountAtLeast(ev[UpperChar(base)], minQual);
      var rv := CountAtLeast(ev[LowerChar(base)], minQual);
      if keepStrand then Stranded(fw, rv) else Combined(fw + rv)
  }

  /** `get_all_base_counts`: the per-base counts, keyed by the five upper-case bases. */
  ghost function AllBaseCounts(ev: Evidence, minQual: int, keepStrand: bool): (r: map<char, BaseCount>)
    requires ev.Keys == TenKeys
    ensures r.Keys == UpperKeys
    ensures forall b :: b in r ==> r[b] == CountsForBase(ev, b, minQual, keepStrand)
  {
    map b | b in UpperKeys :: CountsForBase(ev, b, minQual, keepStrand)
  }

  /**
   * The unstranded count is the forward count plus the reverse count, and it
   * is the count the strand-collapsed histogram gives for the same base.
   */
  lemma CountsForBaseCollapsed(ev: Evidence, base: char, minQual: int)
    requires ev.Keys == TenKeys && base in TenKeys
    ensures CountsForBase(ev, base, minQual, false).total
         == CountsForBase(ev, base, minQual, true).fw + CountsForBase(ev, base, minQual, true).rv
    ensures CountsForBase(ev, base, minQual, false).total == CountAtLeast(Collapse(ev)[UpperChar(base)], minQual)
  {
    ValidLetter(base);
    var B := UpperChar(base);
    var fw, rv, m := ev[B], ev[LowerChar(B)], Collapse(ev)[B];
    assert LowerChar(B) == LowerChar(base);
    SumWhereAdd(m, fw, rv, m.Keys, AtLeast(minQual));
    SumWhereRestrict(fw, m.Keys, AtLeast(minQual));
    SumWhereRestrict(rv, m.Keys, AtLeast(minQual));
    assert m.Keys * fw.Keys == fw.Keys;
    assert m.Keys * rv.Keys == rv.Keys;
  }

  /**
   * `get_all_base_counts` reports, for each of the five bases, its forward
   * and reverse calls at quality `minQual` or more when strands are kept;
   * otherwise their sum, which is the count of the strand-collapsed
   * histogram `get_base_and_qual_hist(False)` gives for that base.
   */
  lemma AllBaseCountsMeaning(ev: Evidence, minQual: int, b: char)
    requires ev.Keys == TenKeys && b in UpperKeys
    ensures AllBaseCounts(ev, minQual, true)[b]
         == Stranded(CountAtLeast(ev[b], minQual), CountAtLeast(ev[LowerChar(b)], minQual))
    ensures AllBaseCounts(ev, minQual, false)[b].total
         == AllBaseCounts(ev, minQual, true)[b].fw + AllBaseCounts(ev, minQual, true)[b].rv
    ensures AllBaseCounts(ev, minQual, false)[b] == Combined(CountAtLeast(BaseAndQualHist(ev, false)[b], minQual))
  {
    assert UpperChar(b) == b;
    var st, un := AllBaseCounts(ev, minQual, true)[b], AllBaseCounts(ev, minQual, false)[b];
    assert st == CountsForBase(ev, b, minQual, true);
    assert un == CountsForBase(ev, b, minQual, false);
    CountsForBaseCollapsed(ev, b, minQual);
    assert BaseAndQualHist(ev, false) == Collapse(ev);
  }

  /** Either case of a letter asks for the same base. */
  lemma CountsForBaseCaseless(ev: Evidence, base: char, minQual: int, keepStrand: bool)
    requires ev.Keys == TenKeys && base in TenKeys
    ensures CountsForBase(ev, base, minQual, keepStrand) == CountsForBase(ev, UpperChar(base), minQual, keepStrand)
    ensures CountsForBase(ev, base, minQual, keepStrand) == CountsForBase(ev, LowerChar(base), minQual, keepStrand)
  {
    ValidLetter(base);
  }

  /** A letter outside the ten keys has no calls, whatever the threshold. */
  lemma CountsForUnknownBase(ev: Evidence, base: char, minQual: int, keepStrand: bool)
    requires ev.Keys == TenKeys && base !in TenKeys
    ensures CountsForBase(ev, base, minQual, keepStrand) == if keepStrand then Stranded(0, 0) else Combined(0)
  {
  }

  /** Raising `min_qual` never raises a count. */
  lemma CountsForBaseMonotone(ev: Evidence, base: char, lo: int, hi: int)
    requires ev.Keys == TenKeys && lo <= hi
    ensures CountsForBase(ev, base, hi, false).total <= CountsForBase(ev, base, lo, false).total
  {
    if base in ev {
      ValidLetter(base);
      SumWhereMonotone(ev[UpperChar(base)], ev[UpperChar(base)].Keys, lo, hi);
      SumWhereMonotone(ev[LowerChar(base)], ev[LowerChar(base)].Keys, lo, hi);
    }
  }
}
