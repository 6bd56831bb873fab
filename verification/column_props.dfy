/**
 * What the two decoders promise about a whole line: when they refuse it,
 * what a successful parse leaves in the column, and how the lofreq_samtools
 * decoder keeps its recorded calls within the coverage.
 */
module ColumnFacts {
  import opened Text
  import opened Evidence
  import opened Markup
  import opened Vote
  import opened Column

  /* ---------- the generic decoder ---------- */

  /** A successful generic parse went through every step: the locus, the cleaning and the tally. */
  lemma GenericOk(c: Column, line: string, weight: int -> real)
    requires c.evidence.Keys == TenKeys
    requires GenericParse(c, line, weight).0 == Ok
    ensures var f := Split(line, TAB);
      && c.coord.None? && |f| == 6 && Locus(c, f).0 == Ok
      && var cl := Clean(f[4], DecodeQuals(f[5]), Upper(f[2]));
      && |cl.bases| == |cl.quals|
      && GenericParse(c, line, weight) == Tally(Marked(Locus(c, f).1, cl), cl.bases, cl.quals, Upper(f[2]), weight)
  {
  }

  /** A column that has been parsed refuses every further line and stays as it is. */
  lemma SecondParseRefused(c: Column, line: string, weight: int -> real, line': string, weight': int -> real)
    requires c.evidence.Keys == TenKeys
    requires GenericParse(c, line, weight).0 == Ok
    ensures var c1 := GenericParse(c, line, weight).1;
      GenericParse(c1, line', weight') == (Fail(AlreadyParsed), c1)
  {
    GenericOk(c, line, weight);
  }

  /**
   * On an unparsed column, a line without exactly five tabs is refused with
   * its field count and leaves the column untouched; no other line is
   * refused for its field count.
   */
  lemma FieldCountChecked(c: Column, line: string, weight: int -> real)
    requires c.evidence.Keys == TenKeys && c.coord.None?
    ensures GenericParse(c, line, weight).0 == Fail(WrongFieldCount(Count(line, TAB) + 1)) <==> Count(line, TAB) != 5
    ensures Count(line, TAB) != 5 ==> GenericParse(c, line, weight).1 == c
  {
    var f := Split(line, TAB);
    SplitCount(line, TAB);
    if |f| == 6 {
      var l := Locus(c, f);
      if l.0.Ok? {
        var cl := Clean(f[4], DecodeQuals(f[5]), Upper(f[2]));
        assert GenericParse(c, line, weight) == Tally(Marked(l.1, cl), cl.bases, cl.quals, Upper(f[2]), weight);
      }
    }
  }

  /**
   * The cleaned qualities fall short of the cleaned bases only when the
   * quality field is shorter than the bases left after the markup is
   * stripped: the length check of `parse_line` catches too few qualities,
   * never too many.
   */
  lemma QualityCheckCatchesTooFew(bases: string, quals: seq<int>, ref: string)
    ensures var cl := Clean(bases, quals, ref);
      |cl.quals| != |cl.bases| ==>
        |cl.quals| < |cl.bases| && |quals| < |StripIndels(StripStartEnd(ExpandMatches(bases, ref)).bases).0|
  {
    var s := StripIndels(StripStartEnd(ExpandMatches(bases, ref)).bases).0;
    if |quals| >= |s| {
      KeptQualsLength(s, quals);
    }
  }

  /** The quality field of a generic line decodes to one quality per byte, so this many bytes are enough. */
  predicate EnoughQualities(f: seq<string>)
    requires |f| == 6
  {
    |f[5]| >= |StripIndels(StripStartEnd(ExpandMatches(f[4], Upper(f[2]))).bases).0|
  }

  /**
   * A generic parse succeeds exactly when the column is unparsed, the line
   * has six fields, position and coverage are integers and the cleaned
   * calls have one quality each; enough quality bytes always suffice.
   */
  lemma GenericParseAccepts(c: Column, line: string, weight: int -> real)
    requires c.evidence.Keys == TenKeys
    ensures var f := Split(line, TAB);
      GenericParse(c, line, weight).0 == Ok <==>
        && c.coord.None? && |f| == 6
        && ParseInt(f[1]).Some? && ParseInt(f[3]).Some?
        && |Clean(f[4], DecodeQuals(f[5]), Upper(f[2])).quals| == |Clean(f[4], DecodeQuals(f[5]), Upper(f[2])).bases|
    ensures var f := Split(line, TAB);
      c.coord.None? && |f| == 6 && ParseInt(f[1]).Some? && ParseInt(f[3]).Some? && EnoughQualities(f) ==>
        GenericParse(c, line, weight).0 == Ok
  {
    var f := Split(line, TAB);
    if GenericParse(c, line, weight).0 == Ok {
      GenericOk(c, line, weight);
    } else if c.coord.None? && |f| == 6 && Locus(c, f).0 == Ok {
      GenericTallied(c, line, weight);
      QualityCheckCatchesTooFew(f[4], DecodeQuals(f[5]), Upper(f[2]));
    }
  }

  /** A line that gets past the locus on an unparsed column is decided by the tally. */
  lemma GenericTallied(c: Column, line: string, weight: int -> real)
    requires c.evidence.Keys == TenKeys && c.coord.None?
    requires |Split(line, TAB)| == 6 && Locus(c, Split(line, TAB)).0 == Ok
    ensures var f := Split(line, TAB);
      var cl := Clean(f[4], DecodeQuals(f[5]), Upper(f[2]));
      GenericParse(c, line, weight) == Tally(Marked(Locus(c, f).1, cl), cl.bases, cl.quals, Upper(f[2]), weight)
  {
  }

  /**
   * After a successful generic parse: the locus is stored (the position
   * 0-based, the reference base upper-cased), the markup counters are the
   * cleaning's, the consensus is set, and every histogram letter gained
   * exactly as many calls as the cleaned bases hold of that letter, so the
   * store gained one call per cleaned base that is a valid letter.
   */
  lemma GenericParseResult(c: Column, line: string, weight: int -> real)
    requires c.evidence.Keys == TenKeys
    requires GenericParse(c, line, weight).0 == Ok
    ensures var f := Split(line, TAB);
      && |f| == 6 && ParseInt(f[1]).Some? && ParseInt(f[3]).Some?
      && var c1 := GenericParse(c, line, weight).1;
      && var cl := Clean(f[4], DecodeQuals(f[5]), Upper(f[2]));
      && c1.chrom == Some(f[0])
      && c1.coord == Some(ParseInt(f[1]).value - 1)
      && c1.refBase == Some(Upper(f[2]))
      && c1.coverage == Some(ParseInt(f[3]).value)
      && c1.numReadEnds == cl.ends && c1.numReadStarts == cl.starts
      && c1.numInsEvents == c.numInsEvents + cl.ins && c1.numDelEvents == cl.dels
      && c1.avgInsLen == c.avgInsLen && c1.avgDelLen == c.avgDelLen
      && c1.consBase.Some?
      && (forall b :: b in TenKeys ==> Total(c1.evidence[b]) == Total(c.evidence[b]) + Count(cl.bases, b))
      && EvidenceTotal(c1.evidence) == EvidenceTotal(c.evidence) + ValidCount(cl.bases)
  {
    GenericOk(c, line, weight);
    var f := Split(line, TAB);
    var cl := Clean(f[4], DecodeQuals(f[5]), Upper(f[2]));
    var m := Marked(Locus(c, f).1, cl);
    forall b | b in TenKeys
      ensures Total(Fill(m.evidence, cl.bases, cl.quals)[b]) == Total(c.evidence[b]) + Count(cl.bases, b)
    {
      FillTotals(m.evidence, cl.bases, cl.quals, b);
    }
    FillEvidenceTotal(m.evidence, cl.bases, cl.quals);
  }

  /**
   * The consensus a generic parse stores is the reference base, or a single
   * base that out-scores every other by `Epsilon`.
   */
  lemma GenericConsensus(c: Column, line: string, weight: int -> real)
    requires c.evidence.Keys == TenKeys
    requires GenericParse(c, line, weight).0 == Ok
    ensures var c1 := GenericParse(c, line, weight).1;
      c1.consBase == c1.refBase
      || exists k :: Leads(Scores(Collapse(c1.evidence), weight), k) && c1.consBase == Some([VoteBases[k]])
  {
    GenericOk(c, line, weight);
    var c1 := GenericParse(c, line, weight).1;
    ConsensusLeader(c1.evidence, weight);
  }

  /* ---------- the lofreq_samtools decoder ---------- */

  /**
   * One field's decoding: it is never refused as an empty line; the fields
   * past the sixth and the summary leave the store and the coverage alone;
   * an accepted pair field leaves a coverage that covers the store.
   */
  lemma FieldFacts(c: Column, k: nat, v: string)
    requires c.evidence.Keys == TenKeys
    ensures LoFreqField(c, k, v).0 != Fail(EmptyLine)
    ensures k >= 5 ==> LoFreqField(c, k, v).1.evidence == c.evidence && LoFreqField(c, k, v).1.coverage == c.coverage
    ensures k == 4 && LoFreqField(c, k, v).0 == Ok ==>
      LoFreqField(c, k, v).1.coverage.Some? && LoFreqField(c, k, v).1.coverage.value >= EvidenceTotal(LoFreqField(c, k, v).1.evidence)
  {
    if k == 4 {
      PairsNeverEmptyLine(c.evidence, v, 0);
    } else if k == 5 {
      SummaryErrors(c, v);
    }
  }

  /** The pair loop fails only on a dangling character or an unknown letter. */
  lemma {:induction false} PairsNeverEmptyLine(ev: Evidence, v: string, p: nat)
    requires ev.Keys == TenKeys && p <= |v|
    ensures RecordPairs(ev, v, p).0.Fail? ==> RecordPairs(ev, v, p).0.error.OddPairField? || RecordPairs(ev, v, p).0.error.UnknownBase?
    decreases |v| - p
  {
    if p + 1 < |v| && v[p] in ev {
      PairsNeverEmptyLine(Record(ev, v[p], v[p + 1] as int - 33), v, p + 2);
    }
  }

  /** The summary fails only when malformed, missing a key or holding a count that is not an integer. */
  lemma SummaryErrors(c: Column, v: string)
    ensures SummaryField(c, v).0.Fail? ==>
      SummaryField(c, v).0.error.MalformedSummary? || SummaryField(c, v).0.error.MissingKey? || SummaryField(c, v).0.error.NotAnInteger?
  {
  }

  /** No field is refused as an empty line. */
  lemma {:induction false} FieldsNeverEmptyLine(c: Column, fields: seq<string>, k: nat)
    requires c.evidence.Keys == TenKeys && k <= |fields|
    ensures LoFreqFields(c, fields, k).0 != Fail(EmptyLine)
    decreases |fields| - k
  {
    if k < |fields| {
      var r := LoFreqField(c, k, fields[k]);
      LoFreqFieldsStep(c, fields, k, r);
      FieldFacts(c, k, fields[k]);
      if r.0.Ok? {
        FieldsNeverEmptyLine(r.1, fields, k + 1);
      }
    }
  }

  /** A lofreq_samtools line is refused as empty exactly when it is whitespace only, and then nothing is set. */
  lemma LoFreqEmptyLine(c: Column, line: string, weight: int -> real)
    requires c.evidence.Keys == TenKeys
    ensures LoFreqParse(c, line, weight).0 == Fail(EmptyLine) <==> forall k :: 0 <= k < |line| ==> IsSpace(line[k])
    ensures LoFreqParse(c, line, weight).0 == Fail(EmptyLine) ==> LoFreqParse(c, line, weight).1 == c
  {
    RStripMeaning(line);
    var t := RStrip(line);
    if t != [] {
      FieldsNeverEmptyLine(c, Split(t, TAB), 0);
      assert !IsSpace(line[|t| - 1]);
    }
  }

  /** Fields past the pair field leave the store and the coverage alone. */
  lemma {:induction false} FieldsAfterPairs(c: Column, fields: seq<string>, k: nat)
    requires c.evidence.Keys == TenKeys && 5 <= k <= |fields|
    ensures LoFreqFields(c, fields, k).1.evidence == c.evidence
    ensures LoFreqFields(c, fields, k).1.coverage == c.coverage
    decreases |fields| - k
  {
    if k < |fields| {
      var r := LoFreqField(c, k, fields[k]);
      LoFreqFieldsStep(c, fields, k, r);
      FieldFacts(c, k, fields[k]);
      if r.0.Ok? {
        FieldsAfterPairs(r.1, fields, k + 1);
      }
    }
  }

  /** The coverage is set and covers every recorded call. */
  ghost predicate Covered(c: Column)
    requires c.evidence.Keys == TenKeys
  {
    c.coverage.Some? && c.coverage.value >= EvidenceTotal(c.evidence)
  }

  /** Once the pair field is decoded successfully, the coverage is set and covers every recorded call. */
  lemma {:induction false} FieldsThroughPairs(c: Column, fields: seq<string>, k: nat)
    requires c.evidence.Keys == TenKeys && k <= 4 < |fields|
    requires LoFreqFields(c, fields, k).0 == Ok
    ensures Covered(LoFreqFields(c, fields, k).1)
    decreases 4 - k
  {
    var r := LoFreqField(c, k, fields[k]);
    LoFreqFieldsStep(c, fields, k, r);
    assert r.0 == Ok;
    var rest := LoFreqFields(r.1, fields, k + 1);
    assert rest == LoFreqFields(c, fields, k);
    if k == 4 {
      FieldFacts(c, k, fields[k]);
      FieldsAfterPairs(r.1, fields, 5);
      assert Covered(r.1);
    } else {
      FieldsThroughPairs(r.1, fields, k + 1);
    }
  }

  /**
   * A lofreq_samtools line with a pair field that is decoded successfully
   * leaves at most `coverage` calls in the store.
   */
  lemma LoFreqCoverageBound(c: Column, line: string, weight: int -> real)
    requires c.evidence.Keys == TenKeys
    requires LoFreqParse(c, line, weight).0 == Ok
    requires |Split(RStrip(line), TAB)| >= 5
    ensures Covered(LoFreqParse(c, line, weight).1)
  {
    FieldsThroughPairs(c, Split(RStrip(line), TAB), 0);
  }

  /**
   * The pair field of a fresh column is accepted exactly when it splits into
   * pairs of valid letters and the coverage is at least the number of pairs.
   */
  lemma PairFieldAccepts(c: Column, v: string)
    requires c.evidence == EmptyEvidence
    ensures PairField(c, v).0 == Ok <==> WellFormedPairs(v) && c.coverage.Some? && c.coverage.value >= |v| / 2
  {
    RecordPairsAccepts(c.evidence, v);
    EmptyTotal();
    if WellFormedPairs(v) {
      RecordPairsTotal(c.evidence, v);
    }
  }

  /** The empty store holds no calls. */
  lemma EmptyTotal()
    ensures EvidenceTotal(EmptyEvidence) == 0
  {
    forall keys | keys <= TenKeys
      ensures TotalOver(EmptyEvidence, keys) == 0
    {
      EmptyTotalOver(keys);
    }
  }

  lemma {:induction false} EmptyTotalOver(keys: set<char>)
    requires keys <= TenKeys
    ensures TotalOver(EmptyEvidence, keys) == 0
    decreases keys
  {
    if keys != {} {
      NonEmptyLetters(keys);
      var b :| b in keys;
      TotalOverSplit(EmptyEvidence, keys, b);
      EmptyTotalOver(keys - {b});
    }
  }

  /** The six keys the indel summary must carry, with the integer ones parsing. */
  predicate CompleteSummary(d: map<string, string>)
  {
    && LookupInt(d, "#heads").Found? && LookupInt(d, "#tails").Found? && LookupInt(d, "#ins").Found?
    && "ins_len" in d && LookupInt(d, "#del").Found? && "del_len" in d
  }

  /**
   * The indel summary is accepted exactly when every entry is one
   * `key=value` and all six keys are present with integer counts; it then
   * stores them, and a missing key is a `KeyError` naming a key.
   */
  lemma SummaryFieldAccepts(c: Column, v: string)
    ensures var d := SummaryDict(Split(v, ' '));
      SummaryField(c, v).0 == Ok <==> d.Some? && CompleteSummary(d.value)
    ensures var d := SummaryDict(Split(v, ' '));
      d.Some? && CompleteSummary(d.value) ==>
        var c1 := SummaryField(c, v).1;
        && c1.numReadStarts == ParseInt(d.value["#heads"]).value
        && c1.numReadEnds == ParseInt(d.value["#tails"]).value
        && c1.numInsEvents == ParseInt(d.value["#ins"]).value
        && c1.numDelEvents == ParseInt(d.value["#del"]).value
        && c1.avgInsLen == AvgText(d.value["ins_len"])
        && c1.avgDelLen == AvgText(d.value["del_len"])
    ensures SummaryField(c, v).0.Fail? && SummaryField(c, v).0.error.MissingKey? ==>
      SummaryField(c, v).0.error.key in ["#heads", "#tails", "#ins", "ins_len", "#del", "del_len"]
  {
  }
}
