/**
 * One pileup column: the `PileupColumn` object, its generic samtools
 * mpileup decoder `parse_line`, and the `LoFreqPileupColumn` decoder for
 * the lofreq_samtools line format.
 *
 * Every decoder is specified by a function from the column's state before
 * the call (a `Column` value) to the outcome and the state after it. A
 * Python exception is a `Fail` outcome; the state it carries is the state
 * the object is left in, with every field assigned before the exception
 * kept.
 */
module Column {
  import opened Text
  import opened Evidence
  import opened Markup
  import opened Vote

  /** `avg_ins_len`/`avg_del_len`: the integer 0 until a lofreq summary sets it to the text it parsed as a float. */
  datatype Avg = AvgZero | AvgText(text: string)

  datatype ParseError =
    | AlreadyParsed
    | WrongFieldCount(fields: nat)
    | NotAnInteger(text: string)
    | QualityCountMismatch
    | EmptyLine
    | OddPairField
    | UnknownBase(base: char)
    | CoverageExceeded
    | MalformedSummary
    | MissingKey(key: string)

  datatype Outcome = Ok | Fail(error: ParseError)

  /** The attributes of a `PileupColumn` object. */
  datatype Column = Column(
    chrom: Option<string>,
    coord: Option<int>,
    refBase: Option<string>,
    consBase: Option<string>,
    coverage: Option<int>,
    evidence: Evidence,
    numInsEvents: int,
    avgInsLen: Avg,
    numDelEvents: int,
    avgDelLen: Avg,
    numReadStarts: int,
    numReadEnds: int)

  /** A freshly constructed column. */
  const Initial: Column := Column(None, None, None, None, None, EmptyEvidence, 0, AvgZero, 0, AvgZero, 0, 0)

  /** `cons_base` after the vote: the reference base when the vote is `-` or `N`. */
  function ConsOrRef(cons: char, ref: Option<string>): Option<string>
  {
    if cons == '-' || cons == 'N' then ref else Some([cons])
  }

  /* ---------- the generic decoder ---------- */

  /**
   * `parse_line`: a second call is refused; the line must have exactly six
   * tab-separated fields; the coordinate is stored 0-based, the reference
   * base upper-cased; the bases are cleaned of markup, their qualities
   * decoded and filtered in lock-step; every valid base call is recorded
   * and the consensus is voted.
   */
  ghost function GenericParse(c: Column, line: string, weight: int -> real): (r: (Outcome, Column))
    requires c.evidence.Keys == TenKeys
    ensures r.1.evidence.Keys == TenKeys
  {
    if c.coord.Some? then (Fail(AlreadyParsed), c)
    else
      var f := Split(line, TAB);
      if |f| != 6 then (Fail(WrongFieldCount(|f|)), c)
      else GenericFields(c, f, weight)
  }

  /**
   * The first four fields of a generic line, each stored as soon as it is
   * read: the chromosome, the 1-based position (stored 0-based), the
   * reference base upper-cased and the coverage. A position or coverage
   * that is not an integer stops the line there.
   */
  function Locus(c: Column, f: seq<string>): (r: (Outcome, Column))
    requires |f| == 6
    ensures r.1 == c.(chrom := r.1.chrom, coord := r.1.coord, refBase := r.1.refBase, coverage := r.1.coverage)
    ensures r.1.chrom == Some(f[0])
    ensures r.0 == Ok <==> ParseInt(f[1]).Some? && ParseInt(f[3]).Some?
    ensures r.0 == Ok ==> r.1.coord == Some(ParseInt(f[1]).value - 1) && r.1.refBase == Some(Upper(f[2]))
                          && r.1.coverage == Some(ParseInt(f[3]).value)
  {
    var n := ParseInt(f[1]);
    if n.None? then (Fail(NotAnInteger(f[1])), c.(chrom := Some(f[0])))
    else
      var cov := ParseInt(f[3]);
      if cov.None? then (Fail(NotAnInteger(f[3])), c.(chrom := Some(f[0]), coord := Some(n.value - 1), refBase := Some(Upper(f[2]))))
      else (Ok, c.(chrom := Some(f[0]), coord := Some(n.value - 1), refBase := Some(Upper(f[2])), coverage := Some(cov.value)))
  }

  /** The six fields of a generic line: the locus, then the calls. */
  ghost function GenericFields(c: Column, f: seq<string>, weight: int -> real): (r: (Outcome, Column))
    requires c.evidence.Keys == TenKeys && |f| == 6
    ensures r.1.evidence.Keys == TenKeys
  {
    var l := Locus(c, f);
    if l.0.Fail? then l else GenericCalls(l.1, f[4], f[5], Upper(f[2]), weight)
  }

  /**
   * The base and quality fields: markup counted and stripped, then the
   * cleaned calls tallied.
   */
  ghost function GenericCalls(c: Column, bases: string, quals: string, ref: string, weight: int -> real): (r: (Outcome, Column))
    requires c.evidence.Keys == TenKeys
    ensures r.1.evidence.Keys == TenKeys
  {
    var cl := Clean(bases, DecodeQuals(quals), ref);
    Tally(Marked(c, cl), cl.bases, cl.quals, ref, weight)
  }

  /** The markup counters cleaning sets: read ends and starts, deletions; insertions are added on. */
  function Marked(c: Column, cl: Cleaned): Column
  {
    c.(numReadEnds := cl.ends, numReadStarts := cl.starts,
       numInsEvents := c.numInsEvents + cl.ins, numDelEvents := cl.dels)
  }

  /**
   * The cleaned qualities must match the cleaned bases one to one; every
   * valid call is recorded and the consensus voted.
   */
  ghost function Tally(c: Column, bases: string, quals: seq<int>, ref: string, weight: int -> real): (r: (Outcome, Column))
    requires c.evidence.Keys == TenKeys
    ensures r.1.evidence.Keys == TenKeys
  {
    if |bases| != |quals| then (Fail(QualityCountMismatch), c)
    else
      var ev := Fill(c.evidence, bases, quals);
      (Ok, c.(evidence := ev, consBase := ConsOrRef(Consensus(ev, weight), Some(ref))))
  }

  /*
   * The ways `GenericParse` can end. Each of these step lemmas takes the
   * outcome and column a decoder step produced as `r` and shows it is what
   * the specification function gives.
   */

  lemma ParseRefused(c: Column, line: string, weight: int -> real, r: (Outcome, Column))
    requires c.evidence.Keys == TenKeys && c.coord.Some?
    requires r == (Fail(AlreadyParsed), c)
    ensures r == GenericParse(c, line, weight)
  {
  }

  lemma ParseWrongCount(c: Column, line: string, weight: int -> real, r: (Outcome, Column))
    requires c.evidence.Keys == TenKeys && c.coord.None? && |Split(line, TAB)| != 6
    requires r == (Fail(WrongFieldCount(|Split(line, TAB)|)), c)
    ensures r == GenericParse(c, line, weight)
  {
  }

  lemma ParseFieldsStep(c: Column, line: string, weight: int -> real, r: (Outcome, Column))
    requires c.evidence.Keys == TenKeys && c.coord.None? && |Split(line, TAB)| == 6
    requires r == GenericFields(c, Split(line, TAB), weight)
    ensures r == GenericParse(c, line, weight)
  {
  }

  /* The ways `GenericFields` can end, one step lemma per early return. */

  lemma FieldsBadLocus(c: Column, f: seq<string>, weight: int -> real, r: (Outcome, Column))
    requires c.evidence.Keys == TenKeys && |f| == 6
    requires r == Locus(c, f) && r.0.Fail?
    ensures r == GenericFields(c, f, weight)
  {
  }

  lemma FieldsStep(c: Column, f: seq<string>, weight: int -> real, mid: Column, r: (Outcome, Column))
    requires c.evidence.Keys == TenKeys && |f| == 6
    requires (Ok, mid) == Locus(c, f)
    requires r == GenericCalls(mid, f[4], f[5], Upper(f[2]), weight)
    ensures r == GenericFields(c, f, weight)
  {
  }

  /** The cleaning steps, one after the other, are `Clean`. */
  lemma CleanStep(bases: string, quals: seq<int>, ref: string, e: string, s: string, cl: Cleaned)
    requires e == ExpandMatches(bases, ref) && s == StripStartEnd(e).bases
    requires cl == Cleaned(Remove(StripIndels(s).0, '*'), KeptQuals(StripIndels(s).0, quals),
                           StripStartEnd(e).ends, StripStartEnd(e).starts, StripIndels(s).1, Count(StripIndels(s).0, '*'))
    ensures cl == Clean(bases, quals, ref)
  {
  }

  /** Setting the start and end counters, then the indel counters, is `Marked`. */
  lemma MarkedSteps(c0: Column, c1: Column, c2: Column, cl: Cleaned)
    requires c1 == c0.(numReadEnds := cl.ends, numReadStarts := cl.starts)
    requires c2 == c1.(numInsEvents := c1.numInsEvents + cl.ins, numDelEvents := cl.dels)
    ensures c2 == Marked(c0, cl)
  {
  }

  /** Cleaning `c` into `mid`, then tallying into `r`, is the whole of `GenericCalls`. */
  lemma CallsStep(c: Column, bases: string, quals: string, ref: string, weight: int -> real,
                  cl: Cleaned, mid: Column, r: (Outcome, Column))
    requires c.evidence.Keys == TenKeys
    requires cl == Clean(bases, DecodeQuals(quals), ref) && mid == Marked(c, cl)
    requires r == Tally(mid, cl.bases, cl.quals, ref, weight)
    ensures r == GenericCalls(c, bases, quals, ref, weight)
  {
  }

  /** Recording the calls into `mid`, then voting into `c'`, is the successful case of `Tally`. */
  lemma TallyStep(c: Column, bases: string, quals: seq<int>, ref: string, weight: int -> real, mid: Column, c': Column)
    requires c.evidence.Keys == TenKeys && |bases| == |quals|
    requires mid == c.(evidence := Fill(c.evidence, bases, quals))
    requires c' == mid.(consBase := ConsOrRef(Consensus(mid.evidence, weight), Some(ref)))
    ensures (Ok, c') == Tally(c, bases, quals, ref, weight)
  {
  }

  /* ---------- the lofreq_samtools decoder ---------- */

  /**
   * Field 4: base/quality pairs from position `p` on, two characters at a
   * time, each recorded under its letter; a dangling character is a failed
   * tuple unpacking, a letter that is not one of the ten keys a `KeyError`.
   * Pairs before the failing one stay recorded.
   */
  function RecordPairs(ev: Evidence, v: string, p: nat): (r: (Outcome, Evidence))
    requires ev.Keys == TenKeys && p <= |v|
    ensures r.1.Keys == TenKeys
    decreases |v| - p
  {
    if p == |v| then (Ok, ev)
    else if p + 1 == |v| then (Fail(OddPairField), ev)
    else if v[p] !in ev then (Fail(UnknownBase(v[p])), ev)
    else RecordPairs(Record(ev, v[p], v[p + 1] as int - 33), v, p + 2)
  }

  /** From position `p` on, the field splits into pairs whose letters are all keys. */
  predicate WellFormedFrom(v: string, p: nat)
  {
    (|v| - p) % 2 == 0 && forall i :: p <= i < |v| && (i - p) % 2 == 0 ==> v[i] in TenKeys
  }

  /** The pair field is accepted exactly when it has an even length and every pair's letter is a key. */
  predicate WellFormedPairs(v: string)
  {
    |v| % 2 == 0 && forall i :: 0 <= i < |v| && i % 2 == 0 ==> v[i] in TenKeys
  }

  lemma WellFormedFromStep(v: string, p: nat)
    requires p + 2 <= |v|
    ensures WellFormedFrom(v, p) <==> v[p] in TenKeys && WellFormedFrom(v, p + 2)
  {
    if v[p] in TenKeys && WellFormedFrom(v, p + 2) {
      forall i | p <= i < |v| && (i - p) % 2 == 0
        ensures v[i] in TenKeys
      {
        if i >= p + 2 { assert (i - (p + 2)) % 2 == 0; }
      }
    }
  }

  /** The pairs from `p` on are accepted exactly when they are well formed. */
  lemma {:induction false} RecordPairsAcceptsFrom(ev: Evidence, v: string, p: nat)
    requires ev.Keys == TenKeys && p <= |v|
    ensures RecordPairs(ev, v, p).0 == Ok <==> WellFormedFrom(v, p)
    decreases |v| - p
  {
    if p + 2 <= |v| {
      WellFormedFromStep(v, p);
      if v[p] in ev {
        RecordPairsAcceptsFrom(Record(ev, v[p], v[p + 1] as int - 33), v, p + 2);
      }
    } else if p + 1 == |v| {
      assert !WellFormedFrom(v, p);
    }
  }

  /** The pair field is accepted exactly when it is well formed. */
  lemma RecordPairsAccepts(ev: Evidence, v: string)
    requires ev.Keys == TenKeys
    ensures RecordPairs(ev, v, 0).0 == Ok <==> WellFormedPairs(v)
  {
    RecordPairsAcceptsFrom(ev, v, 0);
    assert WellFormedFrom(v, 0) == WellFormedPairs(v);
  }

  /** Accepted pairs from `p` on add one call to the total per pair. */
  lemma {:induction false} RecordPairsTotalFrom(ev: Evidence, v: string, p: nat)
    requires ev.Keys == TenKeys && p <= |v| && WellFormedFrom(v, p)
    ensures EvidenceTotal(RecordPairs(ev, v, p).1) == EvidenceTotal(ev) + (|v| - p) / 2
    decreases |v| - p
  {
    if p < |v| {
      WellFormedFromStep(v, p);
      RecordPairsTotalFrom(Record(ev, v[p], v[p + 1] as int - 33), v, p + 2);
      TotalOverRecord(ev, TenKeys, v[p], v[p + 1] as int - 33);
    }
  }

  /** An accepted pair field adds one call to the total per pair. */
  lemma RecordPairsTotal(ev: Evidence, v: string)
    requires ev.Keys == TenKeys && WellFormedPairs(v)
    ensures EvidenceTotal(RecordPairs(ev, v, 0).1) == EvidenceTotal(ev) + |v| / 2
  {
    assert WellFormedFrom(v, 0) == WellFormedPairs(v);
    RecordPairsTotalFrom(ev, v, 0);
  }

  /** Field 4 with the coverage check after it: the raw coverage must cover every recorded call. */
  ghost function PairField(c: Column, v: string): (r: (Outcome, Column))
    requires c.evidence.Keys == TenKeys
    ensures r.1.evidence.Keys == TenKeys
  {
    var (o, ev) := RecordPairs(c.evidence, v, 0);
    var c1 := c.(evidence := ev);
    if o.Fail? then (o, c1)
    else if c.coverage.None? || c.coverage.value < EvidenceTotal(ev) then (Fail(CoverageExceeded), c1)
    else (Ok, c1)
  }

  /**
   * `dict([x.split('=') for x in field.split(' ')])`: every entry must split
   * into exactly a key and a value; a key given twice keeps its last value.
   */
  function SummaryDict(entries: seq<string>): (r: Option<map<string, string>>)
    ensures r.Some? <==> forall i :: 0 <= i < |entries| ==> Count(entries[i], '=') == 1
    decreases |entries|
  {
    if entries == [] then Some(map[])
    else
      var last := entries[|entries| - 1];
      var kv := Split(last, '=');
      SplitCount(last, '=');
      match SummaryDict(entries[..|entries| - 1])
      case None => None
      case Some(d) => if |kv| != 2 then None else Some(d[kv[0] := kv[1]])
  }

  /** A key's value in the summary is the value of its last entry. */
  lemma {:induction false} SummaryDictLastWins(entries: seq<string>, i: nat)
    requires SummaryDict(entries).Some? && i < |entries|
    requires forall j :: i < j < |entries| ==> Split(entries[j], '=')[0] != Split(entries[i], '=')[0]
    ensures var kv := Split(entries[i], '=');
      |kv| == 2 && kv[0] in SummaryDict(entries).value && SummaryDict(entries).value[kv[0]] == kv[1]
    decreases |entries|
  {
    SplitCount(entries[i], '=');
    var n := |entries|;
    var front := entries[..n - 1];
    assert forall j :: 0 <= j < n - 1 ==> front[j] == entries[j];
    if i < n - 1 {
      SummaryDictLastWins(front, i);
    }
  }

  datatype Lookup<T> = Found(value: T) | Failed(error: ParseError)

  /** `int(field_dict[key])`. */
  function LookupInt(d: map<string, string>, key: string): (r: Lookup<int>)
    ensures r.Found? <==> key in d && ParseInt(d[key]).Some?
    ensures r.Found? ==> r.value == ParseInt(d[key]).value
    ensures key !in d ==> r == Failed(MissingKey(key))
  {
    if key !in d then Failed(MissingKey(key))
    else match ParseInt(d[key])
      case None => Failed(NotAnInteger(d[key]))
      case Some(n) => Found(n)
  }

  /**
   * Field 5, the indel summary: `#heads`, `#tails`, `#ins`, `ins_len`,
   * `#del`, `del_len`, read and stored in that order until one is missing
   * or not an integer.
   */
  function SummaryField(c: Column, v: string): (r: (Outcome, Column))
    ensures r.1.evidence == c.evidence && r.1.coverage == c.coverage && r.1.refBase == c.refBase
  {
    match SummaryDict(Split(v, ' '))
    case None => (Fail(MalformedSummary), c)
    case Some(d) =>
      var (o, c1) := ReadEventCounts(c, d);
      if o.Fail? then (o, c1) else ReadIndelLengths(c1, d)
  }

  /** `#heads`, `#tails` and `#ins`, in that order. */
  function ReadEventCounts(c: Column, d: map<string, string>): (r: (Outcome, Column))
    ensures r.1 == c.(numReadStarts := r.1.numReadStarts, numReadEnds := r.1.numReadEnds, numInsEvents := r.1.numInsEvents)
    ensures r.0 == Ok <==> LookupInt(d, "#heads").Found? && LookupInt(d, "#tails").Found? && LookupInt(d, "#ins").Found?
  {
    match LookupInt(d, "#heads")
    case Failed(e) => (Fail(e), c)
    case Found(heads) =>
      var c1 := c.(numReadStarts := heads);
      match LookupInt(d, "#tails")
      case Failed(e) => (Fail(e), c1)
      case Found(tails) =>
        var c2 := c1.(numReadEnds := tails);
        match LookupInt(d, "#ins")
        case Failed(e) => (Fail(e), c2)
        case Found(ins) => (Ok, c2.(numInsEvents := ins))
  }

  /** `ins_len`, `#del` and `del_len`, in that order. */
  function ReadIndelLengths(c: Column, d: map<string, string>): (r: (Outcome, Column))
    ensures r.1 == c.(avgInsLen := r.1.avgInsLen, numDelEvents := r.1.numDelEvents, avgDelLen := r.1.avgDelLen)
    ensures r.0 == Ok <==> "ins_len" in d && LookupInt(d, "#del").Found? && "del_len" in d
  {
    if "ins_len" !in d then (Fail(MissingKey("ins_len")), c)
    else
      var c1 := c.(avgInsLen := AvgText(d["ins_len"]));
      match LookupInt(d, "#del")
      case Failed(e) => (Fail(e), c1)
      case Found(del) =>
        var c2 := c1.(numDelEvents := del);
        if "del_len" !in d then (Fail(MissingKey("del_len")), c2)
        else (Ok, c2.(avgDelLen := AvgText(d["del_len"])))
  }

  /** What the decoder does with the field numbered `k`; fields past the sixth are ignored. */
  ghost function LoFreqField(c: Column, k: nat, v: string): (r: (Outcome, Column))
    requires c.evidence.Keys == TenKeys
    ensures r.1.evidence.Keys == TenKeys
  {
    if k == 0 then (Ok, c.(chrom := Some(v)))
    else if k == 1 then
      var n := ParseInt(v);
      if n.None? then (Fail(NotAnInteger(v)), c) else (Ok, c.(coord := Some(n.value - 1)))
    else if k == 2 then (Ok, c.(refBase := Some(Upper(v))))
    else if k == 3 then
      var n := ParseInt(v);
      if n.None? then (Fail(NotAnInteger(v)), c) else (Ok, c.(coverage := Some(n.value)))
    else if k == 4 then PairField(c, v)
    else if k == 5 then SummaryField(c, v)
    else (Ok, c)
  }

  /** The fields from number `k` on, in order, stopping at the first failure. */
  ghost function LoFreqFields(c: Column, fields: seq<string>, k: nat): (r: (Outcome, Column))
    requires c.evidence.Keys == TenKeys && k <= |fields|
    ensures r.1.evidence.Keys == TenKeys
    decreases |fields| - k
  {
    if k == |fields| then (Ok, c)
    else
      var (o, c1) := LoFreqField(c, k, fields[k]);
      if o.Fail? then (o, c1) else LoFreqFields(c1, fields, k + 1)
  }

  /**
   * `LoFreqPileupColumn.parse_line`: trailing whitespace stripped, an empty
   * line refused, the tab-separated fields decoded in order, then the
   * consensus voted (falling back to the reference base, which may be unset).
   */
  ghost function LoFreqParse(c: Column, line: string, weight: int -> real): (r: (Outcome, Column))
    requires c.evidence.Keys == TenKeys
    ensures r.1.evidence.Keys == TenKeys
  {
    var t := RStrip(line);
    if t == [] then (Fail(EmptyLine), c)
    else
      var (o, c1) := LoFreqFields(c, Split(t, TAB), 0);
      if o.Fail? then (o, c1)
      else (Ok, c1.(consBase := ConsOrRef(Consensus(c1.evidence, weight), c1.refBase)))
  }

  /* `LoFreqField` case by case. */

  lemma FieldIsPairs(c: Column, v: string, r: (Outcome, Column))
    requires c.evidence.Keys == TenKeys && r == PairField(c, v)
    ensures r == LoFreqField(c, 4, v)
  {
  }

  lemma FieldIsSummary(c: Column, v: string, r: (Outcome, Column))
    requires c.evidence.Keys == TenKeys && r == SummaryField(c, v)
    ensures r == LoFreqField(c, 5, v)
  {
  }

  /** One field decoded into `r`: a failure ends the fields there, success goes on to the next one. */
  lemma LoFreqFieldsStep(c: Column, fields: seq<string>, k: nat, r: (Outcome, Column))
    requires c.evidence.Keys == TenKeys && k < |fields|
    requires r == LoFreqField(c, k, fields[k])
    ensures r.0.Fail? ==> r == LoFreqFields(c, fields, k)
    ensures r.0.Ok? ==> LoFreqFields(r.1, fields, k + 1) == LoFreqFields(c, fields, k)
  {
  }

  /* The ways `LoFreqParse` can end. */

  lemma LoFreqEmpty(c: Column, line: string, weight: int -> real, r: (Outcome, Column))
    requires c.evidence.Keys == TenKeys && RStrip(line) == []
    requires r == (Fail(EmptyLine), c)
    ensures r == LoFreqParse(c, line, weight)
  {
  }

  lemma LoFreqFailed(c: Column, line: string, weight: int -> real, r: (Outcome, Column))
    requires c.evidence.Keys == TenKeys && RStrip(line) != []
    requires r == LoFreqFields(c, Split(RStrip(line), TAB), 0) && r.0.Fail?
    ensures r == LoFreqParse(c, line, weight)
  {
  }

  lemma LoFreqDone(c: Column, line: string, weight: int -> real, mid: Column, c': Column)
    requires c.evidence.Keys == TenKeys && RStrip(line) != []
    requires (Ok, mid) == LoFreqFields(c, Split(RStrip(line), TAB), 0)
    requires c' == mid.(consBase := ConsOrRef(Consensus(mid.evidence, weight), mid.refBase))
    ensures (Ok, c') == LoFreqParse(c, line, weight)
  {
  }

  /** The score of one histogram, summed quality by quality in any order. */
  method ScoreHist(h: Hist, weight: int -> real) returns (sum: real)
    ensures sum == Score(h, weight)
  {
    sum := 0.0;
    var todo := h.Keys;
    while todo != {}
      invariant todo <= h.Keys
      invariant sum + ScoreOver(h, todo, weight) == Score(h, weight)
      decreases todo
    {
      NonEmpty(todo);
      var q :| q in todo;
      ScoreOverSplit(h, todo, weight, q);
      ScoreTermIn(h, q, weight);
      if q > 2 {
        sum := sum + h[q] as real * weight(q);
      }
      todo := todo - {q};
    }
  }

  /** `sum(hist.values())`: the calls in one histogram. */
  method CountHist(h: Hist) returns (sum: nat)
    ensures sum == Total(h)
  {
    sum := 0;
    var todo := h.Keys;
    while todo != {}
      invariant todo <= h.Keys
      invariant sum + SumWhere(h, todo, AnyQual()) == Total(h)
      decreases todo
    {
      NonEmpty(todo);
      var q :| q in todo;
      SumWhereSplit(h, todo, AnyQual(), q);
      sum := sum + h[q];
      todo := todo - {q};
    }
  }

  /* ---------- the object ---------- */

  class PileupColumn {
    var chrom: Option<string>
    var coord: Option<int>
    var refBase: Option<string>
    var consBase: Option<string>
    var coverage: Option<int>
    /** `_bases_and_quals`: one quality histogram per base letter and strand. */
    var basesAndQuals: Evidence
    var numInsEvents: int
    var avgInsLen: Avg
    var numDelEvents: int
    var avgDelLen: Avg
    var numReadStarts: int
    var numReadEnds: int

    /** The store always has exactly the ten base letters as keys. */
    predicate Valid()
      reads this
    {
      basesAndQuals.Keys == TenKeys
    }

    function Snapshot(): Column
      reads this
    {
      Column(chrom, coord, refBase, consBase, coverage, basesAndQuals,
             numInsEvents, avgInsLen, numDelEvents, avgDelLen, numReadStarts, numReadEnds)
    }

    /** `__init__` without a line: nothing known, every histogram empty, every counter zero. */
    constructor ()
      ensures Valid() && Snapshot() == Initial
    {
      chrom, coord, refBase, consBase, coverage := None, None, None, None, None;
      basesAndQuals := EmptyEvidence;
      numInsEvents, avgInsLen, numDelEvents, avgDelLen := 0, AvgZero, 0, AvgZero;
      numReadStarts, numReadEnds := 0, 0;
    }

    /** `rem_startend_markup`: counts and deletes `$` and `^x` markup. */
    method RemStartEndMarkup(bases: string) returns (r: string)
      modifies this`numReadEnds, this`numReadStarts
      ensures r == StripStartEnd(bases).bases
      ensures Snapshot() == old(Snapshot()).(numReadEnds := StripStartEnd(bases).ends, numReadStarts := StripStartEnd(bases).starts)
    {
      var orgLen := |bases|;
      r := Remove(bases, '$');
      numReadEnds := orgLen - |r|;
      orgLen := |r|;
      r := StripStarts(r);
      numReadStarts := (orgLen - |r|) / 2;
    }

    /**
     * `rem_indel_markup`: deletes indel markup, counting insertions, then
     * counts and deletes `*` placeholders together with their qualities.
     */
    method RemIndelMarkup(bases: string, quals: seq<int>) returns (r: string, kept: seq<int>)
      modifies this`numInsEvents, this`numDelEvents
      ensures r == Remove(StripIndels(bases).0, '*') && kept == KeptQuals(StripIndels(bases).0, quals)
      ensures Snapshot() == old(Snapshot()).(numInsEvents := old(numInsEvents) + StripIndels(bases).1,
                                             numDelEvents := Count(StripIndels(bases).0, '*'))
    {
      var s := CutIndels(bases);
      numDelEvents := Count(s, '*');
      kept := KeptQuals(s, quals);
      r := Remove(s, '*');
    }

    /** The indel loop of `rem_indel_markup`: one leftmost match deleted at a time, insertions counted. */
    method CutIndels(bases: string) returns (s: string)
      modifies this`numInsEvents
      ensures s == StripIndels(bases).0
      ensures numInsEvents == old(numInsEvents) + StripIndels(bases).1
    {
      s := bases;
      while true
        invariant StripIndels(s).0 == StripIndels(bases).0
        invariant numInsEvents + StripIndels(s).1 == old(numInsEvents) + StripIndels(bases).1
        decreases |s|
      {
        var m := FindIndel(s, 0);
        if m.None? {
          return;
        }
        var i := m.value;
        var e := DigitsEnd(s, i + 1);
        var num := DigitsValue(s[i + 1..e]);
        var left := s[..i];
        var right := if e + num <= |s| then s[e + num..] else [];
        assert left + right == CutIndel(s, i);
        StripIndelsStep(s, i, left + right);
        if s[i] == '+' {
          numInsEvents := numInsEvents + 1;
        }
        s := left + right;
      }
    }

    /** The histogram loop: every valid base call recorded with its quality. */
    method RecordBases(bases: string, quals: seq<int>)
      requires Valid() && |bases| == |quals|
      modifies this`basesAndQuals
      ensures Valid()
      ensures basesAndQuals == Fill(old(basesAndQuals), bases, quals)
    {
      var i := 0;
      while i < |bases|
        invariant 0 <= i <= |bases| && Valid()
        invariant Fill(basesAndQuals, bases[i..], quals[i..]) == Fill(old(basesAndQuals), bases, quals)
      {
        var b := bases[i];
        ValidLetter(b);
        assert bases[i..][1..] == bases[i + 1..] && quals[i..][1..] == quals[i + 1..];
        if UpperChar(b) in ValidBases {
          var q := quals[i];
          basesAndQuals := basesAndQuals[b := Bump(basesAndQuals[b], q)];
        }
        i := i + 1;
      }
    }

    /**
     * `determine_cons`: each of A, C, G, T scores the weights of its calls
     * above quality 2, both strands together; the vote over the scores.
     */
    method DetermineCons(weight: int -> real) returns (cons: char)
      requires Valid()
      ensures cons == Consensus(basesAndQuals, weight)
    {
      var hists := Collapse(basesAndQuals);
      var probsum: seq<real> := [];
      for k := 0 to |VoteBases|
        invariant |probsum| == k
        invariant forall j :: 0 <= j < k ==> probsum[j] == Score(hists[VoteBases[j]], weight)
      {
        var sum := ScoreHist(hists[VoteBases[k]], weight);
        probsum := probsum + [sum];
      }
      assert probsum == Scores(hists, weight);
      cons := Pick(probsum);
    }

    /** `parse_line` of the generic decoder. */
    method ParseLine(line: string, weight: int -> real) returns (outcome: Outcome)
      requires Valid()
      modifies this
      ensures Valid()
      ensures (outcome, Snapshot()) == GenericParse(old(Snapshot()), line, weight)
    {
      ghost var c0 := Snapshot();
      if coord.Some? {
        ParseRefused(c0, line, weight, (Fail(AlreadyParsed), Snapshot()));
        return Fail(AlreadyParsed);
      }
      var f := Split(line, TAB);
      if |f| != 6 {
        ParseWrongCount(c0, line, weight, (Fail(WrongFieldCount(|f|)), Snapshot()));
        return Fail(WrongFieldCount(|f|));
      }
      outcome := ParseFields(f, weight);
      ParseFieldsStep(c0, line, weight, (outcome, Snapshot()));
    }

    /** The six fields of a generic line, decoded in order. */
    method ParseFields(f: seq<string>, weight: int -> real) returns (outcome: Outcome)
      requires Valid() && |f| == 6
      modifies this
      ensures Valid()
      ensures (outcome, Snapshot()) == GenericFields(old(Snapshot()), f, weight)
    {
      ghost var c0 := Snapshot();
      outcome := ParseLocus(f);
      if outcome.Fail? {
        FieldsBadLocus(c0, f, weight, (outcome, Snapshot()));
        return;
      }
      ghost var mid := Snapshot();
      outcome := ParseCalls(f[4], f[5], Upper(f[2]), weight);
      FieldsStep(c0, f, weight, mid, (outcome, Snapshot()));
    }

    /** The first four fields of a generic line, stored one by one. */
    method ParseLocus(f: seq<string>) returns (outcome: Outcome)
      requires |f| == 6
      modifies this`chrom, this`coord, this`refBase, this`coverage
      ensures (outcome, Snapshot()) == Locus(old(Snapshot()), f)
    {
      chrom := Some(f[0]);
      var n := ParseInt(f[1]);
      if n.None? {
        return Fail(NotAnInteger(f[1]));
      }
      coord := Some(n.value - 1);
      refBase := Some(Upper(f[2]));
      var cov := ParseInt(f[3]);
      if cov.None? {
        return Fail(NotAnInteger(f[3]));
      }
      coverage := Some(cov.value);
      return Ok;
    }

    /** The base and quality fields of a generic line. */
    method ParseCalls(bases: string, qualText: string, ref: string, weight: int -> real) returns (outcome: Outcome)
      requires Valid()
      modifies this
      ensures Valid()
      ensures (outcome, Snapshot()) == GenericCalls(old(Snapshot()), bases, qualText, ref, weight)
    {
      ghost var c0 := Snapshot();
      var cl := CleanCalls(bases, qualText, ref);
      ghost var mid := Snapshot();
      outcome := TallyCalls(cl.bases, cl.quals, ref, weight);
      CallsStep(c0, bases, qualText, ref, weight, cl, mid, (outcome, Snapshot()));
    }

    /** The cleaning steps of `parse_line`, with the four markup counters they set. */
    method CleanCalls(bases: string, qualText: string, ref: string) returns (cl: Cleaned)
      modifies this`numReadEnds, this`numReadStarts, this`numInsEvents, this`numDelEvents
      ensures cl == Clean(bases, DecodeQuals(qualText), ref)
      ensures Snapshot() == Marked(old(Snapshot()), cl)
    {
      var quals := DecodeQuals(qualText);
      var e := ExpandMatches(bases, ref);
      ghost var c0 := Snapshot();
      var s := RemStartEndMarkup(e);
      ghost var c1 := Snapshot();
      var s2, kept := RemIndelMarkup(s, quals);
      cl := Cleaned(s2, kept, StripStartEnd(e).ends, StripStartEnd(e).starts, StripIndels(s).1, Count(StripIndels(s).0, '*'));
      CleanStep(bases, quals, ref, e, s, cl);
      MarkedSteps(c0, c1, Snapshot(), cl);
    }

    /** The rest of `parse_line`: the length check, the histogram loop and the vote. */
    method TallyCalls(s: string, quals: seq<int>, ref: string, weight: int -> real) returns (outcome: Outcome)
      requires Valid()
      modifies this`basesAndQuals, this`consBase
      ensures Valid()
      ensures (outcome, Snapshot()) == Tally(old(Snapshot()), s, quals, ref, weight)
    {
      if |s| != |quals| {
        return Fail(QualityCountMismatch);
      }
      ghost var c0 := Snapshot();
      RecordBases(s, quals);
      ghost var mid := Snapshot();
      Vote(ref, weight);
      TallyStep(c0, s, quals, ref, weight, mid, Snapshot());
      return Ok;
    }

    /** `cons_base`: the vote over the store, the reference base when it is `-` or `N`. */
    method Vote(ref: string, weight: int -> real)
      requires Valid()
      modifies this`consBase
      ensures consBase == ConsOrRef(Consensus(basesAndQuals, weight), Some(ref))
    {
      var cons := DetermineCons(weight);
      consBase := ConsOrRef(cons, Some(ref));
    }

    /** The pair loop of field 4, recording into the store in place. */
    method RecordPairsInPlace(v: string) returns (outcome: Outcome)
      requires Valid()
      modifies this`basesAndQuals
      ensures Valid()
      ensures (outcome, basesAndQuals) == RecordPairs(old(basesAndQuals), v, 0)
    {
      var p := 0;
      while p < |v|
        invariant 0 <= p <= |v| && Valid()
        invariant RecordPairs(basesAndQuals, v, p) == RecordPairs(old(basesAndQuals), v, 0)
        decreases |v| - p
      {
        if p + 2 > |v| {
          return Fail(OddPairField);
        }
        var b, q := v[p], v[p + 1] as int - 33;
        if b !in basesAndQuals {
          return Fail(UnknownBase(b));
        }
        basesAndQuals := basesAndQuals[b := Bump(basesAndQuals[b], q)];
        p := p + 2;
      }
      return Ok;
    }

    /** `num_bq`: all calls in the store, summed histogram by histogram. */
    method CountCalls() returns (total: nat)
      requires Valid()
      ensures total == EvidenceTotal(basesAndQuals)
    {
      total := 0;
      var keys := basesAndQuals.Keys;
      while keys != {}
        invariant keys <= basesAndQuals.Keys
        invariant total + TotalOver(basesAndQuals, keys) == EvidenceTotal(basesAndQuals)
        decreases keys
      {
        var b :| b in keys;
        TotalOverSplit(basesAndQuals, keys, b);
        var sum := CountHist(basesAndQuals[b]);
        total := total + sum;
        keys := keys - {b};
      }
    }

    /** Field 4 with its coverage check. */
    method ParsePairField(v: string) returns (outcome: Outcome)
      requires Valid()
      modifies this`basesAndQuals
      ensures Valid()
      ensures (outcome, Snapshot()) == PairField(old(Snapshot()), v)
    {
      outcome := RecordPairsInPlace(v);
      if outcome.Fail? {
        return;
      }
      var numBq := CountCalls();
      if coverage.None? || coverage.value < numBq {
        outcome := Fail(CoverageExceeded);
      }
    }

    /** Field 5, the indel summary. */
    method ParseSummaryField(v: string) returns (outcome: Outcome)
      modifies this`numReadStarts, this`numReadEnds, this`numInsEvents, this`avgInsLen, this`numDelEvents, this`avgDelLen
      ensures (outcome, Snapshot()) == SummaryField(old(Snapshot()), v)
    {
      var d := SummaryDict(Split(v, ' '));
      if d.None? {
        return Fail(MalformedSummary);
      }
      outcome := StoreEventCounts(d.value);
      if outcome.Fail? {
        return;
      }
      outcome := StoreIndelLengths(d.value);
    }

    method StoreEventCounts(fields: map<string, string>) returns (outcome: Outcome)
      modifies this`numReadStarts, this`numReadEnds, this`numInsEvents
      ensures (outcome, Snapshot()) == ReadEventCounts(old(Snapshot()), fields)
    {
      var heads := LookupInt(fields, "#heads");
      if heads.Failed? {
        return Fail(heads.error);
      }
      numReadStarts := heads.value;
      var tails := LookupInt(fields, "#tails");
      if tails.Failed? {
        return Fail(tails.error);
      }
      numReadEnds := tails.value;
      var ins := LookupInt(fields, "#ins");
      if ins.Failed? {
        return Fail(ins.error);
      }
      numInsEvents := ins.value;
      return Ok;
    }

    method StoreIndelLengths(fields: map<string, string>) returns (outcome: Outcome)
      modifies this`avgInsLen, this`numDelEvents, this`avgDelLen
      ensures (outcome, Snapshot()) == ReadIndelLengths(old(Snapshot()), fields)
    {
      if "ins_len" !in fields {
        return Fail(MissingKey("ins_len"));
      }
      avgInsLen := AvgText(fields["ins_len"]);
      var del := LookupInt(fields, "#del");
      if del.Failed? {
        return Fail(del.error);
      }
      numDelEvents := del.value;
      if "del_len" !in fields {
        return Fail(MissingKey("del_len"));
      }
      avgDelLen := AvgText(fields["del_len"]);
      return Ok;
    }

    /** One field of a lofreq_samtools line. */
    method ParseLoFreqField(k: nat, v: string) returns (outcome: Outcome)
      requires Valid()
      modifies this
      ensures Valid()
      ensures (outcome, Snapshot()) == LoFreqField(old(Snapshot()), k, v)
    {
      ghost var c0 := Snapshot();
      if k == 4 {
        outcome := ParsePairField(v);
        FieldIsPairs(c0, v, (outcome, Snapshot()));
      } else if k == 5 {
        outcome := ParseSummaryField(v);
        FieldIsSummary(c0, v, (outcome, Snapshot()));
      } else {
        outcome := ParseLocusField(k, v);
      }
    }

    /** Fields 0 to 3 (and those past the sixth, which are ignored): position, reference and coverage. */
    method ParseLocusField(k: nat, v: string) returns (outcome: Outcome)
      requires Valid() && k != 4 && k != 5
      modifies this`chrom, this`coord, this`refBase, this`coverage
      ensures (outcome, Snapshot()) == LoFreqField(old(Snapshot()), k, v)
    {
      outcome := Ok;
      if k == 0 {
        chrom := Some(v);
      } else if k == 1 {
        var n := ParseInt(v);
        if n.None? {
          return Fail(NotAnInteger(v));
        }
        coord := Some(n.value - 1);
      } else if k == 2 {
        refBase := Some(Upper(v));
      } else if k == 3 {
        var n := ParseInt(v);
        if n.None? {
          return Fail(NotAnInteger(v));
        }
        coverage := Some(n.value);
      }
    }

    /** `LoFreqPileupColumn.parse_line`. */
    method ParseLoFreqLine(line: string, weight: int -> real) returns (outcome: Outcome)
      requires Valid()
      modifies this
      ensures Valid()
      ensures (outcome, Snapshot()) == LoFreqParse(old(Snapshot()), line, weight)
    {
      ghost var c0 := Snapshot();
      var t := RStrip(line);
      if |t| == 0 {
        LoFreqEmpty(c0, line, weight, (Fail(EmptyLine), Snapshot()));
        return Fail(EmptyLine);
      }
      var fields := Tokenize(t, TAB);
      outcome := ParseLoFreqFields(fields);
      if outcome.Fail? {
        LoFreqFailed(c0, line, weight, (outcome, Snapshot()));
        return;
      }
      ghost var mid := Snapshot();
      var cons := DetermineCons(weight);
      consBase := ConsOrRef(cons, refBase);
      LoFreqDone(c0, line, weight, mid, Snapshot());
    }

    /** The field loop of `parse_line`: every field in order, up to the first failure. */
    method ParseLoFreqFields(fields: seq<string>) returns (outcome: Outcome)
      requires Valid()
      modifies this
      ensures Valid()
      ensures (outcome, Snapshot()) == LoFreqFields(old(Snapshot()), fields, 0)
    {
      outcome := Ok;
      var k := 0;
      while k < |fields|
        invariant 0 <= k <= |fields| && Valid()
        invariant LoFreqFields(Snapshot(), fields, k) == LoFreqFields(old(Snapshot()), fields, 0)
        invariant outcome == Ok
      {
        ghost var before := Snapshot();
        outcome := ParseLoFreqField(k, fields[k]);
        LoFreqFieldsStep(before, fields, k, (outcome, Snapshot()));
        if outcome.Fail? {
          return;
        }
        k := k + 1;
      }
    }
  }
}
