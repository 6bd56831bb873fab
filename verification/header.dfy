/**
 * The header helpers of the module: the reference sequence names and
 * lengths a SAM header declares on its `@SQ` lines, the total length of
 * a set of chromosomes, and the Bonferroni factors (three tests per
 * position) derived from a length or from a count of covered columns.
 *
 * The header lines, the excluded positions and the BED ranges are given as
 * values: reading them from samtools, a file or a BED file is not part of
 * this model.
 */
module Header {
  import opened Text

  /* ---------- sequence names ---------- */

  /**
   * The name an `@SQ` line declares in its second whitespace-separated word
   * `SN:name`; lines with fewer than two words, another tag or another
   * second word declare none.
   */
  function SqName(line: string): (r: Option<string>)
    ensures r.Some? <==> |Words(line)| >= 2 && Words(line)[0] == "@SQ" && StartsWith(Words(line)[1], "SN:")
    ensures r.Some? ==> Words(line)[1] == "SN:" + r.value
  {
    var w := Words(line);
    if |w| < 2 || w[0] != "@SQ" || !StartsWith(w[1], "SN:") then None
    else
      assert w[1] == w[1][..3] + w[1][3..];
      Some(w[1][3..])
  }

  /** The names declared by the header lines, in header order. */
  function SqNames(header: seq<string>): (names: seq<string>)
    ensures |names| <= |header|
    decreases |header|
  {
    if header == [] then []
    else
      var front := SqNames(header[..|header| - 1]);
      match SqName(header[|header| - 1])
      case None => front
      case Some(n) => front + [n]
  }

  /**
   * Every listed name is declared by some header line, and every declared
   * name is listed.
   */
  lemma {:induction false} SqNamesExact(header: seq<string>)
    ensures forall n :: n in SqNames(header) <==> exists i :: 0 <= i < |header| && SqName(header[i]) == Some(n)
    decreases |header|
  {
    if header != [] {
      var front := header[..|header| - 1];
      SqNamesExact(front);
      assert forall i :: 0 <= i < |front| ==> front[i] == header[i];
      forall n | exists i :: 0 <= i < |header| && SqName(header[i]) == Some(n)
        ensures n in SqNames(header)
      {
        var i :| 0 <= i < |header| && SqName(header[i]) == Some(n);
        if i < |front| {
          assert SqName(front[i]) == Some(n);
        }
      }
    }
  }

  /** The names of two runs of header lines are the names of the first, then those of the second. */
  lemma {:induction false} SqNamesAppend(a: seq<string>, b: seq<string>)
    ensures SqNames(a + b) == SqNames(a) + SqNames(b)
    decreases |b|
  {
    if b == [] {
      assert a + b == a;
    } else {
      var b' := b[..|b| - 1];
      assert (a + b)[..|a + b| - 1] == a + b';
      assert (a + b)[|a + b| - 1] == b[|b| - 1];
      SqNamesAppend(a, b');
    }
  }

  /** `sq_list_from_header`: the declared names collected line by line. */
  method SqListFromHeader(header: seq<string>) returns (sqList: seq<string>)
    ensures sqList == SqNames(header)
  {
    sqList := [];
    for i := 0 to |header|
      invariant sqList == SqNames(header[..i])
    {
      assert header[..i + 1][..i] == header[..i];
      var w := Words(header[i]);
      if |w| < 2 || w[0] != "@SQ" {
        continue;
      }
      if StartsWith(w[1], "SN:") {
        sqList := sqList + [w[1][3..]];
      }
    }
    assert header[..|header|] == header;
  }

  /* ---------- sequence lengths ---------- */

  /** The text after `LN:` in the first of the fields from number `k` on that starts with it. */
  function LnField(fields: seq<string>, k: nat): (r: Option<string>)
    ensures r.Some? <==> exists j :: k <= j < |fields| && StartsWith(fields[j], "LN:")
    ensures r.Some? ==> exists j :: k <= j < |fields| && StartsWith(fields[j], "LN:") && r.value == fields[j][3..]
                                   && (forall i :: k <= i < j ==> !StartsWith(fields[i], "LN:"))
    decreases |fields| - k
  {
    if k >= |fields| then None
    else if StartsWith(fields[k], "LN:") then Some(fields[k][3..])
    else LnField(fields, k + 1)
  }

  /**
   * The length text an `@SQ` line gives for `sq`, reading its tab-separated
   * fields: the second must be `SN:sq`, and the first later field `LN:x`
   * gives `x`.
   */
  function LineLength(line: string, sq: string): Option<string>
  {
    var f := Split(line, TAB);
    if f[0] != "@SQ" || |f| < 2 || !StartsWith(f[1], "SN:") || f[1][3..] != sq then None
    else LnField(f, 2)
  }

  /** What `len_for_sq` returns: a length, `None`, or the `ValueError` of a length that is not an integer. */
  datatype SqLength = Length(n: int) | NoLength | BadLength(text: string)

  /** `int(text)` as `len_for_sq` applies it. */
  function Decode(text: string): (r: SqLength)
    ensures r != NoLength
  {
    match ParseInt(text)
    case Some(n) => Length(n)
    case None => BadLength(text)
  }

  /** The length given by the first line from number `i` on that names `sq` and has a length field. */
  function FirstLength(header: seq<string>, sq: string, i: nat): SqLength
    requires i <= |header|
    decreases |header| - i
  {
    if i == |header| then NoLength
    else match LineLength(header[i], sq)
      case Some(t) => Decode(t)
      case None => FirstLength(header, sq, i + 1)
  }

  /** `len_for_sq`: the length given by the first line that names `sq` and has a length field. */
  function LenForSq(header: seq<string>, sq: string): SqLength
  {
    FirstLength(header, sq, 0)
  }

  /** The search from line `i` finds nothing exactly when no line from there on gives a length for `sq`. */
  lemma {:induction false} FirstLengthNone(header: seq<string>, sq: string, i: nat)
    requires i <= |header|
    ensures FirstLength(header, sq, i) == NoLength <==> forall j :: i <= j < |header| ==> LineLength(header[j], sq).None?
    decreases |header| - i
  {
    if i < |header| && LineLength(header[i], sq).None? {
      FirstLengthNone(header, sq, i + 1);
    }
  }

  /** A search from line `i` that finds a length finds the decoded length of the first line that gives one. */
  lemma {:induction false} FirstLengthFound(header: seq<string>, sq: string, i: nat)
    requires i <= |header| && FirstLength(header, sq, i) != NoLength
    ensures exists j :: (i <= j < |header| && LineLength(header[j], sq).Some?
      && (forall k :: i <= k < j ==> LineLength(header[k], sq).None?)
      && FirstLength(header, sq, i) == Decode(LineLength(header[j], sq).value))
    decreases |header| - i
  {
    if LineLength(header[i], sq).Some? {
      assert FirstLength(header, sq, i) == Decode(LineLength(header[i], sq).value);
    } else {
      FirstLengthFound(header, sq, i + 1);
      var j :| i + 1 <= j < |header| && LineLength(header[j], sq).Some?
        && (forall k :: i + 1 <= k < j ==> LineLength(header[k], sq).None?)
        && FirstLength(header, sq, i + 1) == Decode(LineLength(header[j], sq).value);
      assert forall k :: i <= k < j ==> LineLength(header[k], sq).None?;
    }
  }

  /**
   * `len_for_sq` finds nothing exactly when no line gives a length for `sq`;
   * otherwise its result is the decoded length of the first line that does.
   */
  lemma LenForSqFirst(header: seq<string>, sq: string)
    ensures LenForSq(header, sq) == NoLength <==> forall i :: 0 <= i < |header| ==> LineLength(header[i], sq).None?
    ensures LenForSq(header, sq) != NoLength ==>
      exists i :: 0 <= i < |header| && LineLength(header[i], sq).Some?
        && (forall j :: 0 <= j < i ==> LineLength(header[j], sq).None?)
        && LenForSq(header, sq) == Decode(LineLength(header[i], sq).value)
  {
    FirstLengthNone(header, sq, 0);
    if LenForSq(header, sq) != NoLength {
      FirstLengthFound(header, sq, 0);
    }
  }

  /* ---------- header lines as samtools writes them ---------- */

  /** The header line `@SQ<TAB>SN:name<TAB>LN:len`. */
  function SqLine(name: string, len: nat): string
  {
    Join(["@SQ", "SN:" + name, "LN:" + ShowNat(len)], TAB)
  }

  lemma DecimalWord(d: string)
    requires IsDecimal(d)
    ensures Word(d) && TAB !in d
  {
    forall k | 0 <= k < |d|
      ensures !IsSpace(d[k]) && d[k] != TAB
    {
      assert IsDigit(d[k]);
    }
  }

  /** A tag followed by a word is a word without tabs that starts with the tag and continues with the word. */
  lemma Tagged(tag: string, w: string)
    requires Word(tag) && TAB !in tag && Word(w) && TAB !in w
    ensures Word(tag + w) && TAB !in tag + w
    ensures StartsWith(tag + w, tag) && (tag + w)[|tag|..] == w
  {
    var t := tag + w;
    assert forall k :: 0 <= k < |tag| ==> t[k] == tag[k];
    assert forall k :: |tag| <= k < |t| ==> t[k] == w[k - |tag|];
    assert t[..|tag|] == tag;
  }

  /** Three tab-free words joined by tabs read back as those words, split either way. */
  lemma ThreeFields(a: string, b: string, c: string)
    requires Word(a) && TAB !in a && Word(b) && TAB !in b && Word(c) && TAB !in c
    ensures Words(Join([a, b, c], TAB)) == [a, b, c] && Split(Join([a, b, c], TAB), TAB) == [a, b, c]
  {
    WordsJoin([a, b, c], TAB);
    SplitJoin([a, b, c], TAB);
  }

  /** The tags of an `@SQ` line are tab-free words. */
  lemma SqTags()
    ensures Word("@SQ") && TAB !in "@SQ" && Word("SN:") && TAB !in "SN:" && Word("LN:") && TAB !in "LN:"
  {
    assert "@SQ" == ['@', 'S', 'Q'] && "SN:" == ['S', 'N', ':'] && "LN:" == ['L', 'N', ':'];
  }

  /** The three fields of a samtools `@SQ` line, split either way, come back as they were joined. */
  lemma SqLineFields(name: string, len: nat)
    requires Word(name)
    ensures var parts := ["@SQ", "SN:" + name, "LN:" + ShowNat(len)];
      Words(SqLine(name, len)) == parts && Split(SqLine(name, len), TAB) == parts
    ensures ("SN:" + name)[3..] == name && ("LN:" + ShowNat(len))[3..] == ShowNat(len)
    ensures StartsWith("SN:" + name, "SN:") && StartsWith("LN:" + ShowNat(len), "LN:")
  {
    var d := ShowNat(len);
    DecimalWord(d);
    assert TAB !in name by {
      forall k | 0 <= k < |name| ensures name[k] != TAB { assert !IsSpace(name[k]); }
    }
    SqTags();
    Tagged("SN:", name);
    Tagged("LN:", d);
    ThreeFields("@SQ", "SN:" + name, "LN:" + d);
  }

  /** The word reader finds the name of a samtools `@SQ` line whose name has no whitespace. */
  lemma SqLineName(name: string, len: nat)
    requires Word(name)
    ensures SqName(SqLine(name, len)) == Some(name)
  {
    SqLineFields(name, len);
  }

  /**
   * The field reader agrees with the word reader on such a line: it gives
   * the line's length for its name and for no other, and the length text
   * decodes to the length written.
   */
  lemma SqLineLength(name: string, len: nat, sq: string)
    requires Word(name)
    ensures LineLength(SqLine(name, len), sq) == if sq == name then Some(ShowNat(len)) else None
    ensures Decode(ShowNat(len)) == Length(len)
  {
    SqLineFields(name, len);
    var parts := ["@SQ", "SN:" + name, "LN:" + ShowNat(len)];
    assert LnField(parts, 2) == Some(ShowNat(len));
    ParseIntShow(len);
  }

  /** A header line with another tag declares no name and gives no length. */
  lemma OtherLineRead(tag: string, rest: seq<string>)
    requires Word(tag) && TAB !in tag && tag != "@SQ"
    requires forall i :: 0 <= i < |rest| ==> Word(rest[i]) && TAB !in rest[i]
    ensures SqName(Join([tag] + rest, TAB)).None?
    ensures forall sq :: LineLength(Join([tag] + rest, TAB), sq).None?
  {
    var parts := [tag] + rest;
    WordsJoin(parts, TAB);
    SplitJoin(parts, TAB);
  }

  /* ---------- total lengths ---------- */

  datatype HeaderError =
    | UnknownChrom(chrom: string)
    | NoLengthFor(chrom: string)
    | BadLengthText(text: string)
    | EmptyRange(start: int, end: int)
    | ConflictingOptions

  /** An integer result, or the exception that stopped the computation. */
  datatype Outcome = Value(n: int) | Refused(error: HeaderError)

  /** `n` added to a result (an exception stays an exception). */
  function Plus(n: int, o: Outcome): (r: Outcome)
    ensures r.Refused? <==> o.Refused?
    ensures r.Value? ==> r.n == n + o.n
  {
    match o
    case Value(m) => Value(n + m)
    case Refused(e) => o
  }

  /**
   * The summing loop of `sum_chrom_len` from chromosome number `i` on: each
   * chromosome must be one of `sq` and must have a length in the header;
   * the lengths are added up in order.
   */
  function ChromLenSum(header: seq<string>, sq: seq<string>, chroms: seq<string>, i: nat): Outcome
    requires i <= |chroms|
    decreases |chroms| - i
  {
    if i == |chroms| then Value(0)
    else if chroms[i] !in sq then Refused(UnknownChrom(chroms[i]))
    else match LenForSq(header, chroms[i])
      case NoLength => Refused(NoLengthFor(chroms[i]))
      case BadLength(t) => Refused(BadLengthText(t))
      case Length(n) => Plus(n, ChromLenSum(header, sq, chroms, i + 1))
  }

  /** Every chromosome from number `i` on is listed and has a length. */
  predicate AllKnown(header: seq<string>, sq: seq<string>, chroms: seq<string>, i: nat)
  {
    forall j :: i <= j < |chroms| ==> chroms[j] in sq && LenForSq(header, chroms[j]).Length?
  }

  /** The lengths of the chromosomes from number `i` on, assuming each has one. */
  function LengthTotal(header: seq<string>, chroms: seq<string>, i: nat): int
    requires i <= |chroms|
    decreases |chroms| - i
  {
    if i == |chroms| then 0
    else (match LenForSq(header, chroms[i]) case Length(n) => n case _ => 0) + LengthTotal(header, chroms, i + 1)
  }

  /**
   * The sum succeeds exactly when every chromosome from number `i` on is
   * listed and has a length, and is then the total of those lengths.
   */
  lemma {:induction false} ChromLenSumMeaning(header: seq<string>, sq: seq<string>, chroms: seq<string>, i: nat)
    requires i <= |chroms|
    ensures ChromLenSum(header, sq, chroms, i).Value? <==> AllKnown(header, sq, chroms, i)
    ensures ChromLenSum(header, sq, chroms, i).Value? ==> ChromLenSum(header, sq, chroms, i).n == LengthTotal(header, chroms, i)
    decreases |chroms| - i
  {
    if i < |chroms| {
      ChromLenSumMeaning(header, sq, chroms, i + 1);
    }
  }

  /** What a refusal of the sum says about one chromosome asked for. */
  predicate Explains(header: seq<string>, sq: seq<string>, chrom: string, e: HeaderError)
  {
    match e
    case UnknownChrom(c) => c == chrom && c !in sq
    case NoLengthFor(c) => c == chrom && c in sq && LenForSq(header, c) == NoLength
    case BadLengthText(t) => chrom in sq && LenForSq(header, chrom) == BadLength(t)
    case _ => false
  }

  /** A refused sum names a chromosome asked for that is not listed or has no usable length. */
  lemma {:induction false} ChromLenSumRefusal(header: seq<string>, sq: seq<string>, chroms: seq<string>, i: nat)
    requires i <= |chroms| && ChromLenSum(header, sq, chroms, i).Refused?
    ensures exists j :: i <= j < |chroms| && Explains(header, sq, chroms[j], ChromLenSum(header, sq, chroms, i).error)
    decreases |chroms| - i
  {
    if chroms[i] in sq && LenForSq(header, chroms[i]).Length? {
      ChromLenSumRefusal(header, sq, chroms, i + 1);
      var j :| i + 1 <= j < |chroms| && Explains(header, sq, chroms[j], ChromLenSum(header, sq, chroms, i + 1).error);
      assert Explains(header, sq, chroms[j], ChromLenSum(header, sq, chroms, i).error);
    } else {
      assert Explains(header, sq, chroms[i], ChromLenSum(header, sq, chroms, i).error);
    }
  }

  /** The summing loop of `sum_chrom_len`. */
  method SumLengths(header: seq<string>, sq: seq<string>, chroms: seq<string>) returns (r: Outcome)
    ensures r == ChromLenSum(header, sq, chroms, 0)
  {
    var sum := 0;
    for i := 0 to |chroms|
      invariant Plus(sum, ChromLenSum(header, sq, chroms, i)) == ChromLenSum(header, sq, chroms, 0)
    {
      if chroms[i] !in sq {
        return Refused(UnknownChrom(chroms[i]));
      }
      var len := LenForSq(header, chroms[i]);
      match len
      case NoLength => return Refused(NoLengthFor(chroms[i]));
      case BadLength(t) => return Refused(BadLengthText(t));
      case Length(n) => sum := sum + n;
    }
    return Value(sum);
  }

  /** The chromosomes `sum_chrom_len` adds up: those asked for, or all the header names when none are. */
  function Chroms(header: seq<string>, chromList: seq<string>): seq<string>
  {
    if chromList == [] then SqNames(header) else chromList
  }

  /** `sum_chrom_len` over an already-read header. */
  method SumChromLen(header: seq<string>, chromList: seq<string>) returns (r: Outcome)
    ensures r == ChromLenSum(header, SqNames(header), Chroms(header, chromList), 0)
  {
    var sq := SqListFromHeader(header);
    var chroms := if chromList == [] then sq else chromList;
    r := SumLengths(header, sq, chroms);
  }

  /** Summing all the header's names never fails for an unknown chromosome. */
  lemma {:induction false} AllNamesKnown(header: seq<string>, i: nat)
    requires i <= |SqNames(header)|
    ensures var r := ChromLenSum(header, SqNames(header), SqNames(header), i);
      r.Refused? ==> !r.error.UnknownChrom?
    decreases |SqNames(header)| - i
  {
    if i < |SqNames(header)| {
      AllNamesKnown(header, i + 1);
    }
  }

  /* ---------- Bonferroni factors ---------- */

  /** One chromosome's BED ranges, from range number `j` on: each must be non-empty, and the widths add up. */
  function RangesSpan(ranges: seq<(int, int)>, j: nat): Outcome
    requires j <= |ranges|
    decreases |ranges| - j
  {
    if j == |ranges| then Value(0)
    else
      var diff := ranges[j].1 - ranges[j].0;
      if diff <= 0 then Refused(EmptyRange(ranges[j].0, ranges[j].1))
      else Plus(diff, RangesSpan(ranges, j + 1))
  }

  /** The BED ranges of every chromosome from number `i` on, in the order the mapping is iterated. */
  function BedSpan(bed: seq<(string, seq<(int, int)>)>, i: nat): Outcome
    requires i <= |bed|
    decreases |bed| - i
  {
    if i == |bed| then Value(0)
    else match RangesSpan(bed[i].1, 0)
      case Refused(e) => Refused(e)
      case Value(n) => Plus(n, BedSpan(bed, i + 1))
  }

  /** A chromosome's ranges are accepted exactly when each is non-empty, and then span at least one position each. */
  lemma {:induction false} RangesSpanMeaning(ranges: seq<(int, int)>, j: nat)
    requires j <= |ranges|
    ensures RangesSpan(ranges, j).Value? <==> forall k :: j <= k < |ranges| ==> ranges[k].0 < ranges[k].1
    ensures RangesSpan(ranges, j).Value? ==> RangesSpan(ranges, j).n >= |ranges| - j
    decreases |ranges| - j
  {
    if j < |ranges| {
      RangesSpanMeaning(ranges, j + 1);
    }
  }

  /** All BED ranges are accepted exactly when each is non-empty, and then span at least one position each. */
  lemma {:induction false} BedSpanMeaning(bed: seq<(string, seq<(int, int)>)>, i: nat)
    requires i <= |bed|
    ensures BedSpan(bed, i).Value? <==> forall k, m :: i <= k < |bed| && 0 <= m < |bed[k].1| ==> bed[k].1[m].0 < bed[k].1[m].1
    ensures BedSpan(bed, i).Value? ==> BedSpan(bed, i).n >= 0
    decreases |bed| - i
  {
    if i < |bed| {
      RangesSpanMeaning(bed[i].1, 0);
      BedSpanMeaning(bed, i + 1);
    }
  }

  /** The span of a BED mapping split into two runs of chromosomes is the span of each, added. */
  lemma {:induction false} BedSpanAppend(a: seq<(string, seq<(int, int)>)>, b: seq<(string, seq<(int, int)>)>, i: nat)
    requires i <= |a|
    ensures BedSpan(a + b, i).Value? <==> BedSpan(a, i).Value? && BedSpan(b, 0).Value?
    ensures BedSpan(a + b, i).Value? ==> BedSpan(a + b, i).n == BedSpan(a, i).n + BedSpan(b, 0).n
    decreases |a| - i
  {
    if i == |a| {
      BedSpanShift(a, b, 0);
    } else {
      assert (a + b)[i] == a[i];
      BedSpanAppend(a, b, i + 1);
    }
  }

  lemma {:induction false} BedSpanShift(a: seq<(string, seq<(int, int)>)>, b: seq<(string, seq<(int, int)>)>, j: nat)
    requires j <= |b|
    ensures BedSpan(a + b, |a| + j) == BedSpan(b, j)
    decreases |b| - j
  {
    if j < |b| {
      assert (a + b)[|a| + j] == b[j];
      BedSpanShift(a, b, j + 1);
    }
  }

  /**
   * Whether the ranges are accepted, and their span, do not depend on which
   * run of chromosomes the mapping yields first.
   */
  lemma BedSpanOrder(a: seq<(string, seq<(int, int)>)>, b: seq<(string, seq<(int, int)>)>)
    ensures BedSpan(a + b, 0).Value? <==> BedSpan(b + a, 0).Value?
    ensures BedSpan(a + b, 0).Value? ==> BedSpan(a + b, 0) == BedSpan(b + a, 0)
  {
    BedSpanAppend(a, b, 0);
    BedSpanAppend(b, a, 0);
  }

  /** The BED loop of `auto_bonf_factor`: every range's width added, an empty range refused. */
  method SumBedRanges(bed: seq<(string, seq<(int, int)>)>) returns (r: Outcome)
    ensures r == BedSpan(bed, 0)
  {
    var sum := 0;
    for i := 0 to |bed|
      invariant Plus(sum, BedSpan(bed, i)) == BedSpan(bed, 0)
    {
      var ranges := bed[i].1;
      for j := 0 to |ranges|
        invariant Plus(sum, RangesThen(ranges, j, BedSpan(bed, i + 1))) == BedSpan(bed, 0)
      {
        var diff := ranges[j].1 - ranges[j].0;
        if diff <= 0 {
          return Refused(EmptyRange(ranges[j].0, ranges[j].1));
        }
        sum := sum + diff;
      }
    }
    return Value(sum);
  }

  /** The ranges from number `j` on, then `rest`. */
  function RangesThen(ranges: seq<(int, int)>, j: nat, rest: Outcome): (r: Outcome)
    requires j <= |ranges|
    ensures r == match RangesSpan(ranges, j) case Refused(e) => Refused(e) case Value(n) => Plus(n, rest)
    decreases |ranges| - j
  {
    if j == |ranges| then rest
    else
      var diff := ranges[j].1 - ranges[j].0;
      if diff <= 0 then Refused(EmptyRange(ranges[j].0, ranges[j].1))
      else Plus(diff, RangesThen(ranges, j + 1, rest))
  }

  /** Three tests per position: the factor of a length. */
  function Triple(o: Outcome): (r: Outcome)
    ensures r.Refused? <==> o.Refused?
    ensures r.Value? ==> r.n % 3 == 0 && r.n / 3 == o.n
  {
    match o
    case Value(n) => Value(n * 3)
    case Refused(e) => o
  }

  /**
   * `auto_bonf_factor` over already-read inputs: `excl` holds the excluded
   * positions when an exclusion file is given, `bed` the BED ranges when a
   * BED file is given, `chrom` is the chromosome (empty when none). An
   * exclusion file and a chromosome go together, and exclude a BED file;
   * positions considered are the chromosome's length minus the excluded
   * positions, the BED ranges' span, or the whole header's length.
   */
  function BonfFactor(header: seq<string>, bed: Option<seq<(string, seq<(int, int)>)>>,
                      excl: Option<seq<int>>, chrom: string): Outcome
  {
    if (excl.Some? || chrom != []) && !(excl.Some? && chrom != []) then Refused(ConflictingOptions)
    else if bed.Some? && excl.Some? then Refused(ConflictingOptions)
    else if excl.Some? then
      match ChromLenSum(header, SqNames(header), [chrom], 0)
      case Value(n) => Triple(Value(n - |excl.value|))
      case Refused(e) => Refused(e)
    else if bed.Some? then Triple(BedSpan(bed.value, 0))
    else Triple(ChromLenSum(header, SqNames(header), SqNames(header), 0))
  }

  /** `auto_bonf_factor`. */
  method AutoBonfFactor(header: seq<string>, bed: Option<seq<(string, seq<(int, int)>)>>,
                        excl: Option<seq<int>>, chrom: string) returns (r: Outcome)
    ensures r == BonfFactor(header, bed, excl, chrom)
  {
    if excl.Some? || chrom != [] {
      if !(excl.Some? && chrom != []) {
        return Refused(ConflictingOptions);
      }
    }
    if bed.Some? && excl.Some? {
      return Refused(ConflictingOptions);
    }
    var sum: Outcome;
    if excl.Some? {
      sum := SumChromLen(header, [chrom]);
      if sum.Value? {
        sum := Value(sum.n - |excl.value|);
      }
    } else if bed.Some? {
      sum := SumBedRanges(bed.value);
    } else {
      sum := SumChromLen(header, []);
    }
    r := Triple(sum);
  }

  /**
   * The factor counts three tests per position: with a BED file it is three
   * times the ranges' span, never negative; with an exclusion file it is
   * three times the chromosome's length less the excluded positions; over
   * the whole header it is three times the sum of every declared
   * sequence's length. A BED file and an exclusion file together are
   * refused, and so is either of an exclusion file and a chromosome alone.
   */
  lemma BonfFactorMeaning(header: seq<string>, bed: Option<seq<(string, seq<(int, int)>)>>,
                          excl: Option<seq<int>>, chrom: string)
    ensures BonfFactor(header, bed, excl, chrom).Value? ==> BonfFactor(header, bed, excl, chrom).n % 3 == 0
    ensures bed.Some? && excl.None? && chrom == [] ==>
      BonfFactor(header, bed, excl, chrom) == Triple(BedSpan(bed.value, 0))
      && (BonfFactor(header, bed, excl, chrom).Value? ==> BonfFactor(header, bed, excl, chrom).n >= 0)
    ensures bed.None? && excl.None? && chrom == [] && AllKnown(header, SqNames(header), SqNames(header), 0) ==>
      BonfFactor(header, bed, excl, chrom) == Value(3 * LengthTotal(header, SqNames(header), 0))
    ensures bed.None? && excl.Some? && chrom != [] && AllKnown(header, SqNames(header), [chrom], 0) ==>
      BonfFactor(header, bed, excl, chrom) == Value(3 * (LengthTotal(header, [chrom], 0) - |excl.value|))
    ensures excl.Some? != (chrom != []) ==> BonfFactor(header, bed, excl, chrom) == Refused(ConflictingOptions)
    ensures bed.Some? && excl.Some? ==> BonfFactor(header, bed, excl, chrom) == Refused(ConflictingOptions)
  {
    if bed.Some? {
      BedSpanMeaning(bed.value, 0);
    }
    ChromLenSumMeaning(header, SqNames(header), SqNames(header), 0);
    ChromLenSumMeaning(header, SqNames(header), [chrom], 0);
  }

  /** `auto_bonf_factor_from_depth`: three tests per column with coverage. */
  function DepthBonfFactor(numNonzeroCols: int): (f: int)
    ensures f % 3 == 0 && f / 3 == numNonzeroCols
  {
    numNonzeroCols * 3
  }

  /** The names of three lines, read one line at a time. */
  lemma SqNamesThree(a: string, b: string, c: string)
    ensures SqNames([a, b, c]) == Named(a) + Named(b) + Named(c)
  {
    assert [a][..0] == [];
    assert SqNames([a]) == Named(a);
    assert [a, b][..1] == [a];
    assert SqNames([a, b]) == Named(a) + Named(b);
    assert [a, b, c][..2] == [a, b];
  }

  /** The name a line declares, as a list of at most one. */
  function Named(line: string): (r: seq<string>)
    ensures |r| <= 1
  {
    match SqName(line)
    case None => []
    case Some(n) => [n]
  }

  /** A header of one line that declares nothing, then two `@SQ` lines with different names. */
  ghost predicate TwoSq(h: seq<string>, n1: string, l1: nat, n2: string, l2: nat)
  {
    && |h| == 3 && h[1] == SqLine(n1, l1) && h[2] == SqLine(n2, l2)
    && Word(n1) && Word(n2) && n1 != n2
    && SqName(h[0]).None? && forall sq :: LineLength(h[0], sq).None?
  }

  /** Such a header lists its two names in order. */
  lemma TwoSqNames(h: seq<string>, n1: string, l1: nat, n2: string, l2: nat)
    requires TwoSq(h, n1, l1, n2, l2)
    ensures SqNames(h) == [n1, n2]
  {
    SqLineName(n1, l1);
    SqLineName(n2, l2);
    SqNamesThree(h[0], h[1], h[2]);
    assert h == [h[0], h[1], h[2]];
  }

  /** Such a header gives each name its own length. */
  lemma TwoSqLengths(h: seq<string>, n1: string, l1: nat, n2: string, l2: nat)
    requires TwoSq(h, n1, l1, n2, l2)
    ensures LenForSq(h, n1) == Length(l1) && LenForSq(h, n2) == Length(l2)
  {
    SqLineLength(n1, l1, n1);
    SqLineLength(n1, l1, n2);
    SqLineLength(n2, l2, n2);
    assert LineLength(h[0], n1).None? && LineLength(h[1], n1) == Some(ShowNat(l1));
    assert FirstLength(h, n1, 1) == Length(l1);
    assert LineLength(h[0], n2).None? && LineLength(h[1], n2).None? && LineLength(h[2], n2) == Some(ShowNat(l2));
    assert FirstLength(h, n2, 2) == Length(l2);
    assert FirstLength(h, n2, 1) == Length(l2);
  }

  /** Such a header spans the two lengths: three tests for each of their positions. */
  lemma TwoSqFactor(h: seq<string>, n1: string, l1: nat, n2: string, l2: nat)
    requires TwoSq(h, n1, l1, n2, l2)
    ensures BonfFactor(h, None, None, []) == Value(3 * (l1 + l2))
  {
    TwoSqNames(h, n1, l1, n2, l2);
    TwoSqLengths(h, n1, l1, n2, l2);
    var names := [n1, n2];
    assert ChromLenSum(h, names, names, 2) == Value(0);
    assert ChromLenSum(h, names, names, 1) == Value(l2);
    assert ChromLenSum(h, names, names, 0) == Value(l1 + l2);
  }

  /**
   * A header declaring `chr1` of length 1000 and `chr2` of length 2000
   * after an `@HD` line: both names are listed, each has its length, and
   * the factor for the whole header is 9000.
   */
  lemma TwoChromosomeHeader(h: seq<string>)
    requires h == [Join(["@HD", "VN:1.0"], TAB), SqLine("chr1", 1000), SqLine("chr2", 2000)]
    ensures SqNames(h) == ["chr1", "chr2"]
    ensures LenForSq(h, "chr1") == Length(1000) && LenForSq(h, "chr2") == Length(2000)
    ensures BonfFactor(h, None, None, []) == Value(9000)
  {
    assert Word("@HD") && Word("VN:1.0") && Word("chr1") && Word("chr2");
    OtherLineRead("@HD", ["VN:1.0"]);
    assert TwoSq(h, "chr1", 1000, "chr2", 2000);
    TwoSqNames(h, "chr1", 1000, "chr2", 2000);
    TwoSqLengths(h, "chr1", 1000, "chr2", 2000);
    TwoSqFactor(h, "chr1", 1000, "chr2", 2000);
  }
}
