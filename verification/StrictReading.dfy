/** What the strict reader accepts, rejects and returns, for every table and told
    by its cells. */
module StrictReading {
  import opened Basics
  import opened Decimal
  import opened Timestamps
  import opened ResultRows

  // ----- Arrival order -----

  predicate InStep(a: Key, b: Key) { Comparable(a, b) && !KeyAfter(a, b) }

  predicate InStepAt(keys: seq<Key>, j: nat)
    requires j + 1 < |keys|
  {
    InStep(keys[j], keys[j + 1])
  }

  /** Neighbours are in step up to, but not at, index i. */
  predicate FirstMisstep(keys: seq<Key>, i: nat) {
    i + 1 < |keys| && !InStepAt(keys, i) && forall j: nat :: j < i ==> InStepAt(keys, j)
  }

  predicate AllInStep(keys: seq<Key>) {
    forall j: nat :: j + 1 < |keys| ==> InStepAt(keys, j)
  }

  lemma {:induction false} StepsOfRest(keys: seq<Key>, j: nat)
    requires 0 < j && j + 1 < |keys|
    ensures InStepAt(keys, j) <==> InStepAt(keys[1..], j - 1)
  {
    assert keys[1..][j - 1] == keys[j] && keys[1..][j] == keys[j + 1];
  }

  lemma {:induction false} OrderProblemAt(keys: seq<Key>, i: nat)
    requires FirstMisstep(keys, i)
    ensures OrderProblem(keys) == [if Comparable(keys[i], keys[i + 1]) then NotChronological else MixedZones]
  {
    if i > 0 {
      assert InStepAt(keys, 0);
      StepsOfRest(keys, i);
      forall j: nat | j < i - 1 ensures InStepAt(keys[1..], j) {
        StepsOfRest(keys, j + 1);
      }
      OrderProblemAt(keys[1..], i - 1);
    }
  }

  /** The reader is content with the order exactly if all neighbours can be compared
      and none is after the next. */
  lemma {:induction false} NoOrderProblemExactly(keys: seq<Key>)
    ensures OrderProblem(keys) == [] <==> AllInStep(keys)
  {
    if AllInStep(keys) {
      StepsMakeNoProblem(keys);
    } else {
      var i := Misstep(keys);
      OrderProblemAt(keys, i);
    }
  }

  lemma {:induction false} StepsMakeNoProblem(keys: seq<Key>)
    requires AllInStep(keys)
    ensures OrderProblem(keys) == []
  {
    if |keys| >= 2 {
      assert InStepAt(keys, 0);
      forall j: nat | j + 1 < |keys[1..]| ensures InStepAt(keys[1..], j) {
        StepsOfRest(keys, j + 1);
      }
      StepsMakeNoProblem(keys[1..]);
    }
  }

  lemma {:induction false} Misstep(keys: seq<Key>) returns (i: nat)
    requires !AllInStep(keys)
    ensures FirstMisstep(keys, i)
  {
    i := 0;
    while InStepAt(keys, i)
      invariant i + 1 < |keys| && forall j: nat :: j < i ==> InStepAt(keys, j)
      decreases |keys| - i
    {
      i := i + 1;
    }
  }

  /** Cells that all hold a timestamp have one key each. */
  lemma {:induction false} KeysAt(iso: FromIso, cells: seq<string>)
    requires forall i :: 0 <= i < |cells| ==> iso(cells[i]).Some?
    ensures |KeysOf(iso, cells)| == |cells|
    ensures forall i :: 0 <= i < |cells| ==> Some(KeysOf(iso, cells)[i]) == ArrivalKey(iso, cells[i])
  {
    if |cells| > 0 {
      KeysAt(iso, cells[1..]);
    }
  }

  // ----- One line -----

  /** The cells hold values: three integers, a send time, and where they are not
      empty a delay and receive times. */
  predicate Parsable(rd: Reader, c: seq<string>)
    requires |c| >= 7
  {
    && ParseInt(c[0]).Some? && rd.iso(c[1]).Some? && ParseInt(c[4]).Some? && ParseInt(c[6]).Some?
    && (c[3] == "" || rd.float(c[3]).Some?)
    && (c[2] == "" || rd.iso(c[2]).Some?)
    && forall i :: 7 <= i < |c| ==> c[i] == "" || rd.iso(c[i]).Some?
  }

  lemma {:induction false} ParsesExactly(rd: Reader, c: seq<string>)
    requires |c| >= 7
    ensures ParseCells(rd, c).Some? <==> Parsable(rd, c)
    ensures Parsable(rd, c) ==>
              var x := ParseCells(rd, c).value;
              && RowHolds(rd, c, x.row) && Some(x.dupCount) == ParseInt(c[6]) && |x.extras| == |c| - 7
              && forall i :: 7 <= i < |c| ==> (x.extras[i - 7].Some? <==> c[i] != "")
  {
    assert StampCells(rd.iso, c[7..]) <==> forall i :: 7 <= i < |c| ==> c[i] == "" || rd.iso(c[i]).Some? by {
      assert forall i :: 7 <= i < |c| ==> c[i] == c[7..][i - 7];
      assert forall i :: 0 <= i < |c| - 7 ==> c[7..][i] == c[7 + i];
    }
  }

  /** The row says what the cells say. */
  predicate RowHolds(rd: Reader, c: seq<string>, row: Row)
    requires |c| >= 7
  {
    && Some(row.seqNo) == ParseInt(c[0]) && Some(row.tsSent) == rd.iso(c[1]) && Some(row.size) == ParseInt(c[4])
    && row.tsRcvd == (if c[2] == "" then None else rd.iso(c[2]))
    && row.owdMs == (if c[3] == "" then None else rd.float(c[3]))
    && (row.lost <==> c[5] == "true")
  }

  /** Cell j + 1 holds a receive time that is not before that of cell j. */
  predicate NotBefore(iso: FromIso, cells: seq<string>, j: nat)
    requires j + 1 < |cells|
  {
    && iso(cells[j]).Some? && iso(cells[j + 1]).Some?
    && InStep(ArrivalKey(iso, cells[j]).value, ArrivalKey(iso, cells[j + 1]).value)
  }

  predicate NoneBefore(iso: FromIso, cells: seq<string>) {
    forall j: nat :: j + 1 < |cells| ==> NotBefore(iso, cells, j)
  }

  /** Exactly the first d extra columns hold something. */
  predicate FilledUpTo(c: seq<string>, d: int) { forall i :: 7 <= i < |c| ==> (c[i] != "" <==> i < 7 + d) }

  /** A line of an acceptable table: exactly the first dup_count extra columns are
      filled, a lost packet has neither arrival nor delay nor copies, a received one
      has both, and its arrivals are in chronological order. */
  predicate LineOk(rd: Reader, c: seq<string>, width: nat) {
    && |c| == 7 + width && Parsable(rd, c)
    && (c[5] == "true" || c[5] == "false")
    && var d := ParseInt(c[6]).value;
    && 0 <= d <= width
    && FilledUpTo(c, d)
    && if c[5] == "true" then d == 0 && c[2] == "" && c[3] == ""
       else c[2] != "" && c[3] != "" && NoneBefore(rd.iso, [c[2]] + c[7..7 + d])
  }

  lemma {:induction false} DupsMatchExactly(rd: Reader, c: seq<string>, x: Parsed)
    requires |c| >= 7 && Parsable(rd, c) && ParseCells(rd, c) == Some(x) && 0 <= x.dupCount <= |x.extras|
    ensures DupsMatchCount(x) <==> FilledUpTo(c, x.dupCount)
    ensures (exists i :: 0 <= i < |x.extras| && x.extras[i].Some?) <==> exists i :: 7 <= i < |c| && c[i] != ""
  {
    ParsesExactly(rd, c);
    if DupsMatchCount(x) {
      forall i | 7 <= i < |c| ensures c[i] != "" <==> i < 7 + x.dupCount {
        assert x.extras[i - 7].Some? <==> c[i] != "";
      }
    }
    forall i | 0 <= i < |x.extras| ensures x.extras[i].Some? <==> c[7 + i] != "" {
      assert x.extras[7 + i - 7].Some? <==> c[7 + i] != "";
    }
    if i :| 7 <= i < |c| && c[i] != "" {
      assert x.extras[i - 7].Some?;
    }
  }

  /** Cells that hold timestamps are content with their order exactly if no cell is
      before its predecessor. */
  lemma {:induction false} CellsInOrder(iso: FromIso, cells: seq<string>)
    requires forall i :: 0 <= i < |cells| ==> iso(cells[i]).Some?
    ensures OrderProblem(KeysOf(iso, cells)) == [] <==> NoneBefore(iso, cells)
  {
    KeysAt(iso, cells);
    var keys := KeysOf(iso, cells);
    NoOrderProblemExactly(keys);
    forall j: nat | j + 1 < |cells| ensures InStepAt(keys, j) <==> NotBefore(iso, cells, j) {
      assert Some(keys[j]) == ArrivalKey(iso, cells[j]) && Some(keys[j + 1]) == ArrivalKey(iso, cells[j + 1]);
    }
  }

  lemma {:induction false} LineOrder(rd: Reader, c: seq<string>, d: nat)
    requires |c| >= 7 && Parsable(rd, c) && 7 + d <= |c|
    requires FilledUpTo(c, d) && (d == 0 || c[2] != "")
    ensures OrderProblem(KeysOf(rd.iso, NonEmpty([c[2]] + c[7..]))) == []
       <==> c[2] == "" || NoneBefore(rd.iso, [c[2]] + c[7..7 + d])
  {
    var cells := [c[2]] + c[7..];
    assert forall i :: 0 < i < |cells| ==> cells[i] == c[6 + i];
    if c[2] == "" {
      NonEmptyOfPadded(cells, 0);
    } else {
      NonEmptyOfPadded(cells, d + 1);
      assert cells[..d + 1] == [c[2]] + c[7..7 + d];
      CellsInOrder(rd.iso, cells[..d + 1]);
    }
  }

  /** The checks on a parsed line add up to its acceptability. */
  lemma {:induction false} ParsedLineExactly(rd: Reader, c: seq<string>, x: Parsed)
    requires |c| >= 7 && ParseCells(rd, c) == Some(x)
    ensures RowProblems(rd, c[5], [c[2]] + c[7..], x) == [] <==> LineOk(rd, c, |c| - 7)
  {
    ParsesExactly(rd, c);
    if (c[5] == "true" || c[5] == "false") && 0 <= x.dupCount <= |x.extras| {
      GoodCells(rd, c, x);
      if FateTold(c, x.dupCount) {
        LineOrder(rd, c, x.dupCount);
      }
    } else {
      BadCells(rd, c, x);
    }
  }

  /** The copies are where they should be, and arrival and delay fit the fate. */
  predicate FateTold(c: seq<string>, d: int)
    requires |c| >= 7
  {
    FilledUpTo(c, d) && if c[5] == "true" then d == 0 && c[2] == "" && c[3] == "" else c[2] != "" && c[3] != ""
  }

  lemma {:induction false} GoodCells(rd: Reader, c: seq<string>, x: Parsed)
    requires |c| >= 7 && ParseCells(rd, c) == Some(x)
    requires (c[5] == "true" || c[5] == "false") && 0 <= x.dupCount <= |x.extras|
    ensures RowProblems(rd, c[5], [c[2]] + c[7..], x) == []
       <==> FateTold(c, x.dupCount) && OrderProblem(KeysOf(rd.iso, NonEmpty([c[2]] + c[7..]))) == []
  {
    ParsesExactly(rd, c);
    ProblemsExactly(rd, c[5], [c[2]] + c[7..], x);
    DupsMatchExactly(rd, c, x);
    CleanLine(rd, c, x);
  }

  lemma {:induction false} BadCells(rd: Reader, c: seq<string>, x: Parsed)
    requires |c| >= 7 && !((c[5] == "true" || c[5] == "false") && 0 <= x.dupCount <= |x.extras|)
    ensures RowProblems(rd, c[5], [c[2]] + c[7..], x) != []
  {
  }

  lemma {:induction false} CleanLine(rd: Reader, c: seq<string>, x: Parsed)
    requires |c| >= 7 && Parsable(rd, c) && RowHolds(rd, c, x.row) && 0 <= x.dupCount <= |x.extras|
    requires DupsMatchCount(x) <==> FilledUpTo(c, x.dupCount)
    requires (exists i :: 0 <= i < |x.extras| && x.extras[i].Some?) <==> exists i :: 7 <= i < |c| && c[i] != ""
    ensures Clean(x) <==> FateTold(c, x.dupCount)
  {
  }

  /** A line draws no complaint exactly if it is acceptable. */
  lemma {:induction false} LineAcceptedExactly(rd: Reader, c: seq<string>, width: nat)
    requires |c| > 0
    ensures ReadLine(rd, c, width).problems == [] <==> LineOk(rd, c, width)
    ensures LineOk(rd, c, width) ==> Some(ReadLine(rd, c, width).dups) == ParseInt(c[6])
  {
    if |c| == 7 + width {
      ParsesExactly(rd, c);
      if Parsable(rd, c) {
        ParsedLineExactly(rd, c, ParseCells(rd, c).value);
      }
    }
  }

  // ----- Which complaint -----

  function Keys(rd: Reader, c: seq<string>): seq<Key>
    requires |c| >= 7
  {
    KeysOf(rd.iso, NonEmpty([c[2]] + c[7..]))
  }

  /** The first neighbours out of step can be compared, or cannot. */
  ghost predicate Missteps(keys: seq<Key>, comparable: bool) {
    exists i: nat :: FirstMisstep(keys, i) && Comparable(keys[i], keys[i + 1]) == comparable
  }

  /** What each complaint about a line whose cells hold values is about. */
  ghost predicate DeservedByCells(rd: Reader, c: seq<string>, p: Problem)
    requires |c| >= 7 && Parsable(rd, c)
  {
    var d, lost := ParseInt(c[6]).value, c[5] == "true";
    match p
    case BadLost => c[5] != "true" && c[5] != "false"
    case DupCountRange => d < 0 || d > |c| - 7
    case DupPattern => exists i :: 7 <= i < |c| && ((c[i] != "") != (i < 7 + SliceEnd(d, |c| - 7)))
    case LostWithDups => lost && (d != 0 || exists i :: 7 <= i < |c| && c[i] != "")
    case NotChronological => Missteps(Keys(rd, c), true)
    case MixedZones => Missteps(Keys(rd, c), false)
    case LostWithArrival => lost && (c[2] != "" || c[3] != "")
    case MissingArrival => !lost && (c[2] == "" || c[3] == "")
    case _ => false
  }

  ghost predicate Deserved(rd: Reader, c: seq<string>, width: nat, p: Problem) {
    if |c| != 7 + width then p.BadWidth?
    else if !Parsable(rd, c) then p.BadValue?
    else DeservedByCells(rd, c, p)
  }

  lemma {:induction false} OrderProblemMeans(keys: seq<Key>, p: Problem)
    ensures p in OrderProblem(keys) <==>
            (p.NotChronological? && Missteps(keys, true)) || (p.MixedZones? && Missteps(keys, false))
  {
    NoOrderProblemExactly(keys);
    if AllInStep(keys) {
      forall i: nat ensures !FirstMisstep(keys, i) {
      }
    } else {
      var i := Misstep(keys);
      OrderProblemAt(keys, i);
      assert Missteps(keys, Comparable(keys[i], keys[i + 1]));
      forall j: nat | FirstMisstep(keys, j) ensures j == i {
        OneFirstMisstep(keys, i, j);
      }
    }
  }

  lemma {:induction false} OneFirstMisstep(keys: seq<Key>, i: nat, j: nat)
    requires FirstMisstep(keys, i) && FirstMisstep(keys, j)
    ensures i == j
  {
  }

  lemma {:induction false} DupPatternMeans(rd: Reader, c: seq<string>, x: Parsed)
    requires |c| >= 7 && ParseCells(rd, c) == Some(x)
    ensures Parsable(rd, c) && Some(x.dupCount) == ParseInt(c[6]) && |x.extras| == |c| - 7
    ensures (!DupsMatchCount(x) <==> DeservedByCells(rd, c, DupPattern))
    ensures LostYetDuplicated(x) <==> DeservedByCells(rd, c, LostWithDups)
  {
    ParsesExactly(rd, c);
    var end := SliceEnd(x.dupCount, |x.extras|);
    forall i | 7 <= i < |c| ensures x.extras[i - 7].Some? <==> c[i] != "" {
    }
    forall i | 0 <= i < |x.extras| ensures x.extras[i].Some? <==> c[7 + i] != "" {
      assert x.extras[7 + i - 7].Some? <==> c[7 + i] != "";
    }
    if i :| 7 <= i < |c| && ((c[i] != "") != (i < 7 + end)) {
      assert x.extras[i - 7].Some? != (i - 7 < end);
    }
  }

  /** A line draws exactly the complaints it deserves. */
  lemma {:induction false} ComplaintExactlyIfDeserved(rd: Reader, c: seq<string>, width: nat, p: Problem)
    requires |c| > 0
    ensures p in ReadLine(rd, c, width).problems <==> Deserved(rd, c, width, p)
  {
    if |c| == 7 + width {
      ParsesExactly(rd, c);
      if Parsable(rd, c) {
        var x := ParseCells(rd, c).value;
        DupPatternMeans(rd, c, x);
        OrderProblemMeans(Keys(rd, c), p);
        ChecksMean(rd, c, x, p);
      }
    }
  }

  lemma {:induction false} ChecksMean(rd: Reader, c: seq<string>, x: Parsed, p: Problem)
    requires |c| >= 7 && Parsable(rd, c) && RowHolds(rd, c, x.row)
    ensures p in RowProblems(rd, c[5], [c[2]] + c[7..], x) <==>
            match p
            case BadLost => c[5] != "true" && c[5] != "false"
            case DupCountRange => x.dupCount < 0 || x.dupCount > |x.extras|
            case DupPattern => !DupsMatchCount(x)
            case LostWithDups => LostYetDuplicated(x)
            case NotChronological => p in OrderProblem(Keys(rd, c))
            case MixedZones => p in OrderProblem(Keys(rd, c))
            case LostWithArrival => c[5] == "true" && (c[2] != "" || c[3] != "")
            case MissingArrival => c[5] != "true" && (c[2] == "" || c[3] == "")
            case _ => false
  {
    OrderProblemMeans(Keys(rd, c), p);
  }

  // ----- All lines -----

  lemma {:induction false} TallyMax(readings: seq<Reading>)
    ensures var m := TallyOf(readings).maxDups;
            && (forall i :: 0 <= i < |readings| ==> readings[i].dups <= m)
            && (m == 0 || exists i :: 0 <= i < |readings| && readings[i].dups == m)
  {
    if |readings| > 0 {
      var n := |readings| - 1;
      TallyMax(readings[..n]);
      forall i | 0 <= i < n ensures readings[..n][i] == readings[i] {
      }
    }
  }

  /** The header of an acceptable table: the seven base columns, then ts_rcvd_1,
      ts_rcvd_2 and so on. */
  predicate HeaderCells(header: seq<string>) {
    && |header| >= 7 && header[..7] == ["seq", "ts_sent", "ts_rcvd", "owd_ms", "size", "lost", "dup_count"]
    && forall i :: 7 <= i < |header| ==> header[i] == "ts_rcvd_" + FormatNat(i - 6)
  }

  lemma {:induction false} HeaderExactly(table: seq<seq<string>>)
    ensures HeaderOk(table) <==> |table| > 0 && HeaderCells(table[0])
  {
    if |table| > 0 && |table[0]| >= 7 {
      var header, names := table[0], ExtraNames(|table[0]| - 7);
      assert header == header[..7] + header[7..];
      if HeaderCells(header) {
        forall i | 0 <= i < |names| ensures header[7..][i] == names[i] {
          assert header[7 + i] == "ts_rcvd_" + FormatNat(7 + i - 6);
        }
        assert header[7..] == names;
      }
      if HeaderOk(table) {
        assert header[..7] == BASE;
        forall i | 7 <= i < |header| ensures header[i] == "ts_rcvd_" + FormatNat(i - 6) {
          assert header[i] == names[i - 7];
        }
      }
    }
  }

  /** A table as it should be: a right header, only acceptable lines, and as many
      extra columns as the largest number of copies. Empty lines do not count. */
  ghost predicate TableOk(rd: Reader, table: seq<seq<string>>) {
    && |table| > 0 && HeaderCells(table[0])
    && var width := |table[0]| - 7;
    LinesOk(rd, table, width) && WidthReached(table, width)
  }

  ghost predicate LinesOk(rd: Reader, table: seq<seq<string>>, width: nat) {
    forall i :: 0 < i < |table| && table[i] != [] ==> LineOk(rd, table[i], width)
  }

  /** Some line has as many copies as there are columns for them. */
  ghost predicate WidthReached(table: seq<seq<string>>, width: nat) {
    width == 0 || exists i :: 0 < i < |table| && |table[i]| > 6 && ParseInt(table[i][6]) == Some(width)
  }

  /** The strict reader is silent about exactly the tables that are as they should
      be. */
  lemma {:induction false} AcceptedExactly(rd: Reader, table: seq<seq<string>>)
    ensures ReadTable(rd, table).0 == [] <==> TableOk(rd, table)
  {
    HeaderExactly(table);
    if HeaderOk(table) {
      var width := |table[0]| - 7;
      var readings := Readings(rd, table[1..], width);
      LinesAcceptedExactly(rd, table, width, readings);
      if LinesOk(rd, table, width) {
        WidestExactly(rd, table, width, readings);
      }
    }
  }

  lemma {:induction false} LinesAcceptedExactly(rd: Reader, table: seq<seq<string>>, width: nat, readings: seq<Reading>)
    requires |table| > 0 && readings == Readings(rd, table[1..], width)
    ensures TallyOf(readings).errors == [] <==> LinesOk(rd, table, width)
  {
    TallyErrors(readings);
    forall i | 0 < i < |table|
      ensures readings[i - 1].problems == [] <==> table[i] == [] || LineOk(rd, table[i], width)
    {
      assert table[1..][i - 1] == table[i];
      if table[i] != [] {
        LineAcceptedExactly(rd, table[i], width);
      }
    }
    if LinesOk(rd, table, width) {
      forall i | 0 <= i < |readings| ensures readings[i].problems == [] {
        assert readings[i + 1 - 1].problems == [] <==> table[i + 1] == [] || LineOk(rd, table[i + 1], width);
      }
    }
  }

  lemma {:induction false} WidestExactly(rd: Reader, table: seq<seq<string>>, width: nat, readings: seq<Reading>)
    requires |table| > 0 && readings == Readings(rd, table[1..], width)
    requires LinesOk(rd, table, width)
    ensures TallyOf(readings).maxDups == width <==> WidthReached(table, width)
  {
    TallyMax(readings);
    forall i | 0 < i < |table|
      ensures readings[i - 1].dups <= width
      ensures table[i] == [] ==> readings[i - 1].dups == 0
      ensures table[i] != [] ==> |table[i]| > 6 && ParseInt(table[i][6]) == Some(readings[i - 1].dups)
    {
      assert table[1..][i - 1] == table[i];
      if table[i] != [] {
        LineAcceptedExactly(rd, table[i], width);
      }
    }
    var m := TallyOf(readings).maxDups;
    if i :| 0 <= i < |readings| && readings[i].dups == m {
      assert table[i + 1] != [] ==> ParseInt(table[i + 1][6]) == Some(readings[i + 1 - 1].dups);
      assert readings[i + 1 - 1].dups <= width;
    }
    if i :| 0 < i < |table| && |table[i]| > 6 && ParseInt(table[i][6]) == Some(width) {
      assert readings[i - 1].dups == width;
    }
  }

  // ----- Which complaints and which rows, line by line -----

  lemma {:induction false} TallyComplaints(readings: seq<Reading>, l: nat, p: Problem)
    ensures Complaint(l, p) in TallyOf(readings).errors <==> 2 <= l < |readings| + 2 && p in readings[l - 2].problems
  {
    if |readings| > 0 {
      var n := |readings| - 1;
      TallyComplaints(readings[..n], l, p);
      ComplaintsAt(n + 2, readings[n].problems, l, p);
    }
  }

  lemma {:induction false} ComplaintsAt(line: nat, problems: seq<Problem>, l: nat, p: Problem)
    ensures Complaint(l, p) in Complaints(line, problems) <==> l == line && p in problems
  {
    var cs := Complaints(line, problems);
    if l == line && p in problems {
      var i :| 0 <= i < |problems| && problems[i] == p;
      assert cs[i] == Complaint(l, p);
    }
  }

  /** A line whose dup_count is counted. */
  predicate Counts(rd: Reader, c: seq<string>, width: nat) { |c| == 7 + width && Parsable(rd, c) }

  /** The largest dup_count that is counted, and no less than zero, is m. */
  ghost predicate IsWidest(rd: Reader, table: seq<seq<string>>, width: nat, m: nat) {
    && (forall i :: 0 < i < |table| && Counts(rd, table[i], width) ==> ParseInt(table[i][6]).value <= m)
    && (m == 0 || exists i :: 0 < i < |table| && Counts(rd, table[i], width) && ParseInt(table[i][6]) == Some(m))
  }

  lemma {:induction false} TallyIsWidest(rd: Reader, table: seq<seq<string>>, width: nat, m: nat)
    requires |table| > 0
    ensures TallyOf(Readings(rd, table[1..], width)).maxDups == m <==> IsWidest(rd, table, width, m)
  {
    var readings := Readings(rd, table[1..], width);
    TallyMax(readings);
    forall i | 0 < i < |table|
      ensures readings[i - 1].dups == if Counts(rd, table[i], width) then ParseInt(table[i][6]).value else 0
    {
      assert table[1..][i - 1] == table[i];
      if |table[i]| == 7 + width {
        ParsesExactly(rd, table[i]);
      }
    }
    WidestOfReadings(rd, table, width, readings, TallyOf(readings).maxDups, m);
  }

  lemma {:induction false} WidestOfReadings(rd: Reader, table: seq<seq<string>>, width: nat, readings: seq<Reading>,
                                            widest: nat, m: nat)
    requires |table| == |readings| + 1
    requires forall i :: 0 < i < |table| ==>
               readings[i - 1].dups == if Counts(rd, table[i], width) then ParseInt(table[i][6]).value else 0
    requires forall i :: 0 <= i < |readings| ==> readings[i].dups <= widest
    requires widest == 0 || exists i :: 0 <= i < |readings| && readings[i].dups == widest
    ensures widest == m <==> IsWidest(rd, table, width, m)
  {
    forall i | 0 < i < |table| && Counts(rd, table[i], width) ensures ParseInt(table[i][6]).value <= widest {
      assert readings[i - 1].dups <= widest;
    }
    if widest > 0 {
      var i :| 0 <= i < |readings| && readings[i].dups == widest;
      assert readings[i + 1 - 1].dups > 0;
      assert Counts(rd, table[i + 1], width) && ParseInt(table[i + 1][6]) == Some(widest);
    }
  }

  /** Every complaint about a table with a right header names a line and what that
      line deserves, or the number of columns, which is wrong; and all of these are
      raised. */
  lemma {:induction false} ComplaintsExactly(rd: Reader, table: seq<seq<string>>, l: nat, p: Problem)
    requires HeaderOk(table)
    ensures var width := |table[0]| - 7;
            Complaint(l, p) in ReadTable(rd, table).0 <==>
              || (2 <= l <= |table| && table[l - 1] != [] && Deserved(rd, table[l - 1], width, p))
              || (l == |table| && p.ColumnCount? && !IsWidest(rd, table, width, width))
  {
    var width := |table[0]| - 7;
    var readings := Readings(rd, table[1..], width);
    TallyComplaints(readings, l, p);
    TallyIsWidest(rd, table, width, width);
    ComplaintsAt(|table|, Check(width != TallyOf(readings).maxDups, ColumnCount), l, p);
    if 2 <= l <= |table| {
      assert table[1..][l - 2] == table[l - 1];
      if table[l - 1] != [] {
        ComplaintExactlyIfDeserved(rd, table[l - 1], width, p);
      }
    }
  }

  /** A line whose row is returned: its cells hold values, and an arrival and a delay
      are there exactly if the packet was not lost. */
  predicate Keeps(rd: Reader, c: seq<string>, width: nat) {
    && |c| == 7 + width && Parsable(rd, c)
    && (c[2] == "" <==> c[5] == "true") && (c[3] == "" <==> c[5] == "true")
  }

  function KeptLines(rd: Reader, lines: seq<seq<string>>, width: nat): seq<seq<string>> {
    if |lines| == 0 then []
    else
      var n := |lines| - 1;
      KeptLines(rd, lines[..n], width) + if Keeps(rd, lines[n], width) then [lines[n]] else []
  }

  ghost predicate RowsHold(rd: Reader, lines: seq<seq<string>>, rows: seq<Row>) {
    |rows| == |lines| && forall i :: 0 <= i < |rows| ==> |lines[i]| >= 7 && RowHolds(rd, lines[i], rows[i])
  }

  lemma {:induction false} LineKept(rd: Reader, c: seq<string>, width: nat)
    ensures LineHolds(rd, c, width, ReadLine(rd, c, width))
  {
    if |c| == 7 + width {
      ParsesExactly(rd, c);
    }
  }

  ghost predicate LineHolds(rd: Reader, c: seq<string>, width: nat, reading: Reading) {
    RowsHold(rd, if Keeps(rd, c, width) then [c] else [], reading.row)
  }

  lemma {:induction false} TallyKept(rd: Reader, lines: seq<seq<string>>, width: nat, readings: seq<Reading>)
    requires |readings| == |lines| && forall i :: 0 <= i < |lines| ==> LineHolds(rd, lines[i], width, readings[i])
    ensures RowsHold(rd, KeptLines(rd, lines, width), TallyOf(readings).rows)
  {
    if |lines| > 0 {
      var n := |lines| - 1;
      TallyKept(rd, lines[..n], width, readings[..n]);
      assert LineHolds(rd, lines[n], width, readings[n]);
      JoinRows(rd, KeptLines(rd, lines[..n], width), TallyOf(readings[..n]).rows,
               if Keeps(rd, lines[n], width) then [lines[n]] else [], readings[n].row);
    }
  }

  lemma {:induction false} JoinRows(rd: Reader, a: seq<seq<string>>, x: seq<Row>, b: seq<seq<string>>, y: seq<Row>)
    requires RowsHold(rd, a, x) && RowsHold(rd, b, y)
    ensures RowsHold(rd, a + b, x + y)
  {
  }

  /** The rows returned are those of the lines that are kept, in order, and they say
      what the cells say. */
  lemma {:induction false} RowsExactly(rd: Reader, table: seq<seq<string>>)
    ensures if HeaderOk(table)
            then RowsHold(rd, KeptLines(rd, table[1..], |table[0]| - 7), ReadTable(rd, table).1)
            else ReadTable(rd, table) == ([Complaint(1, BadHeader)], [])
  {
    if HeaderOk(table) {
      var lines, width := table[1..], |table[0]| - 7;
      forall i | 0 <= i < |lines| ensures LineHolds(rd, lines[i], width, Readings(rd, lines, width)[i]) {
        LineKept(rd, lines[i], width);
      }
      TallyKept(rd, lines, width, Readings(rd, lines, width));
    }
  }
}
