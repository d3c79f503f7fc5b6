/** The table of result rows: the printer pads the ragged lists of duplicate
    arrivals to one width, and an independent strict reader checks every cell. */
module ResultRows {
  import opened Basics
  import opened Decimal
  import opened Timestamps
  import opened Wire
  import opened ResultMerge

  const BASE: seq<string> := ["seq", "ts_sent", "ts_rcvd", "owd_ms", "size", "lost", "dup_count"]

  function ExtraNames(n: nat): (names: seq<string>)
    ensures |names| == n
  {
    seq(n, i requires 0 <= i < n => "ts_rcvd_" + FormatNat(i + 1))
  }

  // ----- Printer -----

  /** Clock faces of the two hosts, and the library's rendering of milliseconds. */
  datatype Printer = Printer(sent: Face, rcvd: Face, ms: int -> string)

  function MaxDups(results: seq<MsgResult>): nat {
    if |results| == 0 then 0
    else Max(MaxDups(results[..|results| - 1]), |results[|results| - 1].tsRcvdDups|)
  }

  function RcvdText(p: Printer, t: int): string { if t == ZERO_TIME then "" else Stamp(p.rcvd, t) }

  function DupTexts(p: Printer, dups: seq<int>, width: nat): (cells: seq<string>)
    ensures |cells| == width
  {
    seq(width, n requires 0 <= n < width => if n < |dups| then RcvdText(p, dups[n]) else "")
  }

  function BoolText(b: bool): string { if b then "true" else "false" }

  function BaseCells(p: Printer, r: MsgResult): (cells: seq<string>)
    ensures |cells| == 7
  {
    [FormatNat(r.seqNo), Stamp(p.sent, r.tsSent), RcvdText(p, r.tsRcvd), if r.lost then "" else p.ms(r.owd),
     FormatNat(r.len), BoolText(r.lost), FormatNat(|r.tsRcvdDups|)]
  }

  function RowText(p: Printer, r: MsgResult, width: nat): (cells: seq<string>)
    ensures |cells| == 7 + width
  {
    BaseCells(p, r) + DupTexts(p, r.tsRcvdDups, width)
  }

  /** The rectangular table: the header, then one row per result. */
  function Table(p: Printer, results: seq<MsgResult>): (t: seq<seq<string>>)
    ensures |t| == 1 + |results|
    ensures forall i :: 0 <= i < |t| ==> |t[i]| == 7 + MaxDups(results)
  {
    var width := MaxDups(results);
    [BASE + ExtraNames(width)] +
    seq(|results|, i requires 0 <= i < |results| => RowText(p, results[i], width))
  }

  method WidestDups(results: seq<MsgResult>) returns (maxDups: nat)
    ensures maxDups == MaxDups(results)
  {
    maxDups := 0;
    for i := 0 to |results|
      invariant maxDups == MaxDups(results[..i])
    {
      assert results[..i + 1][..i] == results[..i];
      if |results[i].tsRcvdDups| > maxDups {
        maxDups := |results[i].tsRcvdDups|;
      }
    }
    assert results[..|results|] == results;
  }

  method PrintRow(p: Printer, r: MsgResult, maxDups: nat) returns (row: seq<string>)
    ensures row == RowText(p, r, maxDups)
  {
    row := BaseCells(p, r);
    for n := 0 to maxDups
      invariant row == BaseCells(p, r) + DupTexts(p, r.tsRcvdDups, maxDups)[..n]
    {
      var ts := "";
      if n < |r.tsRcvdDups| && r.tsRcvdDups[n] != ZERO_TIME {
        ts := Stamp(p.rcvd, r.tsRcvdDups[n]);
      }
      row := row + [ts];
    }
  }

  method GenerateUDPResultRows(p: Printer, results: seq<MsgResult>) returns (rows: seq<seq<string>>)
    ensures rows == Table(p, results)
  {
    var maxDups := WidestDups(results);
    var header := BASE;
    for n := 1 to maxDups + 1
      invariant header == BASE + ExtraNames(maxDups)[..n - 1]
    {
      header := header + ["ts_rcvd_" + FormatNat(n)];
    }
    rows := [header];
    assert header == Table(p, results)[0];
    for i := 0 to |results|
      invariant rows == Table(p, results)[..1 + i]
    {
      var row := PrintRow(p, results[i], maxDups);
      assert row == Table(p, results)[1 + i];
      rows := rows + [row];
    }
  }

  // ----- Strict reader -----

  datatype Reader = Reader(iso: FromIso, float: string -> Option<real>)

  datatype Row = Row(
    seqNo: int, tsSent: DateTime, tsRcvd: Option<DateTime>, owdMs: Option<real>, size: int, lost: bool)

  datatype Problem =
    | BadHeader | BadWidth | BadValue | BadLost | DupCountRange | DupPattern | LostWithDups
    | NotChronological | MixedZones | LostWithArrival | MissingArrival | ColumnCount

  datatype Complaint = Complaint(line: nat, problem: Problem)

  datatype Parsed = Parsed(row: Row, dupCount: int, extras: seq<Option<DateTime>>)

  /** An empty cell is no timestamp; anything else must be one. */
  predicate StampCell(iso: FromIso, cell: string) { cell == "" || iso(cell).Some? }

  function StampOf(iso: FromIso, cell: string): Option<DateTime> { if cell == "" then None else iso(cell) }

  predicate StampCells(iso: FromIso, cells: seq<string>) { forall i :: 0 <= i < |cells| ==> StampCell(iso, cells[i]) }

  function StampsOf(iso: FromIso, cells: seq<string>): (stamps: seq<Option<DateTime>>)
    ensures |stamps| == |cells|
  {
    seq(|cells|, i requires 0 <= i < |cells| => StampOf(iso, cells[i]))
  }

  /** None if some cell holds an invalid value. */
  function ParseCells(rd: Reader, c: seq<string>): Option<Parsed>
    requires |c| >= 7
  {
    var seqNo, sent, size, dups := ParseInt(c[0]), rd.iso(c[1]), ParseInt(c[4]), ParseInt(c[6]);
    var owd := if c[3] == "" then None else rd.float(c[3]);
    if seqNo.None? || sent.None? || size.None? || dups.None? || (c[3] != "" && owd.None?)
       || !StampCell(rd.iso, c[2]) || !StampCells(rd.iso, c[7..]) then None
    else Some(Parsed(
                Row(seqNo.value, sent.value, StampOf(rd.iso, c[2]), owd, size.value, c[5] == "true"),
                dups.value, StampsOf(rd.iso, c[7..])))
  }

  /** Where a slice up to d ends; a negative d counts from the back. */
  function SliceEnd(d: int, len: nat): nat { if d < 0 then Monus(len, -d) else Min(d, len) }

  predicate DupsMatchCount(x: Parsed) {
    var end := SliceEnd(x.dupCount, |x.extras|);
    && (forall i :: 0 <= i < end ==> x.extras[i].Some?)
    && (forall i :: end <= i < |x.extras| ==> x.extras[i].None?)
  }

  function NonEmpty(cells: seq<string>): seq<string> {
    if |cells| == 0 then [] else (if cells[0] == "" then [] else [cells[0]]) + NonEmpty(cells[1..])
  }

  function KeysOf(iso: FromIso, cells: seq<string>): seq<Key> {
    if |cells| == 0 then []
    else (match ArrivalKey(iso, cells[0]) case None => [] case Some(k) => [k]) + KeysOf(iso, cells[1..])
  }

  /** The first neighbours that cannot be compared or are out of order decide. */
  function OrderProblem(keys: seq<Key>): seq<Problem> {
    if |keys| < 2 then []
    else if !Comparable(keys[0], keys[1]) then [MixedZones]
    else if KeyAfter(keys[0], keys[1]) then [NotChronological]
    else OrderProblem(keys[1..])
  }

  function Check(broken: bool, problem: Problem): seq<Problem> { if broken then [problem] else [] }

  predicate LostYetDuplicated(x: Parsed) {
    x.row.lost && (x.dupCount != 0 || exists i :: 0 <= i < |x.extras| && x.extras[i].Some?)
  }

  predicate LostButArrived(x: Parsed) { x.row.lost && (x.row.tsRcvd.Some? || x.row.owdMs.Some?) }

  predicate ReceivedButMissing(x: Parsed) { !x.row.lost && (x.row.tsRcvd.None? || x.row.owdMs.None?) }

  /** Checks on a parsed line, given its cell for `lost` and its receive times. */
  function RowProblems(rd: Reader, lost: string, arrivals: seq<string>, x: Parsed): seq<Problem> {
    Check(lost != "true" && lost != "false", BadLost)
    + Check(x.dupCount < 0 || x.dupCount > |x.extras|, DupCountRange)
    + Check(!DupsMatchCount(x), DupPattern)
    + Check(LostYetDuplicated(x), LostWithDups)
    + OrderProblem(KeysOf(rd.iso, NonEmpty(arrivals)))
    + Check(LostButArrived(x), LostWithArrival)
    + Check(ReceivedButMissing(x), MissingArrival)
  }

  /** What the reader makes of one line: complaints, the row unless it is dropped,
      and its duplicate count. */
  datatype Reading = Reading(problems: seq<Problem>, row: seq<Row>, dups: int)

  function ReadLine(rd: Reader, c: seq<string>, width: nat): Reading {
    if |c| == 0 then Reading([], [], 0)
    else if |c| != 7 + width then Reading([BadWidth], [], 0)
    else match ParseCells(rd, c)
      case None => Reading([BadValue], [], 0)
      case Some(x) =>
        var kept := if LostButArrived(x) || ReceivedButMissing(x) then [] else [x.row];
        Reading(RowProblems(rd, c[5], [c[2]] + c[7..], x), kept, x.dupCount)
  }

  function Complaints(line: nat, problems: seq<Problem>): seq<Complaint> {
    seq(|problems|, i requires 0 <= i < |problems| => Complaint(line, problems[i]))
  }

  datatype Tally = Tally(errors: seq<Complaint>, rows: seq<Row>, maxDups: int)

  function Counted(t: Tally, line: nat, reading: Reading): Tally {
    Tally(t.errors + Complaints(line, reading.problems), t.rows + reading.row, Max(t.maxDups, reading.dups))
  }

  function Readings(rd: Reader, lines: seq<seq<string>>, width: nat): (r: seq<Reading>)
    ensures |r| == |lines| && forall i :: 0 <= i < |r| ==> r[i] == ReadLine(rd, lines[i], width)
  {
    seq(|lines|, i requires 0 <= i < |lines| => ReadLine(rd, lines[i], width))
  }

  /** Everything read below the header, whose first line is line 2. */
  function TallyOf(readings: seq<Reading>): (t: Tally)
    ensures t.maxDups >= 0
  {
    if |readings| == 0 then Tally([], [], 0)
    else
      var last := |readings| - 1;
      Counted(TallyOf(readings[..last]), last + 2, readings[last])
  }

  predicate HeaderOk(table: seq<seq<string>>) {
    |table| > 0 && |table[0]| >= 7 && table[0] == BASE + ExtraNames(|table[0]| - 7)
  }

  /** Complaints and rows for a whole table. */
  function ReadTable(rd: Reader, table: seq<seq<string>>): (seq<Complaint>, seq<Row>) {
    if !HeaderOk(table) then ([Complaint(1, BadHeader)], [])
    else
      var width := |table[0]| - 7;
      var t := TallyOf(Readings(rd, table[1..], width));
      (t.errors + Complaints(|table|, Check(width != t.maxDups, ColumnCount)), t.rows)
  }

  /** The body of the reader's loop. */
  method CheckLine(rd: Reader, c: seq<string>, width: nat) returns (reading: Reading)
    ensures reading == ReadLine(rd, c, width)
  {
    if |c| == 0 {
      return Reading([], [], 0);
    }
    if |c| != 7 + width {
      return Reading([BadWidth], [], 0);
    }
    var parsed := ParseCells(rd, c);
    if parsed.None? {
      return Reading([BadValue], [], 0);
    }
    var x := parsed.value;
    var problems := RowProblems(rd, c[5], [c[2]] + c[7..], x);
    if LostButArrived(x) || ReceivedButMissing(x) {
      return Reading(problems, [], x.dupCount);
    }
    return Reading(problems, [x.row], x.dupCount);
  }

  method ReadBody(rd: Reader, lines: seq<seq<string>>, width: nat) returns (t: Tally)
    ensures t == TallyOf(Readings(rd, lines, width))
  {
    ghost var readings := Readings(rd, lines, width);
    t := Tally([], [], 0);
    for i := 0 to |lines|
      invariant t == TallyOf(readings[..i])
    {
      assert readings[..i + 1][..i] == readings[..i];
      var reading := CheckLine(rd, lines[i], width);
      t := Counted(t, i + 2, reading);
    }
    assert readings[..|lines|] == readings;
  }

  method ParseRows(rd: Reader, table: seq<seq<string>>) returns (errors: seq<Complaint>, rows: seq<Row>)
    ensures (errors, rows) == ReadTable(rd, table)
  {
    if !HeaderOk(table) {
      return [Complaint(1, BadHeader)], [];
    }
    var width := |table[0]| - 7;
    var t := ReadBody(rd, table[1..], width);
    errors, rows := t.errors + Complaints(|table|, Check(width != t.maxDups, ColumnCount)), t.rows;
  }

  // ----- Agreement -----

  /** Assumptions on the libraries: timestamps of the seconds [from, until) and
      rendered durations can be read back. */
  ghost predicate Readable(p: Printer, rd: Reader, from: int, until: int) {
    && ReadsBack(rd.iso, p.sent, from, until) && ReadsBack(rd.iso, p.rcvd, from, until)
    && forall d :: p.ms(d) != "" && rd.float(p.ms(d)).Some?
  }

  predicate Within(t: int, from: int, until: int) { from <= Seconds(t) < until }

  /** What the merge guarantees of a row, apart from its origin. */
  ghost predicate Sane(r: MsgResult) {
    && Chronological(Arrivals(r))
    && (r.lost ==> r.tsRcvd == ZERO_TIME && r.tsRcvdDups == [])
  }

  ghost predicate PrintableRow(r: MsgResult, from: int, until: int) {
    && Within(r.tsSent, from, until)
    && forall t <- Arrivals(r) :: t == ZERO_TIME || Within(t, from, until)
  }

  predicate NoZero(r: MsgResult) { ZERO_TIME !in Arrivals(r) }

  function Seen(t: int): Option<DateTime> { if t == ZERO_TIME then None else Some(DateTime(t / 1000, true)) }

  /** The reader's view of a printed result. */
  function ExpectedRow(p: Printer, rd: Reader, r: MsgResult): Row {
    Row(r.seqNo, DateTime(r.tsSent / 1000, true), Seen(r.tsRcvd), if r.lost then None else rd.float(p.ms(r.owd)),
        r.len, r.lost)
  }

  function ExpectedExtras(dups: seq<int>, width: nat): (e: seq<Option<DateTime>>)
    ensures |e| == width
  {
    seq(width, n requires 0 <= n < width => if n < |dups| then Seen(dups[n]) else None)
  }

  function ExpectedParse(p: Printer, rd: Reader, r: MsgResult, width: nat): Parsed {
    Parsed(ExpectedRow(p, rd, r), |r.tsRcvdDups|, ExpectedExtras(r.tsRcvdDups, width))
  }

  lemma {:induction false} StampCellRead(p: Printer, rd: Reader, from: int, until: int, t: int)
    requires Readable(p, rd, from, until) && (t == ZERO_TIME || Within(t, from, until))
    ensures StampCell(rd.iso, RcvdText(p, t)) && StampOf(rd.iso, RcvdText(p, t)) == Seen(t)
    ensures RcvdText(p, t) == "" <==> t == ZERO_TIME
  {
    if t != ZERO_TIME {
      KeyOfStamp(rd.iso, p.rcvd, from, until, t);
      assert Legible(p.rcvd, Seconds(t));
    }
  }

  lemma {:induction false} ArrivalTimes(r: MsgResult)
    requires Sane(r)
    ensures forall t <- r.tsRcvdDups :: t in Arrivals(r)
    ensures r.tsRcvd == ZERO_TIME || r.tsRcvd in Arrivals(r)
    ensures NoZero(r) <==> r.lost || (r.tsRcvd != ZERO_TIME && ZERO_TIME !in r.tsRcvdDups)
  {
  }

  lemma {:induction false} ExtrasRead(p: Printer, rd: Reader, from: int, until: int, dups: seq<int>, width: nat)
    requires Readable(p, rd, from, until)
    requires forall t <- dups :: t == ZERO_TIME || Within(t, from, until)
    ensures StampCells(rd.iso, DupTexts(p, dups, width))
    ensures StampsOf(rd.iso, DupTexts(p, dups, width)) == ExpectedExtras(dups, width)
  {
    forall n | 0 <= n < width
      ensures StampCell(rd.iso, DupTexts(p, dups, width)[n])
      ensures StampOf(rd.iso, DupTexts(p, dups, width)[n]) == ExpectedExtras(dups, width)[n]
    {
      if n < |dups| {
        StampCellRead(p, rd, from, until, dups[n]);
      }
    }
  }

  /** Every printed row is parsed, to the values that were printed. */
  lemma {:induction false} RowParses(p: Printer, rd: Reader, from: int, until: int, r: MsgResult, width: nat)
    requires Readable(p, rd, from, until) && Sane(r) && PrintableRow(r, from, until)
    ensures ParseCells(rd, RowText(p, r, width)) == Some(ExpectedParse(p, rd, r, width))
  {
    var c := RowText(p, r, width);
    ArrivalTimes(r);
    FormatParse(r.seqNo);
    FormatParse(r.len);
    FormatParse(|r.tsRcvdDups|);
    KeyOfStamp(rd.iso, p.sent, from, until, r.tsSent);
    StampCellRead(p, rd, from, until, r.tsRcvd);
    ExtrasRead(p, rd, from, until, r.tsRcvdDups, width);
    assert c[7..] == DupTexts(p, r.tsRcvdDups, width);
  }

  // ----- Arrival order -----

  function Texts(p: Printer, times: seq<int>): (cells: seq<string>)
    ensures |cells| == |times|
  {
    seq(|times|, i requires 0 <= i < |times| => RcvdText(p, times[i]))
  }

  lemma {:induction false} NonEmptyOfPadded(cells: seq<string>, filled: nat)
    requires filled <= |cells|
    requires forall i :: 0 <= i < filled ==> cells[i] != ""
    requires forall i :: filled <= i < |cells| ==> cells[i] == ""
    ensures NonEmpty(cells) == cells[..filled]
  {
    if |cells| > 0 {
      NonEmptyOfPadded(cells[1..], Monus(filled, 1));
    }
  }

  /** The keys of chronological printed times raise no complaint. */
  lemma {:induction false} KeysInOrder(p: Printer, rd: Reader, from: int, until: int, times: seq<int>)
    requires Readable(p, rd, from, until) && Chronological(times)
    requires forall t <- times :: t != ZERO_TIME && Within(t, from, until)
    ensures |KeysOf(rd.iso, Texts(p, times))| == |times|
    ensures |times| > 0 ==> KeysOf(rd.iso, Texts(p, times))[0] == TimeKey(times[0])
    ensures OrderProblem(KeysOf(rd.iso, Texts(p, times))) == []
  {
    if |times| > 0 {
      var rest := times[1..];
      assert times[0] in times && forall t <- rest :: t in times;
      assert Texts(p, times)[1..] == Texts(p, rest);
      KeyOfStamp(rd.iso, p.rcvd, from, until, times[0]);
      KeysInOrder(p, rd, from, until, rest);
      var keys := KeysOf(rd.iso, Texts(p, times));
      assert keys[1..] == KeysOf(rd.iso, Texts(p, rest));
      if |rest| > 0 {
        KeyOrderIsTimeOrder(times[0], times[1]);
      }
    }
  }

  function ArrivalCells(p: Printer, r: MsgResult, width: nat): seq<string> {
    [RcvdText(p, r.tsRcvd)] + DupTexts(p, r.tsRcvdDups, width)
  }

  lemma {:induction false} NoOrderProblem(p: Printer, rd: Reader, from: int, until: int, r: MsgResult, width: nat)
    requires Readable(p, rd, from, until) && Sane(r) && PrintableRow(r, from, until) && NoZero(r)
    requires |r.tsRcvdDups| <= width
    ensures OrderProblem(KeysOf(rd.iso, NonEmpty(ArrivalCells(p, r, width)))) == []
  {
    var cells := ArrivalCells(p, r, width);
    var times := Arrivals(r);
    forall i | 0 <= i < |times| ensures cells[i] == Texts(p, times)[i] && cells[i] != "" {
      assert times[i] != ZERO_TIME;
      StampCellRead(p, rd, from, until, times[i]);
    }
    NonEmptyOfPadded(cells, |times|);
    assert cells[..|times|] == Texts(p, times);
    KeysInOrder(p, rd, from, until, times);
  }

  // ----- One row, all rows -----

  predicate Clean(x: Parsed) {
    DupsMatchCount(x) && !LostYetDuplicated(x) && !LostButArrived(x) && !ReceivedButMissing(x)
  }

  lemma {:induction false} ProblemsExactly(rd: Reader, lost: string, arrivals: seq<string>, x: Parsed)
    requires lost == BoolText(x.row.lost) && 0 <= x.dupCount <= |x.extras|
    ensures RowProblems(rd, lost, arrivals, x) == []
       <==> Clean(x) && OrderProblem(KeysOf(rd.iso, NonEmpty(arrivals))) == []
  {
  }

  lemma {:induction false} CleanExactly(p: Printer, rd: Reader, r: MsgResult, width: nat)
    requires Sane(r) && |r.tsRcvdDups| <= width && forall d :: rd.float(p.ms(d)).Some?
    ensures Clean(ExpectedParse(p, rd, r, width)) <==> NoZero(r)
  {
    var x := ExpectedParse(p, rd, r, width);
    ArrivalTimes(r);
    assert SliceEnd(x.dupCount, width) == |r.tsRcvdDups|;
    assert DupsMatchCount(x) <==> ZERO_TIME !in r.tsRcvdDups by {
      forall i | 0 <= i < |r.tsRcvdDups| ensures x.extras[i].None? <==> r.tsRcvdDups[i] == ZERO_TIME {
      }
    }
  }

  ghost predicate ReadAsPrinted(reading: Reading, p: Printer, rd: Reader, r: MsgResult) {
    && (reading.problems == [] <==> NoZero(r))
    && (NoZero(r) ==> reading.row == [ExpectedRow(p, rd, r)])
    && reading.dups == |r.tsRcvdDups|
  }

  /** A printed row draws a complaint exactly if one of its arrivals is the zero
      time, which the printer leaves blank. */
  lemma {:induction false} RowReads(p: Printer, rd: Reader, from: int, until: int, r: MsgResult, width: nat)
    requires Readable(p, rd, from, until) && Sane(r) && PrintableRow(r, from, until) && |r.tsRcvdDups| <= width
    ensures ReadAsPrinted(ReadLine(rd, RowText(p, r, width), width), p, rd, r)
  {
    var c := RowText(p, r, width);
    RowParses(p, rd, from, until, r, width);
    if NoZero(r) {
      NoOrderProblem(p, rd, from, until, r, width);
    }
    CleanExactly(p, rd, r, width);
    ProblemsExactly(rd, BoolText(r.lost), ArrivalCells(p, r, width), ExpectedParse(p, rd, r, width));
    ArrivalTimes(r);
    assert c[5] == BoolText(r.lost) && [c[2]] + c[7..] == ArrivalCells(p, r, width);
  }

  lemma {:induction false} MaxDupsBounds(results: seq<MsgResult>, n: nat)
    requires n <= |results|
    ensures MaxDups(results[..n]) <= MaxDups(results)
    ensures n < |results| ==> |results[n].tsRcvdDups| <= MaxDups(results)
    decreases |results| - n
  {
    if n < |results| {
      MaxDupsBounds(results, n + 1);
      assert results[..n + 1][..n] == results[..n];
    } else {
      assert results[..n] == results;
    }
  }

  ghost predicate Printable(results: seq<MsgResult>, from: int, until: int) {
    forall r <- results :: Sane(r) && PrintableRow(r, from, until)
  }

  function ExpectedRows(p: Printer, rd: Reader, results: seq<MsgResult>): (rows: seq<Row>)
    ensures |rows| == |results|
  {
    seq(|results|, i requires 0 <= i < |results| => ExpectedRow(p, rd, results[i]))
  }

  predicate NoZeros(results: seq<MsgResult>) { forall i :: 0 <= i < |results| ==> NoZero(results[i]) }

  /** The reader's tally: silent if every line is, all rows in order, the widest line. */
  lemma {:induction false} TallyErrors(readings: seq<Reading>)
    ensures TallyOf(readings).errors == [] <==> forall i :: 0 <= i < |readings| ==> readings[i].problems == []
  {
    if |readings| > 0 {
      var n := |readings| - 1;
      TallyErrors(readings[..n]);
      assert |Complaints(n + 2, readings[n].problems)| == |readings[n].problems|;
      assert forall i :: 0 <= i < n ==> readings[..n][i] == readings[i];
    }
  }

  lemma {:induction false} TallyRows(readings: seq<Reading>, rows: seq<Row>)
    requires |rows| == |readings| && forall i :: 0 <= i < |rows| ==> readings[i].row == [rows[i]]
    ensures TallyOf(readings).rows == rows
  {
    if |rows| > 0 {
      var n := |rows| - 1;
      TallyRows(readings[..n], rows[..n]);
      assert rows == rows[..n] + [rows[n]];
    }
  }

  lemma {:induction false} TallyDups(readings: seq<Reading>, results: seq<MsgResult>)
    requires |results| == |readings| && forall i :: 0 <= i < |results| ==> readings[i].dups == |results[i].tsRcvdDups|
    ensures TallyOf(readings).maxDups == MaxDups(results)
  {
    if |results| > 0 {
      TallyDups(readings[..|results| - 1], results[..|results| - 1]);
    }
  }

  ghost predicate AllAsPrinted(readings: seq<Reading>, p: Printer, rd: Reader, results: seq<MsgResult>) {
    |readings| == |results| && forall i :: 0 <= i < |readings| ==> ReadAsPrinted(readings[i], p, rd, results[i])
  }

  lemma {:induction false} PrintedLines(p: Printer, rd: Reader, from: int, until: int, results: seq<MsgResult>)
    requires Readable(p, rd, from, until) && Printable(results, from, until)
    ensures AllAsPrinted(Readings(rd, Table(p, results)[1..], MaxDups(results)), p, rd, results)
  {
    forall i | 0 <= i < |results|
      ensures ReadAsPrinted(Readings(rd, Table(p, results)[1..], MaxDups(results))[i], p, rd, results[i])
    {
      MaxDupsBounds(results, i);
      RowReads(p, rd, from, until, results[i], MaxDups(results));
      assert Table(p, results)[1..][i] == RowText(p, results[i], MaxDups(results));
    }
  }

  /** The strict reader accepts a printed table exactly if no arrival in it is the
      zero time, and then returns one row per result with the printed values. */
  lemma {:induction false} TableRead(p: Printer, rd: Reader, from: int, until: int, results: seq<MsgResult>)
    requires Readable(p, rd, from, until) && Printable(results, from, until)
    ensures var (errors, rows) := ReadTable(rd, Table(p, results));
            && (errors == [] <==> NoZeros(results))
            && (errors == [] ==> rows == ExpectedRows(p, rd, results))
  {
    var table := Table(p, results);
    assert table[0] == BASE + ExtraNames(MaxDups(results));
    PrintedLines(p, rd, from, until, results);
    TallyOfPrinted(p, rd, Readings(rd, table[1..], MaxDups(results)), results);
  }

  lemma {:induction false} TallyOfPrinted(p: Printer, rd: Reader, readings: seq<Reading>, results: seq<MsgResult>)
    requires AllAsPrinted(readings, p, rd, results)
    ensures TallyOf(readings).errors == [] <==> NoZeros(results)
    ensures NoZeros(results) ==> TallyOf(readings).rows == ExpectedRows(p, rd, results)
    ensures TallyOf(readings).maxDups == MaxDups(results)
  {
    TallyErrors(readings);
    TallyDups(readings, results);
    ProblemsOfPrinted(p, rd, readings, results);
    if NoZeros(results) {
      TallyRows(readings, ExpectedRows(p, rd, results));
    }
  }

  lemma {:induction false} ProblemsOfPrinted(p: Printer, rd: Reader, readings: seq<Reading>, results: seq<MsgResult>)
    requires AllAsPrinted(readings, p, rd, results)
    ensures (forall i :: 0 <= i < |readings| ==> readings[i].problems == []) <==> NoZeros(results)
  {
    forall i | 0 <= i < |results| ensures readings[i].problems == [] <==> NoZero(results[i]) {
      assert ReadAsPrinted(readings[i], p, rd, results[i]);
    }
  }

  // ----- From the received packets to the reader -----

  ghost predicate TimesWithin(sent: seq<MsgSent>, rcvd: seq<MsgRcvd>, from: int, until: int) {
    && (forall m <- sent :: Within(m.tsSent, from, until))
    && (forall x <- rcvd :: x.tsRcvd == ZERO_TIME || Within(x.tsRcvd, from, until))
  }

  /** Some copy of a sent packet carries the zero time. */
  ghost predicate ZeroArrival(rcvd: seq<MsgRcvd>, n: nat) {
    exists i :: 0 <= i < |rcvd| && rcvd[i].seqNo < n && rcvd[i].tsRcvd == ZERO_TIME
  }

  lemma {:induction false} CopyOrigin(rcvd: seq<MsgRcvd>, k: nat, t: int)
    ensures t in Copies(rcvd, k) <==> exists i :: 0 <= i < |rcvd| && rcvd[i].seqNo == k && rcvd[i].tsRcvd == t
  {
    if |rcvd| > 0 {
      CopyOrigin(rcvd[1..], k, t);
      assert forall i :: 0 < i < |rcvd| ==> rcvd[i] == rcvd[1..][i - 1];
    }
  }

  lemma {:induction false} ArrivalOrigin(r: MsgResult, m: MsgSent, rcvd: seq<MsgRcvd>, k: nat, t: int)
    requires IsRow(r, m, multiset(Copies(rcvd, k)), k)
    ensures t in Arrivals(r) <==> exists i :: 0 <= i < |rcvd| && rcvd[i].seqNo == k && rcvd[i].tsRcvd == t
  {
    CopyOrigin(rcvd, k, t);
    assert t in multiset(Arrivals(r)) <==> t in multiset(Copies(rcvd, k));
  }

  lemma {:induction false} MergedIsPrintable(sent: seq<MsgSent>, rcvd: seq<MsgRcvd>, results: seq<MsgResult>,
                                             from: int, until: int)
    requires Grouped(results, sent, rcvd) && TimesWithin(sent, rcvd, from, until)
    ensures Printable(results, from, until)
  {
    forall k | 0 <= k < |results| ensures Sane(results[k]) && PrintableRow(results[k], from, until) {
      assert sent[k] in sent;
      RowIsPrintable(results[k], sent[k], rcvd, k, from, until);
    }
  }

  lemma {:induction false} RowIsPrintable(r: MsgResult, m: MsgSent, rcvd: seq<MsgRcvd>, k: nat, from: int, until: int)
    requires IsRow(r, m, multiset(Copies(rcvd, k)), k) && Within(m.tsSent, from, until)
    requires forall x <- rcvd :: x.tsRcvd == ZERO_TIME || Within(x.tsRcvd, from, until)
    ensures Sane(r) && PrintableRow(r, from, until)
  {
    forall t | t in Arrivals(r) ensures t == ZERO_TIME || Within(t, from, until) {
      ArrivalOrigin(r, m, rcvd, k, t);
      var i :| 0 <= i < |rcvd| && rcvd[i].seqNo == k && rcvd[i].tsRcvd == t;
      assert rcvd[i] in rcvd;
    }
  }

  lemma {:induction false} ZeroArrivalShows(sent: seq<MsgSent>, rcvd: seq<MsgRcvd>, results: seq<MsgResult>)
    requires Grouped(results, sent, rcvd)
    ensures NoZeros(results) <==> !ZeroArrival(rcvd, |sent|)
  {
    forall k | 0 <= k < |results|
      ensures NoZero(results[k]) <==> !exists i :: 0 <= i < |rcvd| && rcvd[i].seqNo == k && rcvd[i].tsRcvd == ZERO_TIME
    {
      assert IsRow(results[k], sent[k], multiset(Copies(rcvd, k)), k);
      ArrivalOrigin(results[k], sent[k], rcvd, k, ZERO_TIME);
    }
    if ZeroArrival(rcvd, |sent|) {
      var i :| 0 <= i < |rcvd| && rcvd[i].seqNo < |sent| && rcvd[i].tsRcvd == ZERO_TIME;
      assert !NoZero(results[rcvd[i].seqNo]);
    }
  }

  /** Merging, printing and reading back: the strict reader is silent exactly if
      no copy of a sent packet carries the zero time, and then has one row per
      sent packet with its number, size, times and fate. */
  lemma {:induction false} ReaderAgreesWithPrinter(
    p: Printer, rd: Reader, from: int, until: int, sent: seq<MsgSent>, rcvd: seq<MsgRcvd>, results: seq<MsgResult>)
    requires Readable(p, rd, from, until) && TimesWithin(sent, rcvd, from, until)
    requires Grouped(results, sent, rcvd)
    ensures ReadTable(rd, Table(p, results)).0 == [] <==> !ZeroArrival(rcvd, |sent|)
    ensures !ZeroArrival(rcvd, |sent|) ==>
              (var rows := ReadTable(rd, Table(p, results)).1;
               && |rows| == |sent|
               && forall k :: 0 <= k < |sent| ==> TellsFate(p, rd, sent[k], Copies(rcvd, k), k, rows[k]))
  {
    MergedIsPrintable(sent, rcvd, results, from, until);
    ZeroArrivalShows(sent, rcvd, results);
    TableRead(p, rd, from, until, results);
    if NoZeros(results) {
      forall k | 0 <= k < |sent|
        ensures TellsFate(p, rd, sent[k], Copies(rcvd, k), k, ExpectedRow(p, rd, results[k]))
      {
        assert IsRow(results[k], sent[k], multiset(Copies(rcvd, k)), k);
        RowTellsFate(p, rd, results[k], sent[k], Copies(rcvd, k), k);
      }
    }
  }

  /** The row read for the k-th sent packet has its number, size and send time; it is
      lost if no copy arrived, and otherwise has the time and delay of the first. */
  ghost predicate TellsFate(p: Printer, rd: Reader, m: MsgSent, copies: seq<int>, k: nat, row: Row) {
    && row.seqNo == k && row.size == m.len && row.tsSent == DateTime(m.tsSent / 1000, true)
    && (row.lost <==> copies == [])
    && (row.lost ==> row.tsRcvd.None? && row.owdMs.None?)
    && (!row.lost ==> exists t :: FirstArrival(p, rd, m, copies, row, t))
  }

  ghost predicate FirstArrival(p: Printer, rd: Reader, m: MsgSent, copies: seq<int>, row: Row, t: int) {
    && t in copies && (forall u <- copies :: t <= u)
    && row.tsRcvd == Some(DateTime(t / 1000, true)) && row.owdMs == rd.float(p.ms(t - m.tsSent))
  }

  lemma {:induction false} RowTellsFate(p: Printer, rd: Reader, r: MsgResult, m: MsgSent, copies: seq<int>, k: nat)
    requires IsRow(r, m, multiset(copies), k) && NoZero(r)
    ensures TellsFate(p, rd, m, copies, k, ExpectedRow(p, rd, r))
  {
    RowAccountsForCopies(r, m, copies, k);
    if !r.lost {
      assert r.tsRcvd == Arrivals(r)[0];
      assert r.tsRcvd in multiset(Arrivals(r));
      forall u <- copies ensures r.tsRcvd <= u {
        assert u in multiset(copies) && u in multiset(Arrivals(r));
      }
      assert FirstArrival(p, rd, m, copies, ExpectedRow(p, rd, r), r.tsRcvd);
    }
  }

  /** The three programs in a row. */
  method MergePrintRead(p: Printer, rd: Reader, sent: seq<MsgSent>, rcvd: array<MsgRcvd>, ghost from: int,
                        ghost until: int)
    returns (errors: seq<Complaint>, rows: seq<Row>)
    requires Readable(p, rd, from, until) && TimesWithin(sent, rcvd[..], from, until)
    modifies rcvd
    ensures errors == [] <==> !ZeroArrival(old(rcvd[..]), |sent|)
    ensures errors == [] ==> |rows| == |sent|
    ensures errors == [] ==>
              forall k :: 0 <= k < |sent| ==> TellsFate(p, rd, sent[k], Copies(old(rcvd[..]), k), k, rows[k])
  {
    ghost var arrived := rcvd[..];
    var results := ProcessUDP(sent, rcvd);
    var table := GenerateUDPResultRows(p, results);
    errors, rows := ParseRows(rd, table);
    ReaderAgreesWithPrinter(p, rd, from, until, sent, arrived, results);
  }
}
