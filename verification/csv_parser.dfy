/** Row extraction from an uploaded sheet and the even split of the rows across the five
    agents of a workspace (src/lib/csvParser.ts). */
module CsvParser {
  import opened Wrappers
  import opened Text
  import opened Grouping

  /** A sheet as `sheet_to_json(worksheet, { header: 1 })` returns it: rows of cell texts,
      the first row being the header. A blank or absent cell is "". */
  type Sheet = seq<seq<string>>

  /** One extracted record (`CSVRow`). */
  datatype CsvRow = CsvRow(firstName: string, phone: string, notes: string)

  datatype ParseError = FileEmpty | MissingColumns | NoValidRows

  /** The message of the `Error` that `parseCSVFile` throws. */
  function ParseErrorMessage(e: ParseError): string {
    match e
    case FileEmpty => "File is empty"
    case MissingColumns => "Required columns (FirstName, Phone) not found in file"
    case NoValidRows => "No valid data rows found in file"
  }

  // ---------------------------------------------------------------------------------------
  // Header matching

  /** A header names the first-name column when its lower-cased text contains "firstname"
      or "first name". */
  predicate IsFirstNameHeader(h: string) {
    var l := ToLower(h);
    Contains(l, "firstname") || Contains(l, "first name")
  }

  /** A header names the phone column when its lower-cased text contains "phone" or "mobile". */
  predicate IsPhoneHeader(h: string) {
    var l := ToLower(h);
    Contains(l, "phone") || Contains(l, "mobile")
  }

  /** A header names the notes column when its lower-cased text contains "notes" or "note". */
  predicate IsNotesHeader(h: string) {
    var l := ToLower(h);
    Contains(l, "notes") || Contains(l, "note")
  }

  /** The "notes" alternative adds nothing: a header names the notes column exactly when it
      contains "note". */
  lemma NotesHeaderIsNote(h: string)
    ensures IsNotesHeader(h) <==> Contains(ToLower(h), "note")
  {
    var l := ToLower(h);
    if Contains(l, "notes") {
      assert "notes" == "note" + "s";
      ContainsPrefix(l, "note", "s");
    }
  }

  /** `headers.findIndex(p)`: the first position whose header satisfies `p`, or -1. */
  function FindIndex(headers: seq<string>, p: string -> bool): (r: int)
    ensures -1 <= r < |headers|
    ensures r == -1 <==> forall i :: 0 <= i < |headers| ==> !p(headers[i])
    ensures 0 <= r ==> p(headers[r]) && forall i :: 0 <= i < r ==> !p(headers[i])
  {
    if headers == [] then -1
    else if p(headers[0]) then 0
    else
      var r := FindIndex(headers[1..], p);
      if r == -1 then -1 else r + 1
  }

  // ---------------------------------------------------------------------------------------
  // Row extraction

  /** `row[i]` read as text; a position past the end of the row reads as "" (`undefined`). */
  function Cell(row: seq<string>, i: int): string {
    if 0 <= i < |row| then row[i] else ""
  }

  /** The loop's `continue` test negated: the row is non-empty and its raw first-name and
      phone cells are truthy. The test looks at the cells before trimming. */
  predicate KeepsRow(row: seq<string>, firstNameIndex: int, phoneIndex: int) {
    !(|row| == 0 || Cell(row, firstNameIndex) == "" || Cell(row, phoneIndex) == "")
  }

  /** The record pushed for a kept row: trimmed cells, and "" for notes when there is no
      notes column or the cell is empty. */
  function ExtractRow(row: seq<string>, firstNameIndex: int, phoneIndex: int, notesIndex: int): (r: CsvRow)
    ensures IsTrimmed(r.firstName) && IsTrimmed(r.phone) && IsTrimmed(r.notes)
    ensures notesIndex == -1 ==> r.notes == ""
  {
    CsvRow(Trim(Cell(row, firstNameIndex)), Trim(Cell(row, phoneIndex)),
           if notesIndex != -1 then Trim(Cell(row, notesIndex)) else "")
  }

  /** The records extracted from the data rows, in file order. */
  function ExtractAll(rows: seq<seq<string>>, firstNameIndex: int, phoneIndex: int, notesIndex: int): (r: seq<CsvRow>)
    ensures |r| <= |rows|
  {
    if rows == [] then []
    else
      var last := rows[|rows| - 1];
      ExtractAll(rows[..|rows| - 1], firstNameIndex, phoneIndex, notesIndex)
        + if KeepsRow(last, firstNameIndex, phoneIndex)
          then [ExtractRow(last, firstNameIndex, phoneIndex, notesIndex)] else []
  }

  /** Extraction works row by row and keeps file order: it distributes over concatenation. */
  lemma {:induction false} ExtractAllAppend(a: seq<seq<string>>, b: seq<seq<string>>, fi: int, pi: int, ni: int)
    ensures ExtractAll(a + b, fi, pi, ni) == ExtractAll(a, fi, pi, ni) + ExtractAll(b, fi, pi, ni)
    decreases |b|
  {
    if b == [] {
      assert a + b == a;
    } else {
      var b' := b[..|b| - 1];
      assert (a + b)[..|a + b| - 1] == a + b';
      ExtractAllAppend(a, b', fi, pi, ni);
    }
  }

  /** A single row yields its record exactly when it is kept, and nothing otherwise. */
  lemma ExtractOne(row: seq<string>, fi: int, pi: int, ni: int)
    ensures ExtractAll([row], fi, pi, ni)
      == if KeepsRow(row, fi, pi) then [ExtractRow(row, fi, pi, ni)] else []
  {
    assert [row][..0] == [];
  }

  /** Every extracted record comes from a kept row and has trimmed fields; the number of
      records is the number of kept rows. */
  lemma {:induction false} ExtractAllSound(rows: seq<seq<string>>, fi: int, pi: int, ni: int)
    ensures |ExtractAll(rows, fi, pi, ni)| == |Filter(rows, row => KeepsRow(row, fi, pi))|
    ensures forall x :: x in ExtractAll(rows, fi, pi, ni) ==>
      IsTrimmed(x.firstName) && IsTrimmed(x.phone) && IsTrimmed(x.notes)
      && exists row :: row in rows && KeepsRow(row, fi, pi) && x == ExtractRow(row, fi, pi, ni)
  {
    if rows != [] {
      var p := rows[..|rows| - 1];
      ExtractAllSound(p, fi, pi, ni);
      forall x | x in ExtractAll(p, fi, pi, ni)
        ensures exists row :: row in rows && KeepsRow(row, fi, pi) && x == ExtractRow(row, fi, pi, ni)
      {
        var row :| row in p && KeepsRow(row, fi, pi) && x == ExtractRow(row, fi, pi, ni);
        assert row in rows;
      }
    }
  }

  /** Nothing is extracted exactly when no data row is kept. */
  lemma {:induction false} ExtractAllEmpty(rows: seq<seq<string>>, fi: int, pi: int, ni: int)
    ensures ExtractAll(rows, fi, pi, ni) == [] <==> forall row :: row in rows ==> !KeepsRow(row, fi, pi)
  {
    if rows != [] {
      var p := rows[..|rows| - 1];
      ExtractAllEmpty(p, fi, pi, ni);
      assert forall row :: row in rows <==> row in p || row == rows[|rows| - 1];
    }
  }

  function FirstNameIndex(headers: seq<string>): int { FindIndex(headers, IsFirstNameHeader) }
  function PhoneIndex(headers: seq<string>): int { FindIndex(headers, IsPhoneHeader) }
  function NotesIndex(headers: seq<string>): int { FindIndex(headers, IsNotesHeader) }

  /** Both required columns were found in the header row. */
  predicate HasRequiredColumns(headers: seq<string>) {
    FirstNameIndex(headers) != -1 && PhoneIndex(headers) != -1
  }

  /** The records extracted from the data rows of a sheet with a header row. */
  function Extracted(sheet: Sheet): seq<CsvRow>
    requires |sheet| > 0
  {
    ExtractAll(sheet[1..], FirstNameIndex(sheet[0]), PhoneIndex(sheet[0]), NotesIndex(sheet[0]))
  }

  /** The error `parseCSVFile` throws for this sheet, if any, in the order its checks run. */
  function ParseFailure(sheet: Sheet): Option<ParseError> {
    if |sheet| == 0 then Some(FileEmpty)
    else if !HasRequiredColumns(sheet[0]) then Some(MissingColumns)
    else if Extracted(sheet) == [] then Some(NoValidRows)
    else None
  }

  /** `parseCSVFile` from the point where the sheet has been read. */
  method ParseCsvFile(sheet: Sheet) returns (r: Result<seq<CsvRow>, ParseError>)
    ensures r == Failure(FileEmpty) <==> |sheet| == 0
    ensures r == Failure(MissingColumns) <==> |sheet| > 0 && !HasRequiredColumns(sheet[0])
    ensures r == Failure(NoValidRows) <==>
      |sheet| > 0 && HasRequiredColumns(sheet[0]) && Extracted(sheet) == []
    ensures r.Success? ==> |sheet| > 0 && r.value == Extracted(sheet) && r.value != []
    ensures r.Failure? ==> Some(r.error) == ParseFailure(sheet)
    ensures r.Success? <==> ParseFailure(sheet).None?
  {
    if |sheet| == 0 {
      return Failure(FileEmpty);
    }
    var headers := sheet[0];
    var rows := sheet[1..];
    var firstNameIndex := FindIndex(headers, IsFirstNameHeader);
    var phoneIndex := FindIndex(headers, IsPhoneHeader);
    var notesIndex := FindIndex(headers, IsNotesHeader);
    if firstNameIndex == -1 || phoneIndex == -1 {
      return Failure(MissingColumns);
    }
    var parsedData: seq<CsvRow> := [];
    for i := 0 to |rows|
      invariant parsedData == ExtractAll(rows[..i], firstNameIndex, phoneIndex, notesIndex)
    {
      var row := rows[i];
      assert rows[..i + 1][..i] == rows[..i];
      if |row| == 0 || Cell(row, firstNameIndex) == "" || Cell(row, phoneIndex) == "" {
        continue;
      }
      parsedData := parsedData + [CsvRow(Trim(Cell(row, firstNameIndex)), Trim(Cell(row, phoneIndex)),
                                         if notesIndex != -1 then Trim(Cell(row, notesIndex)) else "")];
    }
    assert rows[..|rows|] == rows;
    if |parsedData| == 0 {
      return Failure(NoValidRows);
    }
    return Success(parsedData);
  }

  /** A sheet with only a header row fails with "No valid data rows", not "File is empty". */
  lemma HeaderOnlySheet(headers: seq<string>)
    requires HasRequiredColumns(headers)
    ensures Extracted([headers]) == []
  {
    assert [headers][1..] == [];
  }

  // ---------------------------------------------------------------------------------------
  // Distribution

  /** A record stamped with its agent, its upload and, when one is supplied, its owner. */
  datatype DistributedTask = DistributedTask(
    firstName: string, phone: string, notes: string,
    agentId: string, uploadId: string, userId: Option<string>)

  datatype DistributeError = InvalidAgentCount

  function DistributeErrorMessage(e: DistributeError): string {
    "Exactly 5 agents are required for task distribution"
  }

  function AgentIdOf(t: DistributedTask): string { t.agentId }

  /** The number of rows agent `i` receives: `floor(n/5)`, plus one for the first `n % 5`
      agents. */
  function BlockSize(n: nat, i: nat): nat {
    n / 5 + if i < n % 5 then 1 else 0
  }

  /** The position of agent `i`'s first row: the sizes of the earlier blocks added up. */
  function BlockStart(n: nat, i: nat): nat {
    i * (n / 5) + if i < n % 5 then i else n % 5
  }

  /** The position, 0 to 4, of the agent whose block holds row `k`. */
  function AgentFor(n: nat, k: nat): (i: nat)
    ensures i < 5
  {
    if k < BlockStart(n, 1) then 0
    else if k < BlockStart(n, 2) then 1
    else if k < BlockStart(n, 3) then 2
    else if k < BlockStart(n, 4) then 3
    else 4
  }

  /** `userId && { userId }`: the owner is stamped only when it is truthy. */
  function StampedUserId(userId: Option<string>): (r: Option<string>)
    ensures r.Some? <==> Truthy(userId)
    ensures r.Some? ==> r == userId
  {
    if Truthy(userId) then userId else None
  }

  function Stamp(row: CsvRow, agentId: string, uploadId: string, userId: Option<string>): DistributedTask {
    DistributedTask(row.firstName, row.phone, row.notes, agentId, uploadId, StampedUserId(userId))
  }

  /** The distribution, row by row: row `k` goes to the agent whose block holds `k`. */
  function Distribution(tasks: seq<CsvRow>, agentIds: seq<string>, uploadId: string, userId: Option<string>): (r: seq<DistributedTask>)
    requires |agentIds| == 5
    ensures |r| == |tasks|
  {
    seq(|tasks|, k requires 0 <= k < |tasks| =>
      Stamp(tasks[k], agentIds[AgentFor(|tasks|, k)], uploadId, userId))
  }

  lemma BlockStartStep(n: nat, i: nat)
    requires i < 5
    ensures BlockStart(n, i + 1) == BlockStart(n, i) + BlockSize(n, i)
  {
    assert (i + 1) * (n / 5) == i * (n / 5) + n / 5;
  }

  lemma BlockStartLast(n: nat)
    ensures BlockStart(n, 0) == 0 && BlockStart(n, 5) == n
  {
  }

  /** Block starts never decrease and never pass `n`. */
  lemma BlockStartMonotone(n: nat, i: nat, j: nat)
    requires i <= j <= 5
    ensures BlockStart(n, i) <= BlockStart(n, j) <= n
  {
    var q := n / 5;
    assert i * q <= j * q <= 5 * q by {
      assert (j - i) * q >= 0 && (5 - j) * q >= 0;
      assert j * q == i * q + (j - i) * q;
      assert 5 * q == j * q + (5 - j) * q;
    }
  }

  /** The blocks are contiguous and tile `0 .. n`: row `k` belongs to agent `i` exactly when
      `k` lies in agent `i`'s block. */
  lemma AgentForIsBlock(n: nat, i: nat, k: nat)
    requires i < 5 && k < n
    ensures AgentFor(n, k) == i <==> BlockStart(n, i) <= k < BlockStart(n, i + 1)
  {
    BlockStartLast(n);
    BlockStartMonotone(n, 0, 1);
    BlockStartMonotone(n, 1, 2);
    BlockStartMonotone(n, 2, 3);
    BlockStartMonotone(n, 3, 4);
    BlockStartMonotone(n, 4, 5);
  }

  /** `distributeTasksAmongAgents`: exactly five agent ids, else an error; then rows go out in
      file order, agent by agent, in contiguous blocks. */
  method DistributeTasksAmongAgents(tasks: seq<CsvRow>, agentIds: seq<string>, uploadId: string, userId: Option<string>)
    returns (r: Result<seq<DistributedTask>, DistributeError>)
    ensures r.Failure? <==> |agentIds| != 5
    ensures r.Success? ==> |agentIds| == 5 && r.value == Distribution(tasks, agentIds, uploadId, userId)
  {
    if |agentIds| != 5 {
      return Failure(InvalidAgentCount);
    }
    var n := |tasks|;
    var distributedTasks: seq<DistributedTask> := [];
    var tasksPerAgent := n / 5;
    var remainingTasks := n % 5;
    var taskIndex := 0;
    for i := 0 to 5
      invariant taskIndex == BlockStart(n, i) && |distributedTasks| == taskIndex
      invariant forall k :: 0 <= k < taskIndex ==>
        distributedTasks[k] == Stamp(tasks[k], agentIds[AgentFor(n, k)], uploadId, userId)
    {
      var agentTaskCount := tasksPerAgent + (if i < remainingTasks then 1 else 0);
      BlockStartStep(n, i);
      BlockStartMonotone(n, i + 1, 5);
      for j := 0 to agentTaskCount
        invariant taskIndex == BlockStart(n, i) + j && |distributedTasks| == taskIndex
        invariant forall k :: 0 <= k < taskIndex ==>
          distributedTasks[k] == Stamp(tasks[k], agentIds[AgentFor(n, k)], uploadId, userId)
      {
        if taskIndex < n {
          AgentForIsBlock(n, i, taskIndex);
          distributedTasks := distributedTasks + [Stamp(tasks[taskIndex], agentIds[i], uploadId, userId)];
          taskIndex := taskIndex + 1;
        }
      }
    }
    BlockStartLast(n);
    return Success(distributedTasks);
  }

  /** Conservation and order: the output has one entry per row, in row order, carrying the
      row's fields, the upload id and the owner (only when one was supplied). */
  lemma DistributionKeepsRows(tasks: seq<CsvRow>, agentIds: seq<string>, uploadId: string, userId: Option<string>, k: nat)
    requires |agentIds| == 5 && k < |tasks|
    ensures var t := Distribution(tasks, agentIds, uploadId, userId)[k];
      && t.firstName == tasks[k].firstName && t.phone == tasks[k].phone && t.notes == tasks[k].notes
      && t.uploadId == uploadId
      && (t.userId.Some? <==> Truthy(userId))
      && t.agentId in agentIds
  {
  }

  /** How many of the first `m` rows fall in the block `lo .. hi`. */
  function Overlap(m: nat, lo: nat, hi: nat): nat
    requires lo <= hi
  {
    if m <= lo then 0 else if m <= hi then m - lo else hi - lo
  }

  /** Among the first `m` keys of a distribution over `n` rows, agent `i`'s id occurs as
      often as the first `m` positions meet its block. */
  lemma {:induction false} LoadPrefix(ks: seq<string>, agentIds: seq<string>, n: nat, i: nat, m: nat)
    requires |agentIds| == 5 && NoDuplicates(agentIds) && i < 5 && m <= |ks| == n
    requires forall k :: 0 <= k < |ks| ==> ks[k] == agentIds[AgentFor(n, k)]
    ensures BlockStart(n, i) <= BlockStart(n, i + 1)
    ensures CountOf(ks[..m], agentIds[i]) == Overlap(m, BlockStart(n, i), BlockStart(n, i + 1))
  {
    BlockStartMonotone(n, i, i + 1);
    if m > 0 {
      var a, lo, hi := agentIds[i], BlockStart(n, i), BlockStart(n, i + 1);
      LoadPrefix(ks, agentIds, n, i, m - 1);
      PrefixSnoc(ks, m - 1);
      CountOfSnoc(ks[..m - 1], ks[m - 1], a);
      KeyInBlock(agentIds, n, i, m - 1);
      OverlapStep(m, lo, hi);
    }
  }

  /** Row `k`'s key is agent `i`'s id exactly when `k` lies in agent `i`'s block. */
  lemma KeyInBlock(agentIds: seq<string>, n: nat, i: nat, k: nat)
    requires |agentIds| == 5 && NoDuplicates(agentIds) && i < 5 && k < n
    ensures agentIds[AgentFor(n, k)] == agentIds[i] <==> BlockStart(n, i) <= k < BlockStart(n, i + 1)
  {
    var j := AgentFor(n, k);
    AgentForIsBlock(n, i, k);
    if j != i {
      assert j < i || i < j;
    }
  }

  lemma OverlapStep(m: nat, lo: nat, hi: nat)
    requires 0 < m && lo <= hi
    ensures Overlap(m, lo, hi) == Overlap(m - 1, lo, hi) + if lo <= m - 1 < hi then 1 else 0
  {
  }

  /** Agent `i` (by position) receives exactly `BlockSize(n, i)` rows. */
  lemma AgentLoad(tasks: seq<CsvRow>, agentIds: seq<string>, uploadId: string, userId: Option<string>, i: nat)
    requires |agentIds| == 5 && NoDuplicates(agentIds) && i < 5
    ensures CountOf(Keys(Distribution(tasks, agentIds, uploadId, userId), AgentIdOf), agentIds[i])
      == BlockSize(|tasks|, i)
  {
    var n := |tasks|;
    var ks := Keys(Distribution(tasks, agentIds, uploadId, userId), AgentIdOf);
    DistributionKeys(tasks, agentIds, uploadId, userId);
    LoadPrefix(ks, agentIds, n, i, n);
    assert ks[..n] == ks;
    BlockLoad(n, i);
  }

  /** All `n` rows meet block `i` in exactly its size. */
  lemma BlockLoad(n: nat, i: nat)
    requires i < 5
    ensures BlockStart(n, i) <= BlockStart(n, i + 1)
    ensures Overlap(n, BlockStart(n, i), BlockStart(n, i + 1)) == BlockSize(n, i)
  {
    BlockStartStep(n, i);
    BlockStartMonotone(n, i + 1, 5);
  }

  lemma DistributionKeys(tasks: seq<CsvRow>, agentIds: seq<string>, uploadId: string, userId: Option<string>)
    requires |agentIds| == 5
    ensures var ks := Keys(Distribution(tasks, agentIds, uploadId, userId), AgentIdOf);
      |ks| == |tasks| && forall k :: 0 <= k < |ks| ==> ks[k] == agentIds[AgentFor(|tasks|, k)]
  {
    var d := Distribution(tasks, agentIds, uploadId, userId);
    var ks := Keys(d, AgentIdOf);
    forall k | 0 <= k < |ks| ensures ks[k] == agentIds[AgentFor(|tasks|, k)] {
      assert ks[k] == d[k].agentId;
    }
  }

  /** Balance: no agent receives more than one row more than another. */
  lemma Balanced(n: nat, i: nat, j: nat)
    requires i < 5 && j < 5
    ensures BlockSize(n, i) <= BlockSize(n, j) + 1
    ensures i <= j ==> BlockSize(n, j) <= BlockSize(n, i)
  {
  }

  /** Every row is assigned: the five loads add up to the number of rows. */
  lemma LoadsAddUp(tasks: seq<CsvRow>, agentIds: seq<string>, uploadId: string, userId: Option<string>)
    requires |agentIds| == 5 && NoDuplicates(agentIds)
    ensures SumCounts(Keys(Distribution(tasks, agentIds, uploadId, userId), AgentIdOf), agentIds) == |tasks|
  {
    var ks := Keys(Distribution(tasks, agentIds, uploadId, userId), AgentIdOf);
    SumCountsIsCountIn(ks, agentIds);
    CountInAll(ks, agentIds);
  }

  /** Twelve rows over agents A to E give loads 3, 3, 2, 2, 2; no rows give five empty loads. */
  lemma TwelveRows()
    ensures BlockSize(12, 0) == 3 && BlockSize(12, 1) == 3
    ensures BlockSize(12, 2) == 2 && BlockSize(12, 3) == 2 && BlockSize(12, 4) == 2
    ensures forall i :: 0 <= i < 5 ==> BlockSize(0, i) == 0
  {
  }
}
