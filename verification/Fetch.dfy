/** Parsing a whole-term response in chunks, failing closed on lost rows. */
module Fetch {
  import opened Text
  import opened SweepPlan

  /** A parsed schedule row before normalisation: identity, campus, and every other cell. */
  datatype ParsedRow = ParsedRow(crn: string, campus: string, cells: seq<string>)

  datatype SkippedRow = SkippedRow(crn: string, campus: string)

  /** A quarantined row: its place and identity, no cell text. */
  datatype RowFailure = RowFailure(position: nat, crn: string, campus: string)

  datatype ParseError = BadChunkSize | NoHeader | LostRows(parsed: nat, expected: nat) | BadRow(position: nat)

  datatype Parse = Parsed(rows: seq<Row>, dataRows: nat, skipped: seq<SkippedRow>,
    failures: seq<RowFailure>) | Refused(error: ParseError)

  type TableParser = seq<string> -> seq<ParsedRow>

  type RowGate = ParsedRow -> bool

  type Normaliser = ParsedRow -> Option<Row>

  function CountData(blocks: seq<string>, isData: string -> bool): nat {
    if blocks == [] then 0
    else CountData(blocks[..|blocks| - 1], isData) + if isData(blocks[|blocks| - 1]) then 1 else 0
  }

  /** The chunked parse: full chunks one by one, then what is left. */
  function InChunks(blocks: seq<string>, size: int, parse: TableParser): seq<ParsedRow>
    requires size >= 1
    decreases |blocks|
  {
    if |blocks| < size then (if blocks == [] then [] else parse(blocks))
    else parse(blocks[..size]) + InChunks(blocks[size..], size, parse)
  }

  /** A table parser that reads each row on its own. */
  ghost predicate RowByRow(parse: TableParser) {
    parse([]) == [] && forall a: seq<string>, b: seq<string> :: parse(a + b) == parse(a) + parse(b)
  }

  /** Chunking changes nothing: the memory bound does not show in the result. */
  lemma {:induction false} ChunksDoNotShow(blocks: seq<string>, size: int, parse: TableParser)
    requires size >= 1 && RowByRow(parse)
    ensures InChunks(blocks, size, parse) == parse(blocks)
    decreases |blocks|
  {
    if |blocks| >= size {
      ChunksDoNotShow(blocks[size..], size, parse);
      assert blocks == blocks[..size] + blocks[size..];
    }
  }

  /** So many rows fill whole chunks. */
  predicate WholeChunks(rows: nat, size: int)
    requires size >= 1
  {
    rows == 0 || (rows >= size && WholeChunks(rows - size, size))
  }

  lemma {:induction false} OneMoreChunk(rows: nat, size: int)
    requires size >= 1 && WholeChunks(rows, size)
    ensures WholeChunks(rows + size, size)
  {
    if rows > 0 {
      OneMoreChunk(rows - size, size);
    }
  }

  lemma {:induction false} ChunkStep(done: seq<string>, buffer: seq<string>, size: int, parse: TableParser)
    requires size >= 1 && WholeChunks(|done|, size)
    ensures InChunks(done + buffer, size, parse) == InChunks(done, size, parse) + InChunks(buffer, size, parse)
    decreases |done|
  {
    if done == [] {
      assert done + buffer == buffer;
    } else {
      ChunkStep(done[size..], buffer, size, parse);
      assert (done + buffer)[..size] == done[..size] && (done + buffer)[size..] == done[size..] + buffer;
    }
  }

  lemma OneChunk(buffer: seq<string>, size: int, parse: TableParser)
    requires size >= 1 && |buffer| == size
    ensures InChunks(buffer, size, parse) == parse(buffer)
  {
    assert buffer[..size] == buffer && buffer[size..] == [];
  }

  /** Fills and clears the chunk buffer; counts the blocks that hold data cells. */
  method ParseChunks(blocks: seq<string>, size: int, parse: TableParser, isData: string -> bool)
    returns (parsed: seq<ParsedRow>, dataRows: nat)
    requires size >= 1
    ensures parsed == InChunks(blocks, size, parse) && dataRows == CountData(blocks, isData)
  {
    hide InChunks, WholeChunks;
    NoChunks(size, parse);
    parsed, dataRows := [], 0;
    var buffer: seq<string> := [];
    ghost var done: seq<string> := [];
    for k := 0 to |blocks|
      invariant blocks[..k] == done + buffer && WholeChunks(|done|, size) && |buffer| < size
      invariant parsed == InChunks(done, size, parse) && dataRows == CountData(blocks[..k], isData)
    {
      assert blocks[..k + 1][..k] == blocks[..k];
      if isData(blocks[k]) {
        dataRows := dataRows + 1;
      }
      buffer := buffer + [blocks[k]];
      if |buffer| >= size {
        ChunkStep(done, buffer, size, parse);
        OneChunk(buffer, size, parse);
        OneMoreChunk(|done|, size);
        parsed := parsed + parse(buffer);
        done := done + buffer;
        buffer := [];
      }
    }
    assert blocks[..|blocks|] == blocks;
    ChunkStep(done, buffer, size, parse);
    LastChunk(buffer, size, parse);
    if buffer != [] {
      parsed := parsed + parse(buffer);
    }
  }

  lemma NoChunks(size: int, parse: TableParser)
    requires size >= 1
    ensures InChunks([], size, parse) == [] && WholeChunks(0, size)
  {
  }

  lemma LastChunk(buffer: seq<string>, size: int, parse: TableParser)
    requires size >= 1 && |buffer| < size
    ensures InChunks(buffer, size, parse) == if buffer == [] then [] else parse(buffer)
  {
  }

  // ---- Gate, normalise, quarantine ----

  predicate Gated(row: ParsedRow, gate: Option<RowGate>) {
    gate.Some? && !gate.value(row)
  }

  function SkippedOf(row: ParsedRow): SkippedRow {
    SkippedRow(Strip(row.crn), Strip(row.campus))
  }

  function NormalRows(parsed: seq<ParsedRow>, gate: Option<RowGate>, normalise: Normaliser): seq<Row> {
    if parsed == [] then []
    else
      var last := parsed[|parsed| - 1];
      NormalRows(parsed[..|parsed| - 1], gate, normalise)
      + if !Gated(last, gate) && normalise(last).Some? then [normalise(last).value] else []
  }

  function SkippedRows(parsed: seq<ParsedRow>, gate: Option<RowGate>): seq<SkippedRow> {
    if parsed == [] then []
    else
      var last := parsed[|parsed| - 1];
      SkippedRows(parsed[..|parsed| - 1], gate) + if Gated(last, gate) then [SkippedOf(last)] else []
  }

  function FailedRows(parsed: seq<ParsedRow>, gate: Option<RowGate>, normalise: Normaliser): seq<RowFailure> {
    if parsed == [] then []
    else
      var n := |parsed| - 1;
      FailedRows(parsed[..n], gate, normalise)
      + if !Gated(parsed[n], gate) &&
        normalise(parsed[n]).None? then [RowFailure(n, Strip(parsed[n].crn), Strip(parsed[n].campus))] else []
  }

  /** Every row is exactly one of normalised, skipped and failed. */
  lemma {:induction false} RowsPartition(parsed: seq<ParsedRow>, gate: Option<RowGate>, normalise: Normaliser)
    ensures |NormalRows(parsed, gate, normalise)| + |SkippedRows(parsed, gate)| +
      |FailedRows(parsed, gate, normalise)| == |parsed|
    ensures FailedRows(parsed, gate, normalise) == [] <==>
      forall r | r in parsed && !Gated(r, gate) :: normalise(r).Some?
  {
    if parsed != [] {
      var n := |parsed| - 1;
      RowsPartition(parsed[..n], gate, normalise);
      assert forall r :: r in parsed <==> r in parsed[..n] || r == parsed[n];
    }
  }

  /** Which rows those are: the normalised ones are what the accepted rows normalise to, the skipped ones
      what the gate turned away, and the failed ones stand under their position. */
  lemma {:induction false} RowsExactly(parsed: seq<ParsedRow>, gate: Option<RowGate>, normalise: Normaliser)
    ensures forall r :: r in NormalRows(parsed, gate, normalise) <==> AcceptedAs(parsed, gate, normalise, r)
    ensures forall s :: s in SkippedRows(parsed, gate) <==> TurnedAway(parsed, gate, s)
    ensures forall f :: f in FailedRows(parsed, gate, normalise) <==>
      f.position < |parsed| && FailsAt(parsed[f.position], gate, normalise, f)
  {
    if parsed != [] {
      var n := |parsed| - 1;
      RowsExactly(parsed[..n], gate, normalise);
      assert forall p :: p in parsed <==> p in parsed[..n] || p == parsed[n];
    }
  }

  ghost predicate AcceptedAs(parsed: seq<ParsedRow>, gate: Option<RowGate>, normalise: Normaliser, r: Row) {
    exists p :: p in parsed && (gate.None? || gate.value(p)) && normalise(p) == Some(r)
  }

  ghost predicate TurnedAway(parsed: seq<ParsedRow>, gate: Option<RowGate>, s: SkippedRow) {
    exists p :: p in parsed && gate.Some? && !gate.value(p) && s.crn == Strip(p.crn) && s.campus == Strip(p.campus)
  }

  predicate FailsAt(p: ParsedRow, gate: Option<RowGate>, normalise: Normaliser, f: RowFailure) {
    (gate.None? || gate.value(p)) && normalise(p).None? && f.crn == Strip(p.crn) && f.campus == Strip(p.campus)
  }

  /** `parse_whole_term`. The lost-rows guard runs first, over every row; without quarantine the first
      row that does not normalise refuses the response; no row is ever dropped silently. */
  method ParseWholeTerm(
    hasHeader: bool, blocks: seq<string>, chunkRows: int, parse: TableParser, isData: string -> bool,
    normalise: Normaliser, gate: Option<RowGate>, quarantine: bool)
    returns (r: Parse)
    ensures r == Refused(BadChunkSize) <==> chunkRows < 1
    ensures r == Refused(NoHeader) <==> chunkRows >= 1 && !hasHeader
    ensures chunkRows >= 1 && hasHeader ==>
      var parsed := InChunks(blocks, chunkRows, parse);
      && (|parsed| != CountData(blocks, isData) <==> r.Refused? && r.error.LostRows?)
      && (|parsed| == CountData(blocks, isData) ==>
            (r.Refused? <==> !quarantine && FailedRows(parsed, gate, normalise) != []))
      && (r.Parsed? ==>
            r == Parsed(NormalRows(parsed, gate, normalise), |parsed|, SkippedRows(parsed, gate),
                        FailedRows(parsed, gate, normalise)))
      && (r.Parsed? ==> |r.rows| + |r.skipped| + |r.failures| == r.dataRows == CountData(blocks, isData))
  {
    if chunkRows < 1 {
      return Refused(BadChunkSize);
    }
    if !hasHeader {
      return Refused(NoHeader);
    }
    var parsed, dataRows := ParseChunks(blocks, chunkRows, parse, isData);
    if |parsed| != dataRows {
      return Refused(LostRows(|parsed|, dataRows));
    }
    RowsPartition(parsed, gate, normalise);
    r := NormaliseRows(parsed, normalise, gate, quarantine);
  }

  method NormaliseRows(
    parsed: seq<ParsedRow>, normalise: Normaliser, gate: Option<RowGate>, quarantine: bool) returns (r: Parse)
    ensures r.Refused? <==> !quarantine && FailedRows(parsed, gate, normalise) != []
    ensures r.Refused? ==> r.error.BadRow?
    ensures r.Parsed? ==>
      r == Parsed(NormalRows(parsed, gate, normalise), |parsed|, SkippedRows(parsed, gate),
        FailedRows(parsed, gate, normalise))
  {
    var rows: seq<Row>, skipped: seq<SkippedRow>, failures: seq<RowFailure> := [], [], [];
    for k := 0 to |parsed|
      invariant rows == NormalRows(parsed[..k], gate, normalise) && skipped == SkippedRows(parsed[..k], gate)
      invariant failures == FailedRows(parsed[..k], gate, normalise) && (!quarantine ==> failures == [])
    {
      var row := parsed[k];
      assert parsed[..k + 1][..k] == parsed[..k];
      if Gated(row, gate) {
        skipped := skipped + [SkippedOf(row)];
      } else {
        var normal := normalise(row);
        if normal.Some? {
          rows := rows + [normal.value];
        } else if !quarantine {
          FailureStays(parsed, k, gate, normalise);
          return Refused(BadRow(k));
        } else {
          failures := failures + [RowFailure(k, Strip(row.crn), Strip(row.campus))];
        }
      }
    }
    assert parsed[..|parsed|] == parsed;
    r := Parsed(rows, |parsed|, skipped, failures);
  }

  lemma FailureStays(parsed: seq<ParsedRow>, k: nat, gate: Option<RowGate>, normalise: Normaliser)
    requires k < |parsed| && !Gated(parsed[k], gate) && normalise(parsed[k]).None?
    ensures FailedRows(parsed, gate, normalise) != []
  {
    RowsPartition(parsed, gate, normalise);
    assert parsed[k] in parsed;
  }
}
