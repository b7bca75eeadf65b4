/**
 The SQL dump writer: rows are read in id order, grouped into batches, and
 each batch becomes one multi-row INSERT; the inserts sit between a header,
 the table and index definitions, BEGIN, and COMMIT with a summary line.

 Python's float-to-text and `json.dumps` are outside the model: they are the
 two functions of a `Formats` value. The table name and the optional WHERE
 clause are spliced into the text unescaped, as in the program.
 */
module Export {
  import opened Canonical
  import opened SqlText

  datatype Formats = Formats(num: real -> string, json: Meta -> string)

  /** `if record['meta']`: absent and empty objects are false. */
  predicate MetaTruthy(meta: Option<Meta>) {
    meta.Some? && |meta.value| > 0
  }

  /**
   The meta column of one tuple, for a meta decoded into an object (as a
   driver that decodes JSON columns hands it over): `NULL` for a false meta,
   otherwise its JSON text quoted, with quotes doubled, and cast to `jsonb`.
   */
  function MetaLiteral(meta: Option<Meta>, json: Meta -> string): string
  {
    QuotedJsonb(if MetaTruthy(meta) then json(meta.value) else "NULL")
  }

  /** The last step of the meta literal: any text but `NULL` is quoted, with quotes doubled, and cast. */
  function QuotedJsonb(text: string): string
  {
    if text != "NULL" then "'" + Escape(text) + "'::jsonb" else text
  }

  /** A quoted literal reads back as its text, followed by the cast. */
  lemma QuotedJsonbReadsBack(text: string)
    requires text != "NULL"
    ensures QuotedJsonb(text)[0] == Quote
    ensures ScanQuoted(QuotedJsonb(text)[1..]) == Some((text, "::jsonb"))
  {
    var e := Escape(text);
    var body := e + [Quote] + "::jsonb";
    assert "'::jsonb" == [Quote] + "::jsonb";
    AppendAssoc([Quote], e, "'::jsonb");
    AppendAssoc(e, [Quote], "::jsonb");
    assert QuotedJsonb(text) == [Quote] + body;
    assert ([Quote] + body)[1..] == body;
    ScanEscaped(text, "::jsonb");
  }

  /** A false meta is written as the bare keyword. */
  lemma FalsyMetaIsNull(meta: Option<Meta>, json: Meta -> string)
    requires !MetaTruthy(meta)
    ensures MetaLiteral(meta, json) == "NULL"
  {
  }

  /**
   A true meta is written as a quoted literal that reads back as exactly
   the JSON text, followed by the `::jsonb` cast.
   */
  lemma MetaLiteralReadsBack(meta: Option<Meta>, json: Meta -> string)
    requires MetaTruthy(meta) && json(meta.value) != "NULL"
    ensures MetaLiteral(meta, json)[0] == Quote
    ensures ScanQuoted(MetaLiteral(meta, json)[1..]) == Some((json(meta.value), "::jsonb"))
  {
    QuotedJsonbReadsBack(json(meta.value));
  }

  /** The hex digit for 0..15, lower case as `json.dumps` writes it. */
  function HexDigit(d: nat): (c: char)
    requires d < 16
    ensures '0' <= c <= '9' || 'a' <= c <= 'f'
  {
    if d < 10 then Digit(d) else ('a' as int + d - 10) as char
  }

  /** A 16-bit code unit as four hex digits. */
  function Hex4(u: nat): (r: string)
    requires u < 0x1_0000
    ensures |r| == 4 && Printable(r)
  {
    [HexDigit(u / 0x1000), HexDigit(u / 0x100 % 0x10), HexDigit(u / 0x10 % 0x10), HexDigit(u % 0x10)]
  }

  /**
   One character as `json.dumps` writes it inside a string literal with
   `ensure_ascii` on: quote and backslash escaped, the five short control
   escapes, every other character outside space..tilde as `\uXXXX` (a
   surrogate pair above U+FFFF), anything else as itself.
   */
  function JsonChar(c: char): (r: string)
    ensures |r| >= 1 && Printable(r)
    ensures ' ' <= c <= '~' && c != '"' && c != '\\' ==> r == [c]
  {
    if c == '"' then "\\\""
    else if c == '\\' then "\\\\"
    else if c == '\n' then "\\n"
    else if c == '\r' then "\\r"
    else if c == '\t' then "\\t"
    else if c == '\U{8}' then "\\b"
    else if c == '\U{C}' then "\\f"
    else if ' ' <= c <= '~' then [c]
    else if c as int < 0x1_0000 then "\\u" + Hex4(c as int)
    else
      var v := c as int - 0x1_0000;
      "\\u" + Hex4(0xD800 + v / 0x400) + "\\u" + Hex4(0xDC00 + v % 0x400)
  }

  function JsonEscape(s: string): (r: string)
    ensures |r| >= |s| && Printable(r)
  {
    if |s| == 0 then "" else JsonChar(s[0]) + JsonEscape(s[1..])
  }

  /** Only the characters from space to tilde: the output alphabet of `ensure_ascii`. */
  predicate Printable(s: string)
  {
    forall i :: 0 <= i < |s| ==> ' ' <= s[i] <= '~'
  }

  /**
   `json.dumps` of a Python string: a JSON string literal, written in
   printable ASCII whatever the string holds.
   */
  function JsonString(s: string): (r: string)
    ensures |r| >= |s| + 2 && Printable(r)
    ensures r[0] == '"' && r[|r| - 1] == '"'
  {
    "\"" + JsonEscape(s) + "\""
  }

  /**
   The meta literal as `write_batch` computes it from the value the untyped
   `SELECT *` yields on SQLite: SQL NULL (`None`) or the stored JSON text,
   undecoded. The text is truthy when non-empty, and `json.dumps` turns it
   into a JSON string literal.
   */
  function RawMetaLiteral(raw: Option<string>): string
  {
    QuotedJsonb(if raw.Some? && |raw.value| > 0 then JsonString(raw.value) else "NULL")
  }

  /**
   On that path every stored meta text is written as a quoted JSON string
   literal: the value read back is a JSON string, never the stored object text.
   */
  lemma RawMetaDoubleEncoded(stored: string)
    requires |stored| > 0
    ensures RawMetaLiteral(Some(stored))[0] == Quote
    ensures ScanQuoted(RawMetaLiteral(Some(stored))[1..]) == Some((JsonString(stored), "::jsonb"))
    ensures JsonString(stored)[0] == '"' && JsonString(stored) != stored
  {
    var t := JsonString(stored);
    assert t != "NULL" by {
      assert t[0] == '"' && "NULL"[0] == 'N';
    }
    assert RawMetaLiteral(Some(stored)) == QuotedJsonb(t);
    QuotedJsonbReadsBack(t);
  }

  /** `json.dumps("{}")`: both braces are kept as they are. */
  lemma EmptyObjectText()
    ensures JsonString("{}") == "\"{}\""
  {
    var s := "{}";
    assert JsonChar('{') == "{" && JsonChar('}') == "}";
    assert s[1..] == "}" && s[1..][1..] == [];
    assert JsonEscape(s[1..]) == "}";
    assert JsonEscape(s) == "{}";
  }

  /** A stored empty object becomes the JSON string `"{}"`, where the decoded meta is written NULL. */
  lemma EmptyStoredObjectQuoted(json: Meta -> string)
    ensures RawMetaLiteral(Some("{}")) == "'\"{}\"'::jsonb"
    ensures MetaLiteral(Some([]), json) == "NULL"
  {
    var j := JsonString("{}");
    assert RawMetaLiteral(Some("{}")) == QuotedJsonb(j);
    EmptyObjectText();
    QuotedEmptyObject();
  }

  /** The JSON string `"{}"` holds no single quote, so quoting it only wraps it. */
  lemma QuotedEmptyObject()
    ensures QuotedJsonb("\"{}\"") == "'\"{}\"'::jsonb"
  {
    var j := "\"{}\"";
    assert j[1..] == "{}\"" && j[1..][1..] == "}\"" && j[1..][1..][1..] == "\"";
    assert Escape("\"") == "\"";
    assert Escape("}\"") == "}\"";
    assert Escape("{}\"") == "{}\"";
    assert Escape(j) == j;
  }

  /** The opening of a value tuple, up to and including the ticker's opening quote. */
  const TupleOpen: string := "    ('"

  /** The text after the ticker's closing quote. */
  function TupleRest(row: Stock, f: Formats): string
  {
    ", " + IntText(row.time) + ", " + f.num(row.high) + ", " + f.num(row.low) + ", "
      + f.num(row.avg) + ", " + f.num(row.sale) + ", " + MetaLiteral(row.meta, f.json) + ")"
  }

  /** One value tuple: `    ('<ticker>', <time>, <high>, <low>, <avg>, <sale>, <meta>)`. */
  function TupleText(row: Stock, f: Formats): string
  {
    TupleOpen + Escape(row.ticker) + "'" + TupleRest(row, f)
  }

  /** The ticker read back from a written tuple is the row's ticker, whatever it contains. */
  lemma TickerReadsBack(row: Stock, f: Formats)
    ensures TupleText(row, f)[..|TupleOpen|] == TupleOpen
    ensures ScanQuoted(TupleText(row, f)[|TupleOpen|..]) == Some((row.ticker, TupleRest(row, f)))
  {
    var e, r := Escape(row.ticker), TupleRest(row, f);
    ScanEscaped(row.ticker, r);
    assert "'" == [Quote];
    AppendAssoc(TupleOpen, e, [Quote]);
    AppendAssoc(TupleOpen, e + [Quote], r);
    assert TupleText(row, f) == TupleOpen + (e + [Quote] + r);
  }

  function InsertHead(table: string): string
  {
    "INSERT INTO " + table + " (ticker, time, high, low, avg, sale, meta) VALUES\n"
  }

  /** The texts joined with `sep` between neighbours (nothing before the first or after the last). */
  function Join(xs: seq<string>, sep: string): string
  {
    if |xs| == 0 then "" else if |xs| == 1 then xs[0] else xs[0] + sep + Join(xs[1..], sep)
  }

  lemma {:induction false} JoinSnoc(xs: seq<string>, x: string, sep: string)
    requires |xs| > 0
    ensures Join(xs + [x], sep) == Join(xs, sep) + sep + x
  {
    if |xs| == 1 {
      assert (xs + [x])[1..] == [x];
    } else {
      assert (xs + [x])[1..] == xs[1..] + [x];
      JoinSnoc(xs[1..], x, sep);
    }
  }

  function Tuples(batch: seq<Stock>, f: Formats): (ts: seq<string>)
    ensures |ts| == |batch|
    ensures forall i :: 0 <= i < |batch| ==> ts[i] == TupleText(batch[i], f)
  {
    seq(|batch|, i requires 0 <= i < |batch| => TupleText(batch[i], f))
  }

  function Separator(i: nat, count: nat): string
  {
    if i + 1 < count then ",\n" else ";\n"
  }

  /** What the tuple loop of `write_batch` has written after its first k tuples. */
  function Written(ts: seq<string>, k: nat): string
    requires k <= |ts|
  {
    if k == 0 then "" else Written(ts, k - 1) + (ts[k - 1] + Separator(k - 1, |ts|))
  }

  /**
   After k tuples the loop has written them joined by `,\n`, followed by
   `,\n` while more remain and by `;\n` after the last.
   */
  lemma {:induction false} WrittenIsJoin(ts: seq<string>, k: nat)
    requires 1 <= k <= |ts|
    ensures Written(ts, k) == Join(ts[..k], ",\n") + Separator(k - 1, |ts|)
  {
    if k == 1 {
      assert ts[..1] == [ts[0]];
    } else {
      WrittenIsJoin(ts, k - 1);
      JoinSnoc(ts[..k - 1], ts[k - 1], ",\n");
      assert ts[..k - 1] + [ts[k - 1]] == ts[..k];
    }
  }

  /**
   The tuple loop of `write_batch`: each tuple followed by `,\n` if another
   comes after it and by `;\n` if it is the last.
   */
  method WriteTuples(head: string, ts: seq<string>) returns (out: string)
    requires |ts| > 0
    ensures out == head + (Join(ts, ",\n") + ";\n")
  {
    out := head;
    var i := 0;
    while i < |ts|
      invariant 0 <= i <= |ts|
      invariant out == head + Written(ts, i)
    {
      var sep := if i < |ts| - 1 then ",\n" else ";\n";
      assert sep == Separator(i, |ts|);
      AppendAssoc(head, Written(ts, i), ts[i] + sep);
      out := out + (ts[i] + sep);
      i := i + 1;
    }
    WrittenIsJoin(ts, |ts|);
    assert ts[..|ts|] == ts;
  }

  /**
   `write_batch`: nothing for an empty batch; otherwise the INSERT head, the
   tuples with `,\n` after all but the last, `;\n` after the last, and a
   blank line.
   */
  method WriteBatch(table: string, batch: seq<Stock>, f: Formats) returns (out: string)
    ensures out == BatchText(table, batch, f)
    ensures out == "" <==> |batch| == 0
  {
    if |batch| == 0 {
      return "";
    }
    out := WriteTuples(InsertHead(table), Tuples(batch, f));
    out := out + "\n";
  }

  /** The loop's flush test on a pending batch of `len` rows: `len(batch) >= batch_size`. */
  predicate FlushDue(len: int, batchSize: int)
  {
    len >= batchSize
  }

  /**
   The batch size the loop actually uses: the first batch length, counting
   from one row, at which the flush test fires.
   */
  function EffectiveBatch(batchSize: int): (n: nat)
    ensures n >= 1 && FlushDue(n, batchSize)
    ensures forall k :: 1 <= k < n ==> !FlushDue(k, batchSize)
    ensures batchSize < 1 ==> n == 1
  {
    if batchSize >= 1 then batchSize else 1
  }

  /** For every non-empty pending batch, the flush test fires exactly from the effective batch size on. */
  lemma FlushAtEffectiveBatch(batchSize: int, len: int)
    requires len >= 1
    ensures FlushDue(len, batchSize) <==> len >= EffectiveBatch(batchSize)
  {
  }

  /** Rows in order, in chunks of n, the last possibly shorter. */
  function Chunks(rows: seq<Stock>, n: nat): seq<seq<Stock>>
    requires n >= 1
    decreases |rows|
  {
    if |rows| == 0 then []
    else if |rows| <= n then [rows]
    else [rows[..n]] + Chunks(rows[n..], n)
  }

  function Flatten(chunks: seq<seq<Stock>>): seq<Stock>
  {
    if |chunks| == 0 then [] else chunks[0] + Flatten(chunks[1..])
  }

  /** ceil(a / n), counted out in steps of n. */
  function CeilDiv(a: nat, n: nat): (c: nat)
    requires n >= 1
    ensures a == 0 <==> c == 0
    ensures a > 0 ==> (c - 1) * n < a <= c * n
    decreases a
  {
    if a == 0 then 0
    else if a <= n then 1
    else 1 + CeilDiv(a - n, n)
  }

  /**
   Chunking loses, adds and reorders nothing; every chunk but the last is
   full, the last is non-empty, and there are ceil(|rows| / n) of them.
   */
  lemma {:induction false} ChunksShape(rows: seq<Stock>, n: nat)
    requires n >= 1
    ensures Flatten(Chunks(rows, n)) == rows
    ensures (|Chunks(rows, n)| - 1) * n < |rows| <= |Chunks(rows, n)| * n
    ensures forall k :: 0 <= k < |Chunks(rows, n)| - 1 ==> |Chunks(rows, n)[k]| == n
    ensures |rows| > 0 ==> 1 <= |Chunks(rows, n)[|Chunks(rows, n)| - 1]| <= n
    decreases |rows|
  {
    if |rows| == 0 {
    } else if |rows| <= n {
      assert Flatten([rows]) == rows + Flatten([]);
    } else {
      var rest := rows[n..];
      ChunksShape(rest, n);
      var cs := Chunks(rows, n);
      var c := |Chunks(rest, n)|;
      assert cs == [rows[..n]] + Chunks(rest, n);
      assert cs[1..] == Chunks(rest, n);
      assert rows[..n] + rest == rows;
      assert |cs| * n == c * n + n;
      assert (|cs| - 1) * n == c * n;
      assert (c - 1) * n + n == c * n;
    }
  }

  /** There are ceil(|rows| / n) chunks. */
  lemma {:induction false} ChunkCount(rows: seq<Stock>, n: nat)
    requires n >= 1
    ensures |Chunks(rows, n)| == CeilDiv(|rows|, n)
    decreases |rows|
  {
    if |rows| > n {
      ChunkCount(rows[n..], n);
    }
  }

  /** `len` is a whole number of chunks of n. */
  predicate IsMultiple(len: nat, n: nat)
    requires n >= 1
    decreases len
  {
    len == 0 || (len >= n && IsMultiple(len - n, n))
  }

  /** Appending a chunk after whole chunks appends it to the chunking. */
  lemma {:induction false} ChunksSnoc(full: seq<Stock>, tail: seq<Stock>, n: nat)
    requires n >= 1 && IsMultiple(|full|, n) && 1 <= |tail| <= n
    ensures Chunks(full + tail, n) == Chunks(full, n) + [tail]
    decreases |full|
  {
    if |full| == 0 {
      assert full + tail == tail;
    } else {
      var all := full + tail;
      assert all[..n] == full[..n];
      assert all[n..] == full[n..] + tail;
      ChunksSnoc(full[n..], tail, n);
      if |full| == n {
        assert full[n..] == [];
        assert Chunks(full, n) == [full];
        assert full[..n] == full;
      }
    }
  }

  /** The parts of the dump, in the order they are written. */
  datatype Section =
    | Preamble(total: nat, generatedAt: string)
    | CreateTable
    | CreateIndexes
    | Begin
    | Insert(batch: seq<Stock>)
    | CommitTx
    | Summary(written: nat)

  function Inserts(chunks: seq<seq<Stock>>): (ss: seq<Section>)
    ensures |ss| == |chunks|
    ensures forall k :: 0 <= k < |chunks| ==> ss[k] == Insert(chunks[k])
  {
    seq(|chunks|, k requires 0 <= k < |chunks| => Insert(chunks[k]))
  }

  datatype Dump = NoRecords | Script(sections: seq<Section>, written: nat)

  /**
   The row loop of `main`: append each row to the pending batch and write the
   batch out as soon as it holds `batch_size` rows; then write what is left.
   */
  method BatchRows(rows: seq<Stock>, batchSize: int) returns (inserts: seq<Section>, written: nat)
    ensures inserts == Inserts(Chunks(rows, EffectiveBatch(batchSize)))
    ensures written == |rows|
  {
    var n := EffectiveBatch(batchSize);
    inserts := [];
    var batch: seq<Stock> := [];
    written := 0;
    var i := 0;
    while i < |rows|
      invariant 0 <= written <= i <= |rows|
      invariant IsMultiple(written, n) && i - written < n
      invariant batch == rows[written..i]
      invariant inserts == Inserts(Chunks(rows[..written], n))
    {
      batch := batch + [rows[i]];
      i := i + 1;
      assert batch == rows[written..i];
      if FlushDue(|batch|, batchSize) {
        FlushBatch(rows, written, i, n);
        inserts := inserts + [Insert(batch)];
        written := written + |batch|;
        batch := [];
      }
    }
    if |batch| > 0 {
      FlushBatch(rows, written, i, n);
      inserts := inserts + [Insert(batch)];
      written := written + |batch|;
    }
    assert rows[..written] == rows;
  }

  /** Writing out the pending batch rows[written..i] extends the chunking of rows[..written]. */
  lemma FlushBatch(rows: seq<Stock>, written: nat, i: nat, n: nat)
    requires n >= 1 && IsMultiple(written, n) && written < i <= |rows| && i - written <= n
    ensures Inserts(Chunks(rows[..written], n)) + [Insert(rows[written..i])] == Inserts(Chunks(rows[..i], n))
    ensures i - written == n ==> IsMultiple(i, n)
  {
    ChunksSnoc(rows[..written], rows[written..i], n);
    assert rows[..written] + rows[written..i] == rows[..i];
  }

  /**
   `main` after the count query: nothing at all when the count is zero;
   otherwise header, table, indexes, BEGIN, one INSERT per batch, COMMIT and
   the summary. `total` is what the count query returned and `rows` what the
   ordered select yields.
   */
  method Plan(total: nat, rows: seq<Stock>, batchSize: int, generatedAt: string) returns (d: Dump)
    ensures d.NoRecords? <==> total == 0
    ensures d.Script? ==>
              && d.written == |rows|
              && d.sections == [Preamble(total, generatedAt), CreateTable, CreateIndexes, Begin]
                                + Inserts(Chunks(rows, EffectiveBatch(batchSize)))
                                + [CommitTx, Summary(|rows|)]
  {
    if total == 0 {
      return NoRecords;
    }
    var head := [Preamble(total, generatedAt), CreateTable, CreateIndexes, Begin];
    var inserts, written := BatchRows(rows, batchSize);
    d := Script(head + inserts + [CommitTx, Summary(written)], written);
  }

  /** A batch size below 1 flushes after every row: each INSERT holds exactly one row. */
  lemma OneRowPerInsert(rows: seq<Stock>, batchSize: int)
    requires batchSize < 1
    ensures |Inserts(Chunks(rows, EffectiveBatch(batchSize)))| == |rows|
    ensures forall k :: 0 <= k < |rows| ==> Inserts(Chunks(rows, EffectiveBatch(batchSize)))[k] == Insert([rows[k]])
  {
    var cs := Chunks(rows, 1);
    ChunksShape(rows, 1);
    ChunkCount(rows, 1);
    assert |cs| == |rows|;
    forall k | 0 <= k < |rows|
      ensures cs[k] == [rows[k]]
    {
      FlattenUnit(cs, k);
    }
  }

  /** When every chunk holds one row, the k-th chunk is the k-th row. */
  lemma {:induction false} FlattenUnit(cs: seq<seq<Stock>>, k: nat)
    requires forall j :: 0 <= j < |cs| ==> |cs[j]| == 1
    requires k < |cs|
    ensures k < |Flatten(cs)| && cs[k] == [Flatten(cs)[k]]
  {
    if k == 0 {
      assert cs[0] == [cs[0][0]];
    } else {
      FlattenUnit(cs[1..], k - 1);
    }
  }

  /** The number of INSERT statements is ceil(|rows| / batch size). */
  lemma {:induction false} InsertCount(rows: seq<Stock>, batchSize: int)
    ensures |Inserts(Chunks(rows, EffectiveBatch(batchSize)))| == CeilDiv(|rows|, EffectiveBatch(batchSize))
  {
    ChunkCount(rows, EffectiveBatch(batchSize));
  }

  /** The fixed lines of the dump file. */
  const DumpBanner: string := "-- PostgreSQL dump from SQLite stocks database\n"
  const GeneratedLabel: string := "-- Generated at: "
  const TotalLabel: string := "-- Total records: "
  const UsageLines: string := "-- \n-- Usage: psql -U username -d database -f stocks_dump.sql\n\n"
  const CreateTableLabel: string := "-- Create table if not exists\nCREATE TABLE IF NOT EXISTS "
  const ColumnList: string :=
    " (\n"
      + "    id SERIAL PRIMARY KEY,\n"
      + "    ticker VARCHAR(10) NOT NULL,\n"
      + "    time INTEGER NOT NULL,\n"
      + "    high FLOAT NOT NULL,\n"
      + "    low FLOAT NOT NULL,\n"
      + "    avg FLOAT NOT NULL,\n"
      + "    sale FLOAT NOT NULL,\n"
      + "    meta JSONB\n"
      + ");\n\n"
  const IndexesLabel: string := "-- Create indexes\n"
  const CreateIndexPrefix: string := "CREATE INDEX IF NOT EXISTS idx_"
  const BeginLines: string := "-- Begin transaction\nBEGIN;\n\n"
  const CommitLines: string := "\n-- Commit transaction\nCOMMIT;\n\n"
  const CompletedLabel: string := "-- Export completed: "

  /** The header comment: when, how many records (with thousands separators), how to load. */
  function PreambleText(total: nat, generatedAt: string): string
  {
    DumpBanner + GeneratedLabel + generatedAt + "\n" + TotalLabel + Grouped(total) + "\n" + UsageLines
  }

  function CreateTableText(table: string): string
  {
    CreateTableLabel + table + ColumnList
  }

  function CreateIndexesText(table: string): string
  {
    IndexesLabel
      + CreateIndexPrefix + table + "_ticker ON " + table + "(ticker);\n"
      + CreateIndexPrefix + table + "_time ON " + table + "(time);\n"
      + "\n"
  }

  function BeginText(): string
  {
    BeginLines
  }

  function CommitText(): string
  {
    CommitLines
  }

  function SummaryText(written: nat): string
  {
    CompletedLabel + Grouped(written) + " records\n"
  }

  /** The text `write_batch` produces, as a function of the batch. */
  function BatchText(table: string, batch: seq<Stock>, f: Formats): string
  {
    if |batch| == 0 then "" else InsertHead(table) + (Join(Tuples(batch, f), ",\n") + ";\n") + "\n"
  }

  function SectionText(s: Section, table: string, f: Formats): string
  {
    match s
    case Preamble(total, at) => PreambleText(total, at)
    case CreateTable => CreateTableText(table)
    case CreateIndexes => CreateIndexesText(table)
    case Begin => BeginText()
    case Insert(batch) => BatchText(table, batch, f)
    case CommitTx => CommitText()
    case Summary(n) => SummaryText(n)
  }

  /** The texts concatenated in order. */
  function Concat(xs: seq<string>): string
  {
    if |xs| == 0 then "" else xs[0] + Concat(xs[1..])
  }

  lemma {:induction false} ConcatAppend(a: seq<string>, b: seq<string>)
    ensures Concat(a + b) == Concat(a) + Concat(b)
  {
    if |a| == 0 {
      assert a + b == b;
    } else {
      assert (a + b)[0] == a[0];
      assert (a + b)[1..] == a[1..] + b;
      ConcatAppend(a[1..], b);
    }
  }

  lemma ConcatFour(a: string, b: string, c: string, d: string)
    ensures Concat([a, b, c, d]) == a + b + c + d
  {
    ConcatTwo(c, d);
    var s := [a, b, c, d];
    assert s[1..] == [b, c, d] && s[1..][1..] == [c, d];
    assert Concat([b, c, d]) == b + Concat([c, d]);
  }

  lemma ConcatTwo(a: string, b: string)
    ensures Concat([a, b]) == a + b
  {
    var s := [a, b];
    assert s[1..] == [b] && [b][1..] == [];
    assert Concat([b]) == b + Concat([]) == b;
  }

  /** Each section rendered, in order. */
  function Rendered(sections: seq<Section>, render: Section -> string): (ts: seq<string>)
    ensures |ts| == |sections|
    ensures forall k :: 0 <= k < |sections| ==> ts[k] == render(sections[k])
  {
    seq(|sections|, k requires 0 <= k < |sections| => render(sections[k]))
  }

  lemma RenderedAppend(a: seq<Section>, b: seq<Section>, render: Section -> string)
    ensures Rendered(a + b, render) == Rendered(a, render) + Rendered(b, render)
  {
  }

  function Renderer(table: string, f: Formats): Section -> string
  {
    s => SectionText(s, table, f)
  }

  /** The file contents: the sections' texts in order. */
  function Render(sections: seq<Section>, table: string, f: Formats): string
  {
    Concat(Rendered(sections, Renderer(table, f)))
  }

  /** The text of consecutive sections is the texts of each part, one after the other. */
  lemma RenderAppend(a: seq<Section>, b: seq<Section>, table: string, f: Formats)
    ensures Render(a + b, table, f) == Render(a, table, f) + Render(b, table, f)
  {
    var r := Renderer(table, f);
    RenderedAppend(a, b, r);
    ConcatAppend(Rendered(a, r), Rendered(b, r));
  }

  lemma RenderOne(s: Section, table: string, f: Formats)
    ensures Render([s], table, f) == SectionText(s, table, f)
  {
    var ts := Rendered([s], Renderer(table, f));
    assert ts == [ts[0]] && [ts[0]][1..] == [];
    assert Concat(ts) == ts[0] + Concat([]);
  }

  lemma RenderHead(total: nat, generatedAt: string, table: string, f: Formats)
    ensures Render([Preamble(total, generatedAt), CreateTable, CreateIndexes, Begin], table, f)
            == PreambleText(total, generatedAt) + CreateTableText(table) + CreateIndexesText(table) + BeginText()
  {
    var ts := Rendered([Preamble(total, generatedAt), CreateTable, CreateIndexes, Begin], Renderer(table, f));
    assert ts == [ts[0], ts[1], ts[2], ts[3]];
    ConcatFour(ts[0], ts[1], ts[2], ts[3]);
  }

  lemma RenderTail(written: nat, table: string, f: Formats)
    ensures Render([CommitTx, Summary(written)], table, f) == CommitText() + SummaryText(written)
  {
    var ts := Rendered([CommitTx, Summary(written)], Renderer(table, f));
    assert ts == [ts[0], ts[1]];
    ConcatTwo(ts[0], ts[1]);
  }

  /** The file text of a dump, or nothing when no file is written. */
  function DumpText(d: Dump, table: string, f: Formats): Option<string>
  {
    match d
    case NoRecords => None
    case Script(sections, _) => Some(Render(sections, table, f))
  }

  /**
   The dump file reads, in order: header, CREATE TABLE, indexes, BEGIN, the
   INSERT statements of the batches, COMMIT, and the summary with the number
   of rows written.
   */
  lemma ScriptOrder(total: nat, generatedAt: string, inserts: seq<Section>, written: nat,
                    table: string, f: Formats)
    ensures Render([Preamble(total, generatedAt), CreateTable, CreateIndexes, Begin] + inserts
                     + [CommitTx, Summary(written)], table, f)
            == PreambleText(total, generatedAt) + CreateTableText(table) + CreateIndexesText(table)
               + BeginText() + Render(inserts, table, f) + CommitText() + SummaryText(written)
  {
    var head := [Preamble(total, generatedAt), CreateTable, CreateIndexes, Begin];
    var tail := [CommitTx, Summary(written)];
    RenderAppend(head + inserts, tail, table, f);
    RenderAppend(head, inserts, table, f);
    RenderHead(total, generatedAt, table, f);
    RenderTail(written, table, f);
    AppendAssoc(Render(head, table, f) + Render(inserts, table, f), CommitText(), SummaryText(written));
  }

  /**
   The file the planned dump writes: none for a zero count; otherwise the
   header, table, indexes and BEGIN texts, the batches' INSERT statements,
   COMMIT and the summary of the rows written.
   */
  lemma PlannedText(total: nat, rows: seq<Stock>, batchSize: int, generatedAt: string, table: string, f: Formats)
    ensures DumpText(NoRecords, table, f) == None
    ensures var inserts := Inserts(Chunks(rows, EffectiveBatch(batchSize)));
            DumpText(Script([Preamble(total, generatedAt), CreateTable, CreateIndexes, Begin] + inserts
                              + [CommitTx, Summary(|rows|)], |rows|), table, f)
            == Some(PreambleText(total, generatedAt) + CreateTableText(table) + CreateIndexesText(table)
                    + BeginText() + Render(inserts, table, f) + CommitText() + SummaryText(|rows|))
  {
    ScriptOrder(total, generatedAt, Inserts(Chunks(rows, EffectiveBatch(batchSize))), |rows|, table, f);
  }

  /** The sections a completed export writes, in order. */
  function Planned(total: nat, rows: seq<Stock>, batchSize: int, generatedAt: string): seq<Section>
  {
    [Preamble(total, generatedAt), CreateTable, CreateIndexes, Begin]
    + Inserts(Chunks(rows, EffectiveBatch(batchSize)))
    + [CommitTx, Summary(|rows|)]
  }

  /**
   Where a run of `main` raises, if anywhere. `WriteFails(k, cut)` stands for
   any exception while section k is being produced (the row fetch, a
   `json.dumps`, an `f.write`), after `cut` characters of that section's text
   reached the file; a `k` past the last section never fires.
   */
  datatype ExportFault =
    | NoFault
    | CountFails
    | OpenFails
    | WriteFails(section: nat, cut: nat)

  /** The file a run leaves behind (`None` when it never opened one), and whether it re-raised. */
  datatype ExportRun = ExportRun(file: Option<string>, raised: bool)

  /** The first `n` characters of `s`, or all of it. */
  function Take(s: string, n: nat): (t: string)
    ensures t <= s
    ensures |t| == if n <= |s| then n else |s|
  {
    if n <= |s| then s[..n] else s
  }

  /** The file after the writing of section k stopped part-way: the sections before it, then the part of it written. */
  function PartialText(sections: seq<Section>, k: nat, cut: nat, table: string, f: Formats): string
    requires k < |sections|
  {
    Render(sections[..k], table, f) + Take(SectionText(sections[k], table, f), cut)
  }

  /** A file cut off while writing section k is a prefix of the text of every longer run of sections. */
  lemma PartialIsPrefix(sections: seq<Section>, k: nat, cut: nat, j: nat, table: string, f: Formats)
    requires k < j <= |sections|
    ensures PartialText(sections, k, cut, table, f) <= Render(sections[..j], table, f)
  {
    var head, rest := sections[..k], sections[k + 1..j];
    var before := Render(head, table, f);
    var t := SectionText(sections[k], table, f);
    var after := Render(rest, table, f);
    assert sections[..j] == head + [sections[k]] + rest;
    RenderAppend(head + [sections[k]], rest, table, f);
    RenderAppend(head, [sections[k]], table, f);
    RenderOne(sections[k], table, f);
    assert Render(sections[..j], table, f) == before + t + after;
    PrefixExtends(before, Take(t, cut), t, after);
  }

  /** A prefix of the middle part, after a fixed start, is a prefix of the whole. */
  lemma PrefixExtends(a: string, p: string, t: string, b: string)
    requires p <= t
    ensures a + p <= a + t + b
  {
    assert (a + t + b)[..|a| + |p|] == a + p;
  }

  /** Only the two closing sections follow the last INSERT: COMMIT comes after every data section. */
  lemma CommitAfterData(total: nat, rows: seq<Stock>, batchSize: int, generatedAt: string)
    ensures var p := Planned(total, rows, batchSize, generatedAt);
            && |p| >= 6
            && p[|p| - 2] == CommitTx
            && CommitTx !in p[..|p| - 2]
  {
    var p := Planned(total, rows, batchSize, generatedAt);
    var inserts := Inserts(Chunks(rows, EffectiveBatch(batchSize)));
    var data := p[..|p| - 2];
    assert data == [Preamble(total, generatedAt), CreateTable, CreateIndexes, Begin] + inserts;
    forall k | 0 <= k < |data|
      ensures data[k] != CommitTx
    {
      if k >= 4 {
        assert data[k] == inserts[k - 4];
      }
    }
  }

  /**
   `main` with its failure paths: a failing count
   query or `open` leaves no file and re-raises; a zero count returns quietly
   with no file; a failure after the file is open re-raises and leaves the
   sections written so far, closed by the `with` block, with no COMMIT unless
   the failure came after it.
   */
  method RunExport(total: nat, rows: seq<Stock>, batchSize: int, generatedAt: string,
                   table: string, f: Formats, fault: ExportFault) returns (r: ExportRun)
    ensures var p := Planned(total, rows, batchSize, generatedAt);
            && (r.file.None? <==> fault.CountFails? || total == 0 || fault.OpenFails?)
            && (r.raised <==> fault.CountFails? || (total > 0 && (fault.OpenFails? || (fault.WriteFails? && fault.section < |p|))))
            && (r.file.Some? ==> r.file.value <= Render(p, table, f))
            && (r.file.Some? && !r.raised ==> r.file.value == Render(p, table, f))
            && (r.file.Some? && fault.WriteFails? && fault.section < |p| - 2 ==>
                  r.file.value <= Render(p[..|p| - 2], table, f))
            && (r.file.Some? && fault.WriteFails? && fault.section < |p| ==>
                  r.file.value == PartialText(p, fault.section, fault.cut, table, f))
  {
    if fault.CountFails? {
      return ExportRun(None, true);
    }
    if total == 0 {
      return ExportRun(None, false);
    }
    if fault.OpenFails? {
      return ExportRun(None, true);
    }
    var d := Plan(total, rows, batchSize, generatedAt);
    var p := d.sections;
    assert p == Planned(total, rows, batchSize, generatedAt);
    CommitAfterData(total, rows, batchSize, generatedAt);
    if fault.WriteFails? && fault.section < |p| {
      var k := fault.section;
      PartialIsPrefix(p, k, fault.cut, |p|, table, f);
      assert p[..|p|] == p;
      if k < |p| - 2 {
        PartialIsPrefix(p, k, fault.cut, |p| - 2, table, f);
      }
      return ExportRun(Some(PartialText(p, k, fault.cut, table, f)), true);
    }
    r := ExportRun(Some(Render(p, table, f)), false);
  }
}
