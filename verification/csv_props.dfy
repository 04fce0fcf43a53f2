/**
 * What `CSVProcessor.parseCSV` guarantees about its result, and how the parser and the two
 * serialisers fit together: the template imports cleanly and an export imports back.
 */
module CsvProperties {
  import opened Wrappers
  import opened Seqs
  import opened Text
  import opened JsNumber
  import opened Vehicles
  import opened Csv

  // ---------------------------------------------------------------------------------------
  // The fate of one data line

  /** `Row n: `, the label an error message of line `n` starts with. */
  function RowLabel(n: nat): string
  {
    "Row " + NatStr(n) + ": "
  }

  /** A data line becomes a record exactly when its row object's listing is valid. That
    * record keeps the row's data columns, has a non-empty key (the row's own `id` when it
    * has one) and both timestamps set to now. Otherwise the line becomes one message,
    * labelled with its 1-based line number, listing what is wrong with it. */
  lemma ProcessRowFate(headers: seq<string>, line: string, i: nat, clock: Clock)
    ensures var row := ZipRow(headers, Cells(line));
            var o := ProcessRow(headers, line, i, clock);
            && (o.Accepted? <==> ValidListing(ListingOf(row)))
            && (o.Accepted? ==>
                  && o.vehicle.listing == ListingOf(row)
                  && o.vehicle.id != ""
                  && (Field(row, "id") != "" ==> o.vehicle.id == Field(row, "id"))
                  && (Field(row, "id") == "" ==> o.vehicle.id == GeneratedId(clock, i))
                  && o.vehicle.created_at == clock.iso && o.vehicle.updated_at == clock.iso)
            && (o.Rejected? ==>
                  && o.message == RowLabel(i + 1) + Join(ValidateVehicle(row), ", ")
                  && RowLabel(i + 1) <= o.message
                  && ValidateVehicle(row) != [])
  {
    var row := ZipRow(headers, Cells(line));
    ValidateVehicleReports(row);
    var tag, rest := RowLabel(i + 1), Join(ValidateVehicle(row), ", ");
    assert (tag + rest)[..|tag|] == tag;
    assert GeneratedId(clock, i)[0] == 'v';
  }

  /** A line whose row object has a valid listing is accepted as that row's record. */
  lemma ProcessRowAccepts(headers: seq<string>, line: string, i: nat, clock: Clock)
    requires ValidListing(ListingOf(ZipRow(headers, Cells(line))))
    ensures ProcessRow(headers, line, i, clock) == Accepted(RowVehicle(ZipRow(headers, Cells(line)), i, clock))
  {
    ValidateVehicleReports(ZipRow(headers, Cells(line)));
  }

  /** The `i`-th data line (counting from 1) has the `i-1`-th outcome. */
  lemma {:induction false} RowOutcomeAt(headers: seq<string>, lines: seq<string>, clock: Clock, k: nat)
    requires |lines| >= 1 && k < |lines| - 1
    ensures RowOutcomes(headers, lines, clock)[k] == ProcessRow(headers, lines[k + 1], k + 1, clock)
  {
    var init := lines[..|lines| - 1];
    if k < |lines| - 2 {
      RowOutcomeAt(headers, init, clock, k);
      assert init[k + 1] == lines[k + 1];
      assert RowOutcomes(headers, lines, clock)[k] == RowOutcomes(headers, init, clock)[k];
    }
  }

  // ---------------------------------------------------------------------------------------
  // Sorting outcomes into records and messages

  lemma {:induction false} OutcomeCount(os: seq<RowOutcome>)
    ensures |AcceptedOf(os)| + |RejectedOf(os)| == |os|
  {
    if os != [] {
      OutcomeCount(os[..|os| - 1]);
    }
  }

  lemma {:induction false} AcceptedFrom(os: seq<RowOutcome>, v: Vehicle)
    requires v in AcceptedOf(os)
    ensures exists k :: 0 <= k < |os| && os[k] == Accepted(v)
  {
    var init := os[..|os| - 1];
    if v in AcceptedOf(init) {
      AcceptedFrom(init, v);
      var k :| 0 <= k < |init| && init[k] == Accepted(v);
      assert os[k] == Accepted(v);
    } else {
      assert os[|os| - 1] == Accepted(v);
    }
  }

  lemma {:induction false} RejectedFrom(os: seq<RowOutcome>, e: string)
    requires e in RejectedOf(os)
    ensures exists k :: 0 <= k < |os| && os[k] == Rejected(e)
  {
    var init := os[..|os| - 1];
    if e in RejectedOf(init) {
      RejectedFrom(init, e);
      var k :| 0 <= k < |init| && init[k] == Rejected(e);
      assert os[k] == Rejected(e);
    } else {
      assert os[|os| - 1] == Rejected(e);
    }
  }

  /** Outcomes that are all acceptances yield exactly their records and no messages. */
  lemma {:induction false} AllAccepted(os: seq<RowOutcome>, vs: seq<Vehicle>)
    requires |os| == |vs|
    requires forall k | 0 <= k < |os| :: os[k] == Accepted(vs[k])
    ensures AcceptedOf(os) == vs && RejectedOf(os) == []
  {
    if os != [] {
      var n := |os| - 1;
      AllAccepted(os[..n], vs[..n]);
      assert vs == vs[..n] + [vs[n]];
    }
  }

  // ---------------------------------------------------------------------------------------
  // What a successful parse returns

  /** A record as the importer creates it. */
  predicate Imported(v: Vehicle, clock: Clock)
  {
    ValidListing(v.listing) && v.id != "" && v.created_at == clock.iso && v.updated_at == clock.iso
  }

  /** `parseCSV` throws exactly when the text has fewer than two non-blank lines, or when a
    * required header is absent from the header line; the message names the missing headers
    * in the order of the required list. */
  lemma ParseFailures(text: string, clock: Clock)
    ensures var lines := NonBlankLines(text);
            && (|lines| < 2 ==> Parse(text, clock) == Failure(TooFewLinesMessage))
            && (|lines| >= 2 ==>
                  && (Parse(text, clock).Failure? <==> exists h :: h in RequiredHeaders && h !in Cells(lines[0]))
                  && (Parse(text, clock).Failure? ==>
                        Parse(text, clock).error == MissingHeadersMessage(MissingHeaders(Cells(lines[0])))))
  {
    var lines := NonBlankLines(text);
    if |lines| >= 2 {
      var headers := Cells(lines[0]);
      var missing := MissingHeaders(headers);
      assert (exists h :: h in RequiredHeaders && h !in headers) <==> missing != [] by {
        if missing != [] {
          assert missing[0] in missing;
        }
      }
    }
  }

  /** Every data line is accounted for: it is either a record or a message. */
  lemma ParseAccounting(text: string, clock: Clock)
    requires Parse(text, clock).Success?
    ensures |Parse(text, clock).value.vehicles| + |Parse(text, clock).value.errors|
         == |NonBlankLines(text)| - 1
  {
    var lines := NonBlankLines(text);
    OutcomeCount(RowOutcomes(Cells(lines[0]), lines, clock));
  }

  /** Every record a parse returns passed validation, has a key and is stamped now. */
  lemma ParseAcceptsOnlyValid(text: string, clock: Clock)
    requires Parse(text, clock).Success?
    ensures forall v | v in Parse(text, clock).value.vehicles :: Imported(v, clock)
  {
    var lines := NonBlankLines(text);
    var headers := Cells(lines[0]);
    var os := RowOutcomes(headers, lines, clock);
    forall v | v in AcceptedOf(os) ensures Imported(v, clock) {
      AcceptedFrom(os, v);
      var k :| 0 <= k < |os| && os[k] == Accepted(v);
      RowOutcomeAt(headers, lines, clock, k);
      ProcessRowFate(headers, lines[k + 1], k + 1, clock);
    }
  }

  /** Every message a parse returns is labelled with the 1-based number of a data line
    * among the non-blank lines (the header being line 1). */
  lemma ParseErrorsLabelled(text: string, clock: Clock)
    requires Parse(text, clock).Success?
    ensures forall e | e in Parse(text, clock).value.errors ::
              exists n :: 2 <= n <= |NonBlankLines(text)| && RowLabel(n) <= e
  {
    var lines := NonBlankLines(text);
    var headers := Cells(lines[0]);
    var os := RowOutcomes(headers, lines, clock);
    forall e | e in RejectedOf(os)
      ensures exists n :: 2 <= n <= |lines| && RowLabel(n) <= e
    {
      RejectedFrom(os, e);
      var k :| 0 <= k < |os| && os[k] == Rejected(e);
      RowOutcomeAt(headers, lines, clock, k);
      ProcessRowFate(headers, lines[k + 1], k + 1, clock);
      assert RowLabel(k + 1 + 1) <= e;
    }
  }

  // ---------------------------------------------------------------------------------------
  // Text the importer reads back as it was written

  /** A cell no comma, quote or line break cuts or alters. */
  predicate Safe(c: string)
  {
    ',' !in c && '"' !in c && '\n' !in c
  }

  /** A safe cell `trim` leaves alone. */
  predicate Plain(c: string)
  {
    Safe(c) && IsTrimmed(c)
  }

  function TrimAll(cells: seq<string>): (r: seq<string>)
    ensures |r| == |cells|
    ensures forall k | 0 <= k < |cells| :: r[k] == Trim(cells[k])
  {
    seq(|cells|, k requires 0 <= k < |cells| => Trim(cells[k]))
  }

  /** A header line of plain names is read back as those names. */
  lemma CellsOfPlainLine(cells: seq<string>)
    requires cells != []
    requires forall c | c in cells :: Plain(c)
    ensures Cells(Join(cells, ",")) == cells
  {
    SplitJoin(cells, ',');
    forall k | 0 <= k < |cells| ensures CleanCell(cells[k]) == cells[k] {
      assert cells[k] in cells;
      RemoveCharAbsent(cells[k], '"');
    }
  }

  /** A quoted cell is cleaned back to the cell, trimmed. */
  lemma CleanQuoted(c: string)
    requires '"' !in c
    ensures CleanCell("\"" + c + "\"") == Trim(c)
  {
    var quote: string := "\"";
    assert RemoveChar(quote, '"') == [] by {
      assert quote[0] == '"' && quote[1..] == [];
    }
    RemoveCharAppend(quote, c, '"');
    RemoveCharAppend(quote + c, quote, '"');
    RemoveCharAbsent(c, '"');
    assert RemoveChar(quote + c + quote, '"') == c;
  }

  /** A quoted line of safe cells is read back as those cells, trimmed. */
  lemma CellsOfQuotedLine(cells: seq<string>)
    requires cells != []
    requires forall c | c in cells :: Safe(c)
    ensures Cells(QuoteLine(cells)) == TrimAll(cells)
  {
    var q := QuoteCells(cells);
    forall p | p in q ensures ',' !in p {
      var k :| 0 <= k < |q| && q[k] == p;
      assert cells[k] in cells;
    }
    SplitJoin(q, ',');
    assert Split(QuoteLine(cells), ',') == q;
    forall k | 0 <= k < |cells| ensures CleanCell(q[k]) == Trim(cells[k]) {
      assert cells[k] in cells;
      CleanQuoted(cells[k]);
    }
  }

  /** Reading the row object back: a header's cell is found under its name. */
  lemma {:induction false} ZipRowAt(headers: seq<string>, values: seq<string>, k: nat)
    requires k < |headers|
    requires forall j | k < j < |headers| :: headers[j] != headers[k]
    ensures Field(ZipRow(headers, values), headers[k]) == CellAt(values, k)
  {
    var n := |headers| - 1;
    if k < n {
      assert forall j | k < j < n :: headers[..n][j] == headers[j];
      ZipRowAt(headers[..n], values, k);
      assert headers[..n][k] == headers[k];
    }
  }

  lemma FieldAt(headers: seq<string>, values: seq<string>, o: nat, j: nat)
    requires NoDuplicates(headers)
    requires o + 11 <= |headers| && headers[o..o + 11] == RequiredHeaders
    requires o + 11 <= |values| && j < 11
    ensures Field(ZipRow(headers, values), RequiredHeaders[j]) == values[o + j]
  {
    assert headers[o + j] == RequiredHeaders[j];
    ZipRowAt(headers, values, o + j);
  }

  /** A row object whose required columns hold `cells`, in header order, has that listing. */
  lemma ListingOfFields(row: Row, cells: seq<string>)
    requires |cells| == 11
    requires forall j | 0 <= j < 11 :: Field(row, RequiredHeaders[j]) == cells[j]
    ensures ListingOf(row) == ListingFrom(cells)
  {
    assert Field(row, RequiredHeaders[0]) == cells[0];
    assert Field(row, RequiredHeaders[1]) == cells[1];
    assert Field(row, RequiredHeaders[2]) == cells[2];
    assert Field(row, RequiredHeaders[3]) == cells[3];
    assert Field(row, RequiredHeaders[4]) == cells[4];
    assert Field(row, RequiredHeaders[5]) == cells[5];
    assert Field(row, RequiredHeaders[6]) == cells[6];
    assert Field(row, RequiredHeaders[7]) == cells[7];
    assert Field(row, RequiredHeaders[8]) == cells[8];
    assert Field(row, RequiredHeaders[9]) == cells[9];
    assert Field(row, RequiredHeaders[10]) == cells[10];
  }

  /** A row object built under distinct headers that contain the required ones as a block
    * has the data columns of that block. */
  lemma ListingOfRow(headers: seq<string>, values: seq<string>, o: nat)
    requires NoDuplicates(headers)
    requires o + 11 <= |headers| && headers[o..o + 11] == RequiredHeaders
    requires o + 11 <= |values|
    ensures ListingOf(ZipRow(headers, values)) == ListingFrom(values[o..o + 11])
  {
    var row := ZipRow(headers, values);
    var cells := values[o..o + 11];
    forall j | 0 <= j < 11
      ensures Field(row, RequiredHeaders[j]) == cells[j]
    {
      FieldAt(headers, values, o, j);
    }
    ListingOfFields(row, cells);
  }

  // ---------------------------------------------------------------------------------------
  // Reading a table back

  /** A line that starts with a non-blank piece is not blank. */
  lemma NotBlankFromStart(line: string, start: string)
    requires |start| <= |line| && line[..|start|] == start
    requires !IsBlank(start)
    ensures !IsBlank(line)
  {
    var i :| 0 <= i < |start| && !IsSpace(start[i]);
    assert line[i] == start[i];
  }

  lemma HeaderLineKept(headers: seq<string>)
    requires headers != [] && !IsBlank(headers[0])
    requires forall h | h in headers :: '\n' !in h
    ensures '\n' !in Join(headers, ",") && !IsBlank(Join(headers, ","))
  {
    JoinAvoids(headers, ",", '\n');
    JoinStartsWith(headers, ",");
    NotBlankFromStart(Join(headers, ","), headers[0]);
  }

  lemma QuotedLineKept(r: seq<string>)
    requires r != [] && forall c | c in r :: Safe(c)
    ensures '\n' !in QuoteLine(r) && !IsBlank(QuoteLine(r))
  {
    var q := QuoteCells(r);
    forall p | p in q ensures '\n' !in p {
      var k :| 0 <= k < |q| && q[k] == p;
      assert r[k] in r;
    }
    JoinAvoids(q, ",", '\n');
    JoinStartsWith(q, ",");
    assert !IsBlank(q[0]) by { assert q[0][0] == '"'; }
    NotBlankFromStart(QuoteLine(r), q[0]);
  }

  /** The lines of a table: its header line and one quoted line per row, all kept as non-blank. */
  lemma TableLines(headers: seq<string>, rows: seq<seq<string>>)
    requires headers != [] && !IsBlank(headers[0])
    requires forall h | h in headers :: '\n' !in h
    requires forall r | r in rows :: r != [] && forall c | c in r :: Safe(c)
    ensures NonBlankLines(Table(headers, rows)) == [Join(headers, ",")] + QuoteLines(rows)
  {
    var lines := [Join(headers, ",")] + QuoteLines(rows);
    forall i | 0 <= i < |lines| ensures '\n' !in lines[i] && !IsBlank(lines[i]) {
      if i == 0 {
        HeaderLineKept(headers);
      } else {
        assert rows[i - 1] in rows;
        QuotedLineKept(rows[i - 1]);
      }
    }
    SplitJoin(lines, '\n');
    assert Split(Table(headers, rows), '\n') == lines;
    FilterAll(lines, l => Trim(l) != []);
  }

  /** The lines of a table, as the parser numbers them. */
  function TableText(headers: seq<string>, rows: seq<seq<string>>): seq<string>
  {
    [Join(headers, ",")] + QuoteLines(rows)
  }

  /** A table whose header line holds every required header parses without a thrown error,
    * into the outcomes of its data lines. */
  lemma ParseTable(headers: seq<string>, rows: seq<seq<string>>, clock: Clock)
    requires headers != [] && forall h | h in headers :: Plain(h) && h != ""
    requires forall h | h in RequiredHeaders :: h in headers
    requires rows != [] && forall r | r in rows :: r != [] && forall c | c in r :: Safe(c)
    ensures var os := RowOutcomes(headers, TableText(headers, rows), clock);
            Parse(Table(headers, rows), clock) == Success(Parsed(AcceptedOf(os), RejectedOf(os)))
  {
    assert headers[0] in headers;
    assert !IsBlank(headers[0]) by { assert !IsSpace(headers[0][0]); }
    TableLines(headers, rows);
    CellsOfPlainLine(headers);
    NoneMissing(headers);
    ParseOfLines(Table(headers, rows), clock, headers);
  }

  /** The header line holds every required header. */
  lemma NoneMissing(headers: seq<string>)
    requires forall h | h in RequiredHeaders :: h in headers
    ensures MissingHeaders(headers) == []
  {
    FilterNone(RequiredHeaders, h => h !in headers);
  }

  /** A text with a data line whose header line names every required header parses into the
    * outcomes of its lines. */
  lemma ParseOfLines(text: string, clock: Clock, headers: seq<string>)
    requires |NonBlankLines(text)| >= 2 && Cells(NonBlankLines(text)[0]) == headers
    requires MissingHeaders(headers) == []
    ensures var os := RowOutcomes(headers, NonBlankLines(text), clock);
            Parse(text, clock) == Success(Parsed(AcceptedOf(os), RejectedOf(os)))
  {
  }

  /** The `k`-th row of a table is processed as line `k + 1`. */
  lemma TableOutcome(headers: seq<string>, rows: seq<seq<string>>, clock: Clock, k: nat)
    requires k < |rows|
    ensures var os := RowOutcomes(headers, TableText(headers, rows), clock);
            |os| == |rows| && os[k] == ProcessRow(headers, QuoteLine(rows[k]), k + 1, clock)
  {
    RowOutcomeAt(headers, TableText(headers, rows), clock, k);
  }

  // ---------------------------------------------------------------------------------------
  // The fixed header lists

  lemma RequiredHeadersDistinct()
    ensures NoDuplicates(RequiredHeaders)
  {
  }

  lemma ExportHeadersShape()
    ensures ExportHeaders == ["id"] + RequiredHeaders + ["created_at", "updated_at"]
    ensures ExportHeaders[1..12] == RequiredHeaders
    ensures forall h | h in RequiredHeaders :: h in ExportHeaders
  {
  }

  lemma ExportHeadersDistinct()
    ensures NoDuplicates(ExportHeaders)
  {
    RequiredHeadersDistinct();
    ExportHeadersShape();
    assert "id" !in RequiredHeaders;
    assert "created_at" !in RequiredHeaders && "updated_at" !in RequiredHeaders;
  }

  /** Lower-case letters and `_`, the characters of the header names. */
  predicate IsName(h: string)
  {
    h != [] && forall i | 0 <= i < |h| :: 'a' <= h[i] <= 'z' || h[i] == '_'
  }

  lemma NamePlain(h: string)
    requires IsName(h)
    ensures Plain(h) && h != ""
  {
    assert !IsSpace(h[0]) && !IsSpace(h[|h| - 1]);
    forall c | c in h ensures c != ',' && c != '"' && c != '\n' {
      var i :| 0 <= i < |h| && h[i] == c;
    }
  }

  lemma RequiredAreNames()
    ensures forall h | h in RequiredHeaders :: IsName(h)
  {
  }

  lemma ExportAreNames()
    ensures forall h | h in ExportHeaders :: IsName(h)
  {
    ExportHeadersShape();
    RequiredAreNames();
    assert IsName("id") && IsName("created_at") && IsName("updated_at");
  }

  lemma HeadersPlain()
    ensures forall h | h in RequiredHeaders :: Plain(h) && h != ""
    ensures forall h | h in ExportHeaders :: Plain(h) && h != ""
  {
    RequiredAreNames();
    ExportAreNames();
    forall h | h in RequiredHeaders ensures Plain(h) && h != "" {
      NamePlain(h);
    }
    forall h | h in ExportHeaders ensures Plain(h) && h != "" {
      NamePlain(h);
    }
  }

  // ---------------------------------------------------------------------------------------
  // The template imports cleanly

  /** The records the template's sample rows become: generated keys numbered by line. */
  function TemplateVehicles(clock: Clock): (vs: seq<Vehicle>)
    ensures |vs| == |SampleRows|
  {
    seq(|SampleRows|, k requires 0 <= k < |SampleRows| =>
      Vehicle(GeneratedId(clock, k + 1), ListingFrom(SampleRows[k]), clock.iso, clock.iso))
  }

  /** Letters, digits, spaces and dots: the characters of the sample cells. */
  predicate IsCellText(s: string)
  {
    && s != [] && s[0] != ' ' && s[|s| - 1] != ' '
    && forall i | 0 <= i < |s| :: 'a' <= s[i] <= 'z' || 'A' <= s[i] <= 'Z' || '0' <= s[i] <= '9' || s[i] == ' ' || s[i] == '.'
  }

  lemma CellTextPlain(s: string)
    requires IsCellText(s)
    ensures Plain(s)
  {
    forall c | c in s ensures c != ',' && c != '"' && c != '\n' {
      var i :| 0 <= i < |s| && s[i] == c;
    }
  }

  lemma SampleText0()
    ensures |SampleRows[0]| == 11 && forall c | c in SampleRows[0] :: IsCellText(c)
  {
  }

  lemma SampleText1()
    ensures |SampleRows[1]| == 11 && forall c | c in SampleRows[1] :: IsCellText(c)
  {
  }

  lemma SampleText2()
    ensures |SampleRows[2]| == 11 && forall c | c in SampleRows[2] :: IsCellText(c)
  {
  }

  lemma SampleCellsText(k: nat)
    requires k < |SampleRows|
    ensures |SampleRows[k]| == 11
    ensures forall c | c in SampleRows[k] :: IsCellText(c)
  {
    if k == 0 {
      SampleText0();
    } else if k == 1 {
      SampleText1();
    } else {
      SampleText2();
    }
  }

  lemma SampleCellsPlain(k: nat)
    requires k < |SampleRows|
    ensures |SampleRows[k]| == 11
    ensures forall c | c in SampleRows[k] :: Plain(c)
  {
    SampleCellsText(k);
    forall c | c in SampleRows[k] ensures Plain(c) {
      CellTextPlain(c);
    }
  }

  /** The sample years and prices are digit strings; categories and conditions are from the
    * two enumerations. */
  lemma SampleColumns(k: nat)
    requires k < |SampleRows|
    ensures |SampleRows[k]| == 11
    ensures AllDigits(SampleRows[k][4]) && AllDigits(SampleRows[k][8])
    ensures SampleRows[k][4] != [] && SampleRows[k][8] != []
    ensures SampleRows[k][9] == "Mobil" || SampleRows[k][9] == "Motor"
    ensures SampleRows[k][10] == "Baru" || SampleRows[k][10] == "Bekas"
  {
  }

  /** A non-empty string of digits is not blank and is numeric, also once its commas are removed. */
  lemma DigitsNumeric(s: string)
    requires s != [] && AllDigits(s)
    ensures !IsBlank(s) && IsNumeric(s) && IsNumeric(RemoveChar(s, ','))
  {
    assert !IsSpace(s[0]) && !IsSpace(s[|s| - 1]);
    RemoveCharAbsent(s, ',');
  }

  lemma SampleListingValid(k: nat)
    requires k < |SampleRows|
    ensures |SampleRows[k]| == 11 && ValidListing(ListingFrom(SampleRows[k]))
  {
    SampleCellsText(k);
    SampleColumns(k);
    var cells := SampleRows[k];
    var l := ListingFrom(cells);
    assert IsCellText(l.merk) && IsCellText(l.model) by {
      assert cells[0] in cells && cells[1] in cells;
    }
    assert !IsBlank(l.merk) by { assert !IsSpace(l.merk[0]); }
    assert !IsBlank(l.model) by { assert !IsSpace(l.model[0]); }
    DigitsNumeric(l.tahun);
    DigitsNumeric(l.harga);
  }

  /** Trimming leaves plain cells alone. */
  lemma TrimAllPlain(cells: seq<string>)
    requires forall c | c in cells :: Plain(c)
    ensures TrimAll(cells) == cells
  {
    forall k | 0 <= k < |cells| ensures Trim(cells[k]) == cells[k] {
      assert cells[k] in cells;
    }
  }

  lemma IdNotRequired()
    ensures "id" !in RequiredHeaders
  {
  }

  /** Trimming commutes with taking a prefix. */
  lemma TrimAllPrefix(cells: seq<string>, n: nat)
    requires n <= |cells|
    ensures TrimAll(cells)[..n] == TrimAll(cells[..n])
  {
  }

  /** A quoted line of plain cells is read back as those cells. */
  lemma QuotedPlainCells(cells: seq<string>)
    requires cells != [] && forall c | c in cells :: Plain(c)
    ensures Cells(QuoteLine(cells)) == cells
  {
    CellsOfQuotedLine(cells);
    TrimAllPlain(cells);
  }

  /** Eleven cells under distinct headers that are exactly the required ones. */
  lemma WholeRowListing(headers: seq<string>, cells: seq<string>)
    requires NoDuplicates(headers) && headers == RequiredHeaders && |cells| == 11
    ensures ListingOf(ZipRow(headers, cells)) == ListingFrom(cells)
  {
    assert headers[0..11] == headers;
    ListingOfRow(headers, cells, 0);
    assert cells[0..11] == cells;
  }

  /** A quoted line of eleven plain cells, under the required header, is read back as the
    * listing of those cells, with no key. */
  lemma PlainRowObject(headers: seq<string>, cells: seq<string>)
    requires headers == RequiredHeaders
    requires |cells| == 11 && forall c | c in cells :: Plain(c)
    ensures var row := ZipRow(headers, Cells(QuoteLine(cells)));
            ListingOf(row) == ListingFrom(cells) && Field(row, "id") == ""
  {
    QuotedPlainCells(cells);
    RequiredHeadersDistinct();
    WholeRowListing(headers, cells);
    IdNotRequired();
  }

  /** Such a line, with a valid listing, is accepted as a record with a generated key. */
  lemma PlainRowImports(headers: seq<string>, cells: seq<string>, i: nat, clock: Clock)
    requires headers == RequiredHeaders
    requires |cells| == 11 && forall c | c in cells :: Plain(c)
    requires ValidListing(ListingFrom(cells))
    ensures ProcessRow(headers, QuoteLine(cells), i, clock)
         == Accepted(Vehicle(GeneratedId(clock, i), ListingFrom(cells), clock.iso, clock.iso))
  {
    PlainRowObject(headers, cells);
    ProcessRowAccepts(headers, QuoteLine(cells), i, clock);
  }

  lemma TemplateVehicleAt(clock: Clock, k: nat)
    requires k < |SampleRows|
    ensures |SampleRows[k]| == 11
    ensures TemplateVehicles(clock)[k] == Vehicle(GeneratedId(clock, k + 1), ListingFrom(SampleRows[k]), clock.iso, clock.iso)
  {
  }

  lemma SampleRowImports(headers: seq<string>, rows: seq<seq<string>>, k: nat, clock: Clock)
    requires headers == RequiredHeaders && rows == SampleRows && k < |rows|
    ensures ProcessRow(headers, QuoteLine(rows[k]), k + 1, clock) == Accepted(TemplateVehicles(clock)[k])
  {
    SampleCellsPlain(k);
    SampleListingValid(k);
    PlainRowImports(headers, rows[k], k + 1, clock);
    TemplateVehicleAt(clock, k);
  }

  /** `generateCSVTemplate` produces a file the importer accepts in full: its three sample
    * rows become three records with generated keys, and no row is rejected. */
  lemma TemplateImports(clock: Clock)
    ensures Parse(GenerateCsvTemplate(), clock) == Success(Parsed(TemplateVehicles(clock), []))
  {
    HeadersPlain();
    SampleRowsSafe();
    ParseTable(RequiredHeaders, SampleRows, clock);
    TemplateOutcomes(RequiredHeaders, SampleRows, clock);
    var os := RowOutcomes(RequiredHeaders, TableText(RequiredHeaders, SampleRows), clock);
    AllAccepted(os, TemplateVehicles(clock));
  }

  lemma SampleRowsSafe()
    ensures forall r | r in SampleRows :: r != [] && forall c | c in r :: Safe(c)
  {
    forall r | r in SampleRows ensures r != [] && forall c | c in r :: Safe(c) {
      var k :| 0 <= k < |SampleRows| && SampleRows[k] == r;
      SampleCellsPlain(k);
    }
  }

  /** Every sample line is accepted as its template record. */
  lemma TemplateOutcomes(headers: seq<string>, rows: seq<seq<string>>, clock: Clock)
    requires headers == RequiredHeaders && rows == SampleRows
    ensures var os := RowOutcomes(headers, TableText(headers, rows), clock);
            |os| == |TemplateVehicles(clock)| && forall k | 0 <= k < |os| :: os[k] == Accepted(TemplateVehicles(clock)[k])
  {
    var os := RowOutcomes(headers, TableText(headers, rows), clock);
    forall k | 0 <= k < |os| ensures os[k] == Accepted(TemplateVehicles(clock)[k]) {
      TableOutcome(headers, rows, clock, k);
      SampleRowImports(headers, rows, k, clock);
    }
  }

  // ---------------------------------------------------------------------------------------
  // An export imports back

  /** A record the export writes in a form the importer reads back unchanged: a plain key,
    * plain data columns that pass validation, and timestamps no comma, quote or line break cuts. */
  predicate Exportable(v: Vehicle, clock: Clock)
  {
    && v.id != "" && Plain(v.id) && ValidListing(v.listing)
    && (forall c | c in ListingCells(v.listing) :: Plain(c))
    && Safe(OrNow(v.created_at, clock)) && Safe(OrNow(v.updated_at, clock))
  }

  /** A cell holding a comma cuts its exported line into more cells than were written, so
    * every later column shifts when the line is read back. */
  lemma CommaCellSplits(cells: seq<string>, k: nat)
    requires k < |cells| && ',' in cells[k]
    ensures |Cells(QuoteLine(cells))| > |cells|
  {
    var quoted := QuoteCells(cells);
    var j :| 0 <= j < |cells[k]| && cells[k][j] == ',';
    assert quoted[k][j + 1] == ',';
    assert quoted[k] in quoted;
    JoinCount(quoted, ',');
    SplitCount(QuoteLine(cells), ',');
  }

  /** The records with both timestamps set to `iso`. */
  function Restamped(vs: seq<Vehicle>, iso: string): (ws: seq<Vehicle>)
    ensures |ws| == |vs|
  {
    seq(|vs|, k requires 0 <= k < |vs| => vs[k].(created_at := iso, updated_at := iso))
  }

  /** The key and data columns of an exportable record are plain. */
  lemma ExportHeadPlain(v: Vehicle, clock: Clock)
    requires Exportable(v, clock)
    ensures forall c | c in [v.id] + ListingCells(v.listing) :: Plain(c)
  {
  }

  lemma ExportRowSafe(v: Vehicle, clock: Clock)
    requires Exportable(v, clock)
    ensures forall c | c in ExportRow(v, clock) :: Safe(c)
    ensures TrimAll(ExportRow(v, clock))[..12] == [v.id] + ListingCells(v.listing)
  {
    var cells := ExportRow(v, clock);
    var head := [v.id] + ListingCells(v.listing);
    assert cells == head + [OrNow(v.created_at, clock), OrNow(v.updated_at, clock)];
    assert cells[..12] == head;
    ExportHeadPlain(v, clock);
    TrimAllPlain(head);
    TrimAllPrefix(cells, 12);
  }

  /** The row object of cells that start with a key and a listing's columns, under the
    * export header, has that key and that listing. */
  lemma ExportRowObject(headers: seq<string>, v: Vehicle, t: seq<string>)
    requires headers == ExportHeaders
    requires |t| == 14 && t[..12] == [v.id] + ListingCells(v.listing)
    ensures ListingOf(ZipRow(headers, t)) == v.listing
    ensures Field(ZipRow(headers, t), "id") == v.id
  {
    ExportHeadersDistinct();
    ExportHeadersShape();
    ListingOfRow(headers, t, 1);
    assert t[1..12] == ListingCells(v.listing) by {
      assert t[1..12] == t[..12][1..];
    }
    ZipRowAt(headers, t, 0);
    assert t[0] == v.id by { assert t[0] == t[..12][0]; }
  }

  lemma ExportedRowObject(headers: seq<string>, v: Vehicle, clock: Clock)
    requires headers == ExportHeaders
    requires Exportable(v, clock)
    ensures var row := ZipRow(headers, Cells(QuoteLine(ExportRow(v, clock))));
            ListingOf(row) == v.listing && Field(row, "id") == v.id
  {
    var cells := ExportRow(v, clock);
    ExportRowSafe(v, clock);
    CellsOfQuotedLine(cells);
    ExportRowObject(headers, v, TrimAll(cells));
  }

  lemma ExportedRowImports(headers: seq<string>, v: Vehicle, i: nat, exportClock: Clock, importClock: Clock)
    requires headers == ExportHeaders
    requires Exportable(v, exportClock)
    ensures ProcessRow(headers, QuoteLine(ExportRow(v, exportClock)), i, importClock)
         == Accepted(v.(created_at := importClock.iso, updated_at := importClock.iso))
  {
    ExportedRowObject(headers, v, exportClock);
    ProcessRowAccepts(headers, QuoteLine(ExportRow(v, exportClock)), i, importClock);
  }

  /** Every exported line is accepted back as its record, restamped. */
  lemma ExportedOutcomes(headers: seq<string>, vs: seq<Vehicle>, exportClock: Clock, importClock: Clock)
    requires headers == ExportHeaders
    requires forall v | v in vs :: Exportable(v, exportClock)
    ensures var os := RowOutcomes(headers, TableText(headers, ExportRows(vs, exportClock)), importClock);
            |os| == |vs| && forall k | 0 <= k < |os| :: os[k] == Accepted(Restamped(vs, importClock.iso)[k])
  {
    var rows := ExportRows(vs, exportClock);
    var os := RowOutcomes(headers, TableText(headers, rows), importClock);
    forall k | 0 <= k < |os| ensures os[k] == Accepted(Restamped(vs, importClock.iso)[k]) {
      TableOutcome(headers, rows, importClock, k);
      assert vs[k] in vs;
      ExportedRowImports(headers, vs[k], k + 1, exportClock, importClock);
    }
  }

  /** `exportToCSV` followed by `parseCSV` gives back every exported record, in order, with
    * both timestamps reset to the import's clock and no row rejected. */
  lemma ExportImportRoundTrip(vs: seq<Vehicle>, exportClock: Clock, importClock: Clock)
    requires vs != []
    requires forall v | v in vs :: Exportable(v, exportClock)
    ensures ExportToCsv(vs, exportClock).Success?
    ensures Parse(ExportToCsv(vs, exportClock).value, importClock)
         == Success(Parsed(Restamped(vs, importClock.iso), []))
  {
    ExportParses(vs, exportClock, importClock);
    ExportedOutcomes(ExportHeaders, vs, exportClock, importClock);
    var os := RowOutcomes(ExportHeaders, TableText(ExportHeaders, ExportRows(vs, exportClock)), importClock);
    AllAccepted(os, Restamped(vs, importClock.iso));
  }

  lemma ExportParses(vs: seq<Vehicle>, exportClock: Clock, importClock: Clock)
    requires vs != []
    requires forall v | v in vs :: Exportable(v, exportClock)
    ensures var rows := ExportRows(vs, exportClock);
            var os := RowOutcomes(ExportHeaders, TableText(ExportHeaders, rows), importClock);
            && ExportToCsv(vs, exportClock) == Success(Table(ExportHeaders, rows))
            && Parse(Table(ExportHeaders, rows), importClock) == Success(Parsed(AcceptedOf(os), RejectedOf(os)))
  {
    HeadersPlain();
    ExportHeadersShape();
    ExportRowsSafe(vs, exportClock);
    ParseTable(ExportHeaders, ExportRows(vs, exportClock), importClock);
  }

  lemma ExportRowsSafe(vs: seq<Vehicle>, clock: Clock)
    requires forall v | v in vs :: Exportable(v, clock)
    ensures forall r | r in ExportRows(vs, clock) :: r != [] && forall c | c in r :: Safe(c)
  {
    var rows := ExportRows(vs, clock);
    forall r | r in rows ensures r != [] && forall c | c in r :: Safe(c) {
      var k :| 0 <= k < |rows| && rows[k] == r;
      assert vs[k] in vs;
      ExportRowSafe(vs[k], clock);
    }
  }
}
