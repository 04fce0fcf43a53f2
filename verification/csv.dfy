/**
 * `CSVProcessor` (src/pages/Admin.tsx): the CSV import parser and validator and the two
 * serialisers. This is not RFC 4180 CSV: a line is cut at every comma and every double
 * quote is deleted from every cell.
 */
module Csv {
  import opened Wrappers
  import opened Seqs
  import opened Text
  import opened JsNumber
  import opened Vehicles

  /** The headers an import must contain, in the order missing ones are reported. */
  const RequiredHeaders: seq<string> :=
    ["merk", "model", "tipe", "warna", "tahun", "cc", "transmisi", "lokasi", "harga", "kategori", "kondisi"]

  /** The export header: the key, the data columns and the timestamps. */
  const ExportHeaders: seq<string> :=
    ["id", "merk", "model", "tipe", "warna", "tahun", "cc", "transmisi", "lokasi", "harga", "kategori", "kondisi",
     "created_at", "updated_at"]

  const TooFewLinesMessage := "CSV file must have at least a header row and one data row"
  const EmptyExportMessage := "No data to export"

  /** The untyped object a data line becomes: header name to cell. */
  type Row = map<string, string>

  /** A property of the row object; an absent one reads as "". */
  function Field(row: Row, name: string): string
  {
    if name in row then row[name] else ""
  }

  /** The lines of the text that are not blank, in order. */
  function NonBlankLines(text: string): (lines: seq<string>)
    ensures forall l | l in lines :: !IsBlank(l) && '\n' !in l
  {
    Filter(Split(text, '\n'), l => Trim(l) != [])
  }

  /** One cell: every `"` deleted, then trimmed. */
  function CleanCell(cell: string): string
  {
    Trim(RemoveChar(cell, '"'))
  }

  /** A line cut at every comma, each piece cleaned. */
  function Cells(line: string): (cells: seq<string>)
    ensures |cells| >= 1
  {
    var parts := Split(line, ',');
    seq(|parts|, i requires 0 <= i < |parts| => CleanCell(parts[i]))
  }

  /** `values[k] || ''`. */
  function CellAt(values: seq<string>, k: nat): string
  {
    if k < |values| then values[k] else ""
  }

  /** `headers.forEach((h, k) => row[h] = values[k] || '')`: a later header of the same name overwrites. */
  function ZipRow(headers: seq<string>, values: seq<string>): (row: Row)
    ensures row.Keys == set h | h in headers
  {
    if headers == [] then map[]
    else
      var k := |headers| - 1;
      ZipRow(headers[..k], values)[headers[k] := CellAt(values, k)]
  }

  /** The required headers absent from `headers`. */
  function MissingHeaders(headers: seq<string>): (missing: seq<string>)
    ensures forall h :: h in missing <==> h in RequiredHeaders && h !in headers
  {
    Filter(RequiredHeaders, h => h !in headers)
  }

  function MissingHeadersMessage(missing: seq<string>): string
  {
    "Missing required headers: " + Join(missing, ", ")
  }

  /** The field rules of `validateVehicle`, in the order their messages are reported. */
  datatype Rule =
    | MerkRequired | ModelRequired | TahunRequired | HargaRequired
    | KategoriEnum | KondisiEnum | TahunNumeric | HargaNumeric

  const AllRules: seq<Rule> :=
    [MerkRequired, ModelRequired, TahunRequired, HargaRequired, KategoriEnum, KondisiEnum, TahunNumeric, HargaNumeric]

  function Message(r: Rule): string
  {
    match r
    case MerkRequired => "Merk is required"
    case ModelRequired => "Model is required"
    case TahunRequired => "Tahun is required"
    case HargaRequired => "Harga is required"
    case KategoriEnum => "Kategori must be Mobil or Motor"
    case KondisiEnum => "Kondisi must be Baru or Bekas"
    case TahunNumeric => "Tahun must be a number"
    case HargaNumeric => "Harga must be a number"
  }

  /** When a listing breaks a rule. */
  predicate Broken(l: Listing, r: Rule)
  {
    match r
    case MerkRequired => IsBlank(l.merk)
    case ModelRequired => IsBlank(l.model)
    case TahunRequired => IsBlank(l.tahun)
    case HargaRequired => IsBlank(l.harga)
    case KategoriEnum => l.kategori != "Mobil" && l.kategori != "Motor"
    case KondisiEnum => l.kondisi != "Baru" && l.kondisi != "Bekas"
    case TahunNumeric => l.tahun != "" && !IsNumeric(l.tahun)
    case HargaNumeric => l.harga != "" && !IsNumeric(RemoveChar(l.harga, ','))
  }

  /** A listing the importer accepts: the four required fields filled in, both enumerations
    * respected, and year and price (once its commas are removed) numeric. */
  predicate ValidListing(l: Listing)
  {
    && !IsBlank(l.merk) && !IsBlank(l.model) && !IsBlank(l.tahun) && !IsBlank(l.harga)
    && (l.kategori == "Mobil" || l.kategori == "Motor")
    && (l.kondisi == "Baru" || l.kondisi == "Bekas")
    && IsNumeric(l.tahun) && IsNumeric(RemoveChar(l.harga, ','))
  }

  /** The data columns of a row object. */
  function ListingOf(row: Row): Listing
  {
    Listing(Field(row, "merk"), Field(row, "model"), Field(row, "tipe"), Field(row, "warna"),
            Field(row, "tahun"), Field(row, "cc"), Field(row, "transmisi"), Field(row, "lokasi"),
            Field(row, "harga"), Field(row, "kategori"), Field(row, "kondisi"))
  }

  /** The test `validateVehicle` makes for one rule, as the code writes it. */
  predicate Fails(row: Row, r: Rule)
  {
    var l := ListingOf(row);
    match r
    case MerkRequired => Trim(l.merk) == []
    case ModelRequired => Trim(l.model) == []
    case TahunRequired => Trim(l.tahun) == []
    case HargaRequired => Trim(l.harga) == []
    case KategoriEnum => l.kategori == "" || (l.kategori != "Mobil" && l.kategori != "Motor")
    case KondisiEnum => l.kondisi == "" || (l.kondisi != "Baru" && l.kondisi != "Bekas")
    case TahunNumeric => l.tahun != "" && NumberOf(l.tahun).None?
    case HargaNumeric => l.harga != "" && NumberOf(RemoveChar(l.harga, ',')).None?
  }

  /** The message a rule contributes to the report: its own, when the row fails it. */
  function Check(row: Row, r: Rule): (ms: seq<string>)
    ensures |ms| <= 1
  {
    if Fails(row, r) then [Message(r)] else []
  }

  lemma CheckMessage(row: Row, r: Rule, q: Rule)
    ensures Message(r) in Check(row, q) <==> r == q && Broken(ListingOf(row), q)
  {
    FailsIffBroken(row, q);
    if Message(r) in Check(row, q) {
      MessageInjective(r, q);
    }
  }

  /** `validateVehicle`: the messages of the rules the row fails, in the order the code
    * tests them. */
  function ValidateVehicle(row: Row): (errors: seq<string>)
    ensures |errors| <= |AllRules|
  {
    ReportOf(row, AllRules)
  }

  /** The messages of the failed rules among `rules`, in order. */
  function ReportOf(row: Row, rules: seq<Rule>): (errors: seq<string>)
    ensures |errors| <= |rules|
  {
    if rules == [] then []
    else ReportOf(row, rules[..|rules| - 1]) + Check(row, rules[|rules| - 1])
  }

  lemma {:induction false} ReportOfMessages(row: Row, rules: seq<Rule>, r: Rule)
    ensures Message(r) in ReportOf(row, rules) <==> r in rules && Broken(ListingOf(row), r)
  {
    if rules != [] {
      var init, last := rules[..|rules| - 1], rules[|rules| - 1];
      assert rules == init + [last];
      ReportOfMessages(row, init, r);
      CheckMessage(row, r, last);
    }
  }

  lemma {:induction false} ReportOfEmpty(row: Row, rules: seq<Rule>)
    ensures ReportOf(row, rules) == [] <==> forall q | q in rules :: !Broken(ListingOf(row), q)
  {
    if rules != [] {
      var init, last := rules[..|rules| - 1], rules[|rules| - 1];
      assert rules == init + [last];
      ReportOfEmpty(row, init);
      FailsIffBroken(row, last);
    }
  }

  /** The test "the listing breaks this rule". */
  function BrokenBy(l: Listing): Rule -> bool
  {
    r => Broken(l, r)
  }

  /** The messages of `rules`, in order. */
  function MessagesOf(rules: seq<Rule>): seq<string>
  {
    seq(|rules|, i requires 0 <= i < |rules| => Message(rules[i]))
  }

  lemma MessagesOfAppend(a: seq<Rule>, b: seq<Rule>)
    ensures MessagesOf(a + b) == MessagesOf(a) + MessagesOf(b)
  {
  }

  /** One check reports its rule's message exactly when the rule is broken. */
  lemma CheckIsFiltered(row: Row, r: Rule)
    ensures Check(row, r) == MessagesOf(if BrokenBy(ListingOf(row))(r) then [r] else [])
  {
    FailsIffBroken(row, r);
  }

  /** A run of checks reports the messages of the broken rules among them, in rule order. */
  lemma {:induction false} ReportOfInOrder(row: Row, rules: seq<Rule>)
    ensures ReportOf(row, rules) == MessagesOf(Filter(rules, BrokenBy(ListingOf(row))))
  {
    if rules != [] {
      var broken := BrokenBy(ListingOf(row));
      var init, last := rules[..|rules| - 1], rules[|rules| - 1];
      assert rules == init + [last];
      var tail := if broken(last) then [last] else [];
      calc {
        ReportOf(row, rules);
        ReportOf(row, init) + Check(row, last);
        { ReportOfInOrder(row, init); CheckIsFiltered(row, last); }
        MessagesOf(Filter(init, broken)) + MessagesOf(tail);
        { MessagesOfAppend(Filter(init, broken), tail); }
        MessagesOf(Filter(init, broken) + tail);
        { FilterSnoc(init, last, broken); }
        MessagesOf(Filter(rules, broken));
      }
    }
  }

  /** Distinct rules have distinct messages. */
  lemma MessagesOfDistinct(rules: seq<Rule>)
    requires NoDuplicates(rules)
    ensures NoDuplicates(MessagesOf(rules))
  {
    forall i, j | 0 <= i < j < |rules| ensures MessagesOf(rules)[i] != MessagesOf(rules)[j] {
      if Message(rules[i]) == Message(rules[j]) {
        MessageInjective(rules[i], rules[j]);
      }
    }
  }

  lemma AllRulesDistinct()
    ensures NoDuplicates(AllRules)
  {
  }

  /** `validateVehicle` reports the message of every rule the row breaks, each once, in the
    * order the code tests them; so a message is reported exactly when its rule is broken,
    * and nothing is reported exactly when the row's listing is valid. */
  lemma ValidateVehicleReports(row: Row)
    ensures ValidateVehicle(row) == MessagesOf(Filter(AllRules, BrokenBy(ListingOf(row))))
    ensures NoDuplicates(ValidateVehicle(row))
    ensures forall r :: Message(r) in ValidateVehicle(row) <==> Broken(ListingOf(row), r)
    ensures ValidateVehicle(row) == [] <==> ValidListing(ListingOf(row))
  {
    ReportOfInOrder(row, AllRules);
    AllRulesDistinct();
    FilterNoDuplicates(AllRules, BrokenBy(ListingOf(row)));
    MessagesOfDistinct(Filter(AllRules, BrokenBy(ListingOf(row))));
    forall r ensures Message(r) in ValidateVehicle(row) <==> Broken(ListingOf(row), r) {
      ReportOfMessages(row, AllRules, r);
      AllRulesComplete(r);
    }
    ReportOfEmpty(row, AllRules);
    forall q ensures q in AllRules { AllRulesComplete(q); }
    ValidIffNothingBroken(ListingOf(row));
  }

  lemma AllRulesComplete(r: Rule)
    ensures r in AllRules
  {
  }

  lemma ValidIffNothingBroken(l: Listing)
    ensures ValidListing(l) <==> forall r :: !Broken(l, r)
  {
    if !ValidListing(l) {
      assert Broken(l, MerkRequired) || Broken(l, ModelRequired) || Broken(l, TahunRequired)
        || Broken(l, HargaRequired) || Broken(l, KategoriEnum) || Broken(l, KondisiEnum)
        || Broken(l, TahunNumeric) || Broken(l, HargaNumeric);
    }
  }

  /** The code's test for a rule is the rule. */
  lemma FailsIffBroken(row: Row, r: Rule)
    ensures Fails(row, r) <==> Broken(ListingOf(row), r)
  {
  }

  lemma MessageInjective(r: Rule, q: Rule)
    requires Message(r) == Message(q)
    ensures r == q
  {
  }

  /** `vehicle_${Date.now()}_${i}`. */
  function GeneratedId(clock: Clock, i: nat): string
  {
    "vehicle_" + NatStr(clock.millis) + "_" + NatStr(i)
  }

  /** The record an accepted row becomes: its own non-empty `id` or a generated one, and both timestamps set. */
  function RowVehicle(row: Row, i: nat, clock: Clock): Vehicle
  {
    var id := Field(row, "id");
    Vehicle(if id == "" then GeneratedId(clock, i) else id, ListingOf(row), clock.iso, clock.iso)
  }

  /** `Row ${i + 1}: …`, where `i` counts non-blank lines from 0 at the header. */
  function RowError(i: nat, errors: seq<string>): string
  {
    "Row " + NatStr(i + 1) + ": " + Join(errors, ", ")
  }

  datatype RowOutcome = Accepted(vehicle: Vehicle) | Rejected(message: string)

  /** What happens to the non-blank line with index `i`. */
  function ProcessRow(headers: seq<string>, line: string, i: nat, clock: Clock): RowOutcome
  {
    var row := ZipRow(headers, Cells(line));
    var errors := ValidateVehicle(row);
    if errors != [] then Rejected(RowError(i, errors)) else Accepted(RowVehicle(row, i, clock))
  }

  /** The fate of every data line, in order. */
  function RowOutcomes(headers: seq<string>, lines: seq<string>, clock: Clock): (os: seq<RowOutcome>)
    requires |lines| >= 1
    ensures |os| == |lines| - 1
  {
    if |lines| == 1 then []
    else RowOutcomes(headers, lines[..|lines| - 1], clock) + [ProcessRow(headers, lines[|lines| - 1], |lines| - 1, clock)]
  }

  function AcceptedOf(os: seq<RowOutcome>): seq<Vehicle>
  {
    if os == [] then []
    else
      var last := os[|os| - 1];
      AcceptedOf(os[..|os| - 1]) + (if last.Accepted? then [last.vehicle] else [])
  }

  function RejectedOf(os: seq<RowOutcome>): seq<string>
  {
    if os == [] then []
    else
      var last := os[|os| - 1];
      RejectedOf(os[..|os| - 1]) + (if last.Rejected? then [last.message] else [])
  }

  lemma OutcomesSnoc(os: seq<RowOutcome>, o: RowOutcome)
    ensures AcceptedOf(os + [o]) == AcceptedOf(os) + (if o.Accepted? then [o.vehicle] else [])
    ensures RejectedOf(os + [o]) == RejectedOf(os) + (if o.Rejected? then [o.message] else [])
  {
    assert (os + [o])[..|os|] == os;
  }

  datatype Parsed = Parsed(vehicles: seq<Vehicle>, errors: seq<string>)

  /** `parseCSV` as a function of the text and the clock: a thrown error is a `Failure`. */
  function Parse(text: string, clock: Clock): Result<Parsed, string>
  {
    var lines := NonBlankLines(text);
    if |lines| < 2 then Failure(TooFewLinesMessage)
    else
      var headers := Cells(lines[0]);
      var missing := MissingHeaders(headers);
      if missing != [] then Failure(MissingHeadersMessage(missing))
      else
        var os := RowOutcomes(headers, lines, clock);
        Success(Parsed(AcceptedOf(os), RejectedOf(os)))
  }

  /** The `headers.forEach` that fills the row object. */
  method BuildRow(headers: seq<string>, values: seq<string>) returns (row: Row)
    ensures row == ZipRow(headers, values)
  {
    row := map[];
    var k := 0;
    while k < |headers|
      invariant 0 <= k <= |headers|
      invariant row == ZipRow(headers[..k], values)
    {
      assert headers[..k + 1][..k] == headers[..k];
      row := row[headers[k] := CellAt(values, k)];
      k := k + 1;
    }
    assert headers[..k] == headers;
  }

  /** `parseCSV`: the structural checks, then the row loop. */
  method ParseCsv(text: string, clock: Clock) returns (r: Result<Parsed, string>)
    ensures r == Parse(text, clock)
  {
    var lines := NonBlankLines(text);
    if |lines| < 2 {
      return Failure(TooFewLinesMessage);
    }
    var headers := Cells(lines[0]);
    var missing := MissingHeaders(headers);
    if |missing| > 0 {
      return Failure(MissingHeadersMessage(missing));
    }
    var vehicles, errors := ParseRows(headers, lines, clock);
    return Success(Parsed(vehicles, errors));
  }

  /** The row loop of `parseCSV`: each data line's row object is validated and pushed to
    * the accepted vehicles or, as a numbered message, to the errors. */
  method ParseRows(headers: seq<string>, lines: seq<string>, clock: Clock)
    returns (vehicles: seq<Vehicle>, errors: seq<string>)
    requires |lines| >= 1
    ensures vehicles == AcceptedOf(RowOutcomes(headers, lines, clock))
    ensures errors == RejectedOf(RowOutcomes(headers, lines, clock))
  {
    vehicles, errors := [], [];
    var i := 1;
    while i < |lines|
      invariant 1 <= i <= |lines|
      invariant vehicles == AcceptedOf(RowOutcomes(headers, lines[..i], clock))
      invariant errors == RejectedOf(RowOutcomes(headers, lines[..i], clock))
    {
      var row := BuildRow(headers, Cells(lines[i]));
      var validationErrors := ValidateVehicle(row);
      ghost var o := ProcessRow(headers, lines[i], i, clock);
      OutcomesStep(headers, lines, i, clock);
      OutcomesSnoc(RowOutcomes(headers, lines[..i], clock), o);
      if |validationErrors| > 0 {
        errors := errors + [RowError(i, validationErrors)];
      } else {
        var id := Field(row, "id");
        if id == "" {
          id := GeneratedId(clock, i);
        }
        vehicles := vehicles + [Vehicle(id, ListingOf(row), clock.iso, clock.iso)];
      }
      i := i + 1;
    }
    assert lines[..i] == lines;
  }

  lemma OutcomesStep(headers: seq<string>, lines: seq<string>, i: nat, clock: Clock)
    requires 1 <= i < |lines|
    ensures RowOutcomes(headers, lines[..i + 1], clock)
         == RowOutcomes(headers, lines[..i], clock) + [ProcessRow(headers, lines[i], i, clock)]
  {
    assert lines[..i + 1][..i] == lines[..i];
  }

  /** `"${cell}"` for every cell, joined by commas. */
  function QuoteLine(cells: seq<string>): string
  {
    Join(QuoteCells(cells), ",")
  }

  function QuoteCells(cells: seq<string>): (quoted: seq<string>)
    ensures |quoted| == |cells|
    ensures forall k | 0 <= k < |cells| :: quoted[k] == "\"" + cells[k] + "\""
  {
    seq(|cells|, k requires 0 <= k < |cells| => "\"" + cells[k] + "\"")
  }

  function QuoteLines(rows: seq<seq<string>>): (lines: seq<string>)
    ensures |lines| == |rows|
    ensures forall k | 0 <= k < |rows| :: lines[k] == QuoteLine(rows[k])
  {
    seq(|rows|, k requires 0 <= k < |rows| => QuoteLine(rows[k]))
  }

  /** A header line and the quoted rows under it, one per line. */
  function Table(headers: seq<string>, rows: seq<seq<string>>): string
  {
    Join([Join(headers, ",")] + QuoteLines(rows), "\n")
  }

  /** The sample rows of the template, in the template's order. */
  const SampleRows: seq<seq<string>> := [
    ["Toyota", "Avanza 1.5 G", "MPV", "Hitam", "2024", "1500", "CVT", "Jakarta", "255000000", "Mobil", "Baru"],
    ["Honda", "PCX 160 ABS", "Matic", "Putih", "2024", "160", "Automatic", "Surabaya", "35000000", "Motor", "Baru"],
    ["Suzuki", "Ertiga GX", "MPV", "Silver", "2024", "1500", "Manual", "Bandung", "240000000", "Mobil", "Baru"]
  ]

  /** `generateCSVTemplate`. */
  function GenerateCsvTemplate(): string
  {
    Table(RequiredHeaders, SampleRows)
  }

  /** `x || new Date().toISOString()`. */
  function OrNow(stamp: string, clock: Clock): string
  {
    if stamp == "" then clock.iso else stamp
  }

  /** The fourteen export cells of one record. */
  function ExportRow(v: Vehicle, clock: Clock): (cells: seq<string>)
    ensures |cells| == |ExportHeaders|
  {
    [v.id] + ListingCells(v.listing) + [OrNow(v.created_at, clock), OrNow(v.updated_at, clock)]
  }

  function ExportRows(vs: seq<Vehicle>, clock: Clock): (rows: seq<seq<string>>)
    ensures |rows| == |vs|
    ensures forall k | 0 <= k < |vs| :: rows[k] == ExportRow(vs[k], clock)
  {
    seq(|vs|, k requires 0 <= k < |vs| => ExportRow(vs[k], clock))
  }

  /** `exportToCSV`: an empty list is an error. */
  function ExportToCsv(vs: seq<Vehicle>, clock: Clock): (r: Result<string, string>)
    ensures r.Failure? <==> vs == []
    ensures r.Failure? ==> r.error == EmptyExportMessage
  {
    if vs == [] then Failure(EmptyExportMessage)
    else Success(Table(ExportHeaders, ExportRows(vs, clock)))
  }
}
