/**
 * The admin page's data flows (src/pages/Admin.tsx): the CSV upload, the single-record
 * form with its validation, and the edit that updates a stored record. The page's React
 * state is the state of an `AdminPage` object; an `alert` is recorded as the page's last
 * notice.
 */
module AdminFlows {
  import opened Wrappers
  import opened Seqs
  import opened Text
  import opened Vehicles
  import opened Csv
  import opened CsvProperties
  import opened Store

  const NoFileMessage := "Pilih file CSV terlebih dahulu"
  const ProcessingErrorPrefix := "Terjadi kesalahan saat memproses file CSV: "
  const AddedNotice := "Data kendaraan berhasil ditambahkan!"
  const AddFailedNotice := "Terjadi kesalahan saat menambahkan data"
  const UpdatedNotice := "Data kendaraan berhasil diperbarui!"

  // ---------------------------------------------------------------------------------------
  // The upload's category filter

  /** The predicate the upload filters by: one (kategori, kondisi) pair per named category,
    * and no restriction for any other name. */
  predicate CategoryMatches(category: string, v: Vehicle)
  {
    if category == "mobil-baru" then v.listing.kategori == "Mobil" && v.listing.kondisi == "Baru"
    else if category == "mobil-bekas" then v.listing.kategori == "Mobil" && v.listing.kondisi == "Bekas"
    else if category == "motor-baru" then v.listing.kategori == "Motor" && v.listing.kondisi == "Baru"
    else if category == "motor-bekas" then v.listing.kategori == "Motor" && v.listing.kondisi == "Bekas"
    else true
  }

  /** The four named upload categories. */
  predicate IsUploadCategory(category: string)
  {
    category == "mobil-baru" || category == "mobil-bekas" || category == "motor-baru" || category == "motor-bekas"
  }

  /** The records an upload adds: all parsed records, or, when a category is chosen, those of it. */
  function ToAdd(category: string, parsed: seq<Vehicle>): seq<Vehicle>
  {
    if category != "" then Filter(parsed, v => CategoryMatches(category, v)) else parsed
  }

  /** The records added are the parsed records of the chosen category, in parse order. */
  lemma ToAddSelects(category: string, parsed: seq<Vehicle>)
    ensures IsSubseq(ToAdd(category, parsed), parsed)
    ensures forall v :: v in ToAdd(category, parsed) <==> v in parsed && CategoryMatches(category, v)
  {
    SubseqRefl(parsed);
  }

  /** With no category, or a name other than the four, every parsed record is added. */
  lemma ToAddEverything(category: string, parsed: seq<Vehicle>)
    requires !IsUploadCategory(category)
    ensures ToAdd(category, parsed) == parsed
  {
    if category != "" {
      FilterAll(parsed, v => CategoryMatches(category, v));
    }
  }

  /** A named category keeps exactly its (kategori, kondisi) pair. */
  lemma ToAddCategory(category: string, parsed: seq<Vehicle>, v: Vehicle)
    requires IsUploadCategory(category) && v in parsed
    ensures v in ToAdd(category, parsed) <==>
              && v.listing.kategori == (if category[..5] == "mobil" then "Mobil" else "Motor")
              && v.listing.kondisi == (if category[6..] == "baru" then "Baru" else "Bekas")
  {
    ToAddSelects(category, parsed);
    if category == "mobil-baru" {
      assert category[..5] == "mobil" && category[6..] == "baru";
    } else if category == "mobil-bekas" {
      assert category[..5] == "mobil" && category[6..] == "bekas";
    } else if category == "motor-baru" {
      assert category[..5] == "motor" && category[6..] == "baru";
    } else {
      assert category[..5] == "motor" && category[6..] == "bekas";
    }
  }

  // ---------------------------------------------------------------------------------------
  // What an upload does

  /** The four ways an upload ends. */
  datatype UploadPlan =
    | NoFile
    | ProcessingError(message: string)
    | RowErrors(errors: seq<string>)
    | Commit(records: seq<Vehicle>)

  /** The outcome of an upload whose file was read and parsed. */
  function PlanParsed(parsed: Result<Parsed, string>, category: string): UploadPlan
  {
    match parsed
    case Failure(message) => ProcessingError(message)
    case Success(p) => if p.errors != [] then RowErrors(p.errors) else Commit(ToAdd(category, p.vehicles))
  }

  /** The outcome of uploading the selected file's text under the chosen category. */
  function PlanUpload(file: Option<string>, category: string, clock: Clock): UploadPlan
  {
    match file
    case None => NoFile
    case Some(text) => PlanParsed(Parse(text, clock), category)
  }

  /** An upload commits only when every data line was accepted, and then it commits the
    * accepted records of the chosen category, in order. */
  lemma PlanCommitsOnlyClean(file: Option<string>, category: string, clock: Clock)
    ensures PlanUpload(file, category, clock).Commit? <==>
              file.Some? && Parse(file.value, clock).Success? && Parse(file.value, clock).value.errors == []
    ensures PlanUpload(file, category, clock).Commit? ==>
              PlanUpload(file, category, clock).records == ToAdd(category, Parse(file.value, clock).value.vehicles)
  {
  }

  // ---------------------------------------------------------------------------------------
  // The single-record form

  /** The form fields that are checked, in the order they are checked; the error object is
    * keyed by their names. */
  datatype FormField = Merk | Model | Tipe | Tahun | Harga | Kategori | Kondisi

  const CheckedFields: seq<FormField> := [Merk, Model, Tipe, Tahun, Harga, Kategori, Kondisi]

  /** The key of a field in the form object and in the error object. */
  function FieldName(f: FormField): string
  {
    match f
    case Merk => "merk"
    case Model => "model"
    case Tipe => "tipe"
    case Tahun => "tahun"
    case Harga => "harga"
    case Kategori => "kategori"
    case Kondisi => "kondisi"
  }

  /** The form's value of a field. */
  function FormValue(form: Listing, f: FormField): string
  {
    match f
    case Merk => form.merk
    case Model => form.model
    case Tipe => form.tipe
    case Tahun => form.tahun
    case Harga => form.harga
    case Kategori => form.kategori
    case Kondisi => form.kondisi
  }

  /** The text fields count as missing when blank once trimmed; the two selects only when empty. */
  predicate FieldMissing(form: Listing, f: FormField)
  {
    if f == Kategori || f == Kondisi then FormValue(form, f) == ""
    else IsBlank(FormValue(form, f))
  }

  function MissingMessage(f: FormField): string
  {
    match f
    case Merk => "Merk wajib diisi"
    case Model => "Model wajib diisi"
    case Tipe => "Tipe wajib diisi"
    case Tahun => "Tahun wajib diisi"
    case Harga => "Harga wajib diisi"
    case Kategori => "Kategori wajib dipilih"
    case Kondisi => "Kondisi wajib dipilih"
  }

  /** One check of `validateSingleVehicleForm`: the field's message is recorded when it is missing. */
  function CheckField(form: Listing, errors: map<FormField, string>, f: FormField): map<FormField, string>
  {
    if FieldMissing(form, f) then errors[f := MissingMessage(f)] else errors
  }

  /** The checks of `fields`, in order, starting from `errors`. */
  function CheckAll(form: Listing, errors: map<FormField, string>, fields: seq<FormField>): map<FormField, string>
    decreases |fields|
  {
    if fields == [] then errors else CheckAll(form, CheckField(form, errors, fields[0]), fields[1..])
  }

  /** The error object of the form. */
  function FormErrors(form: Listing): map<FormField, string>
  {
    CheckAll(form, map[], CheckedFields)
  }

  /** The seven checks one after the other. */
  lemma FormErrorsInOrder(form: Listing)
    ensures FormErrors(form) ==
      CheckField(form, CheckField(form, CheckField(form, CheckField(form, CheckField(form, CheckField(form, CheckField(form,
        map[], Merk), Model), Tipe), Tahun), Harga), Kategori), Kondisi)
  {
    var fs := CheckedFields;
    assert fs[1..][1..][1..][1..][1..][1..][1..] == [];
  }

  /** After the checks of `fields` there is an error under a key exactly when it was there
    * before or it is one of `fields` and missing; a checked key holds its field's message. */
  lemma {:induction false} CheckAllKeys(form: Listing, errors: map<FormField, string>, fields: seq<FormField>)
    ensures forall k :: k in CheckAll(form, errors, fields) <==> k in errors || (k in fields && FieldMissing(form, k))
    ensures forall k | k in CheckAll(form, errors, fields) ::
              CheckAll(form, errors, fields)[k] == if k in fields && FieldMissing(form, k) then MissingMessage(k) else errors[k]
    decreases |fields|
  {
    if fields != [] {
      CheckAllKeys(form, CheckField(form, errors, fields[0]), fields[1..]);
      assert forall k :: k in fields <==> k == fields[0] || k in fields[1..];
    }
  }

  /** The error object holds one message under each missing field and nothing else. */
  lemma FormErrorsKeys(form: Listing)
    ensures forall f :: f in FormErrors(form) <==> FieldMissing(form, f)
    ensures forall f | f in FormErrors(form) :: FormErrors(form)[f] == MissingMessage(f)
  {
    CheckAllKeys(form, map[], CheckedFields);
    forall f: FormField ensures f in CheckedFields {
      match f
      case Merk => assert CheckedFields[0] == f;
      case Model => assert CheckedFields[1] == f;
      case Tipe => assert CheckedFields[2] == f;
      case Tahun => assert CheckedFields[3] == f;
      case Harga => assert CheckedFields[4] == f;
      case Kategori => assert CheckedFields[5] == f;
      case Kondisi => assert CheckedFields[6] == f;
    }
  }

  /** Every required field filled in. */
  predicate FormComplete(form: Listing)
  {
    && !IsBlank(form.merk) && !IsBlank(form.model) && !IsBlank(form.tipe)
    && !IsBlank(form.tahun) && !IsBlank(form.harga)
    && form.kategori != "" && form.kondisi != ""
  }

  /** The form has no error exactly when it is complete. */
  lemma FormErrorsEmpty(form: Listing)
    ensures FormErrors(form) == map[] <==> FormComplete(form)
  {
    FormErrorsKeys(form);
    if FormErrors(form) == map[] {
      assert !FieldMissing(form, Merk) && !FieldMissing(form, Model) && !FieldMissing(form, Tipe);
      assert !FieldMissing(form, Tahun) && !FieldMissing(form, Harga);
      assert !FieldMissing(form, Kategori) && !FieldMissing(form, Kondisi);
    } else {
      var f :| f in FormErrors(form);
    }
  }

  /** A record the CSV import accepts, with its `tipe` filled in, passes the form's check. */
  lemma ImportableIsComplete(l: Listing)
    requires ValidListing(l) && !IsBlank(l.tipe)
    ensures FormComplete(l)
  {
  }

  /** A price typed with thousands separators passes the form's check, but its exported line
    * holds more cells than the export header names, so the record does not import back as it
    * was written. */
  lemma GroupedPriceBreaksExport(v: Vehicle, clock: Clock)
    requires v.listing == Listing("Toyota", "Avanza", "MPV", "Hitam", "2024", "1500", "CVT", "Jakarta",
                                  "255,000,000", "Mobil", "Baru")
    ensures FormComplete(v.listing)
    ensures |Cells(QuoteLine(ExportRow(v, clock)))| > |ExportHeaders|
  {
    var l := v.listing;
    assert !IsSpace(l.merk[0]) && !IsSpace(l.model[0]) && !IsSpace(l.tipe[0]);
    assert !IsSpace(l.tahun[0]) && !IsSpace(l.harga[0]);
    var cells := ExportRow(v, clock);
    assert cells[9] == "255,000,000";
    assert "255,000,000"[3] == ',';
    CommaCellSplits(cells, 9);
  }

  /** The empty form. */
  const EmptyForm := Listing("", "", "", "", "", "", "", "", "", "", "")

  /** The record `handleAddSingleVehicle` creates: key `vehicle_<now>` and both stamps now. */
  function NewVehicle(form: Listing, clock: Clock): Vehicle
  {
    Vehicle("vehicle_" + NatStr(clock.millis), form, clock.iso, clock.iso)
  }

  /** A key the form creates never equals a key the CSV import generates: after the common
    * `vehicle_` the former is digits only and the latter holds a second `_`. */
  lemma NewIdNotGenerated(c1: Clock, c2: Clock, i: nat, form: Listing)
    ensures NewVehicle(form, c1).id != GeneratedId(c2, i)
  {
    var prefix := "vehicle_";
    var a := prefix + NatStr(c1.millis);
    var d := NatStr(c2.millis);
    var b := prefix + d + "_" + NatStr(i);
    assert b[|prefix| + |d|] == '_';
    if |a| > |prefix| + |d| {
      assert IsDigit(a[|prefix| + |d|]) by {
        assert a[|prefix| + |d|] == NatStr(c1.millis)[|d|];
      }
    }
  }

  /** `handleEditVehicle`: the form shows the record's columns, absent ones as `''`. */
  function EditForm(v: Vehicle): Listing
  {
    v.listing
  }

  /** `{...editing, ...form, updated_at: now}`: the key and the creation stamp survive, the
    * columns are the form's. */
  function MergeEdit(editing: Vehicle, form: Listing, iso: string): Vehicle
  {
    editing.(listing := form, updated_at := iso)
  }

  /** Saving an edit without changing the form only moves the update stamp. */
  lemma MergeEditRoundTrip(v: Vehicle, iso: string)
    ensures MergeEdit(v, EditForm(v), iso) == v.(updated_at := iso)
  {
  }

  /** Saving an edit of a stored record replaces that record and adds no key. */
  lemma MergeEditReplaces(m: map<string, Vehicle>, v: Vehicle, form: Listing, iso: string)
    requires KeyedById(m) && v.id in m
    ensures Put(m, MergeEdit(v, form, iso)).Keys == m.Keys
    ensures Put(m, MergeEdit(v, form, iso))[v.id] == Vehicle(v.id, form, v.created_at, iso)
  {
  }

  // ---------------------------------------------------------------------------------------
  // The page

  class AdminPage {
    const db: VehicleDB
    /** The list shown, as last loaded from the store. */
    var vehicles: seq<Vehicle>
    /** The text of the chosen file, if one is chosen. */
    var selectedFile: Option<string>
    var uploadCategory: string
    var uploadStatus: string
    var uploadErrors: seq<string>
    var form: Listing
    var formErrors: map<FormField, string>
    var editing: Option<Vehicle>
    /** The last `alert` shown; "" before any. */
    var notice: string

    ghost predicate Valid()
      reads db
    {
      db.Valid()
    }

    /** The page mounts on the database as earlier visits left it (`stored`, `storedAuth`):
      * the store persists across visits, and only the page's own state starts empty. */
    constructor(stored: map<string, Vehicle>, storedAuth: Option<bool>)
      requires KeyedById(stored)
      ensures Valid() && fresh(db)
      ensures db.vehicles == stored && db.auth == storedAuth
      ensures vehicles == [] && selectedFile == None
      ensures uploadCategory == "" && uploadStatus == "" && uploadErrors == []
      ensures form == EmptyForm && formErrors == map[] && editing == None && notice == ""
    {
      db := new VehicleDB(stored, storedAuth);
      vehicles := [];
      selectedFile := None;
      uploadCategory := "";
      uploadStatus := "";
      uploadErrors := [];
      form := EmptyForm;
      formErrors := map[];
      editing := None;
      notice := "";
    }

    /** `loadVehicles`: the shown list becomes the store's records in key order. */
    method LoadVehicles()
      requires Valid()
      modifies this
      ensures InKeyOrder(db.vehicles, vehicles)
      ensures selectedFile == old(selectedFile) && uploadCategory == old(uploadCategory)
      ensures uploadStatus == old(uploadStatus) && uploadErrors == old(uploadErrors)
      ensures form == old(form) && formErrors == old(formErrors)
      ensures editing == old(editing) && notice == old(notice)
    {
      vehicles := db.GetAllVehicles();
    }

    /** The page and store after an upload that ended as `plan`, given the store, list, file
      * and category before it: an error shows its message and changes nothing else of the
      * upload; a commit adds the records, reloads the list and clears the upload form. */
    ghost predicate UploadEnded(plan: UploadPlan, stored: map<string, Vehicle>, shown: seq<Vehicle>,
                                file: Option<string>, category: string)
      reads this, db
    {
      && (plan.NoFile? ==> uploadStatus == "error" && uploadErrors == [NoFileMessage])
      && (plan.ProcessingError? ==> uploadStatus == "error" && uploadErrors == [ProcessingErrorPrefix + plan.message])
      && (plan.RowErrors? ==> uploadStatus == "error" && uploadErrors == plan.errors)
      && (!plan.Commit? ==>
            && db.vehicles == stored && vehicles == shown
            && selectedFile == file && uploadCategory == category)
      && (plan.Commit? ==>
            && db.vehicles == AddAll(stored, plan.records)
            && InKeyOrder(db.vehicles, vehicles)
            && uploadStatus == "success" && uploadErrors == []
            && selectedFile == None && uploadCategory == "")
    }

    /** `handleUploadClick`. */
    method UploadClick(clock: Clock)
      requires Valid()
      modifies this, db
      ensures Valid()
      ensures UploadEnded(PlanUpload(old(selectedFile), old(uploadCategory), clock),
                          old(db.vehicles), old(vehicles), old(selectedFile), old(uploadCategory))
      ensures db.auth == old(db.auth)
      ensures form == old(form) && formErrors == old(formErrors)
      ensures editing == old(editing) && notice == old(notice)
    {
      match selectedFile {
        case None =>
          uploadStatus := "error";
          uploadErrors := [NoFileMessage];
        case Some(text) =>
          uploadStatus := "processing";
          uploadErrors := [];
          UploadText(text, clock);
      }
    }

    /** `handleUploadClick` once a file is chosen: read its text as CSV and finish the upload. */
    method UploadText(text: string, clock: Clock)
      requires Valid() && uploadErrors == []
      modifies this, db
      ensures Valid()
      ensures UploadEnded(PlanParsed(Parse(text, clock), old(uploadCategory)),
                          old(db.vehicles), old(vehicles), old(selectedFile), old(uploadCategory))
      ensures db.auth == old(db.auth)
      ensures form == old(form) && formErrors == old(formErrors)
      ensures editing == old(editing) && notice == old(notice)
    {
      var parsed := ParseCsv(text, clock);
      FinishUpload(parsed);
    }

    /** The part of `handleUploadClick` after the file's text is parsed. */
    method FinishUpload(parsed: Result<Parsed, string>)
      requires Valid() && uploadErrors == []
      modifies this, db
      ensures Valid()
      ensures UploadEnded(PlanParsed(parsed, old(uploadCategory)),
                          old(db.vehicles), old(vehicles), old(selectedFile), old(uploadCategory))
      ensures db.auth == old(db.auth)
      ensures form == old(form) && formErrors == old(formErrors)
      ensures editing == old(editing) && notice == old(notice)
    {
      if parsed.Failure? {
        uploadStatus := "error";
        uploadErrors := [ProcessingErrorPrefix + parsed.error];
        return;
      }
      if parsed.value.errors != [] {
        uploadStatus := "error";
        uploadErrors := parsed.value.errors;
        return;
      }
      var category := uploadCategory;
      var toAdd := parsed.value.vehicles;
      if category != "" {
        toAdd := Filter(toAdd, v => CategoryMatches(category, v));
      }
      CommitUpload(toAdd);
    }

    /** The upload's last step: add the records, reload the list and clear the upload form. */
    method CommitUpload(toAdd: seq<Vehicle>)
      requires Valid()
      modifies this, db
      ensures Valid()
      ensures db.vehicles == AddAll(old(db.vehicles), toAdd) && db.auth == old(db.auth)
      ensures InKeyOrder(db.vehicles, vehicles)
      ensures uploadStatus == "success" && uploadErrors == old(uploadErrors)
      ensures selectedFile == None && uploadCategory == ""
      ensures form == old(form) && formErrors == old(formErrors)
      ensures editing == old(editing) && notice == old(notice)
    {
      AddEach(db, toAdd);
      LoadVehicles();
      uploadStatus := "success";
      selectedFile := None;
      uploadCategory := "";
    }

    /** `validateSingleVehicleForm`: records the form's errors and reports whether there are none. */
    method ValidateSingleVehicleForm() returns (ok: bool)
      modifies this
      ensures formErrors == FormErrors(form)
      ensures ok <==> FormComplete(form)
      ensures vehicles == old(vehicles) && selectedFile == old(selectedFile)
      ensures uploadCategory == old(uploadCategory) && uploadStatus == old(uploadStatus)
      ensures uploadErrors == old(uploadErrors) && form == old(form)
      ensures editing == old(editing) && notice == old(notice)
    {
      var errors := CollectFormErrors(form);
      formErrors := errors;
      ok := |errors| == 0;
      FormErrorsEmpty(form);
    }

    /** `handleAddSingleVehicle`. */
    method AddSingleVehicle(clock: Clock)
      requires Valid()
      modifies this, db
      ensures Valid()
      ensures formErrors == FormErrors(old(form))
      ensures !FormComplete(old(form)) ==>
                && db.vehicles == old(db.vehicles) && vehicles == old(vehicles)
                && form == old(form) && notice == old(notice)
      ensures FormComplete(old(form)) ==>
                db.vehicles == AddOrKeep(old(db.vehicles), NewVehicle(old(form), clock))
      ensures FormComplete(old(form)) && NewVehicle(old(form), clock).id !in old(db.vehicles) ==>
                && InKeyOrder(db.vehicles, vehicles) && form == EmptyForm && notice == AddedNotice
      ensures FormComplete(old(form)) && NewVehicle(old(form), clock).id in old(db.vehicles) ==>
                vehicles == old(vehicles) && form == old(form) && notice == AddFailedNotice
      ensures db.auth == old(db.auth) && editing == old(editing)
      ensures selectedFile == old(selectedFile) && uploadCategory == old(uploadCategory)
      ensures uploadStatus == old(uploadStatus) && uploadErrors == old(uploadErrors)
    {
      var v := NewVehicle(form, clock);
      var ok := ValidateSingleVehicleForm();
      if !ok {
        return;
      }
      StoreNew(v);
    }

    /** The part of `handleAddSingleVehicle` after the form passed: a refused add shows the
      * failure alert; otherwise the list is reloaded and the form cleared. */
    method StoreNew(v: Vehicle)
      requires Valid()
      modifies this, db
      ensures Valid()
      ensures db.vehicles == AddOrKeep(old(db.vehicles), v) && db.auth == old(db.auth)
      ensures v.id !in old(db.vehicles) ==>
                && InKeyOrder(db.vehicles, vehicles) && form == EmptyForm && notice == AddedNotice
      ensures v.id in old(db.vehicles) ==>
                vehicles == old(vehicles) && form == old(form) && notice == AddFailedNotice
      ensures formErrors == old(formErrors) && editing == old(editing)
      ensures selectedFile == old(selectedFile) && uploadCategory == old(uploadCategory)
      ensures uploadStatus == old(uploadStatus) && uploadErrors == old(uploadErrors)
    {
      var r := db.AddVehicle(v);
      if r.Failure? {
        notice := AddFailedNotice;
        return;
      }
      LoadVehicles();
      form := EmptyForm;
      notice := AddedNotice;
    }

    /** `handleEditVehicle`: start editing a record. */
    method EditVehicle(v: Vehicle)
      modifies this
      ensures editing == Some(v) && form == EditForm(v)
      ensures vehicles == old(vehicles) && formErrors == old(formErrors) && notice == old(notice)
      ensures selectedFile == old(selectedFile) && uploadCategory == old(uploadCategory)
      ensures uploadStatus == old(uploadStatus) && uploadErrors == old(uploadErrors)
    {
      editing := Some(v);
      form := EditForm(v);
    }

    /** `handleUpdateVehicle`: nothing happens without a record being edited (the form is then
      * not even checked), or with an incomplete form. */
    method UpdateVehicle(clock: Clock)
      requires Valid()
      modifies this, db
      ensures Valid()
      ensures old(editing).None? ==> formErrors == old(formErrors)
      ensures old(editing).Some? ==> formErrors == FormErrors(old(form))
      ensures old(editing).None? || !FormComplete(old(form)) ==>
                && db.vehicles == old(db.vehicles) && vehicles == old(vehicles)
                && form == old(form) && editing == old(editing) && notice == old(notice)
      ensures old(editing).Some? && FormComplete(old(form)) ==>
                && db.vehicles == Put(old(db.vehicles), MergeEdit(old(editing).value, old(form), clock.iso))
                && InKeyOrder(db.vehicles, vehicles)
                && editing == None && form == EmptyForm && notice == UpdatedNotice
      ensures db.auth == old(db.auth)
      ensures selectedFile == old(selectedFile) && uploadCategory == old(uploadCategory)
      ensures uploadStatus == old(uploadStatus) && uploadErrors == old(uploadErrors)
    {
      if editing.None? {
        return;
      }
      var ok := ValidateSingleVehicleForm();
      if !ok {
        return;
      }
      SaveEdit(clock);
    }

    /** The part of `handleUpdateVehicle` after the form passed: the merged record replaces the
      * stored one, the list is reloaded and the form cleared. */
    method SaveEdit(clock: Clock)
      requires Valid() && editing.Some?
      modifies this, db
      ensures Valid()
      ensures db.vehicles == Put(old(db.vehicles), MergeEdit(old(editing).value, old(form), clock.iso))
      ensures db.auth == old(db.auth)
      ensures InKeyOrder(db.vehicles, vehicles)
      ensures editing == None && form == EmptyForm && notice == UpdatedNotice
      ensures formErrors == old(formErrors)
      ensures selectedFile == old(selectedFile) && uploadCategory == old(uploadCategory)
      ensures uploadStatus == old(uploadStatus) && uploadErrors == old(uploadErrors)
    {
      var _ := db.UpdateVehicle(MergeEdit(editing.value, form, clock.iso));
      LoadVehicles();
      editing := None;
      form := EmptyForm;
      notice := UpdatedNotice;
    }
  }

  /** The seven checks of `validateSingleVehicleForm`, in source order, build the form's
    * error object. */
  method CollectFormErrors(form: Listing) returns (errors: map<FormField, string>)
    ensures errors == FormErrors(form)
  {
    errors := map[];
    ghost var before := errors;
    if IsBlank(form.merk) { errors := errors[Merk := MissingMessage(Merk)]; }
    assert errors == CheckField(form, before, Merk);
    before := errors;
    if IsBlank(form.model) { errors := errors[Model := MissingMessage(Model)]; }
    assert errors == CheckField(form, before, Model);
    before := errors;
    if IsBlank(form.tipe) { errors := errors[Tipe := MissingMessage(Tipe)]; }
    assert errors == CheckField(form, before, Tipe);
    before := errors;
    if IsBlank(form.tahun) { errors := errors[Tahun := MissingMessage(Tahun)]; }
    assert errors == CheckField(form, before, Tahun);
    before := errors;
    if IsBlank(form.harga) { errors := errors[Harga := MissingMessage(Harga)]; }
    assert errors == CheckField(form, before, Harga);
    before := errors;
    if form.kategori == "" { errors := errors[Kategori := MissingMessage(Kategori)]; }
    assert errors == CheckField(form, before, Kategori);
    before := errors;
    if form.kondisi == "" { errors := errors[Kondisi := MissingMessage(Kondisi)]; }
    assert errors == CheckField(form, before, Kondisi);
    FormErrorsInOrder(form);
  }

  /** The upload's `for … of` loop: each record is added in turn and a refused one is skipped. */
  method AddEach(db: VehicleDB, toAdd: seq<Vehicle>)
    requires db.Valid()
    modifies db
    ensures db.Valid() && db.auth == old(db.auth)
    ensures db.vehicles == AddAll(old(db.vehicles), toAdd)
  {
    var i := 0;
    while i < |toAdd|
      invariant 0 <= i <= |toAdd|
      invariant db.Valid() && db.auth == old(db.auth)
      invariant db.vehicles == AddAll(old(db.vehicles), toAdd[..i])
    {
      var _ := db.AddVehicle(toAdd[i]);
      assert toAdd[..i + 1][..i] == toAdd[..i];
      i := i + 1;
    }
    assert toAdd[..i] == toAdd;
  }
}
