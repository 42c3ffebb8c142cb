/**
 * The form side of the upload screen: which fields start with today's date, which
 * fields the validation marks as missing, the automatic "N동-M호" rewrite of location
 * values, and the name each uploaded photo is given.
 */
module FormFields {
  import opened Text

  /** A form as the screen holds it once the form list has been normalised: a missing
      `fields` or `folderStructure` is the empty list. */
  datatype Form = Form(formName: string, fields: seq<string>, folderStructure: seq<string>)

  // ---------------------------------------------------------------------------------------
  // Initial values (handleSelectForm)
  // ---------------------------------------------------------------------------------------

  /** A date field: its lower-cased name contains 일자, 날짜, 공사일 or date. */
  predicate IsDateField(field: string) {
    var lower := ToLowerAscii(field);
    Contains(lower, "일자") || Contains(lower, "날짜") || Contains(lower, "공사일") || Contains(lower, "date")
  }

  /** The value a field starts with when its form is selected. */
  function InitialValue(field: string, today: string): string {
    if IsDateField(field) then today else ""
  }

  /** The `forEach` that fills `initialData`: every field of the form becomes a key, a date
      field holding `today` (the ISO date, passed in) and any other field the empty string. */
  method BuildInitialData(fields: seq<string>, today: string) returns (data: map<string, string>)
    ensures data.Keys == set f | f in fields
    ensures forall f :: f in data ==> data[f] == (if IsDateField(f) then today else "")
  {
    data := map[];
    for i := 0 to |fields|
      invariant data.Keys == set f | f in fields[..i]
      invariant forall f :: f in data ==> data[f] == InitialValue(f, today)
    {
      assert fields[..i + 1] == fields[..i] + [fields[i]];
      data := data[fields[i] := InitialValue(fields[i], today)];
    }
    assert fields[..|fields|] == fields;
  }

  // ---------------------------------------------------------------------------------------
  // Validation (validateForm)
  // ---------------------------------------------------------------------------------------

  /** `!formData[field] || formData[field].trim() === ''`. */
  predicate IsMissing(formData: map<string, string>, field: string) {
    field !in formData || formData[field] == "" || Trim(formData[field]) == ""
  }

  /** The `forEach` that fills `errors`: exactly the form's fields whose value is missing. */
  method CollectErrors(fields: seq<string>, formData: map<string, string>) returns (errors: set<string>)
    ensures forall f :: f in errors <==> f in fields && IsMissing(formData, f)
  {
    errors := {};
    for i := 0 to |fields|
      invariant forall f :: f in errors <==> f in fields[..i] && IsMissing(formData, f)
    {
      assert fields[..i + 1] == fields[..i] + [fields[i]];
      if IsMissing(formData, fields[i]) {
        errors := errors + {fields[i]};
      }
    }
    assert fields[..|fields|] == fields;
  }

  /** A field counts as missing exactly when it has no value or its value is all white space. */
  lemma MissingIffBlank(formData: map<string, string>, field: string)
    ensures IsMissing(formData, field) <==> field !in formData || AllSpace(formData[field])
  {
    if field in formData {
      TrimEmptyIffAllSpace(formData[field]);
    }
  }

  /** Right after a form is selected, and when today's date is not blank, validation reports
      exactly the fields that are not date fields. */
  lemma FreshFormMissingFields(fields: seq<string>, today: string, data: map<string, string>)
    requires data.Keys == set f | f in fields
    requires forall f :: f in data ==> data[f] == (if IsDateField(f) then today else "")
    requires !AllSpace(today)
    ensures forall f :: f in fields ==> (IsMissing(data, f) <==> !IsDateField(f))
  {
    forall f | f in fields ensures IsMissing(data, f) <==> !IsDateField(f) {
      MissingIffBlank(data, f);
    }
  }

  // ---------------------------------------------------------------------------------------
  // Location rewrite (onChangeText of a text field)
  // ---------------------------------------------------------------------------------------

  /** The rewrite applies to fields whose name contains 위치, 호 or 동. */
  predicate IsLocationField(field: string) {
    Contains(field, "위치") || Contains(field, "호") || Contains(field, "동")
  }

  /** `/^\d{1,3}-\d{1,4}$/` matches `text` with its dash at position `k`. */
  predicate DongHoAt(text: string, k: int) {
    1 <= k <= 3 && k < |text| && text[k] == '-' && AllDigits(text[..k])
    && 1 <= |text| - k - 1 <= 4 && AllDigits(text[k + 1..])
  }

  /** `/^\d{1,3}-\d{1,4}$/.test(text)`. */
  predicate MatchesDongHo(text: string) {
    exists k | 0 <= k < |text| :: DongHoAt(text, k)
  }

  /** On a matching text, `text.split('-')` yields the two digit groups around the dash. */
  lemma SplitDongHo(text: string, k: int)
    requires DongHoAt(text, k)
    ensures Split(text, '-') == [text[..k], text[k + 1..]]
  {
    var parts := [text[..k], text[k + 1..]];
    assert forall i :: 0 <= i < |parts| ==> '-' !in parts[i] by {
      forall i, j | 0 <= i < |parts| && 0 <= j < |parts[i]| ensures parts[i][j] != '-' {
        assert IsDigit(parts[i][j]);
      }
    }
    assert Join(parts, '-') == text[..k] + ['-'] + text[k + 1..];
    assert text == text[..k] + ['-'] + text[k + 1..];
    SplitJoin(parts, '-');
  }

  /** The value stored when `text` is typed into `field`: "N-M" in a location field becomes
      "N동-M호"; everything else is stored as typed. */
  function FormatLocation(field: string, text: string): (r: string)
    ensures forall k :: DongHoAt(text, k) && IsLocationField(field) ==> r == text[..k] + "동-" + text[k + 1..] + "호"
    ensures !(MatchesDongHo(text) && IsLocationField(field)) ==> r == text
  {
    if MatchesDongHo(text) && IsLocationField(field) then
      var k :| 0 <= k < |text| && DongHoAt(text, k);
      SplitDongHo(text, k);
      var parts := Split(text, '-');
      forall j | 0 <= j < |text| && j != k ensures !DongHoAt(text, j) {
        if j < k {
          assert IsDigit(text[..k][j]);
        } else {
          assert text[..j][k] == '-';
        }
      }
      parts[0] + "동-" + parts[1] + "호"
    else
      text
  }

  /** Typing the rewritten value again leaves it alone: the rewrite is idempotent. */
  lemma FormatLocationIdempotent(field: string, text: string)
    ensures FormatLocation(field, FormatLocation(field, text)) == FormatLocation(field, text)
  {
    var r := FormatLocation(field, text);
    if r != text {
      var k :| 0 <= k < |text| && DongHoAt(text, k);
      assert r == text[..k] + "동-" + text[k + 1..] + "호";
      assert r[k] == '동';
      forall j | 0 <= j < |r| ensures !DongHoAt(r, j) {
        if j < k {
          assert r[j] == text[..k][j];
          assert IsDigit(r[j]);
        } else if k < j {
          assert r[..j][k] == '동';
        }
      }
    }
  }

  // ---------------------------------------------------------------------------------------
  // Upload file name (handleUpload)
  // ---------------------------------------------------------------------------------------

  /** `formData[field] || field`: the field's value, or its name when the value is missing or empty. */
  function FolderPart(formData: map<string, string>, field: string): string {
    if field in formData && formData[field] != "" then formData[field] else field
  }

  /** `folders.map(field => formData[field] || field).filter(Boolean)`. */
  function FolderParts(folders: seq<string>, formData: map<string, string>): (r: seq<string>)
    ensures |r| <= |folders|
    ensures forall i :: 0 <= i < |r| ==> r[i] != ""
    ensures forall i :: 0 <= i < |r| ==> exists j :: 0 <= j < |folders| && r[i] == FolderPart(formData, folders[j])
    ensures r == [] <==> forall j :: 0 <= j < |folders| ==> FolderPart(formData, folders[j]) == ""
  {
    if folders == [] then []
    else
      var rest := FolderParts(folders[1..], formData);
      assert forall j :: 1 <= j < |folders| ==> folders[1..][j - 1] == folders[j];
      var p := FolderPart(formData, folders[0]);
      if p == "" then rest else [p] + rest
  }

  /** The part a single folder field contributes: none when `formData[field] || field` is empty. */
  function HeadPart(formData: map<string, string>, field: string): seq<string> {
    if FolderPart(formData, field) == "" then [] else [FolderPart(formData, field)]
  }

  lemma FolderPartsUnfold(folders: seq<string>, formData: map<string, string>)
    requires folders != []
    ensures FolderParts(folders, formData) == HeadPart(formData, folders[0]) + FolderParts(folders[1..], formData)
  {
    var rest := FolderParts(folders[1..], formData);
    if FolderPart(formData, folders[0]) == "" {
      assert HeadPart(formData, folders[0]) + rest == rest;
    }
  }

  lemma ConcatAssoc(x: seq<string>, y: seq<string>, z: seq<string>)
    ensures x + (y + z) == (x + y) + z
  {
  }

  lemma FolderPartsUnfoldAppend(a: seq<string>, b: seq<string>, formData: map<string, string>)
    requires a != []
    ensures FolderParts(a + b, formData) == HeadPart(formData, a[0]) + FolderParts(a[1..] + b, formData)
  {
    assert (a + b)[0] == a[0] && (a + b)[1..] == a[1..] + b;
    FolderPartsUnfold(a + b, formData);
  }

  /** The parts of two runs of folder fields, one after the other, are the parts of each run in
      turn: the map and the filter keep the folder structure's order. */
  lemma {:induction false} FolderPartsAppend(a: seq<string>, b: seq<string>, formData: map<string, string>)
    ensures FolderParts(a + b, formData) == FolderParts(a, formData) + FolderParts(b, formData)
  {
    if a == [] {
      assert a + b == b;
    } else {
      FolderPartsUnfold(a, formData);
      FolderPartsUnfoldAppend(a, b, formData);
      FolderPartsAppend(a[1..], b, formData);
      var head := HeadPart(formData, a[0]);
      var restA, restB := FolderParts(a[1..], formData), FolderParts(b, formData);
      ConcatAssoc(head, restA, restB);
    }
  }

  /** A single folder field contributes its value (or its name) exactly when that is not empty. */
  lemma FolderPartsSingle(field: string, formData: map<string, string>)
    ensures FolderParts([field], formData) == HeadPart(formData, field)
  {
    assert [field][1..] == [];
  }

  /** The suffix every upload name ends with: `_<timestamp>.jpg`. */
  function TimestampSuffix(timestamp: nat): string {
    "_" + NatToString(timestamp) + ".jpg"
  }

  /** The name of the `index`-th photo of an upload: the non-empty folder parts joined with `_`,
      or `<formName>_<index + 1>` when there are none, then `_<timestamp>.jpg`. */
  function UploadFileName(form: Form, formData: map<string, string>, index: nat, timestamp: nat): (name: string)
    ensures |name| > |TimestampSuffix(timestamp)|
    ensures name[|name| - |TimestampSuffix(timestamp)|..] == TimestampSuffix(timestamp)
  {
    var parts := FolderParts(form.folderStructure, formData);
    var joined := Join(parts, '_');
    var base := if joined == "" then form.formName + "_" + NatToString(index + 1) else joined;
    base + TimestampSuffix(timestamp)
  }

  /** With no usable folder part the name falls back to the form name and the photo's
      1-based position; otherwise, when no part holds an underscore, splitting the name's
      stem on `_` gives back the folder parts in order. */
  lemma UploadFileNameStem(form: Form, formData: map<string, string>, index: nat, timestamp: nat)
    ensures var name := UploadFileName(form, formData, index, timestamp);
      var stem := name[..|name| - |TimestampSuffix(timestamp)|];
      var parts := FolderParts(form.folderStructure, formData);
      && (parts == [] ==> stem == form.formName + "_" + NatToString(index + 1))
      && (parts != [] && (forall i :: 0 <= i < |parts| ==> '_' !in parts[i]) ==> Split(stem, '_') == parts)
  {
    var name := UploadFileName(form, formData, index, timestamp);
    var parts := FolderParts(form.folderStructure, formData);
    JoinEmptyIff(parts, '_');
    var joined := Join(parts, '_');
    var base := if joined == "" then form.formName + "_" + NatToString(index + 1) else joined;
    assert name == base + TimestampSuffix(timestamp);
    assert name[..|name| - |TimestampSuffix(timestamp)|] == base;
    if parts != [] && (forall i :: 0 <= i < |parts| ==> '_' !in parts[i]) {
      SplitJoin(parts, '_');
    }
  }
}
