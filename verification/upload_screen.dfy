/**
 * The state of the upload screen: the selected form, the values typed into it, the
 * photos taken or picked, which photo the preview shows, how far it is turned, and
 * which fields the last validation flagged. Each screen handler is a method that
 * updates these fields the way the screen's state setters do.
 */
module UploadScreen {
  import opened Wrappers
  import opened Text
  import opened FormFields
  import opened CanvasGeometry

  /** A photo as the camera or the gallery returns it. */
  datatype Asset = Asset(uri: string)

  /** What the camera or the gallery hands back to its callback. */
  datatype PickerResponse = PickerResponse(didCancel: bool, errorCode: Option<string>, assets: Option<seq<Asset>>)

  /** `!response.didCancel && !response.errorCode`: neither cancelled nor failed. */
  predicate Accepted(response: PickerResponse) {
    !response.didCancel && (response.errorCode.None? || response.errorCode.value == "")
  }

  // ---------------------------------------------------------------------------------------
  // Rotation
  // ---------------------------------------------------------------------------------------

  /** JavaScript's `a % 360`, whose result takes the sign of the dividend. */
  function JsRem360(a: int): (r: int)
    ensures a >= 0 ==> 0 <= r < 360 && (a - r) % 360 == 0
    ensures a < 0 ==> -360 < r <= 0 && (a - r) % 360 == 0
  {
    if a >= 0 then a % 360 else -((-a) % 360)
  }

  predicate IsQuarterTurn(r: int) {
    r == 0 || r == 90 || r == 180 || r == 270
  }

  /** `(rotation + 90) % 360`. */
  function NextRotation(rotation: int): (r: int)
    ensures IsQuarterTurn(rotation) ==> IsQuarterTurn(r)
    ensures rotation >= -90 ==> 0 <= r < 360
    ensures rotation >= -90 ==> r == (rotation + 90) % 360
  {
    JsRem360(rotation + 90)
  }

  /** Four turns bring a quarter-turn rotation back to where it started. */
  lemma FourTurnsIsIdentity(rotation: int)
    requires IsQuarterTurn(rotation)
    ensures NextRotation(NextRotation(NextRotation(NextRotation(rotation)))) == rotation
  {
  }

  // ---------------------------------------------------------------------------------------
  // Removing a photo
  // ---------------------------------------------------------------------------------------

  /** `images.filter((_, i) => i !== index)`. */
  function Without<T>(s: seq<T>, index: int): seq<T> {
    if s == [] then []
    else Without(s[..|s| - 1], index) + (if |s| - 1 == index then [] else [s[|s| - 1]])
  }

  /** Filtering out one position of the list cuts exactly that element out; filtering out a
      position the list does not have changes nothing. */
  lemma {:induction false} WithoutSplice<T>(s: seq<T>, index: int)
    ensures 0 <= index < |s| ==> Without(s, index) == s[..index] + s[index + 1..]
    ensures !(0 <= index < |s|) ==> Without(s, index) == s
  {
    if s != [] {
      var n := |s| - 1;
      WithoutSplice(s[..n], index);
      if index < n && 0 <= index {
        assert s[..n][..index] == s[..index];
        assert s[..n][index + 1..] + [s[n]] == s[index + 1..];
      } else if index == n {
        assert s[..n] == s[..index];
      } else {
        assert s[..n] + [s[n]] == s;
      }
    }
  }

  /** The selection after the photo at `index` is removed, `newLength` photos remaining:
      the removed photo's selection moves to the first photo (or to none), a later one
      moves down by one, an earlier one stays. */
  function SelectionAfterRemove(selected: Option<int>, index: nat, newLength: nat): Option<int> {
    if selected == Some(index) then (if newLength > 0 then Some(0) else None)
    else if selected.Some? && selected.value > index then Some(selected.value - 1)
    else selected
  }

  predicate InRange(selected: Option<int>, length: nat) {
    selected.Some? ==> 0 <= selected.value < length
  }

  /** Removing a photo keeps the others in order and keeps the preview on the same photo when
      that photo was not the one removed; removing the previewed photo moves the preview to the
      first photo, or to none when the list is now empty. The selection stays a valid index. */
  lemma RemoveTracksSelection(images: seq<Asset>, selected: Option<int>, index: nat)
    requires index < |images|
    requires InRange(selected, |images|)
    ensures var rest := Without(images, index);
      var now := SelectionAfterRemove(selected, index, |rest|);
      && |rest| == |images| - 1
      && (forall j :: 0 <= j < |rest| ==> rest[j] == images[if j < index then j else j + 1])
      && InRange(now, |rest|)
      && (selected.Some? && selected.value != index ==> now.Some? && rest[now.value] == images[selected.value])
      && (selected == Some(index) ==> now == (if |rest| > 0 then Some(0) else None))
      && (selected.None? ==> now.None?)
  {
    WithoutSplice(images, index);
  }

  // ---------------------------------------------------------------------------------------
  // The table on the composed photo
  // ---------------------------------------------------------------------------------------

  /** The table shows a row for every field of the form, and a row's value cell is blank (empty or
      white space only) exactly when validation would flag that field as missing. */
  lemma TableBlankIffFlagged(canvasWidth: int, cfg: CanvasConfig, fields: seq<string>, formData: map<string, string>)
    requires cfg.width > 0.0
    ensures var t := Layout(canvasWidth, cfg, fields, formData);
      && |t.rows| == |fields|
      && forall i :: 0 <= i < |fields| ==>
           t.rows[i].field == fields[i] && (AllSpace(t.rows[i].value) <==> IsMissing(formData, fields[i]))
  {
    var t := Layout(canvasWidth, cfg, fields, formData);
    forall i | 0 <= i < |fields|
      ensures AllSpace(t.rows[i].value) <==> IsMissing(formData, fields[i])
    {
      MissingIffBlank(formData, fields[i]);
    }
  }

  // ---------------------------------------------------------------------------------------
  // The screen
  // ---------------------------------------------------------------------------------------

  class UploadScreenState {
    var selectedForm: Option<Form>
    var formData: map<string, string>
    var images: seq<Asset>
    var selectedImageIndex: Option<int>
    var rotation: int
    /** The fields shown in red: those whose `validationErrors` entry is `true`. */
    var validationErrors: set<string>

    /** The preview shows one of the photos (or none) and is turned by a quarter-turn multiple. */
    ghost predicate Valid()
      reads this
    {
      InRange(selectedImageIndex, |images|) && IsQuarterTurn(rotation)
    }

    /** The screen's initial `useState` values. */
    constructor ()
      ensures Valid()
      ensures selectedForm == None && formData == map[] && validationErrors == {}
      ensures images == [] && selectedImageIndex == None && rotation == 0
    {
      selectedForm := None;
      formData := map[];
      images := [];
      selectedImageIndex := None;
      rotation := 0;
      validationErrors := {};
    }

    /** `handleSelectForm`: select the form, give every field its initial value and clear the
        photos, the selection, the rotation and the error marks. */
    method SelectForm(form: Form, today: string)
      modifies this
      ensures Valid()
      ensures selectedForm == Some(form)
      ensures formData.Keys == set f | f in form.fields
      ensures forall f :: f in formData ==> formData[f] == (if IsDateField(f) then today else "")
      ensures images == [] && selectedImageIndex == None && rotation == 0 && validationErrors == {}
    {
      selectedForm := Some(form);
      formData := BuildInitialData(form.fields, today);
      images := [];
      selectedImageIndex := None;
      rotation := 0;
      validationErrors := {};
    }

    /** `validateForm`: with no form, false and nothing else; otherwise mark exactly the missing
        fields and succeed when there are none. */
    method Validate() returns (ok: bool)
      modifies this`validationErrors
      ensures selectedForm.None? ==> !ok && validationErrors == old(validationErrors)
      ensures selectedForm.Some? ==>
        && (forall f :: f in validationErrors <==> f in selectedForm.value.fields && IsMissing(formData, f))
        && (ok <==> validationErrors == {})
    {
      if selectedForm.None? {
        return false;
      }
      validationErrors := CollectErrors(selectedForm.value.fields, formData);
      ok := |validationErrors| == 0;
    }

    /** `takePicture`'s callback: an accepted shot adds its first asset at the end, selects it
        and resets the rotation; anything else changes nothing. */
    method TakePicture(response: PickerResponse)
      modifies this`images, this`selectedImageIndex, this`rotation
      ensures if Accepted(response) && response.assets.Some? && |response.assets.value| > 0 then
          && images == old(images) + [response.assets.value[0]]
          && selectedImageIndex == Some(|images| - 1)
          && rotation == 0
        else
          images == old(images) && selectedImageIndex == old(selectedImageIndex) && rotation == old(rotation)
      ensures old(Valid()) ==> Valid()
    {
      if Accepted(response) && response.assets.Some? && |response.assets.value| > 0 {
        images := images + [response.assets.value[0]];
        selectedImageIndex := Some(|images| - 1);
        rotation := 0;
      }
    }

    /** `pickImage`'s callback: an accepted pick appends all picked assets, selects the first of
        them (the old length) and resets the rotation. An accepted pick of no assets leaves the
        selection one past the end. */
    method PickImage(response: PickerResponse)
      modifies this`images, this`selectedImageIndex, this`rotation
      ensures if Accepted(response) && response.assets.Some? then
          && images == old(images) + response.assets.value
          && selectedImageIndex == Some(|old(images)|)
          && rotation == 0
        else
          images == old(images) && selectedImageIndex == old(selectedImageIndex) && rotation == old(rotation)
      ensures Accepted(response) && response.assets.Some? ==>
        (Valid() <==> |response.assets.value| > 0)
      ensures !(Accepted(response) && response.assets.Some?) ==> (Valid() <==> old(Valid()))
    {
      if Accepted(response) && response.assets.Some? {
        selectedImageIndex := Some(|images|);
        images := images + response.assets.value;
        rotation := 0;
      }
    }

    /** `rotateImage`: a further quarter turn. */
    method RotateImage()
      modifies this`rotation
      ensures rotation == NextRotation(old(rotation))
      ensures old(Valid()) ==> Valid()
    {
      rotation := NextRotation(rotation);
    }

    /** `removeImage(index)`, `index` being a thumbnail's position. */
    method RemoveImage(index: nat)
      modifies this`images, this`selectedImageIndex, this`rotation
      ensures images == Without(old(images), index)
      ensures selectedImageIndex == SelectionAfterRemove(old(selectedImageIndex), index, |images|)
      ensures rotation == if old(selectedImageIndex) == Some(index) then 0 else old(rotation)
      ensures old(Valid()) && index < |old(images)| ==> Valid()
    {
      if old(Valid()) && index < |images| {
        RemoveTracksSelection(images, selectedImageIndex, index);
      }
      var wasSelected := selectedImageIndex == Some(index);
      var newImages := Without(images, index);
      selectedImageIndex := SelectionAfterRemove(selectedImageIndex, index, |newImages|);
      images := newImages;
      if wasSelected {
        rotation := 0;
      }
    }

    /** Tapping a thumbnail: preview that photo, unrotated. */
    method SelectThumbnail(index: nat)
      modifies this`selectedImageIndex, this`rotation
      ensures selectedImageIndex == Some(index) && rotation == 0
      ensures index < |images| ==> Valid()
    {
      selectedImageIndex := Some(index);
      rotation := 0;
    }

    /** A date picked or an option chosen for `field`: store it and clear the field's error mark. */
    method SetFieldValue(field: string, value: string)
      modifies this`formData, this`validationErrors
      ensures formData == old(formData)[field := value]
      ensures validationErrors == old(validationErrors) - {field}
    {
      formData := formData[field := value];
      validationErrors := validationErrors - {field};
    }

    /** Text typed into `field`: store it, rewritten to "N동-M호" when the field is a location
        field and the text is "N-M", and clear the field's error mark. */
    method TypeText(field: string, text: string)
      modifies this`formData, this`validationErrors
      ensures formData == old(formData)[field := FormatLocation(field, text)]
      ensures validationErrors == old(validationErrors) - {field}
    {
      SetFieldValue(field, FormatLocation(field, text));
    }
  }
}
