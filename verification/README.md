# FairEmployeeApp upload and history screens in Dafny

This project models the logic of two screens of FairEmployeeApp, a React Native app. On-site staff use it to photograph construction work and upload the photos, each composed with a table of form values.

The upload screen (`src/screens/UploadScreen_old.js`) works like this:
- The user picks a form, and every field gets an initial value. Fields whose name mentions a date start with today's date; the others start empty.
- The user fills the fields. Text typed into a location field as "N-M" is rewritten to "N동-M호".
- The user takes or picks photos, chooses which photo the preview shows, turns it by quarter turns, and removes photos.
- Validation flags the fields left blank.
- Each photo is composed on a fixed-size canvas with a two-column table (field name, value) whose widths are derived from the canvas width and the font size.
- Each composed photo is uploaded under a name built from the form's folder structure.

The history screen (`src/screens/HistoryScreen.js`) groups the user's uploads by calendar date. Tapping a date opens or closes that date's list.

Modules:
- `Text`: the JavaScript string operations the screens use. These are `includes`, ASCII `toLowerCase`, `trim` with the ECMAScript white-space set, `split`/`join` on one character, and decimal rendering of a natural number.
- `CanvasGeometry`: `getCanvasDims` and the table-overlay layout. These are pure functions over exact reals, with lemmas about the clamping of the table width and the split between the two columns.
- `FormFields`: initial values, the missing-field test, the location rewrite and the upload file name. These are pure functions, plus the two `forEach` loops as methods.
- `UploadScreen`: the screen's state as a class. Each handler is a method that updates the fields the way the state setters do, with the rotation and photo-removal arithmetic as functions and lemmas.
- `History`: the `reduce` that groups uploads by date, as a loop-based method proved against a filter function, and the date toggle.

Three points about the code shape the geometry model:
- `getCanvasDims` ignores its rotation argument. The canvas keeps one size, and there is no swapped draw box or centring offset.
- The column widths come from `col1Ratio`, minima of 5 and 7 font sizes times 1.1, and 0.6 × font size per character of a value.
- Column 1 always gets its required width. Column 2 takes whatever is left of the clamped table width, which can be negative.

## Model

| member | source | states |
|---|---|---|
| CanvasGeometry.GetCanvasDims | src/screens/UploadScreen_old.js:31-36 | The canvas width is the floor of 70% of the screen width, and the height is the floor of that width scaled by the configured aspect ratio; both are non-negative. |
| CanvasGeometry.CanvasDimsIgnoreRotation | src/screens/UploadScreen_old.js:31-36 | The canvas size is the same for every rotation. |
| CanvasGeometry.CanvasDimsExample | src/screens/UploadScreen_old.js:31-36 | With a 4:3 configuration and a 400-pixel screen, the canvas is 280 × 210. |
| CanvasGeometry.MaxCol2TextWidth | src/screens/UploadScreen_old.js:411-414 | The widest estimated value width is non-negative, at least every field's estimate, and either 0 or the estimate of some field. |
| CanvasGeometry.FontSize | src/screens/UploadScreen_old.js:404-405 | The table font size is at least 10; it is 10 whenever the scaled size is below 11; and from a scaled size of 10 up it is the floor of the configured pixel size scaled by canvas width over configured width. |
| CanvasGeometry.FontSizeExample | src/screens/UploadScreen_old.js:405 | A 743-pixel canvas with a 16-pixel font configured for a 1080-pixel width gets an 11-pixel font. |
| CanvasGeometry.Layout | src/screens/UploadScreen_old.js:396-427 | The font size is `FontSize` of the canvas width, so ≥ 10; table width at most 95% of the canvas; the two final column widths add up to the table width; row height 2.2 × font size; table height = number of fields × row height; one row per field, in order, holding the field and its value, or the empty string when it has none. |
| CanvasGeometry.ColumnFloors | src/screens/UploadScreen_old.js:400-420 | Column 1's required width is at least 5.5 × font size and at least two thirds of the `col1Ratio` share. Column 2's required width is at least 7.7 × font size and at least every value's width plus twice the padding plus 12. Each required width equals one of its floors (so it is the larger of the two), column 2's text width is `MaxCol2TextWidth`, and the required table width is the sum of the two. |
| CanvasGeometry.TableWidthClamp | src/screens/UploadScreen_old.js:398-421 | The table width is the required width clamped to [widthRatio share, 95% share]. It is at least the minimum when widthRatio ≤ 0.95, and at least the required width when that fits under the maximum. |
| CanvasGeometry.Col2KeepsWidthIffFits | src/screens/UploadScreen_old.js:415-423 | Column 1 always keeps its required width. Column 2 gets at least its required width exactly when the required table width fits under the maximum. |
| CanvasGeometry.Col2Ceiling | src/screens/UploadScreen_old.js:408-423 | Column 2 is never wider than 95% of the canvas minus 5.5 × font size. |
| CanvasGeometry.Col2NegativeOnNarrowCanvas | src/screens/UploadScreen_old.js:404-423 | On a narrow enough canvas (50 px, 16 px font, 1080 configured width), column 2's final width is negative. |
| Text.TrimEmptyIffAllSpace | src/screens/UploadScreen_old.js:172 | `trim()` gives the empty string exactly when every character is ECMAScript white space. |
| Text.SplitJoin | src/screens/UploadScreen_old.js:321-324 | Joining a non-empty list of parts, none containing the separator, and splitting the result on that separator gives the parts back. |
| Text.NatToStringRoundTrip | src/screens/UploadScreen_old.js:326-328 | The decimal rendering of a number reads back as that number. |
| FormFields.BuildInitialData | src/screens/UploadScreen_old.js:145-159 | The initial form data has exactly the form's fields as keys; date fields hold today's date, all others the empty string. |
| FormFields.CollectErrors | src/screens/UploadScreen_old.js:170-175 | A field is flagged exactly when it belongs to the form and its value is absent, empty or all white space. |
| FormFields.MissingIffBlank | src/screens/UploadScreen_old.js:172 | A field is missing exactly when it has no value or its value is all white space. |
| FormFields.FreshFormMissingFields | src/screens/UploadScreen_old.js:143-179 | Validating right after a form is chosen flags exactly the fields that are not date fields. |
| FormFields.SplitDongHo | src/screens/UploadScreen_old.js:545-546 | Splitting an "N-M" text on `-` yields exactly the two digit groups. |
| FormFields.FormatLocation | src/screens/UploadScreen_old.js:543-549 | In a field named with 위치, 호 or 동, a text matching `^\d{1,3}-\d{1,4}$` becomes "N동-M호". Every other text is stored unchanged. |
| FormFields.FormatLocationIdempotent | src/screens/UploadScreen_old.js:543-549 | Rewriting an already rewritten value changes nothing. |
| FormFields.FolderParts | src/screens/UploadScreen_old.js:320-324 | The name parts are never empty and never outnumber the folder fields. Each part is some folder field's value, or its name. There are no parts exactly when every such part is empty. |
| FormFields.FolderPartsAppend | src/screens/UploadScreen_old.js:320-324 | The parts of two runs of folder fields are the parts of the first run followed by those of the second, so the folder structure's order is kept. |
| FormFields.FolderPartsSingle | src/screens/UploadScreen_old.js:322-323 | One folder field contributes its value, or its name when the value is empty, unless that is the empty string. |
| FormFields.UploadFileName | src/screens/UploadScreen_old.js:320-328 | Every upload name ends with `_<timestamp>.jpg`. |
| FormFields.UploadFileNameStem | src/screens/UploadScreen_old.js:320-328 | With no usable part, the stem is `<formName>_<index + 1>`. Otherwise, when no part holds `_`, splitting the stem on `_` gives the parts back in order. |
| UploadScreen.TableBlankIffFlagged | src/screens/UploadScreen_old.js:586-620 | The photo's table has a row for each form field. A row's value cell is blank (empty or all white space) exactly when validation would flag that field as missing. |
| UploadScreen.JsRem360 | src/screens/UploadScreen_old.js:216 | JavaScript's `% 360`: the remainder lies in [0, 360) for a non-negative dividend and in (-360, 0] for a negative one, and differs from the dividend by a multiple of 360. |
| UploadScreen.NextRotation | src/screens/UploadScreen_old.js:215-217 | A quarter-turn rotation stays a quarter turn; from any rotation ≥ -90 the result is `(rotation + 90) mod 360`, in [0, 360). |
| UploadScreen.FourTurnsIsIdentity | src/screens/UploadScreen_old.js:215-217 | Four taps on rotate bring the preview back to its starting rotation. |
| UploadScreen.WithoutSplice | src/screens/UploadScreen_old.js:220 | Filtering out position `index` cuts out exactly that element; an index outside the list changes nothing. |
| UploadScreen.RemoveTracksSelection | src/screens/UploadScreen_old.js:219-228 | After a removal the other photos keep their order. A preview on another photo stays on that same photo. Removing the previewed photo moves the preview to the first photo, or to none. The selection stays in range. |
| UploadScreen.UploadScreenState.constructor | src/screens/UploadScreen_old.js:41-53 | The screen starts with no form, no data, no photos, no selection, rotation 0 and no error marks. |
| UploadScreen.UploadScreenState.SelectForm | src/screens/UploadScreen_old.js:143-165 | Choosing a form installs its initial data and clears the photos, the selection, the rotation and the error marks. |
| UploadScreen.UploadScreenState.Validate | src/screens/UploadScreen_old.js:167-179 | Without a form, validation fails and changes nothing. Otherwise it marks exactly the missing fields and succeeds exactly when none is marked. |
| UploadScreen.UploadScreenState.TakePicture | src/screens/UploadScreen_old.js:181-196 | An accepted shot appends its first asset, previews it and resets the rotation; a cancelled, failed or empty shot changes nothing. |
| UploadScreen.UploadScreenState.PickImage | src/screens/UploadScreen_old.js:198-213 | An accepted pick appends all assets, previews the first new one and resets the rotation. The selection stays in range exactly when at least one asset was picked. |
| UploadScreen.UploadScreenState.RotateImage | src/screens/UploadScreen_old.js:215-217 | The rotation advances by a quarter turn modulo 360. |
| UploadScreen.UploadScreenState.RemoveImage | src/screens/UploadScreen_old.js:219-228 | The photo at `index` is filtered out. The selection follows `SelectionAfterRemove`. The rotation resets only when the previewed photo was removed. |
| UploadScreen.UploadScreenState.SelectThumbnail | src/screens/UploadScreen_old.js:699-703 | Tapping a thumbnail previews that photo unrotated. |
| UploadScreen.UploadScreenState.SetFieldValue | src/screens/UploadScreen_old.js:513-532 | A picked date or chosen option is stored under the field, and the field's error mark is cleared; nothing else changes. |
| UploadScreen.UploadScreenState.TypeText | src/screens/UploadScreen_old.js:542-551 | Typed text is stored after the location rewrite, and the field's error mark is cleared. |
| History.OnDateAppend | src/screens/HistoryScreen.js:54-58 | Appending an upload adds it to the end of its own date's list and leaves every other date's list alone. |
| History.OnDateMembers | src/screens/HistoryScreen.js:54-58 | A date's list holds exactly the uploads made on that date. |
| History.GroupingStep | src/screens/HistoryScreen.js:54-58 | One step of the `reduce` keeps the grouping invariant: dates distinct and in first-seen order, one group per listed date, each group the date filter of the uploads seen so far, sizes adding up to the number seen. |
| History.FirstSeen | src/screens/HistoryScreen.js:54-58 | The dates in the order they are first met list no date twice. |
| History.FirstSeenMembers | src/screens/HistoryScreen.js:54-58 | The first-seen list holds exactly the dates some upload falls on. |
| History.FirstSeenOrder | src/screens/HistoryScreen.js:54-58 | The first-seen list is in first-met order: when a date comes before another in the list, some upload on the earlier date precedes every upload on the later date. |
| History.GroupByDate | src/screens/HistoryScreen.js:53-59 | The groups' keys are exactly the dates of the uploads. The date list is `FirstSeen` of the uploads: each date once, in the order first met. Each group is the non-empty, order-preserving list of that date's uploads. The group sizes add up to the number of uploads. |
| History.EveryUploadListed | src/screens/HistoryScreen.js:53-59 | Every upload appears in its date's group, and a missing upload list gives no groups. |
| History.ToggleDate | src/screens/HistoryScreen.js:125 | Tapping the open date closes it; tapping any other date opens that date. |
| History.ToggleTwice | src/screens/HistoryScreen.js:125 | Tapping the same date twice restores the selection exactly when no date or that date was open; if another date was open, it ends with none open. |

## Left out

- The network and storage: loading the user from storage, fetching the form list, the upload POSTs with their progress, saving to the phone's gallery, the Kakao share and the history fetch are not modelled. Neither are the camera and gallery permission requests.
- The upload loop's capture of each composed photo, its 100 ms waits and the per-photo `setSelectedImageIndex` are not modelled. The file name it builds is (`FormFields.UploadFileName`).
- Rendering: JSX, styles, the `ImageComposer` component and the drawing of the table. `src/components/ImageComposer.js` is not part of this model.
- The login and main screens, navigation and `App.tsx`.
- The clock and locale: `Date.now()`, `new Date().toISOString()` and `toLocaleDateString()` are parameters (`today`, `timestamp`, `dateOf`).
- The config file is not part of this model. `canvasConfig` is a `CanvasConfig` value with a positive `width`. The regular-expression parse of `table.font` is replaced by its result, `fontPx`, which is 16 when the font names none.
- CanvasGeometry.Layout: JavaScript numbers are modelled as exact reals, not IEEE doubles. The layout's rounding is therefore not modelled.
- CanvasGeometry.GetCanvasDims: `Math.floor` applies to the double product `screenWidth * 0.7`, and that product can fall just below an integer. At a 360-pixel screen it is 251.99999999999997, so the app gets 251 where the model gets 252. The same happens at 90, 170 and 180, at every multiple of 10 from 330 to 360 and from 650 to 730, and at other widths. At such widths the model's canvas width, and so its height, can be one pixel larger than the app's.
- String lengths count characters, not UTF-16 code units. Characters outside the Basic Multilingual Plane would count once rather than twice in the text-width estimate.
- `toLowerCase` is modelled on A–Z only. This is exact for the keyword test, because the keywords are lower-case ASCII or Hangul, which have no case.
- History.GroupByDate: the key order of the JavaScript object (integer-like keys first) is not modelled. The model keeps first-seen order, which is the object's order for date strings that are not integer-like.
- UploadScreen.UploadScreenState.PickImage and UploadScreen.UploadScreenState.TakePicture: the gallery and camera callbacks read the `images` captured when the picker opened. A second update made while the picker is open would be lost. The model treats each callback as running against the current state.
- The form list's normalisation (`fields` or `folderStructure` missing) is taken as done; `formName` is a string.
- UploadScreen.UploadScreenState.PickImage: an accepted pick with an empty asset list selects a position one past the end. This is stated, not corrected, because the screen then shows no preview rather than failing.
- History.ToggleTwice: two taps on a date restore the earlier selection only when no other date was open.
