/** The pure helpers of screens/DocumentPreviewScreen.js: the field-edit
    merge, how the document to save is assembled and routed to the store,
    the label shown for a field key, the fields listed, what the edit box
    shows, and the icon and colour of a document type. */
module DocumentPreview {
  import opened Results
  import opened Seqs
  import opened Text
  import opened JsValues
  import opened StorageService

  // ---------------------------------------------------------------------
  // Editing

  /** handleEdit(key, text): `{ ...editedData, [key]: text }`, where a null
      editedData spreads as no properties. */
  function HandleEdit(edited: Option<Object>, key: string, text: string): (r: Object)
    ensures Get(r, key) == Some(Str(text))
    ensures forall k :: k != key ==> Get(r, k) == Get(edited.GetOr([]), k)
    ensures |edited.GetOr([])| <= |r|
    ensures forall j :: 0 <= j < |edited.GetOr([])| ==> r[j].key == edited.GetOr([])[j].key
  {
    CopyIsIdentity(edited.GetOr([]));
    Set(Assign([], edited.GetOr([])), key, Str(text))
  }

  /** Making the same edit twice is making it once. */
  lemma EditIdempotent(edited: Option<Object>, key: string, text: string)
    ensures HandleEdit(Some(HandleEdit(edited, key, text)), key, text) == HandleEdit(edited, key, text)
  {
    EditLastWins(edited, key, text, text);
  }

  /** Of two edits to the same key the later one wins. */
  lemma EditLastWins(edited: Option<Object>, key: string, first: string, second: string)
    ensures HandleEdit(Some(HandleEdit(edited, key, first)), key, second) == HandleEdit(edited, key, second)
  {
    var base := edited.GetOr([]);
    CopyIsIdentity(base);
    var once := Set(base, key, Str(first));
    CopyIsIdentity(once);
    SetOverwrite(base, key, Str(first), Str(second));
  }

  /** The edit box shows `editedData[key] || value`: the edited value when
      it is truthy, the original value otherwise. */
  function EditBoxValue(edited: Object, key: string, original: string): (r: Value)
    ensures Get(edited, key).Some? && Truthy(Get(edited, key).value) ==> r == Get(edited, key).value
    ensures Get(edited, key).None? || !Truthy(Get(edited, key).value) ==> r == Str(original)
  {
    match Get(edited, key)
    case Some(v) => if Truthy(v) then v else Str(original)
    case None => Str(original)
  }

  /** An edit shows in the edit box, except that a field edited to the
      empty string shows its original value again. */
  lemma EditShownInBox(edited: Option<Object>, key: string, text: string, original: string)
    ensures EditBoxValue(HandleEdit(edited, key, text), key, original) ==
              if text == "" then Str(original) else Str(text)
  {
  }

  // ---------------------------------------------------------------------
  // Saving

  /** handleSave's `{ imageUri, ...documentData, data: editedData || documentData.data }`.
      An imageUri inside documentData replaces the route's; data is the
      edited data when there is any (an object is always truthy), and
      documentData's own data otherwise, which is undefined when
      documentData has none. */
  function DocumentToSave(imageUri: string, documentData: Object, edited: Option<Object>): (r: Object)
    ensures |r| > 0 && r[0].key == "imageUri"
    ensures Get(r, "imageUri") ==
              if HasKey(documentData, "imageUri") then Get(documentData, "imageUri") else Some(Str(imageUri))
    ensures Get(r, "data") ==
              Some(if edited.Some? then Obj(edited.value) else Read(documentData, "data"))
    ensures forall k :: k != "imageUri" && k != "data" ==> Get(r, k) == Get(documentData, k)
  {
    var start: Object := [Prop("imageUri", Str(imageUri))];
    var merged := Assign(start, documentData);
    assert forall k :: Get(merged, k) == if HasKey(documentData, k) then Get(documentData, k) else Get(start, k) by {
      forall k
        ensures Get(merged, k) == if HasKey(documentData, k) then Get(documentData, k) else Get(start, k)
      {
        GetAssign(start, documentData, k);
      }
    }
    var data := if edited.Some? then Obj(edited.value) else Read(documentData, "data");
    Set(merged, "data", data)
  }

  /** Where handleSave sends the document. */
  datatype SaveRoute = UpdateExisting(id: Value) | CreateNew

  /** `existingData && existingData.id`: an update of that id exactly when
      the screen was opened on existing data with a truthy id. */
  function RouteSave(existingData: Option<Object>): (r: SaveRoute)
    ensures r.UpdateExisting? <==>
              existingData.Some? && Get(existingData.value, "id").Some? && Truthy(Get(existingData.value, "id").value)
    ensures r.UpdateExisting? ==> Get(existingData.value, "id") == Some(r.id)
  {
    match existingData
    case None => CreateNew
    case Some(existing) =>
      match Get(existing, "id")
      case Some(id) => if Truthy(id) then UpdateExisting(id) else CreateNew
      case None => CreateNew
  }

  /** handleSave: assembles the document and either updates the record it
      came from or saves it as a new one. */
  method HandleSave(store: DocumentStore, imageUri: string, documentData: Object, edited: Option<Object>,
                    existingData: Option<Object>, clock: SaveClock)
    modifies store
    ensures var doc := DocumentToSave(imageUri, documentData, edited);
            var before := old(store.GetAllDocuments());
            match RouteSave(existingData)
            case UpdateExisting(id) =>
              if FindById(before, id).Some? then store.persisted == Some(UpdateAt(before, id, doc, clock.updatedIso))
              else store.persisted == old(store.persisted)
            case CreateNew =>
              store.persisted == Some(before + [NewDocument(doc, clock)])
  {
    var doc := DocumentToSave(imageUri, documentData, edited);
    match RouteSave(existingData) {
      case UpdateExisting(id) =>
        var _ := store.UpdateDocument(id, doc, clock.updatedIso);
      case CreateNew =>
        var _ := store.SaveDocument(doc, clock);
    }
  }

  /** Re-saving a stored document from the screen (documentData is then the
      existing data itself) keeps the record under its id. The record then
      holds the edited data; with no edit, the existing data's own `data`;
      and with neither, `data` becomes undefined, whatever it held before. */
  lemma ResaveKeepsRecord(docs: seq<Object>, imageUri: string, existing: Object,
                          edited: Option<Object>, updatedIso: string)
    requires RouteSave(Some(existing)).UpdateExisting?
    requires FindById(docs, RouteSave(Some(existing)).id).Some?
    ensures var id := RouteSave(Some(existing)).id;
            var i := FindById(docs, id).value;
            var after := UpdateAt(docs, id, DocumentToSave(imageUri, existing, edited), updatedIso);
            && FindById(after, id) == Some(i)
            && Read(after[i], "data") ==
                 if edited.Some? then Obj(edited.value) else Read(existing, "data")
  {
    var id := RouteSave(Some(existing)).id;
    var doc := DocumentToSave(imageUri, existing, edited);
    assert Get(doc, "id") == Get(existing, "id") == Some(id);
    UpdateThenFind(docs, id, doc, updatedIso, "data");
  }

  // ---------------------------------------------------------------------
  // Field labels

  /** The number of letters A-Z in s. */
  function CountCapitals(s: string): nat
    decreases |s|
  {
    if s == [] then 0 else (if IsCapital(s[0]) then 1 else 0) + CountCapitals(s[1..])
  }

  /** `key.replace(/([A-Z])/g, ' $1')`: a space before every letter A-Z.
      The result never starts with a capital, since each capital gets a
      space in front of it. */
  function SpaceBeforeCapitals(s: string): (r: string)
    ensures |r| == |s| + CountCapitals(s)
    ensures r != [] ==> !IsCapital(r[0])
    decreases |s|
  {
    if s == [] then []
    else (if IsCapital(s[0]) then [' ', s[0]] else [s[0]]) + SpaceBeforeCapitals(s[1..])
  }

  /** Every capital in the spaced key has a space right before it. */
  lemma {:induction false} CapitalsFollowSpaces(s: string)
    ensures forall i :: 0 <= i < |SpaceBeforeCapitals(s)| && IsCapital(SpaceBeforeCapitals(s)[i]) ==>
              i > 0 && SpaceBeforeCapitals(s)[i - 1] == ' '
    decreases |s|
  {
    if s != [] {
      CapitalsFollowSpaces(s[1..]);
      var head: string := if IsCapital(s[0]) then [' ', s[0]] else [s[0]];
      var tail := SpaceBeforeCapitals(s[1..]);
      assert forall i :: 0 <= i < |tail| && IsCapital(tail[i]) ==> i > 0 && tail[i - 1] == ' ';
      assert SpaceBeforeCapitals(s) == head + tail;
      forall i | 0 <= i < |head + tail| && IsCapital((head + tail)[i])
        ensures i > 0 && (head + tail)[i - 1] == ' '
      {
        if i < |head| {
          assert (head + tail)[i] == head[i];
          assert i == 1 && head[0] == ' ';
          assert (head + tail)[i - 1] == head[i - 1];
        } else {
          assert (head + tail)[i] == tail[i - |head|];
          assert IsCapital(tail[i - |head|]);
          assert i - |head| > 0;
          assert (head + tail)[i - 1] == tail[i - |head| - 1];
        }
      }
    }
  }

  /** Removes each space that stands right before a capital: the inverse of
      SpaceBeforeCapitals. */
  function DropSpacesBeforeCapitals(t: string): string
    decreases |t|
  {
    if t == [] then []
    else if |t| >= 2 && t[0] == ' ' && IsCapital(t[1]) then [t[1]] + DropSpacesBeforeCapitals(t[2..])
    else [t[0]] + DropSpacesBeforeCapitals(t[1..])
  }

  /** No information is lost by spacing: the key can be read back from its
      spaced form, even when it already contains spaces. */
  lemma {:induction false} SpacingIsReversible(s: string)
    ensures DropSpacesBeforeCapitals(SpaceBeforeCapitals(s)) == s
    decreases |s|
  {
    if s != [] {
      SpacingIsReversible(s[1..]);
      var tail := SpaceBeforeCapitals(s[1..]);
      if IsCapital(s[0]) {
        var t := [' ', s[0]] + tail;
        assert t[2..] == tail;
      } else {
        var t := [s[0]] + tail;
        assert t[1..] == tail;
      }
    }
  }

  /** The field label: the spaced key with its first character upper-cased
      (`.replace(/^./, str => str.toUpperCase())`). */
  function FieldLabel(key: string): (r: string)
    ensures |r| == |key| + CountCapitals(key)
    ensures key == "" ==> r == ""
    ensures key != "" && !IsCapital(key[0]) ==> r[0] == UpperChar(key[0])
    ensures key != "" && IsCapital(key[0]) ==> r[0] == ' '
    ensures key != "" ==> r[1..] == SpaceBeforeCapitals(key)[1..]
  {
    var spaced := SpaceBeforeCapitals(key);
    if spaced == [] then [] else [UpperChar(spaced[0])] + spaced[1..]
  }

  /** Spacing a concatenation spaces each part. */
  lemma {:induction false} SpacedAppend(a: string, b: string)
    ensures SpaceBeforeCapitals(a + b) == SpaceBeforeCapitals(a) + SpaceBeforeCapitals(b)
    decreases |a|
  {
    if a == [] {
      assert a + b == b;
    } else {
      assert (a + b)[1..] == a[1..] + b;
      SpacedAppend(a[1..], b);
    }
  }

  /** A key without capitals is left as it is by the spacing. */
  lemma {:induction false} SpacedWithoutCapitals(s: string)
    requires forall i :: 0 <= i < |s| ==> !IsCapital(s[i])
    ensures SpaceBeforeCapitals(s) == s
    decreases |s|
  {
    if s != [] {
      SpacedWithoutCapitals(s[1..]);
    }
  }

  /** The example of the screen: "dateOfBirth" is shown as "Date Of Birth".
      The key is a parameter so that the spacing is unfolded word by word. */
  lemma DateOfBirthLabel(key: string)
    requires key == "dateOfBirth"
    ensures FieldLabel(key) == "Date Of Birth"
  {
    var spaced := "date Of Birth";
    DateOfBirthSpaced(key, spaced);
    assert [UpperChar(spaced[0])] + spaced[1..] == "Date Of Birth";
  }

  lemma DateOfBirthSpaced(key: string, spaced: string)
    requires key == "dateOfBirth" && spaced == "date Of Birth"
    ensures SpaceBeforeCapitals(key) == spaced
  {
    var a, b, c, d, e := "date", "O", "f", "B", "irth";
    SpacedWithoutCapitals(a);
    SpacedWithoutCapitals(c);
    SpacedWithoutCapitals(e);
    assert SpaceBeforeCapitals(b) == " O";
    assert SpaceBeforeCapitals(d) == " B";
    SpacedAppend(b, c);
    SpacedAppend(d, e);
    SpacedAppend(a, b + c);
    SpacedAppend(a + (b + c), d + e);
    assert key == a + (b + c) + (d + e);
    assert a + (" O" + c) + (" B" + e) == spaced;
  }

  // ---------------------------------------------------------------------
  // Field list

  /** `Object.entries(documentData.data).filter(([key]) => key !== 'type')`:
      every field but `type`, in the data's own order. */
  function DisplayedFields(data: Object): (r: seq<Prop>)
    ensures match IndexOf(data, "type")
            case None => r == data
            case Some(t) => r == data[..t] + data[t + 1..]
  {
    var keep := (p: Prop) => p.key != "type";
    var r := Filter(data, keep);
    match IndexOf(data, "type")
    case None =>
      FilterKeepsAll(data, keep);
      r
    case Some(t) =>
      assert data == data[..t] + ([data[t]] + data[t + 1..]);
      FilterAppend(data[..t], [data[t]] + data[t + 1..], keep);
      FilterAppend([data[t]], data[t + 1..], keep);
      FilterKeepsAll(data[..t], keep);
      FilterKeepsAll(data[t + 1..], keep);
      r
  }

  // ---------------------------------------------------------------------
  // Type icons and colours

  /** The icon table of getDocumentIcon. */
  const ICONS: map<string, string> := map[
    "passport" := "passport",
    "id_card" := "card-account-details",
    "driver_license" := "card-account-details",
    "receipt" := "receipt",
    "invoice" := "file-document",
    "business_card" := "card-account-details-outline",
    "prescription" := "medical-bag",
    "contract" := "file-sign",
    "generic" := "file-document-outline"
  ]

  /** The colour table of getDocumentColor. */
  const COLORS: map<string, string> := map[
    "passport" := "#6366F1",
    "id_card" := "#EF4444",
    "driver_license" := "#F59E0B",
    "receipt" := "#10B981",
    "invoice" := "#3B82F6",
    "business_card" := "#8B5CF6",
    "prescription" := "#EC4899",
    "contract" := "#F59E0B",
    "generic" := "#6B7280"
  ]

  /** The nine document-type tags the screen knows. */
  const KNOWN_TAGS: set<string> :=
    {"passport", "id_card", "driver_license", "receipt", "invoice",
     "business_card", "prescription", "contract", "generic"}

  /** getDocumentIcon: `icons[type] || 'file-document-outline'`; a tag
      outside the table gets the generic icon. */
  function DocumentIcon(tag: string): (r: string)
    ensures tag in KNOWN_TAGS ==> r == ICONS[tag]
    ensures tag !in KNOWN_TAGS ==> r == ICONS["generic"]
  {
    if tag in ICONS && ICONS[tag] != "" then ICONS[tag] else "file-document-outline"
  }

  /** getDocumentColor: `colors[type] || '#6B7280'`; a tag outside the table
      gets the generic colour. */
  function DocumentColor(tag: string): (r: string)
    ensures tag in KNOWN_TAGS ==> r == COLORS[tag]
    ensures tag !in KNOWN_TAGS ==> r == COLORS["generic"]
  {
    if tag in COLORS && COLORS[tag] != "" then COLORS[tag] else "#6B7280"
  }

  /** An unknown tag looks exactly like `generic`. */
  lemma UnknownTagLooksGeneric(tag: string)
    requires tag !in KNOWN_TAGS
    ensures DocumentIcon(tag) == DocumentIcon("generic") == "file-document-outline"
    ensures DocumentColor(tag) == DocumentColor("generic") == "#6B7280"
  {
  }
}
