/** The backend's intent record: reading it out of a database object, and the objects written to create, update, archive and unarchive it. */
module IntentModel {
  import opened Wrappers

  /** A database value, as far as intent records use it. */
  datatype Value =
    | VNone
    | VNull
    | VBool(b: bool)
    | VNumber(n: int)
    | VStrand(s: string)
    | VThing(raw: string)
    | VArray(items: seq<Value>)
    | VObject(fields: map<string, Value>)

  /** A database object: named fields. */
  type Object = map<string, Value>

  /** The application errors raised by this file. */
  datatype Error =
    | XValueNotOfType(expected: string)
    | XPropertyNotFound(key: string)
    | StoreFailToCreate(cause: string)

  /** An intent: a label the user focuses on, with tags, a creation time and an optional archive time (millisecond timestamps as strings). */
  datatype Intent = Intent(
    id: string,
    labelText: string,
    pinned: bool,
    tags: seq<string>,
    createdAt: string,
    archivedAt: Option<string>)

  /** The fields a client may supply to create an intent. */
  datatype IntentForCreate = IntentForCreate(labelText: string)

  /** The fields a client may change; an absent field is left as it is. */
  datatype IntentForUpdate = IntentForUpdate(labelText: Option<string>, pinned: Option<bool>, tags: Option<seq<string>>)

  // ---------------------------------------------------------------- reading values

  /** Conversion of a value to a string: a string, or a record id in its raw form. */
  function AsString(v: Value): Result<string, Error> {
    match v
    case VStrand(s) => Ok(s)
    case VThing(raw) => Ok(raw)
    case _ => Err(XValueNotOfType("String"))
  }

  /** Conversion of a value to a boolean. */
  function AsBool(v: Value): Result<bool, Error> {
    match v
    case VBool(b) => Ok(b)
    case _ => Err(XValueNotOfType("bool"))
  }

  /** Conversion of a value to an array. */
  function AsArray(v: Value): Result<seq<Value>, Error> {
    match v
    case VArray(items) => Ok(items)
    case _ => Err(XValueNotOfType("Array"))
  }

  /** `x_take_val` for a string: the field must be present and convertible. */
  function TakeString(o: Object, key: string): Result<string, Error> {
    if key in o then AsString(o[key]) else Err(XPropertyNotFound(key))
  }

  /** `x_take_val` for a boolean. */
  function TakeBool(o: Object, key: string): Result<bool, Error> {
    if key in o then AsBool(o[key]) else Err(XPropertyNotFound(key))
  }

  /** `x_take_val` for an array. */
  function TakeArray(o: Object, key: string): Result<seq<Value>, Error> {
    if key in o then AsArray(o[key]) else Err(XPropertyNotFound(key))
  }

  /** `x_take` for an optional string: an absent field is `None`, a present one must convert. */
  function TakeOptString(o: Object, key: string): Result<Option<string>, Error> {
    if key !in o then Ok(None)
    else
      match AsString(o[key])
      case Ok(s) => Ok(Some(s))
      case Err(e) => Err(e)
  }

  /** Converting every element of an array to a string and collecting into one result: the first failure wins. */
  function AsStrings(items: seq<Value>): (r: Result<seq<string>, Error>)
    ensures r.Ok? <==> forall i :: 0 <= i < |items| ==> AsString(items[i]).Ok?
    ensures r.Ok? ==> |r.value| == |items| && forall i :: 0 <= i < |items| ==> r.value[i] == AsString(items[i]).value
    ensures r.Err? ==> r.error == XValueNotOfType("String")
  {
    if items == [] then Ok([])
    else
      match AsString(items[0])
      case Err(e) => Err(e)
      case Ok(s) =>
        match AsStrings(items[1..])
        case Err(e) => Err(e)
        case Ok(rest) => Ok([s] + rest)
  }

  /** `TryFrom<Object> for Intent`: take each field in turn; the first missing or ill-typed one is the error. */
  function IntentFromObject(o: Object): (r: Result<Intent, Error>)
    ensures "id" !in o ==> r == Err(XPropertyNotFound("id"))
  {
    var id :- TakeString(o, "id");
    var labelText :- TakeString(o, "label");
    var pinned :- TakeBool(o, "pinned");
    var items :- TakeArray(o, "tags");
    var tags :- AsStrings(items);
    var createdAt :- TakeString(o, "created_at");
    var archivedAt :- TakeOptString(o, "archived_at");
    Ok(Intent(id, labelText, pinned, tags, createdAt, archivedAt))
  }

  /** The value is a string or a record id. */
  predicate IsStringValue(v: Value) {
    v.VStrand? || v.VThing?
  }

  /** An object an intent can be read from: the five required fields with the right kinds, tags all strings, and `archived_at` absent or a string. */
  predicate IsIntentObject(o: Object) {
    && "id" in o && IsStringValue(o["id"])
    && "label" in o && IsStringValue(o["label"])
    && "pinned" in o && o["pinned"].VBool?
    && "tags" in o && o["tags"].VArray? && (forall v :: v in o["tags"].items ==> IsStringValue(v))
    && "created_at" in o && IsStringValue(o["created_at"])
    && ("archived_at" in o ==> IsStringValue(o["archived_at"]))
  }

  /** Reading succeeds exactly on intent objects, and then every field is the converted value of its key; a missing `archived_at` reads as `None`. */
  lemma ReadSucceedsIff(o: Object)
    ensures IntentFromObject(o).Ok? <==> IsIntentObject(o)
    ensures IntentFromObject(o).Ok? ==>
      var i := IntentFromObject(o).value;
      && i.id == AsString(o["id"]).value
      && i.labelText == AsString(o["label"]).value
      && i.pinned == o["pinned"].b
      && i.tags == AsStrings(o["tags"].items).value
      && i.createdAt == AsString(o["created_at"]).value
      && (i.archivedAt == None <==> "archived_at" !in o)
      && ("archived_at" in o ==> i.archivedAt == Some(AsString(o["archived_at"]).value))
  {
    if "tags" in o && o["tags"].VArray? {
      var items := o["tags"].items;
      if forall k :: 0 <= k < |items| ==> AsString(items[k]).Ok? {
        forall v | v in items ensures IsStringValue(v) {
          var k :| 0 <= k < |items| && items[k] == v;
        }
      } else {
        var k :| 0 <= k < |items| && !AsString(items[k]).Ok?;
        assert items[k] in items;
      }
    }
  }

  /** Each missing required field makes reading fail; a missing `id` is reported by name. */
  lemma MissingFieldFails(o: Object, key: string)
    requires key in {"id", "label", "pinned", "tags", "created_at"} && key !in o
    ensures IntentFromObject(o).Err?
    ensures key == "id" ==> IntentFromObject(o) == Err(XPropertyNotFound("id"))
  {
    ReadSucceedsIff(o);
  }

  /** Reading raises only the two lookup errors: a missing field or a value of the wrong kind. */
  lemma ReadErrorKinds(o: Object)
    ensures IntentFromObject(o).Err? ==> IntentFromObject(o).error.XPropertyNotFound? || IntentFromObject(o).error.XValueNotOfType?
  {
  }

  /** A tag that is not a string makes reading fail, even when everything else is in order. */
  lemma NonStringTagFails(o: Object, k: nat)
    requires "tags" in o && o["tags"].VArray? && k < |o["tags"].items|
    requires !IsStringValue(o["tags"].items[k])
    ensures IntentFromObject(o).Err?
  {
    assert o["tags"].items[k] in o["tags"].items;
    ReadSucceedsIff(o);
  }

  /** The tags as a database array. */
  function TagsValue(tags: seq<string>): Value {
    VArray(seq(|tags|, k requires 0 <= k < |tags| => VStrand(tags[k])))
  }

  /** Tags written as an array read back as the same tags. */
  lemma TagsReadBack(tags: seq<string>)
    ensures AsStrings(TagsValue(tags).items) == Ok(tags)
  {
    assert AsStrings(TagsValue(tags).items).value == tags;
  }

  /** The object that holds an intent: its fields under their keys, `archived_at` only when set. */
  function IntentToObject(i: Intent): Object {
    var fields := map[
      "id" := VStrand(i.id),
      "label" := VStrand(i.labelText),
      "pinned" := VBool(i.pinned),
      "tags" := TagsValue(i.tags),
      "created_at" := VStrand(i.createdAt)];
    match i.archivedAt
    case Some(t) => fields["archived_at" := VStrand(t)]
    case None => fields
  }

  /** Reading back a stored intent gives that intent. */
  lemma ReadStoredIntent(i: Intent)
    ensures IntentFromObject(IntentToObject(i)) == Ok(i)
  {
    TagsReadBack(i.tags);
  }

  /** `list`: every selected object read as an intent and collected into one result; the first object that fails to read is the error. */
  function ListIntents(objects: seq<Object>): (r: Result<seq<Intent>, Error>)
    ensures r.Ok? <==> forall k :: 0 <= k < |objects| ==> IsIntentObject(objects[k])
    ensures r.Ok? ==> |r.value| == |objects| && forall k :: 0 <= k < |objects| ==> Ok(r.value[k]) == IntentFromObject(objects[k])
    ensures r.Err? ==> exists k :: 0 <= k < |objects| && (forall j :: 0 <= j < k ==> IsIntentObject(objects[j]))
                        && IntentFromObject(objects[k]).Err? && r.error == IntentFromObject(objects[k]).error
  {
    if objects == [] then Ok([])
    else
      ReadSucceedsIff(objects[0]);
      match IntentFromObject(objects[0])
      case Err(e) => Err(e)
      case Ok(i) =>
        match ListIntents(objects[1..])
        case Err(e) =>
          var k :| 0 <= k < |objects[1..]| && (forall j :: 0 <= j < k ==> IsIntentObject(objects[1..][j]))
                   && IntentFromObject(objects[1..][k]).Err? && e == IntentFromObject(objects[1..][k]).error;
          assert objects[1..][k] == objects[k + 1];
          assert forall j :: 0 < j < k + 1 ==> objects[j] == objects[1..][j - 1];
          Err(e)
        case Ok(rest) => Ok([i] + rest)
  }

  /** Listing stored intents gives them back in store order. */
  lemma ListStoredIntents(intents: seq<Intent>)
    ensures ListIntents(seq(|intents|, k requires 0 <= k < |intents| => IntentToObject(intents[k]))) == Ok(intents)
  {
    var objects := seq(|intents|, k requires 0 <= k < |intents| => IntentToObject(intents[k]));
    forall k | 0 <= k < |objects| ensures IntentFromObject(objects[k]) == Ok(intents[k]) {
      ReadStoredIntent(intents[k]);
    }
    forall k | 0 <= k < |objects| ensures IsIntentObject(objects[k]) {
      ReadSucceedsIff(objects[k]);
    }
    var r := ListIntents(objects);
    assert r.Ok?;
    forall k | 0 <= k < |intents| ensures r.value[k] == intents[k] {
      assert Ok(r.value[k]) == IntentFromObject(objects[k]);
    }
    assert r.value == intents;
  }

  // ---------------------------------------------------------------- writing values

  /** `From<IntentForCreate> for Value`: the label, the creation time `now`, not pinned, no tags. */
  function CreateValue(c: IntentForCreate, now: string): (v: Value)
    ensures v.VObject? && v.fields.Keys == {"label", "created_at", "pinned", "tags"}
    ensures v.fields["label"] == VStrand(c.labelText) && v.fields["created_at"] == VStrand(now)
    ensures v.fields["pinned"] == VBool(false) && v.fields["tags"] == VArray([])
  {
    VObject(map["label" := VStrand(c.labelText), "created_at" := VStrand(now), "pinned" := VBool(false), "tags" := VArray([])])
  }

  /** Once the store gives the created object an id, it reads back as an unpinned, untagged, unarchived intent with the given label. */
  lemma CreatedIntentReads(c: IntentForCreate, now: string, id: string)
    ensures IntentFromObject(CreateValue(c, now).fields["id" := VThing(id)]) == Ok(Intent(id, c.labelText, false, [], now, None))
  {
  }

  /** A field holding `x` when `x` is given, nothing otherwise. */
  function OptionalField(key: string, x: Option<Value>): Object {
    match x
    case Some(v) => map[key := v]
    case None => map[]
  }

  /** The patch an update describes: one field per provided value, under its own key, and nothing else. */
  function UpdateFields(u: IntentForUpdate): (patch: Object)
    ensures "label" in patch <==> u.labelText.Some?
    ensures "pinned" in patch <==> u.pinned.Some?
    ensures "tags" in patch <==> u.tags.Some?
    ensures u.labelText.Some? ==> patch["label"] == VStrand(u.labelText.value)
    ensures u.pinned.Some? ==> patch["pinned"] == VBool(u.pinned.value)
    ensures u.tags.Some? ==> patch["tags"] == TagsValue(u.tags.value)
    ensures patch.Keys <= {"label", "pinned", "tags"}
    ensures u == IntentForUpdate(None, None, None) ==> patch == map[]
  {
    var labelText := match u.labelText case Some(l) => Some(VStrand(l)) case None => None;
    var pinned := match u.pinned case Some(p) => Some(VBool(p)) case None => None;
    var tags := match u.tags case Some(t) => Some(TagsValue(t)) case None => None;
    OptionalField("label", labelText) + OptionalField("pinned", pinned) + OptionalField("tags", tags)
  }

  /** `From<IntentForUpdate> for Value`: start from an empty map and insert each provided field in turn. */
  method UpdateValue(u: IntentForUpdate) returns (v: Value)
    ensures v == VObject(UpdateFields(u))
    ensures !("id" in v.fields) && !("created_at" in v.fields) && !("archived_at" in v.fields)
  {
    var data: Object := map[];
    if u.labelText.Some? {
      data := data["label" := VStrand(u.labelText.value)];
    }
    if u.pinned.Some? {
      data := data["pinned" := VBool(u.pinned.value)];
    }
    if u.tags.Some? {
      data := data["tags" := TagsValue(u.tags.value)];
    }
    v := VObject(data);
  }

  /** Merging an update's patch into a stored intent changes exactly the provided fields; id, creation and archive times stay. */
  lemma MergedUpdateReads(i: Intent, u: IntentForUpdate)
    ensures IntentFromObject(IntentToObject(i) + UpdateFields(u))
         == Ok(Intent(i.id, u.labelText.GetOr(i.labelText), u.pinned.GetOr(i.pinned), u.tags.GetOr(i.tags), i.createdAt, i.archivedAt))
  {
    var t := u.tags.GetOr(i.tags);
    var o := IntentToObject(i) + UpdateFields(u);
    assert o["id"] == VStrand(i.id);
    assert o["label"] == VStrand(u.labelText.GetOr(i.labelText));
    assert o["pinned"] == VBool(u.pinned.GetOr(i.pinned));
    assert o["tags"] == TagsValue(t);
    assert o["created_at"] == VStrand(i.createdAt);
    assert ("archived_at" in o) == i.archivedAt.Some?;
    assert i.archivedAt.Some? ==> o["archived_at"] == VStrand(i.archivedAt.value);
    TagsReadBack(t);
  }

  // ---------------------------------------------------------------- archiving

  /** The message of the error raised when an update returns no object. */
  function NothingReturned(id: string): string {
    "can't update " + id + ", nothing returned."
  }

  /** The result branch of `archive` and `unarchive`: the first returned row, read as an intent, or an error when it is not an object. */
  function UpdatedIntent(id: string, rows: seq<Value>): (r: Result<Intent, Error>)
    ensures (rows == [] || !rows[0].VObject?) ==> r == Err(StoreFailToCreate(NothingReturned(id)))
    ensures rows != [] && rows[0].VObject? ==> r == IntentFromObject(rows[0].fields)
  {
    if rows != [] && rows[0].VObject? then IntentFromObject(rows[0].fields)
    else Err(StoreFailToCreate(NothingReturned(id)))
  }

  /** The stored object after `SET archived_at = $timestamp`. */
  function ArchivedObject(o: Object, now: string): Object {
    o["archived_at" := VStrand(now)]
  }

  /** The stored object after `SET archived_at = NONE`: the field is gone. */
  function UnarchivedObject(o: Object): Object {
    o - {"archived_at"}
  }

  /** Archiving a stored intent yields it with `archived_at` set to the time of the request. */
  lemma ArchiveSetsTime(i: Intent, now: string)
    ensures UpdatedIntent(i.id, [VObject(ArchivedObject(IntentToObject(i), now))]) == Ok(i.(archivedAt := Some(now)))
  {
    ReadStoredIntent(i.(archivedAt := Some(now)));
    assert ArchivedObject(IntentToObject(i), now) == IntentToObject(i.(archivedAt := Some(now)));
  }

  /** Unarchiving a stored intent yields it with `archived_at` cleared. */
  lemma UnarchiveClearsTime(i: Intent)
    ensures UpdatedIntent(i.id, [VObject(UnarchivedObject(IntentToObject(i)))]) == Ok(i.(archivedAt := None))
  {
    ReadStoredIntent(i.(archivedAt := None));
    assert UnarchivedObject(IntentToObject(i)) == IntentToObject(i.(archivedAt := None));
  }
}
