/**
 The administration handlers and the importers as they run: methods that write rows, audit entries and stored
 objects one after another, each proved to do what its transaction in RestaurantAdmin does.
 */
module AdminStore {
  import opened Basics
  import RestaurantAdmin
  import opened PhotoStorage

  type Columns = RestaurantAdmin.Columns
  type Field = RestaurantAdmin.Field
  type Value = RestaurantAdmin.Value
  type Rows = RestaurantAdmin.State

  datatype Refusal = NOT_FOUND | CONFLICT | UPLOAD_FAILED | COMMIT_FAILED

  /** What the store and the database make of one photo request. */
  datatype Fate = Fate(putWorks: bool, stored: bool, commitWorks: bool, applied: bool, dropWorks: bool)

  function Refused(error: RestaurantAdmin.Error): Refusal {
    match error case NOT_FOUND => NOT_FOUND case CONFLICT => CONFLICT
  }

  function PhotoKey(columns: Columns): Option<Key> {
    if RestaurantAdmin.PhotoS3Key in columns && columns[RestaurantAdmin.PhotoS3Key].Content?
    then Some(columns[RestaurantAdmin.PhotoS3Key].text) else None
  }

  function PhotoKeys(s: Rows): map<RestaurantId, Option<Key>> {
    map id | id in s :: PhotoKey(s[id].row.columns)
  }

  function PhotoColumns(key: Key, baseUrl: string, source: string, attribution: string): Columns {
    map[RestaurantAdmin.PhotoUrl := RestaurantAdmin.Content(baseUrl + "/media/" + key),
        RestaurantAdmin.PhotoS3Key := RestaurantAdmin.Content(key),
        RestaurantAdmin.PhotoSource := RestaurantAdmin.Content(source),
        RestaurantAdmin.PhotoAttribution := RestaurantAdmin.Content(attribution)]
  }

  function Dropped(objects: set<Key>, key: Option<Key>, works: bool): set<Key> {
    if key.Some? && works then objects - {key.value} else objects
  }

  /** The whole upload request: rows, stored objects and reply afterwards. */
  function Upload(s: Rows, objects: set<Key>, id: RestaurantId, expected: int, key: Key, photo: Columns, fate: Fate):
    (Rows, set<Key>, Reply<bool, Refusal>)
    requires RestaurantAdmin.HasColumns(s) && photo.Keys == RestaurantAdmin.PHOTO_FIELDS
  {
    match RestaurantAdmin.Locked(s, id, expected)
    case Err(error) => (s, objects, Err(Refused(error)))
    case Ok(e) =>
      var written := RestaurantAdmin.SetPhoto(s, id, expected, RestaurantAdmin.PHOTO_UPLOAD, photo).0;
      if !fate.putWorks then (s, if fate.stored then objects + {key} else objects, Err(UPLOAD_FAILED))
      else if !fate.commitWorks then
        (if fate.applied then written else s, Dropped(objects + {key}, Some(key), fate.dropWorks), Err(COMMIT_FAILED))
      else (written, Dropped(objects + {key}, PhotoKey(e.row.columns), fate.dropWorks), Ok(true))
  }

  function Remove(s: Rows, objects: set<Key>, id: RestaurantId, expected: int, fate: Fate):
    (Rows, set<Key>, Reply<bool, Refusal>)
    requires RestaurantAdmin.HasColumns(s)
  {
    match RestaurantAdmin.Locked(s, id, expected)
    case Err(error) => (s, objects, Err(Refused(error)))
    case Ok(e) =>
      var written :=
        RestaurantAdmin.SetPhoto(s, id, expected, RestaurantAdmin.PHOTO_REMOVE, RestaurantAdmin.NO_PHOTO).0;
      if !fate.commitWorks then (if fate.applied then written else s, objects, Err(COMMIT_FAILED))
      else (written, Dropped(objects, PhotoKey(e.row.columns), fate.dropWorks), Ok(true))
  }

  class AdminDatabase {
    var rows: map<RestaurantId, RestaurantAdmin.Row>
    var audits: map<RestaurantId, seq<RestaurantAdmin.Audit>>
    var objects: set<Key>

    ghost predicate Valid()
      reads this
    {
      audits.Keys == rows.Keys && RestaurantAdmin.Inv(Value())
    }

    ghost function Value(): Rows
      requires audits.Keys == rows.Keys
      reads this
    {
      map id | id in rows :: RestaurantAdmin.Entry(rows[id], audits[id])
    }

    constructor ()
      ensures Valid() && Value() == map[] && objects == {}
    {
      rows, audits, objects := map[], map[], {};
    }

    /** `_restaurant` with the version the caller saw. */
    method Lock(id: RestaurantId, expected: int) returns (refusal: Option<Refusal>)
      requires Valid()
      ensures refusal == match RestaurantAdmin.Locked(Value(), id, expected)
        case Err(error) => Some(Refused(error))
        case Ok(_) => None
    {
      if id !in rows {
        return Some(NOT_FOUND);
      }
      if rows[id].version != expected {
        return Some(CONFLICT);
      }
      return None;
    }

    /** The columns are set and the audit entry added in one go with the version. */
    method Record(id: RestaurantId, columns: Columns, action: RestaurantAdmin.Action,
                  changes: map<Field, RestaurantAdmin.Change>)
      requires Valid() && id in rows && columns == RestaurantAdmin.Overwrite(rows[id].columns, changes)
      modifies this
      ensures Valid() && objects == old(objects)
      ensures Value() == old(Value())[id := RestaurantAdmin.Record(old(Value())[id], action, changes)]
    {
      hide RestaurantAdmin.ALL_FIELDS, RestaurantAdmin.Overwrite;
      RestaurantAdmin.RecordCounts(Value()[id], action, changes);
      rows := rows[id := RestaurantAdmin.Row(columns, rows[id].version + 1, true, None)];
      audits := audits[id := audits[id] + [RestaurantAdmin.Audit(action, changes)]];
      assert Value() == old(Value())[id := RestaurantAdmin.Record(old(Value())[id], action, changes)];
    }

    /** The loop of the edit handler: compare and set one column after another. */
    method SetColumns(columns: Columns, values: Columns)
      returns (updated: Columns, changes: map<Field, RestaurantAdmin.Change>)
      requires columns.Keys == RestaurantAdmin.ALL_FIELDS && values.Keys == RestaurantAdmin.EDIT_FIELDS
      ensures changes == RestaurantAdmin.ValueChanges(columns, values, RestaurantAdmin.EDIT_FIELDS)
      ensures updated == RestaurantAdmin.Overwrite(columns, changes)
    {
      updated, changes := columns, map[];
      RestaurantAdmin.OrderIsComplete();
      hide RestaurantAdmin.EDIT_ORDER, RestaurantAdmin.EDIT_FIELDS, RestaurantAdmin.ALL_FIELDS;
      hide RestaurantAdmin.ValueChanges, RestaurantAdmin.Overwrite;
      ghost var done: set<Field> := {};
      RestaurantAdmin.NothingCompared(columns, values);
      for i := 0 to |RestaurantAdmin.EDIT_ORDER|
        invariant done == ToSet(RestaurantAdmin.EDIT_ORDER[..i])
        invariant changes == RestaurantAdmin.ValueChanges(columns, values, done)
        invariant updated == RestaurantAdmin.Overwrite(columns, changes)
      {
        var field := RestaurantAdmin.EDIT_ORDER[i];
        assert field in ToSet(RestaurantAdmin.EDIT_ORDER);
        assert RestaurantAdmin.EDIT_ORDER[..i + 1] == RestaurantAdmin.EDIT_ORDER[..i] + [field];
        RestaurantAdmin.OneMoreCompared(columns, values, done, field);
        done := done + {field};
        if field == RestaurantAdmin.IsHidden && values[field] == RestaurantAdmin.Null {
          continue;
        }
        if updated[field] != values[field] {
          changes := changes[field := RestaurantAdmin.Change(updated[field], values[field])];
          updated := updated[field := values[field]];
        }
      }
      assert RestaurantAdmin.EDIT_ORDER[..|RestaurantAdmin.EDIT_ORDER|] == RestaurantAdmin.EDIT_ORDER;
    }

    method Edit(id: RestaurantId, expected: int, values: Columns, reviewed: bool) returns (reply: Reply<bool, Refusal>)
      requires Valid() && values.Keys == RestaurantAdmin.EDIT_FIELDS
      modifies this
      ensures Valid() && objects == old(objects)
      ensures Value() == RestaurantAdmin.Edit(old(Value()), id, expected, values, reviewed).0
      ensures reply == match RestaurantAdmin.Edit(old(Value()), id, expected, values, reviewed).1
        case Ok(changed) => Ok(changed)
        case Err(error) => Err(Refused(error))
    {
      hide RestaurantAdmin.EDIT_ORDER, RestaurantAdmin.EDIT_FIELDS, RestaurantAdmin.ValueChanges;
      var refusal := Lock(id, expected);
      if refusal.Some? {
        return Err(refusal.value);
      }
      ghost var before := rows[id].columns;
      assert before == Value()[id].row.columns;
      var columns, changes := SetColumns(rows[id].columns, values);
      var was := rows[id].columns[RestaurantAdmin.Reviewed];
      if was != RestaurantAdmin.Flag(reviewed) {
        changes := changes[RestaurantAdmin.Reviewed := RestaurantAdmin.Change(was, RestaurantAdmin.Flag(reviewed))];
        columns := columns[RestaurantAdmin.Reviewed := RestaurantAdmin.Flag(reviewed)];
      }
      assert changes == RestaurantAdmin.EditChanges(before, values, reviewed);
      if changes == map[] {
        return Ok(false);
      }
      Record(id, columns, RestaurantAdmin.EDIT, changes);
      return Ok(true);
    }

    method CsvUpdate(id: RestaurantId, record: RestaurantAdmin.CsvRecord)
      requires Valid() && record.values.Keys == RestaurantAdmin.CSV_FIELDS && id in rows
      modifies this
      ensures Valid() && objects == old(objects)
      ensures Value() == RestaurantAdmin.CsvImport(old(Value()), id, record)
    {
      RestaurantAdmin.CsvKeepsInv(Value(), id, record);
      if rows[id].version > 1 {
        return;
      }
      var columns := rows[id].columns + record.values;
      if RestaurantAdmin.IsTruthy(record.photoUrl) {
        columns := columns[RestaurantAdmin.PhotoUrl := record.photoUrl];
        columns := columns[RestaurantAdmin.PhotoSource := RestaurantAdmin.SourceOrDefault(record.photoSource)];
        columns := columns[RestaurantAdmin.PhotoAttribution := record.photoAttribution];
      }
      rows := rows[id := RestaurantAdmin.Row(columns, rows[id].version, true, None)];
      assert Value() == RestaurantAdmin.CsvImport(old(Value()), id, record);
    }

    /** The conditional upsert of one row found on the map service. */
    method OsmUpsert(id: RestaurantId, values: Columns, expiresAt: RestaurantAdmin.Instant)
      requires Valid() && values.Keys == RestaurantAdmin.OSM_FIELDS
      modifies this
      ensures Valid() && objects == old(objects)
      ensures Value() == RestaurantAdmin.OsmUpsert(old(Value()), id, values, expiresAt)
    {
      RestaurantAdmin.OsmKeepsInv(Value(), id, values, expiresAt);
      if id !in rows {
        rows := rows[id := RestaurantAdmin.Row(RestaurantAdmin.BLANK + values, 1, false, Some(expiresAt))];
        audits := audits[id := []];
      } else if !rows[id].isPermanent {
        rows := rows[id := rows[id].(columns := rows[id].columns + values, expiresAt := Some(expiresAt))];
      }
      assert Value() == RestaurantAdmin.OsmUpsert(old(Value()), id, values, expiresAt);
    }

    method UploadPhoto(id: RestaurantId, expected: int, key: Key, baseUrl: string, source: string, attribution: string,
                       fate: Fate) returns (reply: Reply<bool, Refusal>)
      requires Valid()
      modifies this
      ensures Valid()
      ensures (Value(), objects, reply)
           == Upload(old(Value()), old(objects), id, expected, key,
                  PhotoColumns(key, baseUrl, source, attribution), fate)
    {
      var refusal := Lock(id, expected);
      if refusal.Some? {
        return Err(refusal.value);
      }
      var before := PhotoKey(rows[id].columns);
      var photo := PhotoColumns(key, baseUrl, source, attribution);
      if !fate.putWorks {
        objects := if fate.stored then objects + {key} else objects;
        return Err(UPLOAD_FAILED);
      }
      objects := objects + {key};
      if fate.commitWorks || fate.applied {
        WritePhoto(id, RestaurantAdmin.PHOTO_UPLOAD, photo);
      }
      if !fate.commitWorks {
        objects := Dropped(objects, Some(key), fate.dropWorks);
        return Err(COMMIT_FAILED);
      }
      objects := Dropped(objects, before, fate.dropWorks);
      return Ok(true);
    }

    method RemovePhoto(id: RestaurantId, expected: int, fate: Fate) returns (reply: Reply<bool, Refusal>)
      requires Valid()
      modifies this
      ensures Valid()
      ensures (Value(), objects, reply) == Remove(old(Value()), old(objects), id, expected, fate)
    {
      var refusal := Lock(id, expected);
      if refusal.Some? {
        return Err(refusal.value);
      }
      var former := PhotoKey(rows[id].columns);
      if fate.commitWorks || fate.applied {
        WritePhoto(id, RestaurantAdmin.PHOTO_REMOVE, RestaurantAdmin.NO_PHOTO);
      }
      if !fate.commitWorks {
        return Err(COMMIT_FAILED);
      }
      objects := Dropped(objects, former, fate.dropWorks);
      return Ok(true);
    }

    method WritePhoto(id: RestaurantId, action: RestaurantAdmin.Action, photo: Columns)
      requires Valid() && id in rows && photo.Keys == RestaurantAdmin.PHOTO_FIELDS
      modifies this
      ensures Valid() && objects == old(objects)
      ensures Value() == RestaurantAdmin.SetPhoto(old(Value()), id, old(rows[id].version), action, photo).0
    {
      assert rows[id].columns == Value()[id].row.columns;
      var changes := RestaurantAdmin.PhotoChanges(rows[id].columns, photo);
      Record(id, RestaurantAdmin.Overwrite(rows[id].columns, changes), action, changes);
    }
  }
}
