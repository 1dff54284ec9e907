/** The photo handlers of the administration, when nothing interrupts them, are runs of the step-by-step model. */
module PhotoRequests {
  import opened Basics
  import RestaurantAdmin
  import opened PhotoStorage
  import opened AdminStore

  function Drop(p: ProcessId, fate: Fate): PhotoStorage.Step {
    if fate.dropWorks then DropWorks(p) else DropFails(p)
  }

  function UploadSteps(p: ProcessId, id: RestaurantId, key: Key, before: Option<Key>, fate: Fate)
    : seq<PhotoStorage.Step>
  {
    if !fate.putWorks then [BeginUpload(p, id, key), PutFails(p, fate.stored)]
    else if !fate.commitWorks then [BeginUpload(p, id, key), PutWorks(p), CommitFails(p, fate.applied), Drop(p, fate)]
    else if before.Some? then [BeginUpload(p, id, key), PutWorks(p), CommitWorks(p), Drop(p, fate)]
    else [BeginUpload(p, id, key), PutWorks(p), CommitWorks(p)]
  }

  function RemoveSteps(p: ProcessId, id: RestaurantId, before: Option<Key>, fate: Fate): seq<PhotoStorage.Step> {
    if !fate.commitWorks then [BeginRemove(p, id), CommitFails(p, fate.applied)]
    else if before.Some? then [BeginRemove(p, id), CommitWorks(p), Drop(p, fate)]
    else [BeginRemove(p, id), CommitWorks(p)]
  }

  /** The step-by-step model and the rows tell the same photos, and the request may begin. */
  ghost predicate IsReady(s: Rows, storage: PhotoStorage.State, p: ProcessId, id: RestaurantId) {
    && RestaurantAdmin.HasColumns(s) && id in s
    && storage.rows == PhotoKeys(s) && p !in storage.phases && !IsLocked(storage, id)
  }

  lemma WrittenKeys(s: Rows, id: RestaurantId, action: RestaurantAdmin.Action, photo: Columns)
    requires RestaurantAdmin.HasColumns(s) && id in s && photo.Keys == RestaurantAdmin.PHOTO_FIELDS
    ensures PhotoKeys(RestaurantAdmin.SetPhoto(s, id, s[id].row.version, action, photo).0)
         == PhotoKeys(s)[id := PhotoKey(photo)]
  {
    hide RestaurantAdmin.ALL_FIELDS;
    assert RestaurantAdmin.PhotoS3Key in RestaurantAdmin.PHOTO_FIELDS;
    assert RestaurantAdmin.PhotoS3Key in s[id].row.columns by { HasPhotoKey(s[id].row.columns); }
  }

  lemma HasPhotoKey(columns: Columns)
    requires columns.Keys == RestaurantAdmin.ALL_FIELDS
    ensures RestaurantAdmin.PhotoS3Key in columns
  {
  }

  // ─── What the steps of one request leave, when no other request comes between ───

  predicate CanBegin(s: PhotoStorage.State, p: ProcessId, id: RestaurantId) {
    p !in s.phases && id in s.rows && !IsLocked(s, id)
  }

  /** Rows, objects and phases after the steps. */
  ghost predicate EndsIn(s: PhotoStorage.State, steps: seq<PhotoStorage.Step>, rows: map<RestaurantId, Option<Key>>,
                         objects: set<Key>) {
    Runs(s, steps) && Run(s, steps).rows == rows && Run(s, steps).objects == objects && Run(s, steps).phases == s.phases
  }

  lemma FailedPut(s: PhotoStorage.State, p: ProcessId, id: RestaurantId, key: Key, stored: bool)
    requires CanBegin(s, p, id) && key !in s.used
    ensures EndsIn(s, [BeginUpload(p, id, key), PutFails(p, stored)], s.rows,
                   if stored then s.objects + {key} else s.objects)
  {
    var begun := Next(s, BeginUpload(p, id, key));
    StepThen(begun, PutFails(p, stored), []);
    StepThen(s, BeginUpload(p, id, key), [PutFails(p, stored)]);
    assert Next(begun, PutFails(p, stored)).phases == s.phases;
  }

  lemma PutThen(s: PhotoStorage.State, p: ProcessId, id: RestaurantId, key: Key, rest: seq<PhotoStorage.Step>)
    returns (put: PhotoStorage.State)
    requires CanBegin(s, p, id) && key !in s.used
    ensures put == s.(phases := s.phases[p := Committing(id, key, s.rows[id])], objects := s.objects + {key},
                      used := s.used + {key})
    ensures Runs(put, rest) ==>
              var steps := [BeginUpload(p, id, key), PutWorks(p)] + rest;
              Runs(s, steps) && Run(s, steps) == Run(put, rest)
  {
    var begun := Next(s, BeginUpload(p, id, key));
    put := Next(begun, PutWorks(p));
    assert put.phases == s.phases[p := Committing(id, key, s.rows[id])];
    if Runs(put, rest) {
      StepThen(begun, PutWorks(p), rest);
      StepThen(s, BeginUpload(p, id, key), [PutWorks(p)] + rest);
      assert [BeginUpload(p, id, key)] + ([PutWorks(p)] + rest) == [BeginUpload(p, id, key), PutWorks(p)] + rest;
    }
  }

  lemma CommittedThenDropped(s: PhotoStorage.State, p: ProcessId, fate: Fate)
    requires p in s.phases && (s.phases[p].Committing? || s.phases[p].Removing?)
    ensures var before := s.phases[p].before;
      && var steps := [CommitWorks(p)] + if before.Some? then [Drop(p, fate)] else [];
      && Runs(s, steps)
      && Run(s, steps).rows == Written(s, s.phases[p]).rows
      && Run(s, steps).objects == Dropped(s.objects, before, fate.dropWorks)
      && Run(s, steps).phases == s.phases - {p}
  {
    var ended := Next(s, CommitWorks(p));
    if s.phases[p].before.Some? {
      var dropped := Next(ended, Drop(p, fate));
      StepThen(ended, Drop(p, fate), []);
      StepThen(s, CommitWorks(p), [Drop(p, fate)]);
      assert dropped.phases == s.phases - {p};
    } else {
      StepThen(s, CommitWorks(p), []);
      assert ended.phases == s.phases - {p};
    }
  }

  lemma RefusedThenDropped(s: PhotoStorage.State, p: ProcessId, fate: Fate)
    requires p in s.phases && s.phases[p].Committing?
    ensures var steps := [CommitFails(p, fate.applied), Drop(p, fate)];
      && Runs(s, steps)
      && Run(s, steps).rows == (if fate.applied then Written(s, s.phases[p]).rows else s.rows)
      && Run(s, steps).objects == Dropped(s.objects, Some(s.phases[p].key), fate.dropWorks)
      && Run(s, steps).phases == s.phases - {p}
  {
    var ended := Next(s, CommitFails(p, fate.applied));
    StepThen(ended, Drop(p, fate), []);
    StepThen(s, CommitFails(p, fate.applied), [Drop(p, fate)]);
    assert Next(ended, Drop(p, fate)).phases == s.phases - {p};
  }

  lemma UploadEnds(s: PhotoStorage.State, p: ProcessId, id: RestaurantId, key: Key, fate: Fate)
    requires CanBegin(s, p, id) && key !in s.used && fate.putWorks
    ensures EndsIn(s, UploadSteps(p, id, key, s.rows[id], fate),
                   if fate.commitWorks || fate.applied then s.rows[id := Some(key)] else s.rows,
                   Dropped(s.objects + {key}, if fate.commitWorks then s.rows[id] else Some(key), fate.dropWorks))
  {
    var ending := if !fate.commitWorks then [CommitFails(p, fate.applied), Drop(p, fate)]
                  else [CommitWorks(p)] + if s.rows[id].Some? then [Drop(p, fate)] else [];
    var put := PutThen(s, p, id, key, ending);
    assert put.phases - {p} == s.phases;
    hide Runs, Run;
    if fate.commitWorks {
      CommittedThenDropped(put, p, fate);
    } else {
      RefusedThenDropped(put, p, fate);
    }
    assert UploadSteps(p, id, key, s.rows[id], fate) == [BeginUpload(p, id, key), PutWorks(p)] + ending;
  }

  lemma RemoveEnds(s: PhotoStorage.State, p: ProcessId, id: RestaurantId, fate: Fate)
    requires CanBegin(s, p, id)
    ensures EndsIn(s, RemoveSteps(p, id, s.rows[id], fate),
                   if fate.commitWorks || fate.applied then s.rows[id := None] else s.rows,
                   if fate.commitWorks then Dropped(s.objects, s.rows[id], fate.dropWorks) else s.objects)
  {
    var begin := BeginRemove(p, id);
    var begun := Next(s, begin);
    assert begun.phases - {p} == s.phases;
    if fate.commitWorks {
      CommittedThenDropped(begun, p, fate);
      var ending := [CommitWorks(p)] + if s.rows[id].Some? then [Drop(p, fate)] else [];
      StepThen(s, begin, ending);
      assert RemoveSteps(p, id, s.rows[id], fate) == [begin] + ending;
    } else {
      var ending := CommitFails(p, fate.applied);
      StepThen(begun, ending, []);
      StepThen(s, begin, [ending]);
      assert Next(begun, ending).phases == s.phases;
    }
  }

  // ─── The handlers ───

  lemma KeyOfRow(s: Rows, id: RestaurantId)
    requires id in s
    ensures PhotoKeys(s)[id] == PhotoKey(s[id].row.columns)
  {
  }

  /** An upload that holds the current version leaves rows and store as its steps do, whichever of them fail. */
  lemma UploadIsARun(s: Rows, storage: PhotoStorage.State, p: ProcessId, id: RestaurantId, key: Key, photo: Columns,
                     fate: Fate)
    requires IsReady(s, storage, p, id) && key !in storage.used
    requires photo.Keys == RestaurantAdmin.PHOTO_FIELDS && PhotoKey(photo) == Some(key)
    ensures var after := Upload(s, storage.objects, id, s[id].row.version, key, photo, fate);
      EndsIn(storage, UploadSteps(p, id, key, PhotoKey(s[id].row.columns), fate), PhotoKeys(after.0), after.1)
  {
    KeyOfRow(s, id);
    WrittenKeys(s, id, RestaurantAdmin.PHOTO_UPLOAD, photo);
    hide RestaurantAdmin.SetPhoto, PhotoKeys, PhotoKey, EndsIn, Dropped;
    if fate.putWorks {
      UploadEnds(storage, p, id, key, fate);
    } else {
      FailedPut(storage, p, id, key, fate.stored);
    }
  }

  /** The same for a removal. */
  lemma RemoveIsARun(s: Rows, storage: PhotoStorage.State, p: ProcessId, id: RestaurantId, fate: Fate)
    requires IsReady(s, storage, p, id)
    ensures var after := Remove(s, storage.objects, id, s[id].row.version, fate);
      EndsIn(storage, RemoveSteps(p, id, PhotoKey(s[id].row.columns), fate), PhotoKeys(after.0), after.1)
  {
    KeyOfRow(s, id);
    WrittenKeys(s, id, RestaurantAdmin.PHOTO_REMOVE, RestaurantAdmin.NO_PHOTO);
    assert PhotoKey(RestaurantAdmin.NO_PHOTO) == None;
    hide RestaurantAdmin.SetPhoto, PhotoKeys, PhotoKey, EndsIn, Dropped;
    RemoveEnds(storage, p, id, fate);
  }

  // ─── The answers ───

  function KeyAt(s: Rows, id: RestaurantId): Option<Key> {
    if id in s then PhotoKey(s[id].row.columns) else None
  }

  /** Of the stored objects only those two may have come or gone. */
  ghost predicate SameBut(before: set<Key>, after: set<Key>, one: Option<Key>, other: Option<Key>) {
    forall key | Some(key) != one && Some(key) != other :: key in after <==> key in before
  }

  /**
   An upload is answered with success exactly when the caller saw the current version and neither the store
   nor the commit failed; then the row names the new photo, which is stored, and the former one is gone if its
   deletion worked. A caller who saw another version changes nothing.
   */
  lemma UploadAnswers(s: Rows, objects: set<Key>, id: RestaurantId, expected: int, key: Key, photo: Columns, fate: Fate)
    requires RestaurantAdmin.HasColumns(s) && photo.Keys == RestaurantAdmin.PHOTO_FIELDS
    requires PhotoKey(photo) == Some(key) && KeyAt(s, id) != Some(key)
    ensures var (t, stored, reply) := Upload(s, objects, id, expected, key, photo, fate);
      && (reply.Ok? <==> id in s && s[id].row.version == expected && fate.putWorks && fate.commitWorks)
      && (reply.Ok? ==> KeyAt(t, id) == Some(key) && key in stored)
      && (reply.Ok? && fate.dropWorks && KeyAt(s, id).Some? ==> KeyAt(s, id).value !in stored)
      && (id !in s || s[id].row.version != expected ==> t == s && stored == objects)
      && SameBut(objects, stored, Some(key), KeyAt(s, id))
      && forall other | other != id :: (other in t <==> other in s) && (other in s ==> t[other] == s[other])
  {
    hide Upload, PhotoKey, KeyAt, RestaurantAdmin.ALL_FIELDS, SameBut;
    UploadedObjects(s, objects, id, expected, key, photo, fate);
    UploadedRows(s, objects, id, expected, key, photo, fate);
  }

  lemma UploadedObjects(s: Rows, objects: set<Key>, id: RestaurantId, expected: int, key: Key, photo: Columns,
                        fate: Fate)
    requires RestaurantAdmin.HasColumns(s) && photo.Keys == RestaurantAdmin.PHOTO_FIELDS && KeyAt(s, id) != Some(key)
    ensures var (t, stored, reply) := Upload(s, objects, id, expected, key, photo, fate);
      && (reply.Ok? <==> id in s && s[id].row.version == expected && fate.putWorks && fate.commitWorks)
      && (reply.Ok? ==> key in stored)
      && (reply.Ok? && fate.dropWorks && KeyAt(s, id).Some? ==> KeyAt(s, id).value !in stored)
      && (id !in s || s[id].row.version != expected ==> t == s && stored == objects)
      && SameBut(objects, stored, Some(key), KeyAt(s, id))
  {
    hide RestaurantAdmin.SetPhoto, PhotoKey, RestaurantAdmin.ALL_FIELDS, RestaurantAdmin.HasColumns;
  }

  lemma UploadedRows(s: Rows, objects: set<Key>, id: RestaurantId, expected: int, key: Key, photo: Columns, fate: Fate)
    requires RestaurantAdmin.HasColumns(s) && photo.Keys == RestaurantAdmin.PHOTO_FIELDS && PhotoKey(photo) == Some(key)
    ensures var (t, stored, reply) := Upload(s, objects, id, expected, key, photo, fate);
      && (reply.Ok? ==> KeyAt(t, id) == Some(key))
      && forall other | other != id :: (other in t <==> other in s) && (other in s ==> t[other] == s[other])
  {
    hide RestaurantAdmin.SetPhoto, PhotoKey, PhotoKeys, Dropped, RestaurantAdmin.ALL_FIELDS;
    if id in s && s[id].row.version == expected {
      var t := RestaurantAdmin.SetPhoto(s, id, expected, RestaurantAdmin.PHOTO_UPLOAD, photo).0;
      WrittenKeys(s, id, RestaurantAdmin.PHOTO_UPLOAD, photo);
      SetPhotoHere(s, id, RestaurantAdmin.PHOTO_UPLOAD, photo);
      KeyOfRow(t, id);
      assert KeyAt(t, id) == Some(key);
    }
  }

  lemma SetPhotoHere(s: Rows, id: RestaurantId, action: RestaurantAdmin.Action, photo: Columns)
    requires RestaurantAdmin.HasColumns(s) && id in s && photo.Keys == RestaurantAdmin.PHOTO_FIELDS
    ensures var t := RestaurantAdmin.SetPhoto(s, id, s[id].row.version, action, photo).0;
      t.Keys == s.Keys && forall other | other in s && other != id :: t[other] == s[other]
  {
    hide RestaurantAdmin.Record, RestaurantAdmin.PhotoChanges;
  }

  /** A removal likewise, and it leaves the row without a photo. */
  lemma RemoveAnswers(s: Rows, objects: set<Key>, id: RestaurantId, expected: int, fate: Fate)
    requires RestaurantAdmin.HasColumns(s)
    ensures var (t, stored, reply) := Remove(s, objects, id, expected, fate);
      && (reply.Ok? <==> id in s && s[id].row.version == expected && fate.commitWorks)
      && (reply.Ok? ==> KeyAt(t, id) == None)
      && (reply.Ok? && fate.dropWorks && KeyAt(s, id).Some? ==> KeyAt(s, id).value !in stored)
      && (id !in s || s[id].row.version != expected ==> t == s && stored == objects)
      && SameBut(objects, stored, None, KeyAt(s, id))
      && forall other | other != id :: (other in t <==> other in s) && (other in s ==> t[other] == s[other])
  {
    NoPhotoHasNoKey();
    if id in s && s[id].row.version == expected {
      WrittenKeys(s, id, RestaurantAdmin.PHOTO_REMOVE, RestaurantAdmin.NO_PHOTO);
      SetPhotoHere(s, id, RestaurantAdmin.PHOTO_REMOVE, RestaurantAdmin.NO_PHOTO);
      KeyOfRow(RestaurantAdmin.SetPhoto(s, id, expected, RestaurantAdmin.PHOTO_REMOVE, RestaurantAdmin.NO_PHOTO).0, id);
    }
    hide RestaurantAdmin.SetPhoto, PhotoKey, PhotoKeys, RestaurantAdmin.ALL_FIELDS, RestaurantAdmin.NO_PHOTO;
  }

  lemma NoPhotoHasNoKey()
    ensures PhotoKey(RestaurantAdmin.NO_PHOTO) == None
  {
  }

  /** The columns of an upload name its key, in the key column and at the end of the address. */
  lemma PhotoColumnsNameTheKey(key: Key, baseUrl: string, source: string, attribution: string)
    ensures var columns := PhotoColumns(key, baseUrl, source, attribution);
      && columns.Keys == RestaurantAdmin.PHOTO_FIELDS && PhotoKey(columns) == Some(key)
      && columns[RestaurantAdmin.PhotoUrl].Content?
      && baseUrl <= columns[RestaurantAdmin.PhotoUrl].text
      && |columns[RestaurantAdmin.PhotoUrl].text| >= |key|
      && columns[RestaurantAdmin.PhotoUrl].text[|columns[RestaurantAdmin.PhotoUrl].text| - |key|..] == key
      && columns[RestaurantAdmin.PhotoSource] == RestaurantAdmin.Content(source)
      && columns[RestaurantAdmin.PhotoAttribution] == RestaurantAdmin.Content(attribution)
  {
  }
}
