/** What the audit log and the version of a restaurant promise over whole runs. */
module RestaurantHistory {
  import opened Basics
  import opened RestaurantAdmin

  // ─── Replaying and rewinding a log ───

  function Replay(columns: Columns, audits: seq<Audit>): Columns {
    if audits == [] then columns
    else Overwrite(Replay(columns, audits[..|audits| - 1]), audits[|audits| - 1].changes)
  }

  function Restore(columns: Columns, changes: map<Field, Change>): Columns {
    map f | f in columns :: if f in changes then changes[f].before else columns[f]
  }

  function Rewind(columns: Columns, audits: seq<Audit>): Columns {
    if audits == [] then columns
    else Rewind(Restore(columns, audits[|audits| - 1].changes), audits[..|audits| - 1])
  }

  /** Only audits were added; replaying them leads from the one row to the other, rewinding them leads back. */
  predicate IsHistory(a: Entry, b: Entry) {
    && a.audits <= b.audits
    && b.row.columns == Replay(a.row.columns, b.audits[|a.audits|..])
    && a.row.columns == Rewind(b.row.columns, b.audits[|a.audits|..])
  }

  lemma {:induction false} ReplayInParts(columns: Columns, first: seq<Audit>, second: seq<Audit>)
    ensures Replay(columns, first + second) == Replay(Replay(columns, first), second)
  {
    if second == [] {
      assert first + second == first;
    } else {
      assert (first + second)[..|first + second| - 1] == first + second[..|second| - 1];
      ReplayInParts(columns, first, second[..|second| - 1]);
    }
  }

  lemma {:induction false} RewindInParts(columns: Columns, first: seq<Audit>, second: seq<Audit>)
    ensures Rewind(columns, first + second) == Rewind(Rewind(columns, second), first)
    decreases |second|
  {
    if second == [] {
      assert first + second == first;
    } else {
      assert (first + second)[..|first + second| - 1] == first + second[..|second| - 1];
      RewindInParts(Restore(columns, second[|second| - 1].changes), first, second[..|second| - 1]);
    }
  }

  lemma HistoriesCompose(a: Entry, b: Entry, c: Entry)
    requires IsHistory(a, b) && IsHistory(b, c)
    ensures IsHistory(a, c)
  {
    var first, second := b.audits[|a.audits|..], c.audits[|b.audits|..];
    assert c.audits[|a.audits|..] == first + second;
    ReplayInParts(a.row.columns, first, second);
    RewindInParts(c.row.columns, first, second);
  }

  lemma NothingAdded(a: Entry, b: Entry)
    requires b.row.columns == a.row.columns && b.audits == a.audits
    ensures IsHistory(a, b)
  {
    assert b.audits[|a.audits|..] == [];
  }

  /** The log tells the truth about what it replaced. */
  lemma RecordIsHistory(e: Entry, action: Action, changes: map<Field, Change>)
    requires forall f | f in changes :: f in e.row.columns && changes[f].before == e.row.columns[f]
    ensures IsHistory(e, Record(e, action, changes))
  {
    var after := Record(e, action, changes);
    var added := after.audits[|e.audits|..];
    assert added == [Audit(action, changes)] && added[..0] == [];
    assert Restore(Overwrite(e.row.columns, changes), changes) == e.row.columns;
  }

  // ─── Steps ───

  predicate Changes(s: State, step: Step, id: RestaurantId)
    requires HasColumns(s) && WellFormed(step)
  {
    (step.EditStep? || step.UploadStep? || step.RemoveStep?) && step.id == id && Apply(s, step).1 == Some(Ok(true))
  }

  lemma ChangeIsHistory(s: State, step: Step, id: RestaurantId)
    requires Inv(s) && WellFormed(step) && Changes(s, step, id)
    ensures id in s && s[id].row.version == step.expected
    ensures id in Next(s, step) && IsHistory(s[id], Next(s, step)[id])
    ensures |Next(s, step)[id].audits| == |s[id].audits| + 1
  {
    match step {
      case EditStep(_, expected, values, reviewed) =>
        RecordIsHistory(s[id], EDIT, EditChanges(s[id].row.columns, values, reviewed));
      case UploadStep(_, expected, photo) =>
        RecordIsHistory(s[id], PHOTO_UPLOAD, PhotoChanges(s[id].row.columns, photo));
      case RemoveStep(_, expected) =>
        RecordIsHistory(s[id], PHOTO_REMOVE, PhotoChanges(s[id].row.columns, NO_PHOTO));
    }
  }

  predicate IsCurated(s: State, id: RestaurantId) {
    id in s && s[id].audits != []
  }

  /** Nothing but an administration write to that very row alters a curated row, importers and cleanup included. */
  lemma CuratedStaysUnlessChanged(s: State, step: Step, id: RestaurantId)
    requires Inv(s) && WellFormed(step) && IsCurated(s, id) && !Changes(s, step, id)
    ensures id in Next(s, step) && Next(s, step)[id] == s[id]
  {
  }

  lemma StepIsHistory(s: State, step: Step, id: RestaurantId)
    requires Inv(s) && WellFormed(step) && IsCurated(s, id)
    ensures IsCurated(Next(s, step), id) && IsHistory(s[id], Next(s, step)[id])
  {
    hide Apply, IsHistory;
    if Changes(s, step, id) {
      ChangeIsHistory(s, step, id);
    } else {
      CuratedStaysUnlessChanged(s, step, id);
      NothingAdded(s[id], Next(s, step)[id]);
    }
  }

  lemma {:induction false} CuratedRunIsHistory(s: State, steps: seq<Step>, id: RestaurantId)
    requires Inv(s) && AllWellFormed(steps) && IsCurated(s, id)
    ensures IsCurated(Run(s, steps), id) && IsHistory(s[id], Run(s, steps)[id])
    decreases |steps|
  {
    hide IsHistory;
    if steps == [] {
      NothingAdded(s[id], s[id]);
    } else {
      StepKeepsInv(s, steps[0]);
      StepIsHistory(s, steps[0], id);
      CuratedRunIsHistory(Next(s, steps[0]), steps[1..], id);
      HistoriesCompose(s[id], Next(s, steps[0])[id], Run(s, steps)[id]);
    }
  }

  // ─── Over whole runs ───

  /**
   From a row's first change on, whatever administrators, importers and jobs do: its columns are the log
   replayed on the snapshot before that change, rewinding the log gives the snapshot back, and the version
   is one more than the number of entries.
   */
  lemma LogExplainsTheRow(s: State, first: Step, rest: seq<Step>, id: RestaurantId)
    requires Inv(s) && WellFormed(first) && AllWellFormed(rest)
    requires Changes(s, first, id) && s[id].audits == []
    ensures Inv(Next(s, first))
    ensures var t := Run(Next(s, first), rest);
      && id in t && t[id].audits != []
      && t[id].row.columns == Replay(s[id].row.columns, t[id].audits)
      && s[id].row.columns == Rewind(t[id].row.columns, t[id].audits)
      && t[id].row.version == 1 + |t[id].audits|
  {
    StepKeepsInv(s, first);
    ChangeIsHistory(s, first, id);
    var t := Run(Next(s, first), rest);
    hide Apply, Replay, Rewind;
    CuratedRunIsHistory(Next(s, first), rest, id);
    HistoriesCompose(s[id], Next(s, first)[id], t[id]);
    assert t[id].audits[0..] == t[id].audits;
  }

  predicate IsWriteTo(step: Step, id: RestaurantId, expected: int) {
    (step.EditStep? || step.UploadStep? || step.RemoveStep?) && step.id == id && step.expected == expected
  }

  lemma WriteNeedsItsVersion(s: State, step: Step, id: RestaurantId, expected: int)
    requires Inv(s) && WellFormed(step) && IsWriteTo(step, id, expected) && id in s
    ensures s[id].row.version != expected <==> Apply(s, step) == (s, Some(Err(CONFLICT)))
    ensures s[id].row.version == expected <==> Apply(s, step).1.value.Ok?
  {
  }

  /** A write to a restaurant that does not exist is refused as such. */
  lemma WriteNeedsItsRow(s: State, step: Step, id: RestaurantId, expected: int)
    requires Inv(s) && WellFormed(step) && IsWriteTo(step, id, expected)
    ensures id !in s <==> Apply(s, step).1 == Some(Err(NOT_FOUND))
    ensures id !in s ==> Apply(s, step).0 == s
  {
  }

  /** After a changing write on some version, every later write on the same version is refused. */
  lemma NoSecondWriteOnAVersion(s: State, first: Step, between: seq<Step>, second: Step, id: RestaurantId)
    requires Inv(s) && WellFormed(first) && AllWellFormed(between) && WellFormed(second)
    requires Changes(s, first, id) && IsWriteTo(second, id, first.expected)
    ensures Inv(Next(s, first))
    ensures var t := Run(Next(s, first), between);
      Apply(t, second) == (t, Some(Err(CONFLICT)))
  {
    hide Replay, Rewind, Run, Apply;
    StepKeepsInv(s, first);
    ChangeIsHistory(s, first, id);
    var t := Run(Next(s, first), between);
    CuratedRunIsHistory(Next(s, first), between, id);
    WriteNeedsItsVersion(t, second, id, first.expected);
  }

  /** On a curated row the same version means the same row: a write that passes the check overwrites nothing unseen. */
  lemma SameVersionSameRow(s: State, steps: seq<Step>, id: RestaurantId)
    requires Inv(s) && AllWellFormed(steps) && IsCurated(s, id)
    ensures id in Run(s, steps) && Run(s, steps)[id].row.version >= s[id].row.version
    ensures Run(s, steps)[id].row.version == s[id].row.version <==> Run(s, steps)[id] == s[id]
  {
    CuratedRunIsHistory(s, steps, id);
    var t := Run(s, steps);
    hide Run;
    if t[id].row.version == s[id].row.version {
      assert t[id].audits == s[id].audits && t[id].audits[|s[id].audits|..] == [];
    }
  }

  /** The step leaves the row's version alone, so a write prepared before it is still accepted after it. */
  ghost predicate IsUnseen(s: State, step: Step, id: RestaurantId)
    requires HasColumns(s)
  {
    WellFormed(step) && id in s && id in Next(s, step) && Next(s, step)[id].row.version == s[id].row.version
  }

  /** The version check sees every change of a row exactly from the row's first administrative change on. */
  lemma VersionProtectsExactly(s: State, id: RestaurantId)
    requires Inv(s) && id in s
    ensures (forall step | IsUnseen(s, step, id) :: Next(s, step)[id] == s[id]) <==> IsCurated(s, id)
  {
    if IsCurated(s, id) {
      forall step | IsUnseen(s, step, id) ensures Next(s, step)[id] == s[id] {
        hide Apply;
        if Changes(s, step, id) {
          ChangeIsHistory(s, step, id);
          StepKeepsInv(s, step);
        } else {
          CuratedStaysUnlessChanged(s, step, id);
        }
      }
    } else {
      var step := Renaming(s, id);
    }
  }

  /** An import that gives the row another name under the same version. */
  lemma Renaming(s: State, id: RestaurantId) returns (step: Step)
    requires Inv(s) && id in s && !IsCurated(s, id)
    ensures IsUnseen(s, step, id) && Next(s, step)[id] != s[id]
  {
    hide ALL_FIELDS, CSV_FIELDS, EDIT_FIELDS, PHOTO_FIELDS, CsvImport, Renamed, BLANK, Edit, SetPhoto;
    var record := Renamed(s[id].row.columns);
    step := CsvStep(id, record);
    RenamedDiffers(s[id].row.columns);
    NameImported(s, id, record);
    ImportKeepsVersion(s, id, record);
  }

  lemma NameImported(s: State, id: RestaurantId, record: CsvRecord)
    requires Inv(s) && id in s && s[id].row.version == 1 && record.values.Keys == CSV_FIELDS && Name in CSV_FIELDS
    ensures id in CsvImport(s, id, record) && Name in CsvImport(s, id, record)[id].row.columns
    ensures CsvImport(s, id, record)[id].row.columns[Name] == record.values[Name]
  {
    hide ALL_FIELDS, CSV_FIELDS;
    ImportExact(s, id, record);
  }

  /** The row as a file would give it, under another name. */
  function Renamed(columns: Columns): CsvRecord
    requires columns.Keys == ALL_FIELDS
  {
    var name := if columns[Name] == Null then Content("x") else Null;
    CsvRecord(map f | f in CSV_FIELDS :: if f == Name || f !in columns then name else columns[f], Null, Null, Null)
  }

  lemma RenamedDiffers(columns: Columns)
    requires columns.Keys == ALL_FIELDS
    ensures Renamed(columns).values.Keys == CSV_FIELDS && Name in CSV_FIELDS
    ensures Renamed(columns).values[Name] != columns[Name]
  {
    assert Name in CSV_FIELDS;
    hide ALL_FIELDS, CSV_FIELDS;
  }

  /**
   What that costs: whenever an import changes a column of a row nobody edited, an edit prepared against the
   row before the import is accepted on top of it.
   */
  lemma ImportUnderVersionOne(s: State, id: RestaurantId, record: CsvRecord, values: Columns, reviewed: bool)
    requires Inv(s) && id in s && s[id].row.version == 1
    requires record.values.Keys == CSV_FIELDS && values.Keys == EDIT_FIELDS
    ensures Inv(CsvImport(s, id, record))
    ensures var t := CsvImport(s, id, record);
      && ((exists f | f in CSV_FIELDS :: record.values[f] != s[id].row.columns[f]) ==> t[id].row != s[id].row)
      && Edit(t, id, s[id].row.version, values, reviewed).1.Ok?
  {
    hide Edit, BLANK, EDIT_FIELDS, PHOTO_FIELDS, ALL_FIELDS, CSV_FIELDS;
    ImportExact(s, id, record);
    CsvKeepsInv(s, id, record);
    ImportKeepsVersion(s, id, record);
    WriteNeedsItsVersion(CsvImport(s, id, record), EditStep(id, 1, values, reviewed), id, 1);
  }

  lemma ImportKeepsVersion(s: State, id: RestaurantId, record: CsvRecord)
    requires id in s && s[id].row.version == 1
    ensures id in CsvImport(s, id, record) && CsvImport(s, id, record)[id].row.version == 1
  {
  }

  /** The value a column should have after an edit was accepted. */
  function Submitted(before: Columns, values: Columns, reviewed: bool, f: Field): Value
    requires before.Keys == ALL_FIELDS && values.Keys == EDIT_FIELDS && f in ALL_FIELDS
  {
    if f == Reviewed then Flag(reviewed)
    else if f in EDIT_FIELDS && !(f == IsHidden && values[f] == Null) then values[f]
    else before[f]
  }

  /**
   What an accepted edit leaves: each submitted value, except that a missing visibility keeps the old one; the
   photo untouched; and a version that moved exactly when a column did.
   */
  lemma EditExact(s: State, id: RestaurantId, expected: int, values: Columns, reviewed: bool)
    requires Inv(s) && values.Keys == EDIT_FIELDS && Edit(s, id, expected, values, reviewed).1.Ok?
    ensures id in s && id in Edit(s, id, expected, values, reviewed).0
    ensures var before, after := s[id].row, Edit(s, id, expected, values, reviewed).0[id].row;
      && after.columns.Keys == ALL_FIELDS
      && (forall f | f in ALL_FIELDS :: after.columns[f] == Submitted(before.columns, values, reviewed, f))
      && (after.version == before.version <==> after.columns == before.columns)
  {
    var columns := s[id].row.columns;
    hide Submitted, EditChanges, Overwrite, Edit, ALL_FIELDS, EDIT_FIELDS;
    EditShape(s, id, expected, values, reviewed);
    NoChangeNoDifference(columns, values, reviewed);
    forall f | f in ALL_FIELDS
      ensures f in Overwrite(columns, EditChanges(columns, values, reviewed))
      ensures Overwrite(columns, EditChanges(columns, values, reviewed))[f] == Submitted(columns, values, reviewed, f)
    {
      EditedColumn(columns, values, reviewed, f);
    }
  }

  lemma EditShape(s: State, id: RestaurantId, expected: int, values: Columns, reviewed: bool)
    requires Inv(s) && values.Keys == EDIT_FIELDS && Edit(s, id, expected, values, reviewed).1.Ok?
    ensures id in s && id in Edit(s, id, expected, values, reviewed).0
    ensures var before, after := s[id].row, Edit(s, id, expected, values, reviewed).0[id].row;
      && after.columns == Overwrite(before.columns, EditChanges(before.columns, values, reviewed))
      && after.columns.Keys == ALL_FIELDS
      && (after.version == before.version <==> EditChanges(before.columns, values, reviewed) == map[])
  {
    hide EditChanges, ALL_FIELDS, EDIT_FIELDS;
    if EditChanges(s[id].row.columns, values, reviewed) == map[] {
      assert Overwrite(s[id].row.columns, map[]) == s[id].row.columns;
    }
  }

  lemma EditedColumn(columns: Columns, values: Columns, reviewed: bool, f: Field)
    requires columns.Keys == ALL_FIELDS && values.Keys == EDIT_FIELDS && f in ALL_FIELDS
    ensures var after := Overwrite(columns, EditChanges(columns, values, reviewed));
      after.Keys == ALL_FIELDS && after[f] == Submitted(columns, values, reviewed, f)
  {
    ReviewedIsNoEditField();
    hide ALL_FIELDS, EDIT_FIELDS, Submitted;
    var changes := EditChanges(columns, values, reviewed);
    assert f in changes <==> if f == Reviewed then columns[f] != Flag(reviewed)
                             else f in ValueChanges(columns, values, EDIT_FIELDS);
    SubmittedIs(columns, values, reviewed, f);
  }

  lemma ReviewedIsNoEditField()
    ensures Reviewed in ALL_FIELDS && Reviewed !in EDIT_FIELDS
  {
  }

  lemma SubmittedIs(columns: Columns, values: Columns, reviewed: bool, f: Field)
    requires columns.Keys == ALL_FIELDS && values.Keys == EDIT_FIELDS && f in ALL_FIELDS
    ensures Submitted(columns, values, reviewed, f)
         == if f == Reviewed then Flag(reviewed)
            else if f in values && !(f == IsHidden && values[f] == Null) then values[f] else columns[f]
  {
    hide ALL_FIELDS, EDIT_FIELDS;
  }

  lemma NoChangeNoDifference(columns: Columns, values: Columns, reviewed: bool)
    requires columns.Keys == ALL_FIELDS && values.Keys == EDIT_FIELDS
    ensures EditChanges(columns, values, reviewed) == map[]
       <==> Overwrite(columns, EditChanges(columns, values, reviewed)) == columns
  {
    hide *;
    forall f | f in EditChanges(columns, values, reviewed)
      ensures f in columns && EditChanges(columns, values, reviewed)[f].after != columns[f]
    {
      ChangeDiffers(columns, values, reviewed, f);
    }
    OverwriteDiffers(columns, EditChanges(columns, values, reviewed));
  }

  lemma OverwriteDiffers(columns: Columns, changes: map<Field, Change>)
    requires forall f | f in changes :: f in columns && changes[f].after != columns[f]
    ensures changes == map[] <==> Overwrite(columns, changes) == columns
  {
    if changes == map[] {
      assert Overwrite(columns, changes) == columns;
    } else {
      var f :| f in changes;
      assert Overwrite(columns, changes)[f] != columns[f];
    }
  }

  lemma ChangeDiffers(columns: Columns, values: Columns, reviewed: bool, f: Field)
    requires columns.Keys == ALL_FIELDS && values.Keys == EDIT_FIELDS
    requires f in EditChanges(columns, values, reviewed)
    ensures f in columns && EditChanges(columns, values, reviewed)[f].after != columns[f]
  {
  }

  /** An accepted photo write sets the four photo columns as given and no other, even when they were so before. */
  lemma PhotoExact(s: State, id: RestaurantId, expected: int, action: Action, photo: Columns)
    requires Inv(s) && photo.Keys == PHOTO_FIELDS
    ensures SetPhoto(s, id, expected, action, photo).1.Ok? <==> id in s && s[id].row.version == expected
    ensures var (t, reply) := SetPhoto(s, id, expected, action, photo);
      reply.Ok? ==>
        && id in t && t[id].row.columns == s[id].row.columns + photo && t[id].row.version == expected + 1
        && t[id].row.isPermanent && t[id].row.expiresAt == None
        && |t[id].audits| == |s[id].audits| + 1 && t[id].audits[|s[id].audits|].action == action
        && forall other | other != id :: other in t <==> other in s
  {
    hide ALL_FIELDS, PHOTO_FIELDS;
    if id in s && s[id].row.version == expected {
      PhotoFieldsExist();
      assert Overwrite(s[id].row.columns, PhotoChanges(s[id].row.columns, photo)) == s[id].row.columns + photo;
    }
  }

  lemma PhotoFieldsExist()
    ensures PHOTO_FIELDS <= ALL_FIELDS
  {
  }

  /** The importer updates a row nobody edited, but never replaces a photo by nothing. */
  lemma ImportExact(s: State, id: RestaurantId, record: CsvRecord)
    requires Inv(s) && id in s && s[id].row.version == 1 && record.values.Keys == CSV_FIELDS
    ensures var columns, before := CsvImport(s, id, record)[id].row.columns, s[id].row.columns;
      && columns.Keys == ALL_FIELDS
      && (forall f | f in CSV_FIELDS :: columns[f] == record.values[f])
      && (forall f | f in {AdminNotes, IsHidden, Reviewed, PhotoS3Key} :: columns[f] == before[f])
      && (forall f | f in {PhotoUrl, PhotoSource, PhotoAttribution} ::
            !IsTruthy(record.photoUrl) ==> columns[f] == before[f])
      && (IsTruthy(record.photoUrl) ==> IsPhotoOf(columns, record))
    ensures var e := CsvImport(s, id, record)[id];
      e.row.isPermanent && e.row.expiresAt == None && e.row.version == 1 && e.audits == s[id].audits
  {
    CsvKeepsInv(s, id, record);
    CsvFields();
    hide CSV_FIELDS, ALL_FIELDS;
  }

  /** The columns show the record's photo, with a source even if the record names none. */
  predicate IsPhotoOf(columns: Columns, record: CsvRecord) {
    && {PhotoUrl, PhotoSource, PhotoAttribution} <= columns.Keys
    && columns[PhotoUrl] == record.photoUrl && columns[PhotoAttribution] == record.photoAttribution
    && IsTruthy(columns[PhotoSource])
    && (IsTruthy(record.photoSource) ==> columns[PhotoSource] == record.photoSource)
  }

  /** A new row from the importer: the record's values, visible, not reviewed, permanent and never edited. */
  lemma ImportInserts(s: State, id: RestaurantId, record: CsvRecord)
    requires Inv(s) && id !in s && record.values.Keys == CSV_FIELDS
    ensures id in CsvImport(s, id, record)
    ensures var e := CsvImport(s, id, record)[id];
      && e.row.columns.Keys == ALL_FIELDS && e.audits == [] && e.row.version == 1
      && e.row.isPermanent && e.row.expiresAt == None
      && (forall f | f in CSV_FIELDS :: e.row.columns[f] == record.values[f])
      && e.row.columns[IsHidden] == Flag(false) && e.row.columns[Reviewed] == Flag(false)
      && (IsTruthy(record.photoUrl) ==> IsPhotoOf(e.row.columns, record))
  {
    CsvKeepsInv(s, id, record);
    CsvFields();
    BlankFlags();
    hide CSV_FIELDS, ALL_FIELDS, BLANK;
    ImportedFieldsExist();
  }

  lemma BlankFlags()
    ensures IsHidden in BLANK && Reviewed in BLANK && BLANK[IsHidden] == Flag(false) && BLANK[Reviewed] == Flag(false)
  {
  }

  /**
   A row found on the map service is new, or refreshed if it is not permanent, and expires at the given time;
   a permanent row stays as it is, edited or not.
   */
  lemma UpsertExact(s: State, id: RestaurantId, values: Columns, expiresAt: Instant)
    requires Inv(s) && values.Keys == OSM_FIELDS
    ensures id in OsmUpsert(s, id, values, expiresAt)
    ensures var e := OsmUpsert(s, id, values, expiresAt)[id];
      if id in s && s[id].row.isPermanent then e == s[id]
      else
        && (forall f | f in OSM_FIELDS :: f in e.row.columns && e.row.columns[f] == values[f])
        && (id in s ==> forall f | f in ALL_FIELDS - OSM_FIELDS ::
              f in e.row.columns && e.row.columns[f] == s[id].row.columns[f])
        && !e.row.isPermanent && e.row.expiresAt == Some(expiresAt)
        && e.row.version == 1 && e.audits == []
  {
    OsmKeepsInv(s, id, values, expiresAt);
    hide OSM_FIELDS, ALL_FIELDS, BLANK;
    ImportedFieldsExist();
  }

  /** The restaurant a step names, if any. */
  function TargetOf(step: Step): Option<RestaurantId> {
    match step
    case EditStep(id, _, _, _) => Some(id)
    case UploadStep(id, _, _) => Some(id)
    case RemoveStep(id, _) => Some(id)
    case CsvStep(id, _) => Some(id)
    case OsmStep(id, _, _) => Some(id)
    case CleanupStep(_, _) => None
  }

  /** No write or import touches any row but the one it names. */
  lemma OtherRowsUntouched(s: State, step: Step, other: RestaurantId)
    requires Inv(s) && WellFormed(step) && TargetOf(step).Some? && TargetOf(step) != Some(other)
    ensures other in Next(s, step) <==> other in s
    ensures other in s ==> Next(s, step)[other] == s[other]
  {
    hide Record, EditChanges, PhotoChanges, CsvColumns, BLANK, ALL_FIELDS;
  }

  /** The nightly job removes exactly the temporary rows that have expired and that nothing refers to. */
  lemma CleanupExact(s: State, now: Instant, referenced: set<RestaurantId>, id: RestaurantId)
    requires id in s
    ensures id !in Cleanup(s, now, referenced)
       <==> && !s[id].row.isPermanent && id !in referenced
            && s[id].row.expiresAt.Some? && s[id].row.expiresAt.value <= now
    ensures id in Cleanup(s, now, referenced) ==> Cleanup(s, now, referenced)[id] == s[id]
  {
  }

  /**
   An accepted edit is logged exactly when a column changed, as an edit, with the old and the new value of
   each column that changed and of no other.
   */
  lemma EditAudited(s: State, id: RestaurantId, expected: int, values: Columns, reviewed: bool)
    requires Inv(s) && values.Keys == EDIT_FIELDS && Edit(s, id, expected, values, reviewed).1.Ok?
    ensures id in s && id in Edit(s, id, expected, values, reviewed).0
    ensures var before, after := s[id], Edit(s, id, expected, values, reviewed).0[id];
      if before.row.columns == after.row.columns then
        after == before && Edit(s, id, expected, values, reviewed).1 == Ok(false)
      else
        && Edit(s, id, expected, values, reviewed).1 == Ok(true)
        && |after.audits| == |before.audits| + 1 && after.audits[..|before.audits|] == before.audits
        && after.audits[|before.audits|].action == EDIT
        && IsDifference(before.row.columns, after.row.columns, after.audits[|before.audits|].changes)
  {
    var columns := s[id].row.columns;
    var changes := EditChanges(columns, values, reviewed);
    NoChangeNoDifference(columns, values, reviewed);
    forall f | f in changes
      ensures f in columns && changes[f].before == columns[f] && changes[f].after != columns[f]
    {
      ChangeDiffers(columns, values, reviewed, f);
      ChangeBegins(columns, values, reviewed, f);
    }
    hide EditChanges, ALL_FIELDS, EDIT_FIELDS;
    OverwriteIsDifference(columns, changes);
  }

  /** The changes name exactly the columns that differ, with both values. */
  ghost predicate IsDifference(before: Columns, after: Columns, changes: map<Field, Change>) {
    && (forall f | f in changes ::
          f in before && f in after && before[f] != after[f] && changes[f] == Change(before[f], after[f]))
    && (forall f | f in before && f in after && before[f] != after[f] :: f in changes)
  }

  lemma OverwriteIsDifference(columns: Columns, changes: map<Field, Change>)
    requires forall f | f in changes ::
      f in columns && changes[f].before == columns[f] && changes[f].after != columns[f]
    ensures IsDifference(columns, Overwrite(columns, changes), changes)
  {
  }

  lemma ChangeBegins(columns: Columns, values: Columns, reviewed: bool, f: Field)
    requires columns.Keys == ALL_FIELDS && values.Keys == EDIT_FIELDS
    requires f in EditChanges(columns, values, reviewed)
    ensures f in columns && EditChanges(columns, values, reviewed)[f].before == columns[f]
  {
  }

  lemma CsvFields()
    ensures CSV_FIELDS <= ALL_FIELDS
    ensures CSV_FIELDS !! {AdminNotes, IsHidden, Reviewed, PhotoS3Key, PhotoUrl, PhotoSource, PhotoAttribution}
    ensures {AdminNotes, IsHidden, Reviewed, PhotoS3Key, PhotoUrl, PhotoSource, PhotoAttribution} <= ALL_FIELDS
  {
  }
}
