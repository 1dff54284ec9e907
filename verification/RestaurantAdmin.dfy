/**
 Restaurant rows under administration: optimistic versions, an audit log, and the importers that must not
 write over an audited row. Every step is one committed transaction.
 */
module RestaurantAdmin {
  import opened Basics

  type RestaurantId = int
  type Instant = int

  /** A column value; `Content` stands for any JSON content, compared as a whole. */
  datatype Value = Null | Flag(flag: bool) | Content(text: string)

  datatype Field =
    | Name | PrimaryCategory | Latitude | Longitude | Address | PriceLevel | OpeningHours | AdminNotes | IsHidden
    | PhotoUrl | PhotoS3Key | PhotoSource | PhotoAttribution
    | Reviewed

  const EDIT_FIELDS :=
    {Name, PrimaryCategory, Latitude, Longitude, Address, PriceLevel, OpeningHours, AdminNotes, IsHidden}
  const PHOTO_FIELDS := {PhotoUrl, PhotoS3Key, PhotoSource, PhotoAttribution}
  const ALL_FIELDS := EDIT_FIELDS + PHOTO_FIELDS + {Reviewed}
  const CSV_FIELDS := {Name, PrimaryCategory, Latitude, Longitude, Address, PriceLevel, OpeningHours}
  const OSM_FIELDS := {Name, PrimaryCategory, Latitude, Longitude, Address}

  type Columns = map<Field, Value>

  datatype Change = Change(before: Value, after: Value)
  datatype Action = EDIT | PHOTO_UPLOAD | PHOTO_REMOVE
  datatype Audit = Audit(action: Action, changes: map<Field, Change>)

  datatype Row = Row(columns: Columns, version: int, isPermanent: bool, expiresAt: Option<Instant>)
  datatype Entry = Entry(row: Row, audits: seq<Audit>)
  type State = map<RestaurantId, Entry>

  datatype Error = NOT_FOUND | CONFLICT

  // ─── The administration handlers ───

  /** `_restaurant` with an expected version: the row, locked and unchanged since the caller read it. */
  function Locked(s: State, id: RestaurantId, expected: int): Reply<Entry, Error> {
    if id !in s then Err(NOT_FOUND)
    else if s[id].row.version != expected then Err(CONFLICT)
    else Ok(s[id])
  }

  function Overwrite(columns: Columns, changes: map<Field, Change>): Columns {
    map f | f in columns :: if f in changes then changes[f].after else columns[f]
  }

  /** `_record`: the change and its audit entry go together with the version bump. */
  function Record(e: Entry, action: Action, changes: map<Field, Change>): Entry {
    Entry(Row(Overwrite(e.row.columns, changes), e.row.version + 1, true, None), e.audits + [Audit(action, changes)])
  }

  /** The differences in some of the submitted columns; a missing visibility is no wish to change it. */
  function ValueChanges(columns: Columns, values: Columns, fields: set<Field>): map<Field, Change>
    requires columns.Keys == ALL_FIELDS && values.Keys == EDIT_FIELDS
  {
    map f | f in fields && f in values && !(f == IsHidden && values[f] == Null) && columns[f] != values[f] ::
      Change(columns[f], values[f])
  }

  /** The columns in the order in which the edit handler goes through them. */
  const EDIT_ORDER: seq<Field> :=
    [Name, PrimaryCategory, Latitude, Longitude, Address, PriceLevel, OpeningHours, AdminNotes, IsHidden]

  lemma OrderIsComplete()
    ensures ToSet(EDIT_ORDER) == EDIT_FIELDS && EDIT_FIELDS <= ALL_FIELDS
  {
    forall f ensures f in EDIT_ORDER <==> f in EDIT_FIELDS {
      OrderHolds(f);
    }
  }

  lemma OrderHolds(f: Field)
    ensures f in EDIT_ORDER <==> f in EDIT_FIELDS
  {
    match f {
      case Name => assert EDIT_ORDER[0] == f;
      case PrimaryCategory => assert EDIT_ORDER[1] == f;
      case Latitude => assert EDIT_ORDER[2] == f;
      case Longitude => assert EDIT_ORDER[3] == f;
      case Address => assert EDIT_ORDER[4] == f;
      case PriceLevel => assert EDIT_ORDER[5] == f;
      case OpeningHours => assert EDIT_ORDER[6] == f;
      case AdminNotes => assert EDIT_ORDER[7] == f;
      case IsHidden => assert EDIT_ORDER[8] == f;
      case _ =>
    }
  }

  lemma NothingCompared(columns: Columns, values: Columns)
    requires columns.Keys == ALL_FIELDS && values.Keys == EDIT_FIELDS
    ensures ValueChanges(columns, values, {}) == map[] && Overwrite(columns, map[]) == columns
  {
  }

  /** One turn of the edit loop. */
  lemma OneMoreCompared(columns: Columns, values: Columns, done: set<Field>, f: Field)
    requires columns.Keys == ALL_FIELDS && values.Keys == EDIT_FIELDS && f in columns && f in values
    ensures var changes, more := ValueChanges(columns, values, done), ValueChanges(columns, values, done + {f});
      var updated := Overwrite(columns, changes);
      && f in updated
      && (f == IsHidden && values[f] == Null ==> more == changes)
      && (!(f == IsHidden && values[f] == Null) && updated[f] == values[f] ==> more == changes)
      && (!(f == IsHidden && values[f] == Null) && updated[f] != values[f] ==>
            && more == changes[f := Change(updated[f], values[f])]
            && Overwrite(columns, more) == updated[f := values[f]])
  {
    hide ALL_FIELDS, EDIT_FIELDS;
  }

  function EditChanges(columns: Columns, values: Columns, reviewed: bool): map<Field, Change>
    requires columns.Keys == ALL_FIELDS && values.Keys == EDIT_FIELDS
  {
    var changes := ValueChanges(columns, values, EDIT_FIELDS);
    if columns[Reviewed] == Flag(reviewed) then changes
    else changes[Reviewed := Change(columns[Reviewed], Flag(reviewed))]
  }

  function Edit(s: State, id: RestaurantId, expected: int, values: Columns, reviewed: bool): (State, Reply<bool, Error>)
    requires HasColumns(s) && values.Keys == EDIT_FIELDS
  {
    match Locked(s, id, expected)
    case Err(error) => (s, Err(error))
    case Ok(e) =>
      var changes := EditChanges(e.row.columns, values, reviewed);
      if changes == map[] then (s, Ok(false)) else (s[id := Record(e, EDIT, changes)], Ok(true))
  }

  function PhotoChanges(columns: Columns, photo: Columns): map<Field, Change>
    requires columns.Keys == ALL_FIELDS && photo.Keys == PHOTO_FIELDS
  {
    map f | f in photo :: Change(columns[f], photo[f])
  }

  function SetPhoto(s: State, id: RestaurantId, expected: int, action: Action, photo: Columns)
    : (State, Reply<bool, Error>)
    requires HasColumns(s) && photo.Keys == PHOTO_FIELDS
  {
    match Locked(s, id, expected)
    case Err(error) => (s, Err(error))
    case Ok(e) => (s[id := Record(e, action, PhotoChanges(e.row.columns, photo))], Ok(true))
  }

  const NO_PHOTO: Columns := map f | f in PHOTO_FIELDS :: Null

  // ─── The importers and the nightly job ───

  datatype CsvRecord = CsvRecord(values: Columns, photoUrl: Value, photoSource: Value, photoAttribution: Value)

  predicate IsTruthy(v: Value) {
    v.Content? && v.text != ""
  }

  function SourceOrDefault(v: Value): Value {
    if IsTruthy(v) then v else Content("external_url")
  }

  const BLANK: Columns := map f | f in ALL_FIELDS :: if f in {IsHidden, Reviewed} then Flag(false) else Null

  function WithCsvPhoto(columns: Columns, record: CsvRecord): Columns {
    columns[PhotoUrl := record.photoUrl][PhotoSource := SourceOrDefault(record.photoSource)]
           [PhotoAttribution := record.photoAttribution]
  }

  function CsvColumns(columns: Columns, record: CsvRecord): Columns {
    var updated := columns + record.values;
    if IsTruthy(record.photoUrl) then WithCsvPhoto(updated, record) else updated
  }

  function CsvImport(s: State, id: RestaurantId, record: CsvRecord): State {
    if id !in s then
      var columns :=
        BLANK + record.values + map[PhotoUrl := record.photoUrl, PhotoAttribution := record.photoAttribution];
      var sourced := if IsTruthy(record.photoUrl) then columns[PhotoSource := SourceOrDefault(record.photoSource)]
                     else columns;
      s[id := Entry(Row(sourced, 1, true, None), [])]
    else if s[id].row.version > 1 then s
    else
      var row := s[id].row;
      s[id := Entry(Row(CsvColumns(row.columns, record), row.version, true, None), s[id].audits)]
  }

  function OsmUpsert(s: State, id: RestaurantId, values: Columns, expiresAt: Instant): State {
    if id !in s then s[id := Entry(Row(BLANK + values, 1, false, Some(expiresAt)), [])]
    else if s[id].row.isPermanent then s
    else s[id := s[id].(row := s[id].row.(columns := s[id].row.columns + values, expiresAt := Some(expiresAt)))]
  }

  predicate IsExpired(row: Row, now: Instant) {
    !row.isPermanent && row.expiresAt.Some? && row.expiresAt.value <= now
  }

  function Cleanup(s: State, now: Instant, referenced: set<RestaurantId>): State {
    map id | id in s && !(IsExpired(s[id].row, now) && id !in referenced) :: s[id]
  }

  // ─── Runs ───

  datatype Step =
    | EditStep(id: RestaurantId, expected: int, values: Columns, reviewed: bool)
    | UploadStep(id: RestaurantId, expected: int, photo: Columns)
    | RemoveStep(id: RestaurantId, expected: int)
    | CsvStep(id: RestaurantId, record: CsvRecord)
    | OsmStep(id: RestaurantId, values: Columns, expiresAt: Instant)
    | CleanupStep(now: Instant, referenced: set<RestaurantId>)

  /** The request and file schemas fix which columns a step carries. */
  predicate WellFormed(step: Step) {
    match step
    case EditStep(_, _, values, _) => values.Keys == EDIT_FIELDS
    case UploadStep(_, _, photo) => photo.Keys == PHOTO_FIELDS
    case CsvStep(_, record) => record.values.Keys == CSV_FIELDS
    case OsmStep(_, values, _) => values.Keys == OSM_FIELDS
    case _ => true
  }

  /** The new state, and for an administration write its reply. */
  function Apply(s: State, step: Step): (State, Option<Reply<bool, Error>>)
    requires HasColumns(s) && WellFormed(step)
  {
    match step
    case EditStep(id, expected, values, reviewed) =>
      (Edit(s, id, expected, values, reviewed).0, Some(Edit(s, id, expected, values, reviewed).1))
    case UploadStep(id, expected, photo) =>
      (SetPhoto(s, id, expected, PHOTO_UPLOAD, photo).0, Some(SetPhoto(s, id, expected, PHOTO_UPLOAD, photo).1))
    case RemoveStep(id, expected) =>
      (SetPhoto(s, id, expected, PHOTO_REMOVE, NO_PHOTO).0, Some(SetPhoto(s, id, expected, PHOTO_REMOVE, NO_PHOTO).1))
    case CsvStep(id, record) => (CsvImport(s, id, record), None)
    case OsmStep(id, values, expiresAt) => (OsmUpsert(s, id, values, expiresAt), None)
    case CleanupStep(now, referenced) => (Cleanup(s, now, referenced), None)
  }

  function Next(s: State, step: Step): State
    requires HasColumns(s) && WellFormed(step)
  {
    Apply(s, step).0
  }

  predicate AllWellFormed(steps: seq<Step>) {
    forall i | 0 <= i < |steps| :: WellFormed(steps[i])
  }

  function Run(s: State, steps: seq<Step>): (t: State)
    requires Inv(s) && AllWellFormed(steps)
    ensures Inv(t)
    decreases |steps|
  {
    if steps == [] then s
    else
      StepKeepsInv(s, steps[0]);
      Run(Next(s, steps[0]), steps[1..])
  }

  // ─── The invariant ───

  predicate HasColumns(s: State) {
    forall id | id in s :: s[id].row.columns.Keys == ALL_FIELDS
  }

  /** The version counts the audits, and an audited row is permanent. */
  predicate IsCounted(e: Entry) {
    e.row.version == 1 + |e.audits| && (e.audits != [] ==> e.row.isPermanent && e.row.expiresAt == None)
  }

  predicate Inv(s: State) {
    HasColumns(s) && forall id | id in s :: IsCounted(s[id])
  }

  lemma InitiallyValid()
    ensures Inv(map[])
  {
  }

  lemma StepKeepsInv(s: State, step: Step)
    requires Inv(s) && WellFormed(step)
    ensures Inv(Next(s, step))
  {
    match step {
      case EditStep(id, expected, values, reviewed) => EditKeepsInv(s, id, expected, values, reviewed);
      case UploadStep(id, expected, photo) => PhotoKeepsInv(s, id, expected, PHOTO_UPLOAD, photo);
      case RemoveStep(id, expected) => PhotoKeepsInv(s, id, expected, PHOTO_REMOVE, NO_PHOTO);
      case CsvStep(id, record) => CsvKeepsInv(s, id, record);
      case OsmStep(id, values, expiresAt) => OsmKeepsInv(s, id, values, expiresAt);
      case CleanupStep(now, referenced) =>
    }
  }

  lemma RecordCounts(e: Entry, action: Action, changes: map<Field, Change>)
    requires IsCounted(e)
    ensures IsCounted(Record(e, action, changes))
    ensures Record(e, action, changes).row.columns.Keys == e.row.columns.Keys
  {
  }

  lemma EditKeepsInv(s: State, id: RestaurantId, expected: int, values: Columns, reviewed: bool)
    requires Inv(s) && values.Keys == EDIT_FIELDS
    ensures Inv(Edit(s, id, expected, values, reviewed).0)
  {
    hide Record, EditChanges;
    if id in s {
      RecordCounts(s[id], EDIT, EditChanges(s[id].row.columns, values, reviewed));
    }
  }

  lemma PhotoKeepsInv(s: State, id: RestaurantId, expected: int, action: Action, photo: Columns)
    requires Inv(s) && photo.Keys == PHOTO_FIELDS
    ensures Inv(SetPhoto(s, id, expected, action, photo).0)
  {
    hide Record, PhotoChanges;
    if id in s {
      RecordCounts(s[id], action, PhotoChanges(s[id].row.columns, photo));
    }
  }

  lemma ImportedFieldsExist()
    ensures CSV_FIELDS <= ALL_FIELDS && OSM_FIELDS <= ALL_FIELDS && BLANK.Keys == ALL_FIELDS
    ensures PhotoUrl in ALL_FIELDS && PhotoSource in ALL_FIELDS && PhotoAttribution in ALL_FIELDS
  {
  }

  lemma CsvKeepsInv(s: State, id: RestaurantId, record: CsvRecord)
    requires Inv(s) && record.values.Keys == CSV_FIELDS
    ensures Inv(CsvImport(s, id, record))
  {
    hide ALL_FIELDS, CSV_FIELDS, OSM_FIELDS, BLANK;
    ImportedFieldsExist();
    if id in s {
      assert (s[id].row.columns + record.values).Keys == ALL_FIELDS;
      assert CsvColumns(s[id].row.columns, record).Keys == ALL_FIELDS;
    } else {
      assert (BLANK + record.values).Keys == ALL_FIELDS;
      assert CsvImport(s, id, record)[id].row.columns.Keys == ALL_FIELDS;
    }
  }

  lemma OsmKeepsInv(s: State, id: RestaurantId, values: Columns, expiresAt: Instant)
    requires Inv(s) && values.Keys == OSM_FIELDS
    ensures Inv(OsmUpsert(s, id, values, expiresAt))
  {
    hide ALL_FIELDS, CSV_FIELDS, OSM_FIELDS, BLANK;
    ImportedFieldsExist();
    assert (BLANK + values).Keys == ALL_FIELDS;
    if id in s {
      assert (s[id].row.columns + values).Keys == ALL_FIELDS;
    }
  }
}
