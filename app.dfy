/**
 * Workspace logic of the application component: the form reducer, normalisation of
 * imported project records, and the list updates behind save, delete, archive, unarchive
 * and the two import paths. React state setters replace state wholesale, so each handler
 * is a function from the old state to the new one; the confirm dialogs are taken as
 * accepted. Clock readings, locale-formatted dates and random ids arrive as parameters.
 */
module App {
  import opened Types
  import Seqs
  import JsString
  import Catalog
  import Calculator

  const UnnamedProject := "Без име"
  const ImportedProjectName := "Импортиран проект"
  const ImportedWorkspaceName := "Импортирано работно място"
  const ProjectNamePrefix := "Проект "

  /** The component state the handlers read and replace. */
  datatype AppState = AppState(
    projects: seq<SavedProject>,
    workspaceName: string,
    currentId: Option<string>,
    form: FormState)

  /** `currentProjectId` is truthy: present and not empty. */
  predicate HasCurrent(currentId: Option<string>) {
    currentId.Some? && currentId.value != ""
  }

  predicate IsCurrent(currentId: Option<string>, id: string) {
    HasCurrent(currentId) && currentId.value == id
  }

  // ---------------------------------------------------------------- form reducer

  datatype Field =
    | ProjectTypeField | AreaField | WallSectionsField | AdditionalLengthField | ObjectNameField
    | CurrencyDisplayField | HasCraneField | HasComplexityField | ComplexityPercentageField
    | IsAcceleratedField | IncludeSupervisionField

  /** A form edit: the field it names together with a value of that field's type. */
  datatype InputChange =
    | SetProjectType(text: string)
    | SetArea(number: real)
    | SetWallSections(number: real)
    | SetAdditionalLength(number: real)
    | SetObjectName(text: string)
    | SetCurrencyDisplay(currency: Currency)
    | SetHasCrane(flag: bool)
    | SetHasComplexity(flag: bool)
    | SetComplexityPercentage(number: real)
    | SetIsAccelerated(flag: bool)
    | SetIncludeSupervision(flag: bool)

  function FieldOf(change: InputChange): Field {
    match change
    case SetProjectType(_) => ProjectTypeField
    case SetArea(_) => AreaField
    case SetWallSections(_) => WallSectionsField
    case SetAdditionalLength(_) => AdditionalLengthField
    case SetObjectName(_) => ObjectNameField
    case SetCurrencyDisplay(_) => CurrencyDisplayField
    case SetHasCrane(_) => HasCraneField
    case SetHasComplexity(_) => HasComplexityField
    case SetComplexityPercentage(_) => ComplexityPercentageField
    case SetIsAccelerated(_) => IsAcceleratedField
    case SetIncludeSupervision(_) => IncludeSupervisionField
  }

  /** `a` and `b` agree on field `f`. */
  predicate SameField(a: FormState, b: FormState, f: Field) {
    match f
    case ProjectTypeField => a.projectType == b.projectType
    case AreaField => a.area == b.area
    case WallSectionsField => a.wallSections == b.wallSections
    case AdditionalLengthField => a.additionalLength == b.additionalLength
    case ObjectNameField => a.objectName == b.objectName
    case CurrencyDisplayField => a.currencyDisplay == b.currencyDisplay
    case HasCraneField => a.hasCrane == b.hasCrane
    case HasComplexityField => a.hasComplexity == b.hasComplexity
    case ComplexityPercentageField => a.complexityPercentage == b.complexityPercentage
    case IsAcceleratedField => a.isAccelerated == b.isAccelerated
    case IncludeSupervisionField => a.includeSupervision == b.includeSupervision
  }

  /** The field named by `change` holds the value it carries. */
  predicate Carries(s: FormState, change: InputChange) {
    match change
    case SetProjectType(v) => s.projectType == v
    case SetArea(v) => s.area == v
    case SetWallSections(v) => s.wallSections == v
    case SetAdditionalLength(v) => s.additionalLength == v
    case SetObjectName(v) => s.objectName == v
    case SetCurrencyDisplay(v) => s.currencyDisplay == v
    case SetHasCrane(v) => s.hasCrane == v
    case SetHasComplexity(v) => s.hasComplexity == v
    case SetComplexityPercentage(v) => s.complexityPercentage == v
    case SetIsAccelerated(v) => s.isAccelerated == v
    case SetIncludeSupervision(v) => s.includeSupervision == v
  }

  /** The fields a change resets besides its own. */
  function ResetFields(change: InputChange): set<Field> {
    if change.SetProjectType? then {AreaField, WallSectionsField, AdditionalLengthField}
    else if change == SetHasComplexity(false) then {ComplexityPercentageField}
    else {}
  }

  /** `{ ...s, [id]: value }`. */
  function Assign(s: FormState, change: InputChange): FormState {
    match change
    case SetProjectType(v) => s.(projectType := v)
    case SetArea(v) => s.(area := v)
    case SetWallSections(v) => s.(wallSections := v)
    case SetAdditionalLength(v) => s.(additionalLength := v)
    case SetObjectName(v) => s.(objectName := v)
    case SetCurrencyDisplay(v) => s.(currencyDisplay := v)
    case SetHasCrane(v) => s.(hasCrane := v)
    case SetHasComplexity(v) => s.(hasComplexity := v)
    case SetComplexityPercentage(v) => s.(complexityPercentage := v)
    case SetIsAccelerated(v) => s.(isAccelerated := v)
    case SetIncludeSupervision(v) => s.(includeSupervision := v)
  }

  /**
   * The form reducer: writes the edited field; a new project type also clears area,
   * wall sections and additional length, and unticking complexity clears its percentage.
   * Every other field is left as it was.
   */
  function HandleInputChange(s: FormState, change: InputChange): (r: FormState)
    ensures Carries(r, change)
    ensures forall f :: f != FieldOf(change) && f !in ResetFields(change) ==> SameField(s, r, f)
    ensures change.SetProjectType? ==> r.area == 0.0 && r.wallSections == 1.0 && r.additionalLength == 0.0
    ensures change == SetHasComplexity(false) ==> r.complexityPercentage == 0.0
  {
    var newState := Assign(s, change);
    var newState := if change.SetProjectType? then newState.(area := 0.0, wallSections := 1.0, additionalLength := 0.0)
                    else newState;
    if change == SetHasComplexity(false) then newState.(complexityPercentage := 0.0) else newState
  }

  /** Repeating an edit changes nothing more. */
  lemma InputChangeIdempotent(s: FormState, change: InputChange)
    ensures HandleInputChange(HandleInputChange(s, change), change) == HandleInputChange(s, change)
  {
  }

  /**
   * Choosing a type whose price needs an area leaves the calculator waiting for one: the
   * reset area makes the calculation stop at its "enter the area" step.
   */
  lemma NewTypeAsksForArea(catalog: Catalog.Catalog, s: FormState, key: string)
    requires key in catalog.types
    requires Calculator.NeedsArea(catalog.types[key], Catalog.CategoryOf(key), s.hasCrane)
    ensures Calculator.StageOf(catalog, HandleInputChange(s, SetProjectType(key))) == Calculator.MissingArea
  {
  }

  // ---------------------------------------------------------------- import normalisation

  /**
   * A parsed project record. JavaScript-falsy values are written as "" (ids, names) and
   * 0 (a timestamp that is missing or not a number); `dataId` is the `id` found inside
   * `data`, which older files carry.
   */
  datatype ImportedRecord =
    | Wrapped(id: string, name: string, lastModified: int, data: FormState, dataId: string, isArchived: bool)
    | Raw(id: string, form: FormState)

  /** The id a record is stored under: its own id, else the id inside its data, else the fallback. */
  function ImportedId(p: ImportedRecord, fallbackId: string): (id: string)
    requires fallbackId != ""
    ensures id != ""
    ensures p.id != "" ==> id == p.id
    ensures p.id == "" && p.Wrapped? && p.dataId != "" ==> id == p.dataId
    ensures p.id == "" && (p.Raw? || p.dataId == "") ==> id == fallbackId
  {
    var rawId := if p.id != "" then p.id else if p.Wrapped? then p.dataId else "";
    if rawId != "" then rawId else fallbackId
  }

  /**
   * `sanitizeProject`: a wrapped record keeps its data and archive flag; a bare form state
   * becomes the data of a new, unarchived record. The name is never empty.
   */
  function SanitizeProject(p: ImportedRecord, now: int, fallbackId: string): (r: SavedProject)
    requires fallbackId != ""
    ensures r.id == ImportedId(p, fallbackId) && r.id != ""
    ensures r.name != ""
    ensures p.Wrapped? ==>
      && r.data == p.data && r.isArchived == p.isArchived
      && r.lastModified == (if p.lastModified != 0 then p.lastModified else now)
      && r.name == (if p.name != "" then p.name else if p.data.objectName != "" then p.data.objectName else UnnamedProject)
    ensures p.Raw? ==>
      && r.data == p.form && !r.isArchived && r.lastModified == now
      && r.name == (if p.form.objectName != "" then p.form.objectName else ImportedProjectName)
  {
    var finalId := ImportedId(p, fallbackId);
    match p
    case Wrapped(_, name, lastModified, data, _, isArchived) =>
      SavedProject(finalId,
        if name != "" then name else if data.objectName != "" then data.objectName else UnnamedProject,
        if lastModified != 0 then lastModified else now,
        data,
        isArchived)
    case Raw(_, form) =>
      SavedProject(finalId, if form.objectName != "" then form.objectName else ImportedProjectName, now, form, false)
  }

  /** How a saved project is written to a workspace file; reading the record back gives the project again. */
  function ExportRecord(p: SavedProject): (r: ImportedRecord)
    ensures r.Wrapped?
    ensures forall now: int, fallbackId: string ::
      fallbackId != "" && p.id != "" ==>
        && SanitizeProject(r, now, fallbackId).id == p.id
        && SanitizeProject(r, now, fallbackId).data == p.data
        && SanitizeProject(r, now, fallbackId).isArchived == p.isArchived
        && (p.name != "" && p.lastModified != 0 ==> SanitizeProject(r, now, fallbackId) == p)
  {
    Wrapped(p.id, p.name, p.lastModified, p.data, "", p.isArchived)
  }

  /** A form state saved on its own (the legacy file shape) is read back as the project's data. */
  lemma LegacyImportKeepsForm(form: FormState, now: int, fallbackId: string)
    requires fallbackId != ""
    ensures SanitizeProject(Raw("", form), now, fallbackId).data == form
    ensures !SanitizeProject(Raw("", form), now, fallbackId).isArchived
  {
  }

  /** Sanitises a list of records; the k-th record reads the clock as `clock(k)` and draws fallback id `nextId(k)`. */
  function SanitizeAll(records: seq<ImportedRecord>, clock: nat -> int, nextId: nat -> string): (r: seq<SavedProject>)
    requires forall k: nat :: nextId(k) != ""
    ensures |r| == |records|
    ensures forall k :: 0 <= k < |r| ==> r[k] == SanitizeProject(records[k], clock(k), nextId(k))
    ensures forall k :: 0 <= k < |r| ==> r[k].id != "" && r[k].name != ""
  {
    seq(|records|, k requires 0 <= k < |records| => SanitizeProject(records[k], clock(k), nextId(k)))
  }

  /** Sanitising one more record appends its project, numbered by its position. */
  lemma SanitizeOneMore(records: seq<ImportedRecord>, record: ImportedRecord, clock: nat -> int, nextId: nat -> string)
    requires forall k: nat :: nextId(k) != ""
    ensures SanitizeAll(records + [record], clock, nextId)
      == SanitizeAll(records, clock, nextId) + [SanitizeProject(record, clock(|records|), nextId(|records|))]
  {
    assert (records + [record])[|records|] == record;
  }

  // ---------------------------------------------------------------- save

  /** The trimmed object name, or "Проект <date>" when it is blank. */
  function SavedName(objectName: string, dateText: string): (name: string)
    ensures name != ""
    ensures JsString.Trim(objectName) != "" ==> name == JsString.Trim(objectName)
    ensures JsString.Trim(objectName) == "" ==> name == ProjectNamePrefix + dateText
  {
    var nameFromInput := JsString.Trim(objectName);
    if nameFromInput != "" then nameFromInput else ProjectNamePrefix + dateText
  }

  /**
   * `handleSaveToWorkspace`: with a current project and not saving as new, rewrites the
   * entries with the current id in place; otherwise prepends a nextId unarchived project and
   * makes it current. A blank object name is replaced in the form by the generated name.
   */
  function SaveToWorkspace(s: AppState, asNew: bool, now: int, dateText: string, newId: string): (r: AppState)
    requires newId != ""
    ensures var name := SavedName(s.form.objectName, dateText);
      var saved := s.form.(objectName := name);
      && r.workspaceName == s.workspaceName
      && r.form == (if JsString.Trim(s.form.objectName) == "" then saved else s.form)
      && (HasCurrent(s.currentId) && !asNew ==>
            && r.currentId == s.currentId
            && |r.projects| == |s.projects|
            && (forall i :: 0 <= i < |s.projects| ==>
                  r.projects[i] == if s.projects[i].id == s.currentId.value
                                   then s.projects[i].(name := name, lastModified := now, data := saved)
                                   else s.projects[i]))
      && (!HasCurrent(s.currentId) || asNew ==>
            && r.currentId == Some(newId)
            && r.projects == [SavedProject(newId, name, now, saved, false)] + s.projects)
  {
    var finalName := SavedName(s.form.objectName, dateText);
    var data := s.form.(objectName := finalName);
    var form := if JsString.Trim(s.form.objectName) == "" then s.form.(objectName := finalName) else s.form;
    if HasCurrent(s.currentId) && !asNew then
      var projects := seq(|s.projects|, i requires 0 <= i < |s.projects| =>
        if s.projects[i].id == s.currentId.value
        then s.projects[i].(name := finalName, lastModified := now, data := data)
        else s.projects[i]);
      s.(projects := projects, form := form)
    else
      s.(projects := [SavedProject(newId, finalName, now, data, false)] + s.projects, currentId := Some(newId), form := form)
  }

  // ---------------------------------------------------------------- delete

  /** The projects whose id differs from `id`, in their original order. */
  function WithoutId(projects: seq<SavedProject>, id: string): (r: seq<SavedProject>)
    ensures |r| <= |projects|
    ensures forall p :: p in r <==> p in projects && p.id != id
  {
    var r := Seqs.Filter(projects, (p: SavedProject) => p.id != id);
    forall p ensures p in r <==> p in projects && p.id != id {
      Seqs.FilterMembership(projects, (p: SavedProject) => p.id != id, p);
    }
    r
  }

  /** Deleting from a joined list deletes from each part: the survivors keep their order. */
  lemma DeleteKeepsOrder(a: seq<SavedProject>, b: seq<SavedProject>, id: string)
    ensures WithoutId(a + b, id) == WithoutId(a, id) + WithoutId(b, id)
  {
    Seqs.FilterConcat(a, b, (p: SavedProject) => p.id != id);
  }

  /** Deleting an id nobody has changes nothing. */
  lemma DeleteAbsentId(projects: seq<SavedProject>, id: string)
    requires forall i :: 0 <= i < |projects| ==> projects[i].id != id
    ensures WithoutId(projects, id) == projects
  {
    Seqs.FilterKeepsAll(projects, (p: SavedProject) => p.id != id);
  }

  /**
   * `handleDeleteProject` once confirmed: removes every entry with the id; deleting the
   * current project clears the current id and resets the form.
   */
  function DeleteProject(s: AppState, id: string, initialForm: FormState): (r: AppState)
    ensures forall p :: p in r.projects <==> p in s.projects && p.id != id
    ensures r.projects == WithoutId(s.projects, id)
    ensures r.workspaceName == s.workspaceName
    ensures IsCurrent(s.currentId, id) ==> r.currentId == None && r.form == initialForm
    ensures !IsCurrent(s.currentId, id) ==> r.currentId == s.currentId && r.form == s.form
  {
    var projects := WithoutId(s.projects, id);
    if IsCurrent(s.currentId, id) then s.(projects := projects, currentId := None, form := initialForm)
    else s.(projects := projects)
  }

  // ---------------------------------------------------------------- archive

  /** Sets the archive flag of the entries with the id; length, order and everything else stay. */
  function SetArchived(projects: seq<SavedProject>, id: string, flag: bool): (r: seq<SavedProject>)
    ensures |r| == |projects|
    ensures forall i :: 0 <= i < |projects| ==>
      r[i] == if projects[i].id == id then projects[i].(isArchived := flag) else projects[i]
  {
    seq(|projects|, i requires 0 <= i < |projects| =>
      if projects[i].id == id then projects[i].(isArchived := flag) else projects[i])
  }

  /** Unarchiving undoes archiving for entries that were active. */
  lemma {:induction false} ArchiveThenUnarchive(projects: seq<SavedProject>, id: string)
    requires forall i :: 0 <= i < |projects| && projects[i].id == id ==> !projects[i].isArchived
    ensures SetArchived(SetArchived(projects, id, true), id, false) == projects
  {
    var back := SetArchived(SetArchived(projects, id, true), id, false);
    assert forall i :: 0 <= i < |projects| ==> back[i] == projects[i];
  }

  /** `handleClearCurrentForm` once confirmed: every input returns to its initial value except the object name. */
  function ClearCurrentForm(s: AppState, initialForm: FormState): (r: AppState)
    ensures r.form.objectName == s.form.objectName
    ensures r.form.(objectName := initialForm.objectName) == initialForm
    ensures r.projects == s.projects && r.workspaceName == s.workspaceName && r.currentId == s.currentId
  {
    s.(form := initialForm.(objectName := s.form.objectName))
  }

  /** The kept object name plays no part in pricing: a cleared form calculates like the initial form. */
  lemma ClearedFormPricesLikeInitial(catalog: Catalog.Catalog, s: AppState, initialForm: FormState)
    ensures var cleared := ClearCurrentForm(s, initialForm).form;
      && Calculator.StageOf(catalog, cleared) == Calculator.StageOf(catalog, initialForm)
      && (Calculator.StageOf(catalog, initialForm).Priced? ==>
            var stage := Calculator.StageOf(catalog, initialForm);
            Calculator.Total(stage.t, cleared, stage.category) == Calculator.Total(stage.t, initialForm, stage.category))
  {
    var cleared := ClearCurrentForm(s, initialForm).form;
    Calculator.NameIsNotPriced(catalog, initialForm, cleared);
  }

  /** `handleArchiveProject`: archives the entries with the id; archiving the current project clears it. */
  function ArchiveProject(s: AppState, id: string, initialForm: FormState): (r: AppState)
    ensures r.projects == SetArchived(s.projects, id, true)
    ensures r.workspaceName == s.workspaceName
    ensures IsCurrent(s.currentId, id) ==> r.currentId == None && r.form == initialForm
    ensures !IsCurrent(s.currentId, id) ==> r.currentId == s.currentId && r.form == s.form
  {
    var projects := SetArchived(s.projects, id, true);
    if IsCurrent(s.currentId, id) then s.(projects := projects, currentId := None, form := initialForm)
    else s.(projects := projects)
  }

  /** `handleUnarchiveProject`: restores the entries with the id and touches nothing else. */
  function UnarchiveProject(s: AppState, id: string): (r: AppState)
    ensures |r.projects| == |s.projects|
    ensures forall i :: 0 <= i < |s.projects| && s.projects[i].id == id ==>
      !r.projects[i].isArchived && r.projects[i] == s.projects[i].(isArchived := false)
    ensures forall i :: 0 <= i < |s.projects| && s.projects[i].id != id ==> r.projects[i] == s.projects[i]
    ensures r.workspaceName == s.workspaceName && r.currentId == s.currentId && r.form == s.form
  {
    s.(projects := SetArchived(s.projects, id, false))
  }

  // ---------------------------------------------------------------- imports

  /**
   * An element of an imported list: `null` (on which `sanitizeProject` throws) or an object.
   * Other non-object elements are not modelled.
   */
  datatype ListItem = NullItem | Item(record: ImportedRecord)

  predicate HasNull(items: seq<ListItem>) {
    items != [] && (items[0].NullItem? || HasNull(items[1..]))
  }

  /** The records before the first `null`: what a `forEach` that pushes each sanitised record reaches. */
  function ObjectPrefix(items: seq<ListItem>): (r: seq<ImportedRecord>)
    ensures |r| <= |items|
    ensures forall k :: 0 <= k < |r| ==> items[k] == Item(r[k])
    ensures |r| == |items| || items[|r|].NullItem?
  {
    if items == [] then []
    else if items[0].NullItem? then []
    else [items[0].record] + ObjectPrefix(items[1..])
  }

  /**
   * A file after `JSON.parse`: `Unparsable` when parsing throws; an object is seen both as a
   * workspace bundle (its name and its `projects` when that is an array) and as one record.
   * Non-null scalar values are not modelled.
   */
  datatype ParsedJson =
    | Unparsable
    | JsonNull
    | JsonArray(items: seq<ListItem>)
    | JsonObject(name: string, projects: Option<seq<ListItem>>, asRecord: ImportedRecord)

  /** What the workspace import decides before asking for confirmation. */
  datatype WorkspaceImport = Rejected | NoProjects | Replace(name: string, projects: seq<SavedProject>)

  /** The project list a workspace file offers: a bare array, or an object's `projects` array. */
  function WorkspaceList(parsed: ParsedJson): Option<seq<ListItem>> {
    match parsed
    case JsonArray(items) => Some(items)
    case JsonObject(_, projects, _) => projects
    case _ => None
  }

  /**
   * Reads a workspace file: a file without a project list, or whose list holds a `null`, is
   * rejected; an empty list is refused; otherwise every element is sanitised in order.
   */
  function ReadWorkspaceFile(parsed: ParsedJson, clock: nat -> int, nextId: nat -> string): (r: WorkspaceImport)
    requires forall k: nat :: nextId(k) != ""
    ensures r.Rejected? <==> WorkspaceList(parsed).None? || HasNull(WorkspaceList(parsed).value)
    ensures r.NoProjects? <==> WorkspaceList(parsed) == Some([])
    ensures r.Replace? ==>
      && |r.projects| == |WorkspaceList(parsed).value| > 0
      && r.projects == SanitizeAll(ObjectPrefix(WorkspaceList(parsed).value), clock, nextId)
      && r.name == (if parsed.JsonArray? then ImportedWorkspaceName
                    else if parsed.name != "" then parsed.name else UnnamedProject)
  {
    match WorkspaceList(parsed)
    case None => Rejected
    case Some(items) =>
      PrefixStopsAtNull(items);
      if HasNull(items) then Rejected
      else
        var projects := SanitizeAll(ObjectPrefix(items), clock, nextId);
        if projects == [] then NoProjects
        else if parsed.JsonArray? then Replace(ImportedWorkspaceName, projects)
        else Replace(if parsed.name != "" then parsed.name else UnnamedProject, projects)
  }

  /** `handleImportWorkspace` once confirmed: the file's projects replace the list and the form is reset. */
  function ImportWorkspace(s: AppState, parsed: ParsedJson, clock: nat -> int, nextId: nat -> string, initialForm: FormState)
    : (r: AppState)
    requires forall k: nat :: nextId(k) != ""
    ensures !ReadWorkspaceFile(parsed, clock, nextId).Replace? ==> r == s
    ensures ReadWorkspaceFile(parsed, clock, nextId).Replace? ==>
      var imported := ReadWorkspaceFile(parsed, clock, nextId);
      r == AppState(imported.projects, imported.name, None, initialForm)
  {
    match ReadWorkspaceFile(parsed, clock, nextId)
    case Replace(name, projects) => AppState(projects, name, None, initialForm)
    case _ => s
  }

  /** The elements the multi-file import walks for one file: an array, an object's `projects`, or the object. */
  function FileItems(f: ParsedJson): seq<ListItem> {
    match f
    case Unparsable => []
    case JsonNull => []
    case JsonArray(items) => items
    case JsonObject(_, projects, asRecord) => if projects.Some? then projects.value else [Item(asRecord)]
  }

  /** A file fails when it does not parse, is `null`, or its list holds a `null`. */
  predicate FileFails(f: ParsedJson) {
    f.Unparsable? || f.JsonNull? || HasNull(FileItems(f))
  }

  /** The records one file contributes, including those pushed before it failed. */
  function FileRecords(f: ParsedJson): seq<ImportedRecord> {
    ObjectPrefix(FileItems(f))
  }

  /** All records of `files`, file after file. */
  function AllRecords(files: seq<ParsedJson>): seq<ImportedRecord> {
    if files == [] then [] else AllRecords(files[..|files| - 1]) + FileRecords(files[|files| - 1])
  }

  /** Stopping at the first `null` is reaching the end exactly when there is no `null`. */
  lemma {:induction false} PrefixStopsAtNull(items: seq<ListItem>)
    ensures HasNull(items) <==> |ObjectPrefix(items)| < |items|
  {
    if items != [] && items[0].Item? {
      PrefixStopsAtNull(items[1..]);
    }
  }

  /**
   * The inner `forEach` over one file's elements: pushes each sanitised record until an
   * element throws; `ok` says whether the whole list was read.
   */
  method PushFileRecords(ghost before: seq<ImportedRecord>, acc: seq<SavedProject>, items: seq<ListItem>,
                         clock: nat -> int, nextId: nat -> string)
    returns (pushed: seq<SavedProject>, ok: bool)
    requires forall k: nat :: nextId(k) != ""
    requires acc == SanitizeAll(before, clock, nextId)
    ensures pushed == SanitizeAll(before + ObjectPrefix(items), clock, nextId)
    ensures ok <==> !HasNull(items)
  {
    ghost var records := ObjectPrefix(items);
    ghost var read := before;
    pushed := acc;
    var j := 0;
    assert before + records[..0] == before;
    while j < |items| && items[j].Item?
      invariant 0 <= j <= |records|
      invariant read == before + records[..j]
      invariant pushed == SanitizeAll(read, clock, nextId)
    {
      var record := items[j].record;
      assert j < |records| && records[j] == record;
      SanitizeOneMore(read, record, clock, nextId);
      assert |pushed| == |read|;
      pushed := pushed + [SanitizeProject(record, clock(|pushed|), nextId(|pushed|))];
      assert records[..j + 1] == records[..j] + [record];
      read := read + [record];
      j := j + 1;
    }
    assert j == |records|;
    assert records[..j] == records;
    PrefixStopsAtNull(items);
    ok := j == |items|;
  }

  /** Reading one more file appends that file's records. */
  lemma RecordsOfNextFile(files: seq<ParsedJson>, i: nat)
    requires i < |files|
    ensures AllRecords(files[..i + 1]) == AllRecords(files[..i]) + FileRecords(files[i])
  {
    assert files[..i + 1][..i] == files[..i];
  }

  /** The indices of the failing files, in order. */
  function FailedFiles(files: seq<ParsedJson>): seq<nat> {
    if files == [] then []
    else FailedFiles(files[..|files| - 1]) + (if FileFails(files[|files| - 1]) then [|files| - 1] else [])
  }

  /** The failure report names exactly the files that fail. */
  lemma {:induction false} FailedFilesExactly(files: seq<ParsedJson>)
    ensures forall i: nat :: i in FailedFiles(files) <==> i < |files| && FileFails(files[i])
  {
    if files != [] {
      var prefix := files[..|files| - 1];
      FailedFilesExactly(prefix);
      forall i: nat ensures i in FailedFiles(files) <==> i < |files| && FileFails(files[i]) {
        if i < |prefix| {
          assert files[i] == prefix[i];
        }
      }
    }
  }

  /** One iteration of the file loop: parse outcome, then the pushes; reports whether the file failed. */
  method ReadOneFile(ghost before: seq<ImportedRecord>, acc: seq<SavedProject>, f: ParsedJson,
                     clock: nat -> int, nextId: nat -> string)
    returns (pushed: seq<SavedProject>, fileFailed: bool)
    requires forall k: nat :: nextId(k) != ""
    requires acc == SanitizeAll(before, clock, nextId)
    ensures pushed == SanitizeAll(before + FileRecords(f), clock, nextId)
    ensures fileFailed <==> FileFails(f)
  {
    if f.Unparsable? || f.JsonNull? {
      assert before + FileRecords(f) == before;
      pushed, fileFailed := acc, true;
    } else {
      var ok;
      pushed, ok := PushFileRecords(before, acc, FileItems(f), clock, nextId);
      fileFailed := !ok;
    }
  }

  /**
   * `handleImportMultipleProjects`: reads every file in order and pushes each sanitised record;
   * a failing file is reported, keeping what it pushed before the failure. The collected
   * projects are then prepended, in file order, to the list.
   */
  method ImportMultipleProjects(s: AppState, files: seq<ParsedJson>, clock: nat -> int, nextId: nat -> string)
    returns (r: AppState, failed: seq<nat>)
    requires forall k: nat :: nextId(k) != ""
    ensures r == s.(projects := SanitizeAll(AllRecords(files), clock, nextId) + s.projects)
    ensures forall i: nat :: i in failed <==> i < |files| && FileFails(files[i])
  {
    var projectsToAdd: seq<SavedProject> := [];
    failed := [];
    var i := 0;
    while i < |files|
      invariant 0 <= i <= |files|
      invariant projectsToAdd == SanitizeAll(AllRecords(files[..i]), clock, nextId)
      invariant failed == FailedFiles(files[..i])
    {
      RecordsOfNextFile(files, i);
      assert files[..i + 1][..i] == files[..i];
      var fileFailed;
      projectsToAdd, fileFailed := ReadOneFile(AllRecords(files[..i]), projectsToAdd, files[i], clock, nextId);
      if fileFailed {
        failed := failed + [i];
      }
      i := i + 1;
    }
    assert files[..i] == files;
    FailedFilesExactly(files);
    r := s.(projects := projectsToAdd + s.projects);
  }
}
