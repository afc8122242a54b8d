/**
 The versions of one deliverable template and the packages created from them: upload, configure,
 activate and create of backend/app/api/deliverables.py, each request as one step.
 */
module TemplateModel {
  /** `options`: header text, write mode, merge strategy, required flag, default and format. */
  datatype Column = Column(field: string, excelColumn: string, options: string)

  datatype Layout = Layout(headerStart: int, headerEnd: int, dataStart: int, direction: string)

  datatype Sheet = Sheet(section: string, name: string, layout: Layout, enabled: bool, columns: seq<Column>)

  /** A sheet of the uploaded workbook with the header rows found in it. */
  datatype WorkbookSheet = WorkbookSheet(title: string, headerStart: int, headerEnd: int)

  type Config = seq<Sheet>

  datatype Version = Version(number: nat, fileHash: nat, workbook: seq<WorkbookSheet>, config: Config, active: bool)

  /** `created` is the configuration at the time of creation; the program keeps the reference only. */
  datatype Package = Package(version: nat, created: Config)

  datatype Store = Store(current: nat, versions: seq<Version>, packages: seq<Package>)

  /** `structural`: the new mappings have an error other than a missing section.
      `usable`: template enabled, type compatible, file available and template valid. */
  datatype Event = Upload(hash: nat, workbook: seq<WorkbookSheet>)
                 | Configure(v: nat, config: Config, structural: bool)
                 | Activate(v: nat, valid: bool)
                 | Create(v: nat, usable: bool)

  datatype Answer = Done | NotFound | Conflict | BadRequest | ServerError

  // ---------------------------------------------------------------- what the database refuses

  /** uq_template_sheet_section and uq_template_column_mapping. */
  ghost predicate RowsUnique(config: Config) {
    && (forall i, j :: 0 <= i < j < |config| ==> !(config[i].section == config[j].section && config[i].name == config[j].name))
    && (forall i :: 0 <= i < |config| ==> ColumnsUnique(config[i].columns))
  }

  ghost predicate ColumnsUnique(columns: seq<Column>) {
    forall i, j :: 0 <= i < j < |columns| ==>
      !(columns[i].field == columns[j].field && columns[i].excelColumn == columns[j].excelColumn)
  }

  predicate HasSheet(workbook: seq<WorkbookSheet>, name: string) {
    exists i :: 0 <= i < |workbook| && workbook[i].title == name
  }

  ghost predicate SheetsExist(config: Config, workbook: seq<WorkbookSheet>) {
    forall i :: 0 <= i < |config| ==> HasSheet(workbook, config[i].name)
  }

  predicate Referenced(s: Store, v: nat) {
    exists i :: 0 <= i < |s.packages| && s.packages[i].version == v
  }

  /** The configuration of a fresh upload: every sheet, disabled. */
  function Initial(workbook: seq<WorkbookSheet>): (config: Config)
    ensures |config| == |workbook|
    ensures forall i :: 0 <= i < |workbook| ==> config[i] == InitialSheet(workbook[i])
  {
    seq(|workbook|, i requires 0 <= i < |workbook| => InitialSheet(workbook[i]))
  }

  function InitialSheet(sheet: WorkbookSheet): Sheet {
    Sheet("target_field", sheet.title, Layout(sheet.headerStart, sheet.headerEnd, sheet.headerEnd + 1, "vertical"), false, [])
  }

  // ---------------------------------------------------------------- the requests

  predicate HasHash(versions: seq<Version>, hash: nat) {
    exists i :: 0 <= i < |versions| && versions[i].fileHash == hash
  }

  predicate HasNumber(versions: seq<Version>, number: nat) {
    exists i :: 0 <= i < |versions| && versions[i].number == number
  }

  function UploadStep(s: Store, hash: nat, workbook: seq<WorkbookSheet>): (Store, Answer) {
    if HasHash(s.versions, hash) then (s, Done)
    else if HasNumber(s.versions, s.current + 1) then (s, ServerError)
    else
      (s.(current := s.current + 1,
          versions := s.versions + [Version(s.current + 1, hash, workbook, Initial(workbook), false)]), Done)
  }

  ghost function ConfigureStep(s: Store, v: nat, config: Config, structural: bool): (Store, Answer) {
    if v >= |s.versions| then (s, NotFound)
    else if s.versions[v].active || Referenced(s, v) then (s, Conflict)
    else if !SheetsExist(config, s.versions[v].workbook) then (s, BadRequest)
    else if !RowsUnique(config) then (s, ServerError)
    else if structural then (s, BadRequest)
    else (s.(versions := s.versions[v := s.versions[v].(config := config)]), Done)
  }

  function ActivateStep(s: Store, v: nat, valid: bool): (Store, Answer) {
    if v >= |s.versions| then (s, NotFound)
    else if !valid then (s, Conflict)
    else (s.(current := s.versions[v].number, versions := s.versions[v := s.versions[v].(active := true)]), Done)
  }

  function CreateStep(s: Store, v: nat, usable: bool): (Store, Answer) {
    if v >= |s.versions| then (s, NotFound)
    else if !s.versions[v].active || !usable then (s, Conflict)
    else (s.(packages := s.packages + [Package(v, s.versions[v].config)]), Done)
  }

  ghost function Step(s: Store, e: Event): (Store, Answer) {
    match e
    case Upload(hash, workbook) => UploadStep(s, hash, workbook)
    case Configure(v, config, structural) => ConfigureStep(s, v, config, structural)
    case Activate(v, valid) => ActivateStep(s, v, valid)
    case Create(v, usable) => CreateStep(s, v, usable)
  }

  ghost function Run(s: Store, events: seq<Event>): Store
    decreases |events|
  {
    if events == [] then s else Run(Step(s, events[0]).0, events[1..])
  }

  function NewTemplate(): Store {
    Store(0, [], [])
  }

  // ---------------------------------------------------------------- what every run keeps

  ghost predicate GoodConfig(version: Version) {
    SheetsExist(version.config, version.workbook) && RowsUnique(version.config)
  }

  /** Versions are numbered 1 to n, file hashes differ, every configuration names sheets of its
      workbook once per section, and every package sits on an active version that is still
      configured as it was when the package was created. */
  ghost predicate Inv(s: Store) {
    && (forall i :: 0 <= i < |s.versions| ==> s.versions[i].number == i + 1 && GoodConfig(s.versions[i]))
    && (forall i, j :: 0 <= i < j < |s.versions| ==> s.versions[i].fileHash != s.versions[j].fileHash)
    && s.current <= |s.versions| && (s.versions != [] ==> s.current >= 1)
    && (forall i :: 0 <= i < |s.packages| ==>
          var p := s.packages[i];
          p.version < |s.versions| && s.versions[p.version].active && s.versions[p.version].config == p.created)
  }

  /** A workbook never has two sheets with one title. */
  ghost predicate Titled(e: Event) {
    e.Upload? ==> TitlesDiffer(e.workbook)
  }

  ghost predicate TitlesDiffer(workbook: seq<WorkbookSheet>) {
    forall i, j :: 0 <= i < j < |workbook| ==> workbook[i].title != workbook[j].title
  }

  lemma InitialIsGood(workbook: seq<WorkbookSheet>)
    requires TitlesDiffer(workbook)
    ensures SheetsExist(Initial(workbook), workbook) && RowsUnique(Initial(workbook))
  {
  }

  lemma UploadKeepsInv(s: Store, hash: nat, workbook: seq<WorkbookSheet>)
    requires Inv(s) && TitlesDiffer(workbook)
    ensures Inv(UploadStep(s, hash, workbook).0)
  {
    InitialIsGood(workbook);
    if s.current < |s.versions| {
      assert s.versions[s.current].number == s.current + 1;
    }
  }

  lemma StepKeepsInv(s: Store, e: Event)
    requires Inv(s) && Titled(e)
    ensures Inv(Step(s, e).0)
  {
    match e
    case Upload(hash, workbook) => UploadKeepsInv(s, hash, workbook);
    case Configure(v, config, structural) =>
      assert forall i :: 0 <= i < |s.packages| && s.packages[i].version == v ==> Referenced(s, v);
    case Activate(v, valid) =>
    case Create(v, usable) =>
  }

  lemma {:induction false} EveryRunKeepsInv(s: Store, events: seq<Event>)
    requires Inv(s) && forall e :: e in events ==> Titled(e)
    ensures Inv(Run(s, events))
    decreases |events|
  {
    if events != [] {
      StepKeepsInv(s, events[0]);
      EveryRunKeepsInv(Step(s, events[0]).0, events[1..]);
    }
  }

  /** After any requests, every package still has the configuration it was created with. */
  lemma PackagesKeepTheirConfiguration(events: seq<Event>)
    requires forall e :: e in events ==> Titled(e)
    ensures var s := Run(NewTemplate(), events);
            && (forall i :: 0 <= i < |s.packages| ==>
                  s.packages[i].version < |s.versions| && s.versions[s.packages[i].version].config == s.packages[i].created)
            && (forall i :: 0 <= i < |s.versions| ==> s.versions[i].number == i + 1 && GoodConfig(s.versions[i]))
  {
    EveryRunKeepsInv(NewTemplate(), events);
  }

  ghost predicate Frozen(s: Store, v: nat) {
    v < |s.versions| && (s.versions[v].active || Referenced(s, v))
  }

  lemma StepKeepsFrozen(s: Store, e: Event, v: nat)
    requires Frozen(s, v)
    ensures var t := Step(s, e).0; Frozen(t, v) && t.versions[v].config == s.versions[v].config
  {
    var t := Step(s, e).0;
    if Referenced(s, v) {
      var i :| 0 <= i < |s.packages| && s.packages[i].version == v;
      assert t.packages[i] == s.packages[i];
    }
  }

  /** Once active or used by a package, a version keeps its sheet and column mappings for ever. */
  lemma {:induction false} FrozenForEver(s: Store, events: seq<Event>, v: nat)
    requires Frozen(s, v)
    ensures Frozen(Run(s, events), v) && Run(s, events).versions[v].config == s.versions[v].config
    decreases |events|
  {
    if events != [] {
      StepKeepsFrozen(s, events[0], v);
      FrozenForEver(Step(s, events[0]).0, events[1..], v);
    }
  }

  // ---------------------------------------------------------------- version numbers

  /** A new file becomes the next version exactly when the template's number is the newest. */
  lemma UploadOutcome(s: Store, hash: nat, workbook: seq<WorkbookSheet>)
    requires Inv(s) && !HasHash(s.versions, hash)
    ensures var (t, answer) := UploadStep(s, hash, workbook);
            if s.current == |s.versions|
            then answer == Done && |t.versions| == |s.versions| + 1 && t.versions[..|s.versions|] == s.versions
                 && t.versions[|s.versions|].fileHash == hash && t.current == |t.versions|
            else answer == ServerError && t == s
  {
    if s.current < |s.versions| {
      assert s.versions[s.current].number == s.current + 1;
    }
  }

  /** The run activates the newest of n versions. */
  ghost predicate ActivatesNewest(events: seq<Event>, n: nat) {
    exists i :: 0 <= i < |events| && events[i].Activate? && events[i].valid && events[i].v + 1 == n
  }

  ghost predicate AlwaysBehind(s: Store, events: seq<Event>)
    decreases |events|
  {
    s.current < |s.versions| && (events == [] || AlwaysBehind(Step(s, events[0]).0, events[1..]))
  }

  lemma StepWhenBehind(s: Store, e: Event)
    requires Inv(s) && s.current < |s.versions|
    ensures var t := Step(s, e).0;
            && |t.versions| == |s.versions|
            && (t.current < |t.versions| <==> !(e.Activate? && e.valid && e.v + 1 == |s.versions|))
  {
    assert s.versions[s.current].number == s.current + 1;
  }

  /** After an older version was activated the template stays behind, and no upload adds a version,
      exactly until the newest is activated. */
  lemma {:induction false} BehindUntilNewestIsActivated(s: Store, events: seq<Event>)
    requires Inv(s) && s.current < |s.versions|
    requires forall e :: e in events ==> Titled(e)
    ensures AlwaysBehind(s, events) <==> !ActivatesNewest(events, |s.versions|)
    ensures AlwaysBehind(s, events) ==> |Run(s, events).versions| == |s.versions|
    decreases |events|
  {
    if events != [] {
      var e, rest, n := events[0], events[1..], |s.versions|;
      StepKeepsInv(s, e);
      StepWhenBehind(s, e);
      assert forall i :: 0 <= i < |rest| ==> rest[i] == events[i + 1];
      assert forall i :: 1 <= i < |events| ==> events[i] == rest[i - 1];
      var t := Step(s, e).0;
      if t.current < |t.versions| {
        BehindUntilNewestIsActivated(t, rest);
      }
    }
  }

  /** Activating any version but the newest makes the next new file fail. */
  lemma ActivatingAnOlderVersionBlocksUploads(s: Store, v: nat, hash: nat, workbook: seq<WorkbookSheet>)
    requires Inv(s) && v < |s.versions| && !HasHash(s.versions, hash)
    ensures UploadStep(ActivateStep(s, v, true).0, hash, workbook).1 == ServerError <==> v + 1 < |s.versions|
  {
    var t := ActivateStep(s, v, true).0;
    StepKeepsInv(s, Activate(v, true));
    assert forall i :: 0 <= i < |t.versions| ==> t.versions[i].fileHash == s.versions[i].fileHash;
    UploadOutcome(t, hash, workbook);
  }

  lemma TwoUploads(a: nat, b: nat, workbook: seq<WorkbookSheet>)
    requires a != b && TitlesDiffer(workbook)
    ensures var s := Run(NewTemplate(), [Upload(a, workbook), Upload(b, workbook)]);
            Inv(s) && |s.versions| == 2 && s.versions[0].fileHash == a && s.versions[1].fileHash == b
  {
    var e1, e2, s0 := Upload(a, workbook), Upload(b, workbook), NewTemplate();
    var s1 := UploadStep(s0, a, workbook).0;
    assert [e1, e2][1..] == [e2] && [e2][1..] == [];
    assert Run(s0, [e1, e2]) == Run(s1, [e2]) == Run(UploadStep(s1, b, workbook).0, []);
    EveryRunKeepsInv(s0, [e1, e2]);
  }

  /** Such a state is reached: two uploads, the first version activated, and a third file fails. */
  lemma ThirdFileFails(a: nat, b: nat, c: nat, workbook: seq<WorkbookSheet>)
    requires a != b && b != c && a != c && TitlesDiffer(workbook)
    ensures var s := Run(NewTemplate(), [Upload(a, workbook), Upload(b, workbook)]);
            UploadStep(ActivateStep(s, 0, true).0, c, workbook).1 == ServerError
  {
    TwoUploads(a, b, workbook);
    ActivatingAnOlderVersionBlocksUploads(Run(NewTemplate(), [Upload(a, workbook), Upload(b, workbook)]), 0, c, workbook);
  }

  // ---------------------------------------------------------------- what the requests have done

  ghost predicate IsActive(s: Store, v: nat) {
    v < |s.versions| && s.versions[v].active
  }

  /** A valid activation of the version is requested along the run while it exists. */
  ghost predicate ActivatedAlong(s: Store, events: seq<Event>, v: nat)
    decreases |events|
  {
    events != [] &&
    ((events[0] == Activate(v, true) && v < |s.versions|) || ActivatedAlong(Step(s, events[0]).0, events[1..], v))
  }

  /** Along any run a version is active exactly from its first valid activation on. */
  lemma {:induction false} ActiveByActivation(s: Store, events: seq<Event>, v: nat)
    ensures IsActive(Run(s, events), v) <==> IsActive(s, v) || ActivatedAlong(s, events, v)
    decreases |events|
  {
    if events != [] {
      ActiveByActivation(Step(s, events[0]).0, events[1..], v);
    }
  }

  function Titles(workbook: seq<WorkbookSheet>): set<string> {
    set sheet | sheet in workbook :: sheet.title
  }

  /** Every sheet is one of the workbook. */
  ghost predicate NamesSheets(config: Config, workbook: seq<WorkbookSheet>) {
    forall i :: 0 <= i < |config| ==> config[i].name in Titles(workbook)
  }

  /** No section names a sheet twice, and no sheet a field and column twice. */
  ghost predicate NamesOnce(config: Config) {
    && (forall i, j :: 0 <= i < j < |config| ==> config[i].section != config[j].section || config[i].name != config[j].name)
    && (forall i :: 0 <= i < |config| ==>
          var columns := config[i].columns;
          forall j, k :: 0 <= j < k < |columns| ==>
            columns[j].field != columns[k].field || columns[j].excelColumn != columns[k].excelColumn)
  }

  /** What a configure request must meet. */
  ghost predicate Configurable(s: Store, v: nat, config: Config) {
    && v < |s.versions| && !s.versions[v].active
    && (forall i :: 0 <= i < |s.packages| ==> s.packages[i].version != v)
    && NamesSheets(config, s.versions[v].workbook) && NamesOnce(config)
  }

  lemma NamesOnceMeans(config: Config)
    ensures NamesOnce(config) <==> RowsUnique(config)
  {
    forall i | 0 <= i < |config|
      ensures ColumnsUnique(config[i].columns) <==>
        var columns := config[i].columns;
        forall j, k :: 0 <= j < k < |columns| ==>
          columns[j].field != columns[k].field || columns[j].excelColumn != columns[k].excelColumn
    {
    }
  }

  lemma NamesSheetsMeans(config: Config, workbook: seq<WorkbookSheet>)
    ensures NamesSheets(config, workbook) <==> SheetsExist(config, workbook)
  {
    forall i | 0 <= i < |config| ensures HasSheet(workbook, config[i].name) <==> config[i].name in Titles(workbook) {
      if j :| 0 <= j < |workbook| && workbook[j].title == config[i].name {
        assert workbook[j] in workbook;
      }
    }
  }

  /** The configuration the accepted requests of the run leave the version with. */
  ghost function LastConfig(s: Store, events: seq<Event>, v: nat, before: Config): Config
    decreases |events|
  {
    if events == [] then before
    else
      var e := events[0];
      LastConfig(Step(s, e).0, events[1..], v,
                 if e.Configure? && e.v == v && !e.structural && Configurable(s, v, e.config) then e.config else before)
  }

  lemma StepConfig(s: Store, e: Event, v: nat)
    requires v < |s.versions|
    ensures var t := Step(s, e).0;
      && v < |t.versions|
      && t.versions[v].config ==
           (if e.Configure? && e.v == v && !e.structural && Configurable(s, v, e.config) then e.config else s.versions[v].config)
  {
    if e.Configure? && e.v == v {
      NamesOnceMeans(e.config);
      NamesSheetsMeans(e.config, s.versions[v].workbook);
    }
  }

  /** Along any run a version has the configuration of the last accepted request for it. */
  lemma {:induction false} ConfiguredByTheLast(s: Store, events: seq<Event>, v: nat)
    requires v < |s.versions|
    ensures var t := Run(s, events);
            v < |t.versions| && t.versions[v].config == LastConfig(s, events, v, s.versions[v].config)
    decreases |events|
  {
    if events != [] {
      StepConfig(s, events[0], v);
      ConfiguredByTheLast(Step(s, events[0]).0, events[1..], v);
    }
  }

  /** The number of the version that was uploaded or validly activated last. */
  ghost function LastNumber(s: Store, events: seq<Event>, before: nat): nat
    decreases |events|
  {
    if events == [] then before
    else
      var e, t := events[0], Step(s, events[0]).0;
      LastNumber(t, events[1..],
                 if |t.versions| > |s.versions| then |t.versions|
                 else if e.Activate? && e.valid && e.v < |s.versions| then e.v + 1 else before)
  }

  lemma StepNumber(s: Store, e: Event)
    requires Inv(s)
    ensures var t := Step(s, e).0;
      t.current == if |t.versions| > |s.versions| then |t.versions|
                   else if e.Activate? && e.valid && e.v < |s.versions| then e.v + 1 else s.current
  {
    if s.current < |s.versions| {
      assert s.versions[s.current].number == s.current + 1;
    }
  }

  /** Along any run the template carries the number of the version uploaded or activated last. */
  lemma {:induction false} NumberOfTheLast(s: Store, events: seq<Event>)
    requires Inv(s) && forall e :: e in events ==> Titled(e)
    ensures Run(s, events).current == LastNumber(s, events, s.current)
    decreases |events|
  {
    if events != [] {
      StepKeepsInv(s, events[0]);
      StepNumber(s, events[0]);
      NumberOfTheLast(Step(s, events[0]).0, events[1..]);
    }
  }

  /** How a request is answered that does not add to the tables, and that it changes nothing then: a
      missing version is not found; an active or used one, an invalid template and an inactive or
      unusable version are in conflict; unknown sheets and structural errors are bad requests; a
      repeated row fails in the database. A file that was uploaded before is accepted silently. */
  lemma RefusalOutcome(s: Store, e: Event)
    ensures var (t, answer) := Step(s, e);
      && (answer != Done ==> t == s)
      && (!e.Upload? ==> (answer == NotFound <==> e.v >= |s.versions|))
      && (e.Upload? && (exists i :: 0 <= i < |s.versions| && s.versions[i].fileHash == e.hash) ==> t == s && answer == Done)
      && (e.Activate? && e.v < |s.versions| ==> answer == if e.valid then Done else Conflict)
      && (e.Configure? && e.v < |s.versions| ==>
            answer == if s.versions[e.v].active || e.v in (set p | p in s.packages :: p.version) then Conflict
                      else if !NamesSheets(e.config, s.versions[e.v].workbook) then BadRequest
                      else if !NamesOnce(e.config) then ServerError
                      else if e.structural then BadRequest else Done)
  {
    if e.Configure? && e.v < |s.versions| {
      NamesOnceMeans(e.config);
      NamesSheetsMeans(e.config, s.versions[e.v].workbook);
      assert Referenced(s, e.v) <==> e.v in (set p | p in s.packages :: p.version);
    }
  }

  /** What a package is created from: exactly an active version that is usable, with its
      configuration; and how the other requests are answered. */
  lemma CreateOutcome(s: Store, v: nat, usable: bool)
    ensures var (t, answer) := CreateStep(s, v, usable);
      if v < |s.versions| && s.versions[v].active && usable
      then answer == Done && t == s.(packages := s.packages + [Package(v, s.versions[v].config)])
      else t == s && answer == if v < |s.versions| then Conflict else NotFound
  {
  }

  /** The sheets of a fresh upload: one for each of the workbook, with its header rows, the data right
      below them, disabled and without columns. */
  lemma FreshSheets(s: Store, hash: nat, workbook: seq<WorkbookSheet>, i: nat)
    requires Inv(s) && i < |workbook| && s.current == |s.versions|
    requires forall j :: 0 <= j < |s.versions| ==> s.versions[j].fileHash != hash
    ensures var versions := UploadStep(s, hash, workbook).0.versions;
      && |versions| == |s.versions| + 1
      && var added := versions[|s.versions|];
      && !added.active && added.fileHash == hash && added.workbook == workbook && |added.config| == |workbook|
      && var sheet := added.config[i];
      && sheet.name == workbook[i].title && sheet.section == "target_field" && !sheet.enabled && sheet.columns == []
      && sheet.layout.headerStart == workbook[i].headerStart && sheet.layout.headerEnd == workbook[i].headerEnd
      && sheet.layout.dataStart == workbook[i].headerEnd + 1 && sheet.layout.direction == "vertical"
  {
  }
}
