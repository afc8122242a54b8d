/** The template requests as code over the version and package tables. */
module TemplateService {
  import opened TemplateModel

  class TemplateTables {
    var current: nat
    var versions: seq<Version>
    var packages: seq<Package>

    ghost function View(): Store
      reads this
    {
      Store(current, versions, packages)
    }

    ghost predicate Valid()
      reads this
    {
      Inv(View())
    }

    constructor ()
      ensures Valid() && View() == NewTemplate()
    {
      current, versions, packages := 0, [], [];
    }

    method UploadVersion(hash: nat, workbook: seq<WorkbookSheet>) returns (answer: Answer)
      requires Valid() && TitlesDiffer(workbook)
      modifies this
      ensures Valid() && (View(), answer) == UploadStep(old(View()), hash, workbook)
    {
      UploadKeepsInv(View(), hash, workbook);
      if HasHash(versions, hash) {
        return Done;
      }
      var number := current + 1;
      if HasNumber(versions, number) {
        return ServerError;
      }
      var config := [];
      for i := 0 to |workbook|
        invariant config == Initial(workbook)[..i]
      {
        config := config + [InitialSheet(workbook[i])];
      }
      assert Initial(workbook)[..|workbook|] == Initial(workbook);
      versions := versions + [Version(number, hash, workbook, config, false)];
      current := number;
      return Done;
    }

    method ConfigureVersion(v: nat, config: Config, structural: bool) returns (answer: Answer)
      requires Valid()
      modifies this
      ensures Valid() && (View(), answer) == ConfigureStep(old(View()), v, config, structural)
    {
      StepKeepsInv(View(), Configure(v, config, structural));
      if v >= |versions| {
        return NotFound;
      }
      if versions[v].active || Referenced(Store(current, versions, packages), v) {
        return Conflict;
      }
      for i := 0 to |config|
        invariant forall j :: 0 <= j < i ==> HasSheet(versions[v].workbook, config[j].name)
      {
        if !HasSheet(versions[v].workbook, config[i].name) {
          return BadRequest;
        }
      }
      var accepted := InsertRows(config);
      if !accepted {
        return ServerError;
      }
      if structural {
        return BadRequest;
      }
      versions := versions[v := versions[v].(config := config)];
      return Done;
    }

    /** Inserting the rows one by one fails at the first pair the table already has. */
    static method InsertRows(config: Config) returns (accepted: bool)
      ensures accepted <==> RowsUnique(config)
    {
      for i := 0 to |config|
        invariant RowsUnique(config[..i])
      {
        for j := 0 to i
          invariant forall k :: 0 <= k < j ==> !(config[k].section == config[i].section && config[k].name == config[i].name)
        {
          if config[j].section == config[i].section && config[j].name == config[i].name {
            return false;
          }
        }
        var columnsAccepted := InsertColumns(config[i].columns);
        if !columnsAccepted {
          return false;
        }
      }
      assert config[..|config|] == config;
      return true;
    }

    static method InsertColumns(columns: seq<Column>) returns (accepted: bool)
      ensures accepted <==> ColumnsUnique(columns)
    {
      for i := 0 to |columns|
        invariant forall k, j :: 0 <= k < j < i ==>
          !(columns[k].field == columns[j].field && columns[k].excelColumn == columns[j].excelColumn)
      {
        for j := 0 to i
          invariant forall k :: 0 <= k < j ==>
            !(columns[k].field == columns[i].field && columns[k].excelColumn == columns[i].excelColumn)
        {
          if columns[j].field == columns[i].field && columns[j].excelColumn == columns[i].excelColumn {
            return false;
          }
        }
      }
      return true;
    }

    method ActivateVersion(v: nat, valid: bool) returns (answer: Answer)
      requires Valid()
      modifies this
      ensures Valid() && (View(), answer) == ActivateStep(old(View()), v, valid)
    {
      StepKeepsInv(View(), Activate(v, valid));
      if v >= |versions| {
        return NotFound;
      }
      if !valid {
        return Conflict;
      }
      current := versions[v].number;
      versions := versions[v := versions[v].(active := true)];
      return Done;
    }

    method CreatePackage(v: nat, usable: bool) returns (answer: Answer)
      requires Valid()
      modifies this
      ensures Valid() && (View(), answer) == CreateStep(old(View()), v, usable)
      ensures answer == Done <==> v < |versions| && versions[v].active && usable
      ensures packages == if answer == Done then old(packages) + [Package(v, versions[v].config)] else old(packages)
    {
      CreateOutcome(View(), v, usable);
      StepKeepsInv(View(), Create(v, usable));
      if v >= |versions| {
        return NotFound;
      }
      if !versions[v].active || !usable {
        return Conflict;
      }
      packages := packages + [Package(v, versions[v].config)];
      return Done;
    }
  }
}
