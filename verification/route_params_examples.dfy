/**
 * A worked scan: `app.param('package', ...)` followed by
 * `app.get('/:package/:version?', ...)`. `package` is validated, the optional
 * `version` is not, and the empty segment before the leading '/' is no
 * parameter.
 */
module RouteParamsExamples {
  import opened RouteParams
  import Text
  import opened Options

  const Path := "/:package/:version?"
  const Pieces := ["", ":package", ":version?"]
  const Name := "package"

  function ParamCall(): Registration { Registration("param", "'" + Name + "'") }
  function GetRoute(): Registration { Registration("get", "'" + Path + "'") }

  lemma PathPieces()
    ensures Text.Split(Path, '/') == Pieces
  {
    assert Text.Join(Pieces, '/') == Path;
    Text.SplitJoin(Pieces, '/');
  }

  lemma GetSegments()
    ensures Segments(GetRoute()) == Pieces
  {
    Text.UnquoteQuoted('\'', Path, '\'');
    PathPieces();
  }

  lemma ParamSegments()
    ensures Segments(ParamCall()) == [Name]
  {
    Text.UnquoteQuoted('\'', Name, '\'');
    assert Text.Join([Name], '/') == Name;
    Text.SplitJoin([Name], '/');
  }

  lemma PieceNames()
    ensures ParamName("") == None
    ensures ParamName(":package") == Some("package")
    ensures ParamName(":version?") == Some("version")
  {
    ParamNamePattern(":package", "package");
    ParamNamePattern(":version?", "version");
  }

  lemma FirstStep()
    ensures Collect([ParamCall()]) == map[Name := Ok]
  {
    ParamSegments();
    assert [ParamCall()][..0] == [];
    assert VisitAll(map[], ParamCall(), [Name]) == map[Name := Ok];
  }

  lemma SecondStep()
    ensures VisitAll(map[Name := Ok], GetRoute(), Pieces) == map[Name := Ok, "version" := FirstUse(GetRoute())]
  {
    PieceNames();
    var m1 := map[Name := Ok];
    assert Pieces[1..] == [":package", ":version?"];
    assert VisitAll(m1, GetRoute(), Pieces) == VisitAll(m1, GetRoute(), [":package", ":version?"]);
    assert VisitAll(m1, GetRoute(), [":package", ":version?"]) == VisitAll(m1, GetRoute(), [":version?"]);
  }

  lemma ScanEntries()
    ensures Collect([ParamCall(), GetRoute()]) == map[Name := Ok, "version" := FirstUse(GetRoute())]
  {
    var regs := [ParamCall(), GetRoute()];
    assert regs[..1] == [ParamCall()];
    FirstStep();
    GetSegments();
    SecondStep();
  }

  lemma VerdictsOfTwo(a: string, b: string, r: Registration)
    requires a != b
    ensures Verdicts(map[a := Ok, b := FirstUse(r)]) == map[a := true, b := false]
  {
  }

  lemma ExampleScan()
    ensures Verdicts(Collect([ParamCall(), GetRoute()])) == map["package" := true, "version" := false]
  {
    ScanEntries();
    VerdictsOfTwo(Name, "version", GetRoute());
  }
}
