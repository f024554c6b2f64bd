/** Naming the generated files: no approved scenario overwrites another. */
module Codegen {
  import opened Common

  // ----- Slugs -----

  predicate IsDigit(c: char) {
    '0' <= c <= '9'
  }

  predicate IsIdent(c: char) {
    IsDigit(c) || 'a' <= c <= 'z' || 'A' <= c <= 'Z'
  }

  predicate AllIdent(s: string) {
    forall c | c in s :: IsIdent(c)
  }

  function SkipOthers(s: string): (r: string)
    ensures |r| <= |s|
  {
    if s == "" || IsIdent(s[0]) then s else SkipOthers(s[1..])
  }

  /** Every maximal run of other characters becomes one underscore. */
  function Collapse(s: string): string
    decreases |s|
  {
    if s == "" then ""
    else if IsIdent(s[0]) then [s[0]] + Collapse(s[1..])
    else "_" + Collapse(SkipOthers(s[1..]))
  }

  function DropLeading(s: string): string {
    if s != "" && s[0] == '_' then DropLeading(s[1..]) else s
  }

  function DropTrailing(s: string): string {
    if s != "" && s[|s| - 1] == '_' then DropTrailing(s[..|s| - 1]) else s
  }

  /** `lowered` is the text after Python's `lower()`. */
  function Snake(lowered: string): string {
    var stripped := DropTrailing(DropLeading(Collapse(lowered)));
    var name := if stripped == "" then "page" else stripped;
    if IsDigit(name[0]) then "p_" + name else name
  }

  /** The name of a scenario's files: lowering leaves the underscore and the id's digits as they are. */
  function Slug(loweredFeature: string, id: nat): string {
    Snake(loweredFeature + "_" + Decimal(id))
  }

  function AfterLastUnderscore(s: string): string {
    if '_' !in s then s else AfterLastUnderscore(s[1..])
  }

  function ParseDecimal(s: string): int {
    if s == "" then 0 else ParseDecimal(s[..|s| - 1]) * 10 + (s[|s| - 1] as int - '0' as int)
  }

  // ----- The id survives in the slug -----

  lemma {:induction false} DecimalParses(n: nat)
    ensures ParseDecimal(Decimal(n)) == n
  {
    var s := Decimal(n);
    if n >= 10 {
      DecimalParses(n / 10);
      assert s[..|s| - 1] == Decimal(n / 10);
    } else {
      assert s[..0] == "";
    }
  }

  lemma {:induction false} IdentCollapsesToItself(d: string)
    requires AllIdent(d)
    ensures Collapse(d) == d
  {
    if d != "" {
      assert d[0] in d && forall c | c in d[1..] :: c in d;
      IdentCollapsesToItself(d[1..]);
    }
  }

  lemma {:induction false} SkipKeepsTail(a: string, d: string) returns (b: string)
    requires d != "" && AllIdent(d)
    ensures |b| <= |a| && (SkipOthers(a + "_" + d) == d || SkipOthers(a + "_" + d) == b + "_" + d)
  {
    var s := a + "_" + d;
    b := a;
    assert d[0] in d;
    if a == "" {
      assert s[1..] == d;
    } else if !IsIdent(a[0]) {
      b := SkipKeepsTail(a[1..], d);
      assert s[1..] == a[1..] + "_" + d;
    }
  }

  lemma SkipStopsAtIdent(d: string)
    requires d != "" && AllIdent(d)
    ensures SkipOthers(d) == d
  {
    assert d[0] in d;
  }

  lemma CollapseUnfolds(s: string)
    requires s != ""
    ensures Collapse(s) == if IsIdent(s[0]) then [s[0]] + Collapse(s[1..]) else "_" + Collapse(SkipOthers(s[1..]))
  {}

  lemma FirstOfThree(a: string, d: string)
    requires a != ""
    ensures var s := a + "_" + d; s[0] == a[0] && s[1..] == a[1..] + "_" + d
  {}

  lemma PrefixJoins(c: string, q: string, d: string)
    ensures c + (q + "_" + d) == (c + q) + "_" + d
  {}

  lemma CollapseOfSeparator(d: string)
    requires d != "" && AllIdent(d)
    ensures Collapse("" + "_" + d) == "" + "_" + d
  {
    assert ("" + "_" + d)[1..] == d;
    IdentCollapsesToItself(d);
    SkipStopsAtIdent(d);
  }

  lemma {:induction false} CollapseKeepsTail(a: string, d: string) returns (q: string)
    requires d != "" && AllIdent(d)
    ensures Collapse(a + "_" + d) == q + "_" + d
    decreases |a|
  {
    hide *;
    var s := a + "_" + d;
    if a == "" {
      q := "";
      CollapseOfSeparator(d);
    } else {
      FirstOfThree(a, d);
      CollapseUnfolds(s);
      if IsIdent(a[0]) {
        var tail := CollapseKeepsTail(a[1..], d);
        PrefixJoins([a[0]], tail, d);
        q := [a[0]] + tail;
      } else {
        var b := SkipKeepsTail(a[1..], d);
        IdentCollapsesToItself(d);
        if SkipOthers(s[1..]) != d {
          var tail := CollapseKeepsTail(b, d);
          PrefixJoins("_", tail, d);
          q := "_" + tail;
        } else {
          q := "";
          assert "" + "_" + d == "_" + d;
        }
      }
    }
  }

  lemma {:induction false} TailSurvivesDropping(q: string, d: string) returns (r: string)
    requires d != "" && AllIdent(d)
    ensures DropLeading(q + "_" + d) == if r == "" then d else r + "_" + d
    ensures r != "" ==> r[0] != '_'
  {
    var s := q + "_" + d;
    r := q;
    assert d[0] in d;
    if q == "" {
      assert s[1..] == d;
    } else if q[0] == '_' {
      r := TailSurvivesDropping(q[1..], d);
      assert s[1..] == q[1..] + "_" + d;
    }
  }

  lemma {:induction false} LastUnderscoreBefore(q: string, d: string)
    requires '_' !in d
    ensures AfterLastUnderscore(q + "_" + d) == d
  {
    var s := q + "_" + d;
    assert s[|q|] == '_' && '_' in s;
    if q == "" {
      assert s[1..] == d;
    } else {
      assert s[1..] == q[1..] + "_" + d;
      LastUnderscoreBefore(q[1..], d);
    }
  }

  lemma SlugIsSnake(lowered: string, id: nat)
    ensures Slug(lowered, id) == Snake(lowered + "_" + Decimal(id))
  {
    hide Snake;
  }

  lemma DecimalIsIdent(id: nat)
    ensures var d := Decimal(id); AllIdent(d) && d != "" && IsDigit(d[0]) && IsIdent(d[0]) && IsIdent(d[|d| - 1])
  {
    var d := Decimal(id);
    assert d[0] in d && d[|d| - 1] in d;
  }

  function Stem(r: string): string {
    if r == "" then "p" else if IsDigit(r[0]) then "p_" + r else r
  }

  /** The last steps of the naming, for a text that ends in an underscore and digits. */
  lemma SnakeOfTail(s: string, r: string, d: string)
    requires DropLeading(Collapse(s)) == if r == "" then d else r + "_" + d
    requires d != "" && IsDigit(d[0]) && IsIdent(d[|d| - 1])
    ensures Snake(s) == Stem(r) + "_" + d
  {
    var left := DropLeading(Collapse(s));
    hide DropLeading;
    hide Collapse;
    assert left[|left| - 1] == d[|d| - 1];
    assert DropTrailing(left) == left;
  }

  /** Whatever the feature is called, its slug is a non-empty stem, an underscore and the id's decimal form. */
  lemma SlugShape(lowered: string, id: nat) returns (stem: string)
    ensures stem != "" && stem[0] != '_' && Slug(lowered, id) == stem + "_" + Decimal(id)
  {
    hide *;
    var d := Decimal(id);
    DecimalIsIdent(id);
    var q := CollapseKeepsTail(lowered, d);
    var r := TailSurvivesDropping(q, d);
    SlugIsSnake(lowered, id);
    SnakeOfTail(lowered + "_" + d, r, d);
    StemIsName(r);
    stem := Stem(r);
  }

  lemma StemIsName(r: string)
    requires r != "" ==> r[0] != '_'
    ensures Stem(r) != "" && Stem(r)[0] != '_'
  {}

  /** Main result: the id can be read back after the slug's last underscore, so rows with different ids never share a
      slug, whatever their feature names. */
  lemma SlugCarriesTheId(lowered: string, id: nat)
    ensures AfterLastUnderscore(Slug(lowered, id)) == Decimal(id)
    ensures ParseDecimal(AfterLastUnderscore(Slug(lowered, id))) == id
  {
    var stem := SlugShape(lowered, id);
    LastUnderscoreBefore(stem, Decimal(id));
    DecimalParses(id);
  }

  // ----- The name survives in the slug -----

  predicate NoIdent(s: string) {
    forall c | c in s :: !IsIdent(c)
  }

  lemma {:induction false} SkipsSeparator(sep: string, rest: string)
    requires NoIdent(sep) && (rest == "" || IsIdent(rest[0]))
    ensures SkipOthers(sep + rest) == rest
  {
    if sep == "" {
      assert sep + rest == rest;
    } else {
      assert (sep + rest)[1..] == sep[1..] + rest && sep[0] in sep && forall c | c in sep[1..] :: c in sep;
      SkipsSeparator(sep[1..], rest);
    }
  }

  /** Whatever stands between two words becomes one underscore. */
  lemma {:induction false} SeparatorBecomesUnderscore(w: string, sep: string, rest: string)
    requires AllIdent(w) && sep != "" && NoIdent(sep) && (rest == "" || IsIdent(rest[0]))
    ensures Collapse(w + sep + rest) == w + "_" + Collapse(rest)
  {
    var s := w + sep + rest;
    if w == "" {
      assert s == sep + rest && s[1..] == sep[1..] + rest && sep[0] in sep && forall c | c in sep[1..] :: c in sep;
      SkipsSeparator(sep[1..], rest);
    } else {
      assert s[1..] == w[1..] + sep + rest && w[0] in w && forall c | c in w[1..] :: c in w;
      SeparatorBecomesUnderscore(w[1..], sep, rest);
      assert w + "_" + Collapse(rest) == [w[0]] + (w[1..] + "_" + Collapse(rest));
    }
  }

  /** Main result: a name of two words keeps both, in order, with one underscore for whatever stood between them. */
  lemma SlugKeepsTheWords(w: string, sep: string, v: string, id: nat)
    requires AllIdent(w) && AllIdent(v) && w != "" && v != "" && !IsDigit(w[0]) && sep != "" && NoIdent(sep)
    ensures Slug(w + sep + v, id) == w + "_" + v + "_" + Decimal(id)
  {
    hide *;
    var d := Decimal(id);
    DecimalIsIdent(id);
    FirstIsIdent(w);
    FirstIsIdent(v);
    var rest := v + "_" + d;
    assert w + sep + v + "_" + d == w + sep + rest && rest[0] == v[0];
    UnderscoreIsNoIdent();
    SeparatorBecomesUnderscore(w, sep, rest);
    SeparatorBecomesUnderscore(v, "_", d);
    IdentCollapsesToItself(d);
    var c := w + "_" + rest;
    assert Collapse(w + sep + rest) == c;
    assert c[0] == w[0] && c[|c| - 1] == d[|d| - 1];
    SnakeKeeps(w + sep + v + "_" + d, c);
    SlugIsSnake(w + sep + v, id);
    assert c == w + "_" + v + "_" + d;
  }

  lemma FirstIsIdent(w: string)
    requires AllIdent(w) && w != ""
    ensures IsIdent(w[0])
  {
    assert w[0] in w;
  }

  lemma UnderscoreIsNoIdent()
    ensures NoIdent("_") && !IsIdent('_')
  {}

  lemma SnakeKeeps(lowered: string, c: string)
    requires Collapse(lowered) == c && c != "" && IsIdent(c[0]) && !IsDigit(c[0]) && IsIdent(c[|c| - 1])
    ensures Snake(lowered) == c
  {
    hide Collapse;
  }

  // ----- A slug is a module name -----

  predicate IsName(s: string) {
    s != "" && !IsDigit(s[0]) && s[0] != '_' && forall c | c in s :: IsIdent(c) || c == '_'
  }

  lemma {:induction false} CollapseGivesNameChars(s: string)
    ensures forall c | c in Collapse(s) :: IsIdent(c) || c == '_'
    decreases |s|
  {
    if s != "" {
      CollapseGivesNameChars(if IsIdent(s[0]) then s[1..] else SkipOthers(s[1..]));
    }
  }

  lemma {:induction false} DroppingKeepsOrder(s: string)
    ensures forall c | c in DropLeading(s) :: c in s
    ensures forall c | c in DropTrailing(s) :: c in s
    ensures DropLeading(s) != "" ==> DropLeading(s)[0] != '_'
    ensures DropTrailing(s) != "" ==> DropTrailing(s)[0] == s[0]
  {
    if s != "" {
      DroppingKeepsOrder(s[1..]);
      DroppingKeepsOrder(s[..|s| - 1]);
    }
  }

  /** Every name is importable: letters, digits and underscores, the first a letter. */
  lemma SnakeGivesAName(lowered: string)
    ensures IsName(Snake(lowered))
  {
    var s := Collapse(lowered);
    CollapseGivesNameChars(lowered);
    DroppingKeepsOrder(s);
    DroppingKeepsOrder(DropLeading(s));
    var name := DropTrailing(DropLeading(s));
    assert name != "" ==> name[0] in name;
  }

  // ----- The files of a project -----

  /** An approved scenario row with the step and data modules rendered for it (`None`: a rendering gate raised). */
  datatype Row = Row(id: nat, loweredFeature: string, gherkin: string, steps: Option<string>, model: Option<string>)

  function FeaturePath(slug: string): string {
    "features/" + slug + ".feature"
  }

  function StepsPath(slug: string): string {
    "steps/test_" + slug + ".py"
  }

  function DataPath(slug: string): string {
    "data/" + slug + "_data.py"
  }

  function WithNewline(text: string): string {
    if text != "" && text[|text| - 1] == '\n' then text else text + "\n"
  }

  /** No approved scenario, a rendering gate that raised, or the whole file map. */
  datatype Project = NothingApproved | GateRaised | Written(files: map<string, string>)

  const PROJECT_PATHS := ["steps/__init__.py", "data/__init__.py", "conftest.py", "fixtures/__init__.py",
                          "fixtures/data_fixtures.py", "utils/__init__.py", "utils/helpers.py"]

  predicate Renders(row: Row) {
    row.steps.Some? && row.model.Some?
  }

  /** The row's three files are there with the row's own contents. */
  predicate Holds(files: map<string, string>, row: Row) {
    var slug := Slug(row.loweredFeature, row.id);
    && FeaturePath(slug) in files && files[FeaturePath(slug)] == WithNewline(row.gherkin)
    && (row.steps.Some? ==> StepsPath(slug) in files && files[StepsPath(slug)] == row.steps.value)
    && (row.model.Some? ==> DataPath(slug) in files && files[DataPath(slug)] == row.model.value)
  }

  /** The three files of a row, by their paths: the feature text with one newline added only where it ends in none. */
  lemma FilesAreWhere(files: map<string, string>, row: Row)
    requires Holds(files, row)
    ensures var slug := Slug(row.loweredFeature, row.id);
            var feature := "features/" + slug + ".feature";
            && feature in files && row.gherkin <= files[feature] && files[feature] != ""
            && files[feature][|files[feature]| - 1] == '\n'
            && (row.gherkin != "" && row.gherkin[|row.gherkin| - 1] == '\n' ==> files[feature] == row.gherkin)
            && |files[feature]| <= |row.gherkin| + 1
            && (row.steps.Some? ==>
                  "steps/test_" + slug + ".py" in files && files["steps/test_" + slug + ".py"] == row.steps.value)
            && (row.model.Some? ==>
                  "data/" + slug + "_data.py" in files && files["data/" + slug + "_data.py"] == row.model.value)
  {
    hide Slug;
  }

  lemma PathsDiffer(s: string, t: string)
    ensures FeaturePath(s) == FeaturePath(t) ==> s == t
    ensures StepsPath(s) == StepsPath(t) ==> s == t
    ensures DataPath(s) == DataPath(t) ==> s == t
    ensures FeaturePath(s) != StepsPath(t) && FeaturePath(s) != DataPath(t) && StepsPath(s) != DataPath(t)
  {
    assert FeaturePath(s)[0] == 'f' && StepsPath(s)[0] == 's' && DataPath(t)[0] == 'd' && StepsPath(t)[0] == 's';
    assert FeaturePath(s)[9..|FeaturePath(s)| - 8] == s && FeaturePath(t)[9..|FeaturePath(t)| - 8] == t;
    assert StepsPath(s)[11..|StepsPath(s)| - 3] == s && StepsPath(t)[11..|StepsPath(t)| - 3] == t;
    assert DataPath(s)[5..|DataPath(s)| - 8] == s && DataPath(t)[5..|DataPath(t)| - 8] == t;
  }

  /** No project-wide file takes a scenario's path. */
  lemma ProjectPathsAreOther(slug: string, i: nat)
    requires IsName(slug) && i < |PROJECT_PATHS|
    ensures PROJECT_PATHS[i] !in {FeaturePath(slug), StepsPath(slug), DataPath(slug)}
  {
    assert FeaturePath(slug)[0] == 'f' && FeaturePath(slug)[1] == 'e';
    assert StepsPath(slug)[0] == 's' && StepsPath(slug)[6] == 't';
    assert DataPath(slug)[0] == 'd' && DataPath(slug)[5] == slug[0] != '_';
    var p := PROJECT_PATHS[i];
    assert p[0] == 'f' ==> p[1] == 'i';
    assert p[0] == 's' ==> p[6] == '_';
    assert p[0] == 'd' ==> p[5] == '_';
  }

  /** Fills the file map as the source does, from the page objects' files, one set per row and the project-wide files;
      `None` is a rendering gate that raised. Every row's three files are in the result with that row's contents;
      nothing
      approved, or one gate that raises anywhere, leaves no project at all. */
  method GenerateProject(pages: Option<map<string, string>>, approved: seq<Row>, wide: seq<Option<string>>)
    returns (project: Project)
    requires forall i, j | 0 <= i < j < |approved| :: approved[i].id != approved[j].id
    requires |wide| == |PROJECT_PATHS|
    ensures project.NothingApproved? <==> approved == []
    ensures project.Written? <==>
            && approved != [] && pages.Some?
            && (forall row | row in approved :: Renders(row))
            && (forall w | w in wide :: w.Some?)
    ensures project.Written? ==> forall row | row in approved :: Holds(project.files, row)
    ensures project.Written? ==> forall i | 0 <= i < |wide| ::
              PROJECT_PATHS[i] in project.files && project.files[PROJECT_PATHS[i]] == wide[i].value
  {
    hide Slug;
    hide Holds;
    if approved == [] {
      return NothingApproved;
    }
    if pages.None? {
      return GateRaised;
    }
    var files := pages.value;
    for i := 0 to |approved|
      invariant forall j | 0 <= j < i :: Renders(approved[j]) && Holds(files, approved[j])
    {
      var row := approved[i];
      if !Renders(row) {
        assert row in approved;
        return GateRaised;
      }
      ghost var was := files;
      var slug := Slug(row.loweredFeature, row.id);
      files := files[FeaturePath(slug) := WithNewline(row.gherkin)];
      files := files[StepsPath(slug) := row.steps.value];
      files := files[DataPath(slug) := row.model.value];
      RowWritten(was, row);
      forall j | 0 <= j < i ensures Holds(files, approved[j]) {
        RowKept(was, approved[j], row);
      }
    }
    for i := 0 to |PROJECT_PATHS|
      invariant forall row | row in approved :: Holds(files, row)
      invariant forall j | 0 <= j < i :: wide[j].Some?
      invariant forall j | 0 <= j < i :: PROJECT_PATHS[j] in files && files[PROJECT_PATHS[j]] == wide[j].value
    {
      if wide[i].None? {
        assert wide[i] in wide;
        return GateRaised;
      }
      forall row | row in approved ensures Holds(files[PROJECT_PATHS[i] := wide[i].value], row) {
        WideKept(files, row, i, wide[i].value);
      }
      ProjectPathsDiffer(i);
      files := files[PROJECT_PATHS[i] := wide[i].value];
    }
    return Written(files);
  }

  lemma ProjectPathsDiffer(i: nat)
    requires i < |PROJECT_PATHS|
    ensures forall j | 0 <= j < i :: PROJECT_PATHS[j] != PROJECT_PATHS[i]
  {
    assert |PROJECT_PATHS[0]| == 17 && |PROJECT_PATHS[1]| == 16 && |PROJECT_PATHS[2]| == 11 && |PROJECT_PATHS[3]| == 20;
    assert |PROJECT_PATHS[4]| == 25 && |PROJECT_PATHS[5]| == 17 && |PROJECT_PATHS[6]| == 16;
    assert PROJECT_PATHS[0][0] == 's' && PROJECT_PATHS[5][0] == 'u';
    assert PROJECT_PATHS[1][0] == 'd' && PROJECT_PATHS[6][0] == 'u';
  }

  function WithRow(files: map<string, string>, row: Row): map<string, string>
    requires Renders(row)
  {
    var slug := Slug(row.loweredFeature, row.id);
    files[FeaturePath(slug) := WithNewline(row.gherkin)]
         [StepsPath(slug) := row.steps.value]
         [DataPath(slug) := row.model.value]
  }

  lemma RowWritten(files: map<string, string>, row: Row)
    requires Renders(row)
    ensures Holds(WithRow(files, row), row)
  {
    hide Slug;
    var slug := Slug(row.loweredFeature, row.id);
    PathsDiffer(slug, slug);
  }

  /** Writing one row's files leaves the files of a row with another id alone. */
  lemma RowKept(files: map<string, string>, kept: Row, row: Row)
    requires Renders(row) && kept.id != row.id && Holds(files, kept)
    ensures Holds(WithRow(files, row), kept)
  {
    var a, b := Slug(kept.loweredFeature, kept.id), Slug(row.loweredFeature, row.id);
    SlugCarriesTheId(kept.loweredFeature, kept.id);
    SlugCarriesTheId(row.loweredFeature, row.id);
    PathsDiffer(a, b);
    PathsDiffer(b, a);
    hide Slug;
  }

  lemma WideKept(files: map<string, string>, row: Row, i: nat, text: string)
    requires Holds(files, row) && i < |PROJECT_PATHS|
    ensures Holds(files[PROJECT_PATHS[i] := text], row)
  {
    SnakeGivesAName(row.loweredFeature + "_" + Decimal(row.id));
    ProjectPathsAreOther(Slug(row.loweredFeature, row.id), i);
    hide Slug;
  }
}
