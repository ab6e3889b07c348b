/**
 * `get_career_details`: the side dataset of careers, searched by name
 * without regard to case, with placeholders when nothing matches and a
 * three-step parse of the `required_skills` cell (JSON, then comma split,
 * then nothing).
 */
module CareerCatalog {
  import opened Wrappers
  import opened Text

  /** A decoded JSON document, as `json.loads` returns it. */
  datatype Json =
    | JNull
    | JBool(b: bool)
    | JNumber(n: real)
    | JString(s: string)
    | JArray(items: seq<Json>)
    | JObject(members: seq<(string, Json)>)

  /** A cell of the dataset: text, or anything else pandas may hold there (an empty cell reads as NaN). */
  datatype Value = Str(text: string) | NonText

  /**
   * One dataset row. A `None` field is a column the dataset does not have,
   * for which `row.get(column, default)` returns the default.
   */
  datatype CareerRow = CareerRow(
    careerName: string,
    description: Option<Value>,
    requiredSkills: Option<Value>,
    industryType: Option<Value>)

  datatype CareerDetails = CareerDetails(description: Value, requiredSkills: seq<Json>, industryType: Value)

  const NoDescription: string := "No description available"
  const NotSpecified: string := "Not specified"

  /** The answer for a career the dataset does not list. */
  const Placeholder: CareerDetails := CareerDetails(Str(NoDescription), [], Str(NotSpecified))

  /**
   * The comma fallback `[p.strip() for p in s.split(',')]`: one trimmed piece
   * more than there are commas.
   */
  function CommaList(s: string): (r: seq<string>)
    ensures |r| == CountChar(s, ',') + 1 == |Split(s, ",")|
    ensures forall k :: 0 <= k < |r| ==> Trimmed(r[k]) && r[k] == Strip(Split(s, ",")[k])
  {
    var pieces := Split(s, ",");
    SplitCharCount(s, ',');
    seq(|pieces|, k requires 0 <= k < |pieces| => Strip(pieces[k]))
  }

  /**
   * The `required_skills` cell as a list. Non-text cells give `[]`; text that
   * decodes as a JSON array gives its items; text that decodes as any other
   * JSON value gives `[]`; text that does not decode gives its comma pieces.
   * `decode` stands for `json.loads`, `None` for any exception it raises.
   */
  function ParseRequiredSkills(v: Value, decode: string -> Option<Json>): (r: seq<Json>)
    ensures v.NonText? ==> r == []
    ensures v.Str? && decode(v.text).Some? && decode(v.text).value.JArray? ==> r == decode(v.text).value.items
    ensures v.Str? && decode(v.text).Some? && !decode(v.text).value.JArray? ==> r == []
    ensures v.Str? && decode(v.text).None? ==>
      && |r| == CountChar(v.text, ',') + 1
      && forall k :: 0 <= k < |r| ==> r[k].JString? && Trimmed(r[k].s)
    ensures v.Str? && decode(v.text).None? ==>
      && |r| == |Split(v.text, ",")|
      && forall k :: 0 <= k < |r| ==> r[k] == JString(Strip(Split(v.text, ",")[k]))
  {
    match v
    case NonText => []
    case Str(s) =>
      match decode(s)
      case Some(JArray(items)) => items
      case Some(_) => []
      case None =>
        var pieces := CommaList(s);
        seq(|pieces|, k requires 0 <= k < |pieces| => JString(pieces[k]))
  }

  /** The details a matching row supplies, with `row.get`'s defaults for absent columns. */
  function DetailsOf(row: CareerRow, decode: string -> Option<Json>): CareerDetails {
    CareerDetails(
      row.description.GetOr(Str(NoDescription)),
      ParseRequiredSkills(row.requiredSkills.GetOr(Str("")), decode),
      row.industryType.GetOr(Str(NotSpecified)))
  }

  /** `career_df['career_name'].str.lower() == career_name.lower()` for one row. */
  predicate NameMatches(row: CareerRow, name: string) {
    Lower(row.careerName) == Lower(name)
  }

  /** The first matching row at or after `from`, if any. */
  function FindCareerFrom(rows: seq<CareerRow>, name: string, from: nat): (r: Option<nat>)
    requires from <= |rows|
    ensures r.Some? ==> from <= r.value < |rows| && NameMatches(rows[r.value], name)
    ensures r.Some? ==> forall j :: from <= j < r.value ==> !NameMatches(rows[j], name)
    ensures r.None? ==> forall j :: from <= j < |rows| ==> !NameMatches(rows[j], name)
    decreases |rows| - from
  {
    if from == |rows| then None
    else if NameMatches(rows[from], name) then Some(from)
    else FindCareerFrom(rows, name, from + 1)
  }

  /**
   * `get_career_details`: when no row's name equals `name` ignoring case,
   * the placeholders; otherwise the details of the FIRST such row.
   */
  function GetCareerDetails(name: string, rows: seq<CareerRow>, decode: string -> Option<Json>): (r: CareerDetails)
    ensures (forall j :: 0 <= j < |rows| ==> !NameMatches(rows[j], name)) ==> r == Placeholder
    ensures forall i :: (0 <= i < |rows| && NameMatches(rows[i], name)
                        && forall j :: 0 <= j < i ==> !NameMatches(rows[j], name)) ==> r == DetailsOf(rows[i], decode)
  {
    match FindCareerFrom(rows, name, 0)
    case None => Placeholder
    case Some(m) =>
      FirstMatchUnique(rows, name, m);
      DetailsOf(rows[m], decode)
  }

  /** There is only one first matching row. */
  lemma FirstMatchUnique(rows: seq<CareerRow>, name: string, m: nat)
    requires m < |rows| && NameMatches(rows[m], name)
    requires forall j :: 0 <= j < m ==> !NameMatches(rows[j], name)
    ensures forall i :: (0 <= i < |rows| && NameMatches(rows[i], name)
                        && forall j :: 0 <= j < i ==> !NameMatches(rows[j], name)) ==> i == m
  {
  }

  /** The lookup ignores the case of the career name. */
  lemma CaseInsensitiveLookup(a: string, b: string, rows: seq<CareerRow>, decode: string -> Option<Json>)
    requires Lower(a) == Lower(b)
    ensures GetCareerDetails(a, rows, decode) == GetCareerDetails(b, rows, decode)
  {
    if exists i :: 0 <= i < |rows| && NameMatches(rows[i], a) {
      var i := FindCareerFrom(rows, a, 0).value;
      assert forall j :: 0 <= j < |rows| ==> (NameMatches(rows[j], a) <==> NameMatches(rows[j], b));
    }
  }

  lemma FindCommaSqlExcel()
    ensures Find("sql, excel", ",") == Some(3)
  {
    var s := "sql, excel";
    FindCharStep(s, ',', 0);
    FindCharStep(s, ',', 1);
    FindCharStep(s, ',', 2);
    FindCharStep(s, ',', 3);
  }

  lemma FindCommaExcel()
    ensures Find(" excel", ",") == None
  {
    var t := " excel";
    FindCharStep(t, ',', 0);
    FindCharStep(t, ',', 1);
    FindCharStep(t, ',', 2);
    FindCharStep(t, ',', 3);
    FindCharStep(t, ',', 4);
    FindCharStep(t, ',', 5);
    assert FindFrom(t, ",", 6) == None;
  }

  lemma SplitSqlExcel()
    ensures Split("sql, excel", ",") == ["sql", " excel"]
  {
    var s := "sql, excel";
    FindCommaSqlExcel();
    FindCommaExcel();
    assert s[4..] == " excel";
    assert s[..3] == "sql";
    assert Split(s[4..], ",") == [" excel"];
  }

  lemma StripExcel()
    ensures Strip(" excel") == "excel"
  {
    var s := " excel";
    assert SkipSpace(s, 1) == 1;
    assert SkipSpace(s, 0) == 1;
    assert SkipSpaceBack(s, 1, 6) == 6;
    assert s[1..6] == "excel";
  }

  lemma StripSql()
    ensures Strip("sql") == "sql"
  {
    var s := "sql";
    assert SkipSpace(s, 0) == 0;
    assert SkipSpaceBack(s, 0, 3) == 3;
    assert s[0..3] == s;
  }

  /** A cell that does not decode as JSON falls back to the comma split: "sql, excel" gives ["sql", "excel"]. */
  lemma CommaFallbackExample(decode: string -> Option<Json>)
    requires decode("sql, excel") == None
    ensures ParseRequiredSkills(Str("sql, excel"), decode) == [JString("sql"), JString("excel")]
  {
    CommaListSqlExcel();
    var r := ParseRequiredSkills(Str("sql, excel"), decode);
    assert |r| == 2;
    assert r[0] == JString("sql");
    assert r[1] == JString("excel");
  }

  lemma CommaListSqlExcel()
    ensures CommaList("sql, excel") == ["sql", "excel"]
  {
    SplitSqlExcel();
    StripExcel();
    StripSql();
    var r := CommaList("sql, excel");
    assert |r| == 2;
    assert r[0] == "sql";
    assert r[1] == "excel";
  }

  /**
   * A dataset without a `required_skills` column reads the default '', which
   * does not decode and splits into ONE empty piece: the list is [""], not [].
   */
  lemma AbsentRequiredSkillsColumn(row: CareerRow, decode: string -> Option<Json>)
    requires row.requiredSkills == None && decode("") == None
    ensures DetailsOf(row, decode).requiredSkills == [JString("")]
  {
    assert Find("", ",") == None;
    StripTrimmed("");
    assert CommaList("") == [""];
  }
}
