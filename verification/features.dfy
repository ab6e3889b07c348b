/**
 * The feature assembler of the career predictor (`preprocess_input`): it
 * normalises the user's skills and interests, builds one 0/1 indicator column
 * per vocabulary entry, encodes the education level, concatenates the three
 * column groups, drops repeated column names (first one wins) and reindexes
 * the single row to the training-time schema, filling absent columns with 0.
 */
module FeatureAssembler {
  import opened Wrappers
  import opened Text

  /** A fitted categorical encoder, given by its ordered `classes_`. */
  type Vocabulary = seq<string>

  /** The three input encoders loaded next to the classifier. */
  datatype Encoders = Encoders(skills: Vocabulary, interests: Vocabulary, education: Vocabulary)

  /** The request body; every key may be absent. */
  datatype UserInput = UserInput(
    age: Option<int>,
    education: Option<string>,
    skills: Option<seq<string>>,
    interests: Option<seq<string>>)

  /** One named column of the single-row feature frame. */
  datatype Cell = Cell(name: string, value: int)

  type Row = seq<Cell>

  /**
   * The two exceptions of the assembler: pandas' `ValueError` when a row is
   * set on an indicator frame with no columns (an encoder without classes),
   * and the label encoder's "previously unseen label" error, carrying the
   * trimmed level.
   */
  datatype AssemblyError = NoIndicatorColumns | UnknownEducation(level: string)

  const DefaultEducation: string := "bachelor's"
  const EducationColumn: string := "education_encoded"

  function EducationOf(u: UserInput): string {
    u.education.GetOr(DefaultEducation)
  }

  function SkillsOf(u: UserInput): seq<string> {
    u.skills.GetOr([])
  }

  function InterestsOf(u: UserInput): seq<string> {
    u.interests.GetOr([])
  }

  /** `s.lower().strip()`. */
  function Normalize(s: string): string {
    Strip(Lower(s))
  }

  function NormalizeAll(xs: seq<string>): (r: seq<string>)
    ensures |r| == |xs|
    ensures forall i :: 0 <= i < |xs| ==> r[i] == Normalize(xs[i])
  {
    seq(|xs|, i requires 0 <= i < |xs| => Normalize(xs[i]))
  }

  /** The column labels of a row, in order. */
  function Names(row: Row): (r: seq<string>)
    ensures |r| == |row|
    ensures forall j :: 0 <= j < |row| ==> r[j] == row[j].name
    decreases |row|
  {
    if |row| == 0 then [] else [row[0].name] + Names(row[1..])
  }

  predicate DistinctNames(row: Row) {
    forall i, j :: 0 <= i < j < |row| ==> row[i].name != row[j].name
  }

  function Indicator(b: bool): int {
    if b then 1 else 0
  }

  /**
   * The indicator frame of one encoder: a column per vocabulary entry, in
   * vocabulary order, holding 1 when the entry is among the inputs and 0
   * otherwise. Inputs outside the vocabulary contribute nothing.
   */
  function Indicators(vocab: Vocabulary, inputs: seq<string>): (r: Row)
    ensures |r| == |vocab|
    ensures forall j :: 0 <= j < |vocab| ==> r[j].name == vocab[j]
    ensures forall j :: 0 <= j < |vocab| ==> (r[j].value == 1 <==> vocab[j] in inputs)
    ensures forall j :: 0 <= j < |vocab| ==> (r[j].value == 0 <==> vocab[j] !in inputs)
    decreases |vocab|
  {
    if |vocab| == 0 then []
    else [Cell(vocab[0], Indicator(vocab[0] in inputs))] + Indicators(vocab[1..], inputs)
  }

  /**
   * The encoding block as the handler writes it: setting the row of zeros
   * fails on a frame with no columns; otherwise, for each input found in the
   * vocabulary, its column(s) are set to 1 and unknown inputs are skipped.
   * The result is the indicator frame.
   */
  method EncodeIndicators(vocab: Vocabulary, inputs: seq<string>) returns (r: Result<Row, AssemblyError>)
    ensures r.Failure? <==> |vocab| == 0
    ensures r.Failure? ==> r.error == NoIndicatorColumns
    ensures r.Success? ==> |r.value| == |vocab|
    ensures r.Success? ==> forall j :: 0 <= j < |vocab| ==> r.value[j].name == vocab[j]
    ensures r.Success? ==> forall j :: 0 <= j < |vocab| ==> (r.value[j].value == 1 <==> vocab[j] in inputs)
    ensures r.Success? ==> forall j :: 0 <= j < |vocab| ==> (r.value[j].value == 0 <==> vocab[j] !in inputs)
    ensures r.Success? ==> r.value == Indicators(vocab, inputs)
  {
    if |vocab| == 0 {
      return Failure(NoIndicatorColumns);
    }
    var row := seq(|vocab|, j requires 0 <= j < |vocab| => Cell(vocab[j], 0));
    var k := 0;
    while k < |inputs|
      invariant 0 <= k <= |inputs|
      invariant |row| == |vocab|
      invariant forall j :: 0 <= j < |vocab| ==> row[j] == Cell(vocab[j], Indicator(vocab[j] in inputs[..k]))
    {
      var x := inputs[k];
      if x in vocab {
        row := seq(|row|, j requires 0 <= j < |row| => if row[j].name == x then Cell(x, 1) else row[j]);
      }
      assert inputs[..k + 1] == inputs[..k] + [x];
      k := k + 1;
    }
    assert inputs[..k] == inputs;
    var ref := Indicators(vocab, inputs);
    assert forall j :: 0 <= j < |vocab| ==> row[j] == ref[j];
    r := Success(row);
  }

  /** The value of the first column called `name`, if any. */
  function Lookup(row: Row, name: string): (r: Option<int>)
    ensures r.Some? <==> name in Names(row)
    decreases |row|
  {
    if |row| == 0 then None
    else if row[0].name == name then Some(row[0].value)
    else Lookup(row[1..], name)
  }

  /**
   * `X.loc[:, ~X.columns.duplicated()]`, with the names in `seen` already
   * taken: the first column of each remaining name is kept, in order.
   */
  function DedupFrom(row: Row, seen: set<string>): (r: Row)
    ensures DistinctNames(r)
    ensures forall j :: 0 <= j < |r| ==> r[j].name !in seen
    ensures forall n :: n !in seen ==> Lookup(r, n) == Lookup(row, n)
    decreases |row|
  {
    if |row| == 0 then []
    else if row[0].name in seen then DedupFrom(row[1..], seen)
    else
      var rest := DedupFrom(row[1..], seen + {row[0].name});
      var r := [row[0]] + rest;
      assert r[1..] == rest;
      r
  }

  /**
   * Duplicate-column removal: the result has distinct names, and every name
   * reads the value of its FIRST column in the input.
   */
  function Dedup(row: Row): (r: Row)
    ensures DistinctNames(r)
    ensures forall n :: Lookup(r, n) == Lookup(row, n)
  {
    DedupFrom(row, {})
  }

  /**
   * `reindex(columns=featureNames, fill_value=0)`: one column per schema name,
   * in schema order, holding the row's value for that name or 0. Like pandas,
   * it needs the row's own column names to be distinct.
   */
  function Reindex(row: Row, featureNames: seq<string>): (r: Row)
    requires DistinctNames(row)
    ensures Names(r) == featureNames
    ensures forall i :: 0 <= i < |featureNames| ==> r[i].value == Lookup(row, featureNames[i]).GetOr(0)
  {
    seq(|featureNames|, i requires 0 <= i < |featureNames| => Cell(featureNames[i], Lookup(row, featureNames[i]).GetOr(0)))
  }

  /** The position of `v` in the vocabulary, if it is there. */
  function CodeOf(vocab: Vocabulary, v: string): (r: Option<nat>)
    ensures r.Some? <==> v in vocab
    ensures r.Some? ==> r.value < |vocab| && vocab[r.value] == v && v !in vocab[..r.value]
    decreases |vocab|
  {
    if |vocab| == 0 then None
    else if vocab[0] == v then Some(0)
    else match CodeOf(vocab[1..], v)
      case None => None
      case Some(k) =>
        assert vocab[..k + 1] == [vocab[0]] + vocab[1..][..k];
        Some(k + 1)
  }

  /**
   * `education_encoder.transform([education.strip()])[0]`: the trimmed level
   * (case kept) must be a known class; its code is its position among the
   * classes. Any other level is the one error of the assembler.
   */
  function EncodeEducation(vocab: Vocabulary, education: string): (r: Result<nat, AssemblyError>)
    ensures r.Success? <==> Strip(education) in vocab
    ensures r.Success? ==> r.value < |vocab| && vocab[r.value] == Strip(education)
    ensures r.Failure? ==> r.error == UnknownEducation(Strip(education))
  {
    var cleaned := Strip(education);
    match CodeOf(vocab, cleaned)
    case None => Failure(UnknownEducation(cleaned))
    case Some(code) => Success(code)
  }

  /** The concatenated frame before duplicate removal: skills, interests, then the education code. */
  function Assemble(enc: Encoders, skills: seq<string>, interests: seq<string>, code: int): Row {
    Indicators(enc.skills, skills) + Indicators(enc.interests, interests) + [Cell(EducationColumn, code)]
  }

  /** Both indicator frames have at least one column, so setting their row of zeros succeeds. */
  predicate HasIndicatorColumns(enc: Encoders) {
    |enc.skills| > 0 && |enc.interests| > 0
  }

  /**
   * `preprocess_input`: fails when an indicator frame has no columns (raised
   * before the education is looked at) or when the trimmed education level
   * is unknown, and in no other case; otherwise the row's columns are the
   * training schema, in order.
   */
  function PreprocessInput(u: UserInput, enc: Encoders, featureNames: seq<string>): (r: Result<Row, AssemblyError>)
    ensures r.Success? <==> HasIndicatorColumns(enc) && Strip(EducationOf(u)) in enc.education
    ensures r.Failure? && !HasIndicatorColumns(enc) ==> r.error == NoIndicatorColumns
    ensures r.Failure? && HasIndicatorColumns(enc) ==> r.error == UnknownEducation(Strip(EducationOf(u)))
    ensures r.Success? ==> Names(r.value) == featureNames
  {
    var skills := NormalizeAll(SkillsOf(u));
    var interests := NormalizeAll(InterestsOf(u));
    if !HasIndicatorColumns(enc) then Failure(NoIndicatorColumns)
    else
      match EncodeEducation(enc.education, EducationOf(u))
      case Failure(e) => Failure(e)
      case Success(code) => Success(Reindex(Dedup(Assemble(enc, skills, interests, code)), featureNames))
  }

  /**
   * What the assembled row holds in column `name`, read straight from the
   * inputs: a skill column is 1 iff some normalised skill equals it, an
   * interest column likewise (a name in both vocabularies is a skill column,
   * the first occurrence), the education column holds the code, and every
   * other schema column is 0.
   */
  function ColumnValue(enc: Encoders, skills: seq<string>, interests: seq<string>, code: int, name: string): int {
    if name in enc.skills then Indicator(name in skills)
    else if name in enc.interests then Indicator(name in interests)
    else if name == EducationColumn then code
    else 0
  }

  lemma {:induction false} LookupAppend(a: Row, b: Row, n: string)
    ensures Lookup(a + b, n) == if Lookup(a, n).Some? then Lookup(a, n) else Lookup(b, n)
    decreases |a|
  {
    if |a| == 0 {
      assert a + b == b;
    } else {
      assert (a + b)[1..] == a[1..] + b;
      LookupAppend(a[1..], b, n);
    }
  }

  lemma {:induction false} LookupIndicators(vocab: Vocabulary, inputs: seq<string>, n: string)
    ensures Lookup(Indicators(vocab, inputs), n) == if n in vocab then Some(Indicator(n in inputs)) else None
    decreases |vocab|
  {
    if |vocab| > 0 {
      LookupIndicators(vocab[1..], inputs, n);
      assert n in vocab <==> n == vocab[0] || n in vocab[1..];
    }
  }

  /** Reading one column of the concatenated frame gives its `ColumnValue`. */
  lemma AssembleLookup(enc: Encoders, skills: seq<string>, interests: seq<string>, code: int, n: string)
    ensures Lookup(Assemble(enc, skills, interests, code), n).GetOr(0) == ColumnValue(enc, skills, interests, code, n)
  {
    var a := Indicators(enc.skills, skills);
    var b := Indicators(enc.interests, interests);
    var c := [Cell(EducationColumn, code)];
    assert Assemble(enc, skills, interests, code) == a + (b + c);
    LookupAppend(a, b + c, n);
    LookupAppend(b, c, n);
    LookupIndicators(enc.skills, skills, n);
    LookupIndicators(enc.interests, interests, n);
    assert Lookup(c, n) == if n == EducationColumn then Some(code) else None;
  }

  /** The value of every schema column of a successful assembly, stated without the frame plumbing. */
  lemma PreprocessValues(u: UserInput, enc: Encoders, featureNames: seq<string>)
    requires HasIndicatorColumns(enc) && Strip(EducationOf(u)) in enc.education
    ensures PreprocessInput(u, enc, featureNames).Success?
    ensures forall i :: 0 <= i < |featureNames| ==>
      PreprocessInput(u, enc, featureNames).value[i].value
        == ColumnValue(enc, NormalizeAll(SkillsOf(u)), NormalizeAll(InterestsOf(u)),
                       EncodeEducation(enc.education, EducationOf(u)).value, featureNames[i])
  {
    var skills := NormalizeAll(SkillsOf(u));
    var interests := NormalizeAll(InterestsOf(u));
    var code := EncodeEducation(enc.education, EducationOf(u)).value;
    var x := Assemble(enc, skills, interests, code);
    var row := PreprocessInput(u, enc, featureNames).value;
    assert row == Reindex(Dedup(x), featureNames);
    forall i | 0 <= i < |featureNames|
      ensures row[i].value == ColumnValue(enc, skills, interests, code, featureNames[i])
    {
      assert Lookup(Dedup(x), featureNames[i]) == Lookup(x, featureNames[i]);
      AssembleLookup(enc, skills, interests, code, featureNames[i]);
    }
  }

  /** The indicator frame depends only on which vocabulary entries occur among the inputs. */
  lemma IndicatorsAgree(vocab: Vocabulary, xs: seq<string>, ys: seq<string>)
    requires forall w :: w in vocab ==> (w in xs <==> w in ys)
    ensures Indicators(vocab, xs) == Indicators(vocab, ys)
  {
    var a := Indicators(vocab, xs);
    var b := Indicators(vocab, ys);
    forall j | 0 <= j < |vocab|
      ensures a[j] == b[j]
    {
      assert vocab[j] in vocab;
    }
  }

  /**
   * Two requests with the same education that mention the same KNOWN skills
   * and interests (after normalisation) assemble the same row: input order,
   * repetitions and unknown entries do not matter.
   */
  lemma SameKnownInputsSameRow(u: UserInput, v: UserInput, enc: Encoders, featureNames: seq<string>)
    requires EducationOf(u) == EducationOf(v)
    requires forall w :: w in enc.skills ==> (w in NormalizeAll(SkillsOf(u)) <==> w in NormalizeAll(SkillsOf(v)))
    requires forall w :: w in enc.interests ==> (w in NormalizeAll(InterestsOf(u)) <==> w in NormalizeAll(InterestsOf(v)))
    ensures PreprocessInput(u, enc, featureNames) == PreprocessInput(v, enc, featureNames)
  {
    IndicatorsAgree(enc.skills, NormalizeAll(SkillsOf(u)), NormalizeAll(SkillsOf(v)));
    IndicatorsAgree(enc.interests, NormalizeAll(InterestsOf(u)), NormalizeAll(InterestsOf(v)));
  }

  /** Appending a skill that is unknown after normalisation neither fails nor changes the row. */
  lemma UnknownSkillIgnored(u: UserInput, x: string, enc: Encoders, featureNames: seq<string>)
    requires Normalize(x) !in enc.skills
    ensures PreprocessInput(u.(skills := Some(SkillsOf(u) + [x])), enc, featureNames)
         == PreprocessInput(u, enc, featureNames)
  {
    var v := u.(skills := Some(SkillsOf(u) + [x]));
    assert NormalizeAll(SkillsOf(v)) == NormalizeAll(SkillsOf(u)) + [Normalize(x)];
    SameKnownInputsSameRow(v, u, enc, featureNames);
  }

  /** Appending an interest that is unknown after normalisation neither fails nor changes the row. */
  lemma UnknownInterestIgnored(u: UserInput, x: string, enc: Encoders, featureNames: seq<string>)
    requires Normalize(x) !in enc.interests
    ensures PreprocessInput(u.(interests := Some(InterestsOf(u) + [x])), enc, featureNames)
         == PreprocessInput(u, enc, featureNames)
  {
    var v := u.(interests := Some(InterestsOf(u) + [x]));
    assert NormalizeAll(InterestsOf(v)) == NormalizeAll(InterestsOf(u)) + [Normalize(x)];
    SameKnownInputsSameRow(v, u, enc, featureNames);
  }

  /** The age (read with default 25) never influences the row. */
  lemma AgeIgnored(u: UserInput, age: Option<int>, enc: Encoders, featureNames: seq<string>)
    ensures PreprocessInput(u.(age := age), enc, featureNames) == PreprocessInput(u, enc, featureNames)
  {
  }
}
