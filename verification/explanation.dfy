/**
 * The explanation attached to every recommendation of `predict_career`:
 * the user's own skills and interests (original spelling) whose lower-cased
 * form is a known class, at most three of each, plus a fixed education flag.
 */
module Explanations {
  import opened Wrappers
  import opened Text
  import opened FeatureAssembler

  /** How many matching skills (and interests) an explanation shows. */
  const ExplanationCap: nat := 3

  datatype Explanation = Explanation(skills: seq<string>, interests: seq<string>, educationMatch: bool)

  /**
   * `[x for x in inputs if x.lower() in vocab]`: the inputs whose lower-cased
   * form (NOT stripped) is a class, spelled as given, in input order.
   */
  function Matching(inputs: seq<string>, vocab: Vocabulary): (r: seq<string>)
    ensures |r| <= |inputs|
    ensures forall x :: x in r <==> x in inputs && Lower(x) in vocab
    decreases |inputs|
  {
    if |inputs| == 0 then []
    else (if Lower(inputs[0]) in vocab then [inputs[0]] else []) + Matching(inputs[1..], vocab)
  }

  /** Filtering a concatenation filters each part, keeping their order. */
  lemma {:induction false} MatchingAppend(a: seq<string>, b: seq<string>, vocab: Vocabulary)
    ensures Matching(a + b, vocab) == Matching(a, vocab) + Matching(b, vocab)
    decreases |a|
  {
    if |a| == 0 {
      assert a + b == b;
    } else {
      assert (a + b)[1..] == a[1..] + b;
      MatchingAppend(a[1..], b, vocab);
    }
  }

  /** Python's `s[:n]`. */
  function Take(s: seq<string>, n: nat): (r: seq<string>)
    ensures r <= s
    ensures |r| == if |s| <= n then |s| else n
  {
    if |s| <= n then s else s[..n]
  }

  /**
   * The explanation block: the first (at most) three matching skills and
   * interests, in input order, and `education_match` always true. It reads
   * only the request and the encoders, never the career being explained.
   */
  function Explain(u: UserInput, enc: Encoders): (e: Explanation)
    ensures e.educationMatch
    ensures |e.skills| <= ExplanationCap && e.skills <= Matching(SkillsOf(u), enc.skills)
    ensures |e.skills| == ExplanationCap || e.skills == Matching(SkillsOf(u), enc.skills)
    ensures |e.interests| <= ExplanationCap && e.interests <= Matching(InterestsOf(u), enc.interests)
    ensures |e.interests| == ExplanationCap || e.interests == Matching(InterestsOf(u), enc.interests)
  {
    Explanation(
      Take(Matching(SkillsOf(u), enc.skills), ExplanationCap),
      Take(Matching(InterestsOf(u), enc.interests), ExplanationCap),
      true)
  }

  /**
   * When the skill classes carry no surrounding white space, every skill an
   * explanation names has its indicator column set to 1 in the assembled row.
   */
  lemma ExplainedSkillsAreEncoded(u: UserInput, enc: Encoders, featureNames: seq<string>)
    requires forall v :: v in enc.skills ==> Trimmed(v)
    requires HasIndicatorColumns(enc) && Strip(EducationOf(u)) in enc.education
    ensures PreprocessInput(u, enc, featureNames).Success?
    ensures forall x, i :: x in Explain(u, enc).skills && 0 <= i < |featureNames| && featureNames[i] == Lower(x) ==>
      PreprocessInput(u, enc, featureNames).value[i].value == 1
  {
    PreprocessValues(u, enc, featureNames);
    var skills := NormalizeAll(SkillsOf(u));
    forall x | x in Explain(u, enc).skills
      ensures Lower(x) in enc.skills && Lower(x) in skills
    {
      assert x in Matching(SkillsOf(u), enc.skills);
      var k :| 0 <= k < |SkillsOf(u)| && SkillsOf(u)[k] == x;
      StripTrimmed(Lower(x));
      assert skills[k] == Lower(x);
    }
  }

  lemma NormalizePaddedPython()
    ensures Lower(" Python") == " python"
    ensures Normalize(" Python") == "python"
  {
    var s := " Python";
    var l := Lower(s);
    assert l[0] == ' ' && l[1] == 'p' && l[2] == 'y' && l[3] == 't' && l[4] == 'h' && l[5] == 'o' && l[6] == 'n';
    assert l == " python";
    assert SkipSpace(l, 1) == 1;
    assert SkipSpace(l, 0) == 1;
    assert SkipSpaceBack(l, 1, 7) == 7;
    assert l[1..7] == "python";
  }

  /** `" Python"` against class "python" sets the "python" column. */
  lemma PaddedPythonEncoded()
    ensures PreprocessInput(UserInput(None, None, Some([" Python"]), None),
                            Encoders(["python"], ["design"], [DefaultEducation]), ["python"]) == Success([Cell("python", 1)])
  {
    var u := UserInput(None, None, Some([" Python"]), None);
    var enc := Encoders(["python"], ["design"], [DefaultEducation]);
    NormalizePaddedPython();
    StripTrimmed(DefaultEducation);
    assert NormalizeAll(SkillsOf(u)) == ["python"];
    PreprocessValues(u, enc, ["python"]);
    var row := PreprocessInput(u, enc, ["python"]).value;
    assert Names(row) == ["python"];
    assert row[0] == Cell("python", 1);
    assert row == [Cell("python", 1)];
  }

  /** `" Python"` against class "python" is not explained. */
  lemma PaddedPythonNotExplained()
    ensures Explain(UserInput(None, None, Some([" Python"]), None), Encoders(["python"], ["design"], [DefaultEducation])).skills == []
  {
    NormalizePaddedPython();
    assert Matching([" Python"], ["python"]) == [];
  }

  /**
   * The two readings of a skill differ: " Python" with class "python" sets
   * the "python" column (lower-cased, then stripped) but is not explained
   * (lower-cased only).
   */
  lemma PaddedSkillEncodedButNotExplained()
    ensures var u := UserInput(None, None, Some([" Python"]), None);
            var enc := Encoders(["python"], ["design"], [DefaultEducation]);
            && PreprocessInput(u, enc, ["python"]) == Success([Cell("python", 1)])
            && Explain(u, enc).skills == []
  {
    PaddedPythonEncoded();
    PaddedPythonNotExplained();
  }
}
