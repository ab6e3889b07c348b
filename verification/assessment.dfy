/**
 * The skill assessment of `process_skills` and
 * `calculate_percentage_scores`: the skills list is validated, the gap
 * analysis lines are routed by prefix into missing / to-improve / strong
 * lists, and the skills are grouped by type into five fixed groups whose
 * average score is turned into a percentage.
 */
module SkillAssessment {
  import opened Wrappers
  import opened Text

  /** One entry of the user's skills list: its `type` and `score` keys, each possibly absent. */
  datatype SkillItem = SkillItem(skillType: Option<string>, score: Option<real>)

  /** The request's `skills` value: a list of entries, or something that is not a list. */
  datatype SkillsInput = SkillList(items: seq<SkillItem>) | NotAList

  /** The three kinds of gap-analysis line. */
  datatype Category = Missing | ToImprove | Strong

  /**
   * The two ways the assessment ends early: the dict `{"error": ...}` for a
   * bad skills list, and the `IndexError` of `split(": ")[1]` on a routed
   * line without ": ".
   */
  datatype AssessmentError = InvalidSkills | MissingSeparator

  const Separator: string := ": "

  function PrefixOf(c: Category): string {
    match c
    case Missing => "Missing skill"
    case ToImprove => "Skill to improve"
    case Strong => "Strong skill"
  }

  /** The category whose prefix starts the line, if any. */
  function Classify(entry: string): (r: Option<Category>)
    ensures r.Some? ==> StartsWith(entry, PrefixOf(r.value))
    ensures r.None? ==> forall c: Category :: !StartsWith(entry, PrefixOf(c))
  {
    if StartsWith(entry, PrefixOf(Missing)) then Some(Missing)
    else if StartsWith(entry, PrefixOf(ToImprove)) then Some(ToImprove)
    else if StartsWith(entry, PrefixOf(Strong)) then Some(Strong)
    else None
  }

  /** No line starts with two different prefixes, so a line belongs to at most one list. */
  lemma PrefixesExclusive(entry: string, c: Category, d: Category)
    requires StartsWith(entry, PrefixOf(c)) && StartsWith(entry, PrefixOf(d))
    ensures c == d
  {
    HeadDeterminesCategory(c);
    HeadDeterminesCategory(d);
    assert entry[0] == PrefixOf(c)[0] == PrefixOf(d)[0];
    assert entry[1] == PrefixOf(c)[1] == PrefixOf(d)[1];
  }

  /** The category named by the first two characters of a prefix. */
  function HeadCategory(first: char, second: char): Category {
    if first == 'M' then Missing else if second == 'k' then ToImprove else Strong
  }

  lemma HeadDeterminesCategory(c: Category)
    ensures |PrefixOf(c)| >= 2 && HeadCategory(PrefixOf(c)[0], PrefixOf(c)[1]) == c
  {
    match c {
      case Missing => assert PrefixOf(c)[0] == 'M';
      case ToImprove => assert PrefixOf(c)[0] == 'S' && PrefixOf(c)[1] == 'k';
      case Strong => assert PrefixOf(c)[0] == 'S' && PrefixOf(c)[1] == 't';
    }
  }

  /** A line goes to list `c` exactly when it starts with `c`'s prefix. */
  lemma ClassifyExact(entry: string, c: Category)
    ensures Classify(entry) == Some(c) <==> StartsWith(entry, PrefixOf(c))
  {
    if StartsWith(entry, PrefixOf(c)) {
      PrefixesExclusive(entry, Classify(entry).value, c);
    }
  }

  /** A line that is dropped, or that carries the ": " its value is cut from. */
  predicate EntryOk(entry: string) {
    Classify(entry).None? || Contains(entry, Separator)
  }

  /** Every routed line can be cut, so no `IndexError` is raised. */
  predicate Routable(analysis: seq<string>) {
    forall i :: 0 <= i < |analysis| ==> EntryOk(analysis[i])
  }

  /** `entry.split(": ")[1]`. */
  function SecondPiece(entry: string): string
    requires Contains(entry, Separator)
  {
    Split(entry, Separator)[1]
  }

  /**
   * The value of a routed line is the text right after the first ": ", up to
   * the next ": " or the end of the line, whichever comes first.
   */
  lemma SecondPieceSegment(entry: string)
    requires Contains(entry, Separator)
    ensures var rest := entry[Find(entry, Separator).value + |Separator|..];
            var v := SecondPiece(entry);
            && v <= rest
            && !Contains(v, Separator)
            && (v == rest || StartsWith(rest[|v|..], Separator))
  {
    var i := Find(entry, Separator).value;
    var rest := entry[i + |Separator|..];
    var tail := Split(rest, Separator);
    assert Split(entry, Separator) == [entry[..i]] + tail;
    assert SecondPiece(entry) == tail[0];
    match Find(rest, Separator)
    case None =>
    case Some(j) =>
      assert tail[0] == rest[..j];
      assert rest[j..][..|Separator|] == rest[j..j + |Separator|];
  }

  /** `[s.split(": ")[1] for s in analysis if s.startswith(PrefixOf(c))]`. */
  function Extract(analysis: seq<string>, c: Category): (r: seq<string>)
    requires Routable(analysis)
    ensures |r| <= |analysis|
    decreases |analysis|
  {
    if |analysis| == 0 then []
    else
      var last := analysis[|analysis| - 1];
      Extract(analysis[..|analysis| - 1], c) + (if Classify(last) == Some(c) then [SecondPiece(last)] else [])
  }

  /** The three lists of an assessment. */
  datatype Routed = Routed(missing: seq<string>, toImprove: seq<string>, strong: seq<string>)

  /**
   * The routing step of `process_skills`: it fails exactly when some line
   * with one of the three prefixes lacks ": "; otherwise each list holds the
   * values of its lines, in input order.
   */
  function Route(analysis: seq<string>): (r: Result<Routed, AssessmentError>)
    ensures r.Success? <==> Routable(analysis)
    ensures r.Failure? ==> r.error == MissingSeparator
  {
    if Routable(analysis) then
      Success(Routed(Extract(analysis, Missing), Extract(analysis, ToImprove), Extract(analysis, Strong)))
    else Failure(MissingSeparator)
  }

  /** Extending a routable prefix by one routable line extends each list by that line's value, if it is routed there. */
  lemma ExtractStep(analysis: seq<string>, k: nat, c: Category)
    requires k < |analysis| && Routable(analysis[..k]) && EntryOk(analysis[k])
    ensures Routable(analysis[..k + 1])
    ensures Extract(analysis[..k + 1], c) ==
      Extract(analysis[..k], c) + (if Classify(analysis[k]) == Some(c) then [SecondPiece(analysis[k])] else [])
  {
    PrefixStep(analysis, k);
    var pre := analysis[..k + 1];
    forall i | 0 <= i < |pre|
      ensures EntryOk(pre[i])
    {
      if i < k {
        assert pre[i] == analysis[..k][i];
      }
    }
    ExtractLast(pre, c);
  }

  /** One line that cannot be cut makes the whole routing fail. */
  lemma BadEntry(analysis: seq<string>, k: nat)
    requires k < |analysis| && !EntryOk(analysis[k])
    ensures Route(analysis) == Failure(MissingSeparator)
  {
  }

  /** Routing a list that is routable as a whole gives its three extracted lists. */
  lemma RouteWhole(analysis: seq<string>)
    requires Routable(analysis[..|analysis|])
    ensures Routable(analysis)
    ensures Route(analysis) == Success(Routed(
      Extract(analysis[..|analysis|], Missing),
      Extract(analysis[..|analysis|], ToImprove),
      Extract(analysis[..|analysis|], Strong)))
  {
    PrefixFull(analysis);
  }

  /** The prefix of length k + 1 is the prefix of length k followed by element k. */
  lemma PrefixStep<T>(s: seq<T>, k: nat)
    requires k < |s|
    ensures |s[..k + 1]| == k + 1
    ensures s[..k + 1][..k] == s[..k]
    ensures s[..k + 1][k] == s[k]
  {
  }

  /** The prefix of full length is the whole sequence. */
  lemma PrefixFull<T>(s: seq<T>)
    ensures s[..|s|] == s
  {
  }

  /**
   * Routing in a single pass: each line is looked at once and goes to at
   * most one list. It agrees with the three separate comprehensions.
   */
  method RouteEntries(analysis: seq<string>) returns (r: Result<Routed, AssessmentError>)
    ensures r == Route(analysis)
  {
    var missing: seq<string> := [];
    var toImprove: seq<string> := [];
    var strong: seq<string> := [];
    var k := 0;
    while k < |analysis|
      invariant 0 <= k <= |analysis|
      invariant Routable(analysis[..k])
      invariant missing == Extract(analysis[..k], Missing)
      invariant toImprove == Extract(analysis[..k], ToImprove)
      invariant strong == Extract(analysis[..k], Strong)
    {
      var entry := analysis[k];
      if !EntryOk(entry) {
        BadEntry(analysis, k);
        return Failure(MissingSeparator);
      }
      ExtractStep(analysis, k, Missing);
      ExtractStep(analysis, k, ToImprove);
      ExtractStep(analysis, k, Strong);
      var category := Classify(entry);
      if category.Some? {
        var v := SecondPiece(entry);
        missing := missing + (if category == Some(Missing) then [v] else []);
        toImprove := toImprove + (if category == Some(ToImprove) then [v] else []);
        strong := strong + (if category == Some(Strong) then [v] else []);
      }
      k := k + 1;
    }
    RouteWhole(analysis);
    r := Success(Routed(missing, toImprove, strong));
  }

  /** The number of lines carrying one of the three prefixes. */
  function Classified(analysis: seq<string>): nat
    decreases |analysis|
  {
    if |analysis| == 0 then 0
    else Classified(analysis[..|analysis| - 1]) + (if Classify(analysis[|analysis| - 1]).Some? then 1 else 0)
  }

  /** Every prefixed line lands in exactly one list: the list sizes add up to the number of prefixed lines. */
  lemma {:induction false} RoutePartition(analysis: seq<string>)
    requires Routable(analysis)
    ensures var r := Route(analysis).value;
            |r.missing| + |r.toImprove| + |r.strong| == Classified(analysis)
    decreases |analysis|
  {
    if |analysis| > 0 {
      var init := analysis[..|analysis| - 1];
      assert Routable(init);
      RoutePartition(init);
    }
  }

  /** What the last line of a routable list adds to list `c`. */
  lemma ExtractLast(s: seq<string>, c: Category)
    requires Routable(s) && |s| > 0
    ensures Routable(s[..|s| - 1])
    ensures Extract(s, c) ==
      Extract(s[..|s| - 1], c) + (if Classify(s[|s| - 1]) == Some(c) then [SecondPiece(s[|s| - 1])] else [])
  {
    RoutablePrefix(s, |s| - 1);
  }

  /** Dropping the last element of `a + b` drops the last element of `b`. */
  lemma InitOfAppend<T>(a: seq<T>, b: seq<T>)
    requires |b| > 0
    ensures (a + b)[..|a + b| - 1] == a + b[..|b| - 1]
    ensures (a + b)[|a + b| - 1] == b[|b| - 1]
  {
  }

  /** A concatenation of routable line lists is routable. */
  lemma RoutableAppend(a: seq<string>, b: seq<string>)
    requires Routable(a) && Routable(b)
    ensures Routable(a + b)
  {
    forall i | 0 <= i < |a + b|
      ensures EntryOk((a + b)[i])
    {
      if i < |a| {
        assert (a + b)[i] == a[i];
      } else {
        assert (a + b)[i] == b[i - |a|];
      }
    }
  }

  /** Every prefix of a routable line list is routable. */
  lemma RoutablePrefix(a: seq<string>, n: nat)
    requires Routable(a) && n <= |a|
    ensures Routable(a[..n])
  {
    forall i | 0 <= i < n
      ensures EntryOk(a[..n][i])
    {
      assert a[..n][i] == a[i];
    }
  }

  /** Routing a concatenation routes each part, keeping their order. */
  lemma {:induction false} ExtractAppend(a: seq<string>, b: seq<string>, c: Category)
    requires Routable(a) && Routable(b)
    ensures Routable(a + b)
    ensures Extract(a + b, c) == Extract(a, c) + Extract(b, c)
    decreases |b|
  {
    RoutableAppend(a, b);
    if |b| == 0 {
      assert a + b == a;
    } else {
      var init := b[..|b| - 1];
      var last := b[|b| - 1];
      RoutablePrefix(b, |b| - 1);
      ExtractAppend(a, init, c);
      var ab := a + b;
      InitOfAppend(a, b);
      ExtractLast(ab, c);
      ExtractLast(b, c);
      var ea, ei := Extract(a, c), Extract(init, c);
      var t := if Classify(last) == Some(c) then [SecondPiece(last)] else [];
      assert Extract(ab, c) == Extract(a + init, c) + t;
      assert Extract(b, c) == ei + t;
      assert (ea + ei) + t == ea + (ei + t);
    }
  }

  const SkillTypes: seq<string> := ["Technical Skills", "Soft Skills", "Management Skills", "Analytical", "Creative"]
  const DefaultSkillType: string := "Technical Skills"

  /** `skill.get("type", "Technical Skills")`. */
  function TypeOf(item: SkillItem): string {
    item.skillType.GetOr(DefaultSkillType)
  }

  /** The skills of type `t`, in input order. */
  function OfType(items: seq<SkillItem>, t: string): (r: seq<SkillItem>)
    ensures |r| <= |items|
    ensures forall x :: x in r <==> x in items && TypeOf(x) == t
    decreases |items|
  {
    if |items| == 0 then []
    else (if TypeOf(items[0]) == t then [items[0]] else []) + OfType(items[1..], t)
  }

  /** Grouping a concatenation groups each part, keeping their order (and so every repetition). */
  lemma {:induction false} OfTypeAppend(a: seq<SkillItem>, b: seq<SkillItem>, t: string)
    ensures OfType(a + b, t) == OfType(a, t) + OfType(b, t)
    decreases |a|
  {
    if |a| == 0 {
      assert a + b == b;
    } else {
      assert (a + b)[1..] == a[1..] + b;
      OfTypeAppend(a[1..], b, t);
    }
  }

  /** A single skill forms a group of its own type and no other. */
  lemma OfTypeSingle(x: SkillItem, t: string)
    ensures OfType([x], t) == if TypeOf(x) == t then [x] else []
  {
    assert [x][1..] == [];
  }

  /** The skills whose type is none of the five groups; the grouping ignores them. */
  function Untyped(items: seq<SkillItem>): (r: seq<SkillItem>)
    ensures forall x :: x in r <==> x in items && TypeOf(x) !in SkillTypes
    decreases |items|
  {
    if |items| == 0 then []
    else (if TypeOf(items[0]) !in SkillTypes then [items[0]] else []) + Untyped(items[1..])
  }

  /**
   * The grouping of `calculate_percentage_scores`: exactly the five fixed
   * keys, each holding the skills of that type (a missing type counting as
   * "Technical Skills"), so skills of any other type are in no group.
   */
  function GroupByType(items: seq<SkillItem>): (g: map<string, seq<SkillItem>>)
    ensures g.Keys == set t | t in SkillTypes
    ensures forall t, x :: t in g ==> (x in g[t] <==> x in items && TypeOf(x) == t)
  {
    map t | t in SkillTypes :: OfType(items, t)
  }

  /** Grouping a concatenation concatenates the groups, so every group keeps the input order and every repetition. */
  lemma GroupByTypeAppend(a: seq<SkillItem>, b: seq<SkillItem>)
    ensures forall t :: t in SkillTypes ==> GroupByType(a + b)[t] == GroupByType(a)[t] + GroupByType(b)[t]
  {
    forall t | t in SkillTypes
      ensures GroupByType(a + b)[t] == GroupByType(a)[t] + GroupByType(b)[t]
    {
      OfTypeAppend(a, b, t);
    }
  }

  /** Every skill is in exactly one group or ignored: the group sizes and the ignored ones add up to the input. */
  lemma GroupSizes(items: seq<SkillItem>)
    ensures var g := GroupByType(items);
            |g[SkillTypes[0]]| + |g[SkillTypes[1]]| + |g[SkillTypes[2]]| + |g[SkillTypes[3]]| + |g[SkillTypes[4]]|
              + |Untyped(items)| == |items|
  {
    TypeCounts(items);
  }

  lemma {:induction false} TypeCounts(items: seq<SkillItem>)
    ensures |OfType(items, SkillTypes[0])| + |OfType(items, SkillTypes[1])| + |OfType(items, SkillTypes[2])|
              + |OfType(items, SkillTypes[3])| + |OfType(items, SkillTypes[4])| + |Untyped(items)| == |items|
    decreases |items|
  {
    if |items| > 0 {
      TypeCounts(items[1..]);
      OneGroup(TypeOf(items[0]));
      OfTypeHead(items, SkillTypes[0]);
      OfTypeHead(items, SkillTypes[1]);
      OfTypeHead(items, SkillTypes[2]);
      OfTypeHead(items, SkillTypes[3]);
      OfTypeHead(items, SkillTypes[4]);
      UntypedHead(items);
    }
  }

  lemma OfTypeHead(items: seq<SkillItem>, t: string)
    requires |items| > 0
    ensures |OfType(items, t)| == (if TypeOf(items[0]) == t then 1 else 0) + |OfType(items[1..], t)|
  {
  }

  lemma UntypedHead(items: seq<SkillItem>)
    requires |items| > 0
    ensures |Untyped(items)| == (if TypeOf(items[0]) in SkillTypes then 0 else 1) + |Untyped(items[1..])|
  {
  }

  /** A type is one of the five names, or none of them. */
  lemma OneGroup(t: string)
    ensures (if t == SkillTypes[0] then 1 else 0) + (if t == SkillTypes[1] then 1 else 0)
          + (if t == SkillTypes[2] then 1 else 0) + (if t == SkillTypes[3] then 1 else 0)
          + (if t == SkillTypes[4] then 1 else 0) + (if t in SkillTypes then 0 else 1) == 1
  {
    SkillTypesDistinct();
  }

  /** The five type names differ (already in their first letters). */
  lemma SkillTypesDistinct()
    ensures forall i, j :: 0 <= i < j < |SkillTypes| ==> SkillTypes[i] != SkillTypes[j]
  {
    assert SkillTypes[0][0] == 'T' && SkillTypes[1][0] == 'S' && SkillTypes[2][0] == 'M';
    assert SkillTypes[3][0] == 'A' && SkillTypes[4][0] == 'C';
  }

  /** `skill.get("score", 0)`. */
  function ScoreOf(item: SkillItem): real {
    item.score.GetOr(0.0)
  }

  function SumScores(items: seq<SkillItem>): real
    decreases |items|
  {
    if |items| == 0 then 0.0 else ScoreOf(items[0]) + SumScores(items[1..])
  }

  /** The average score of a group scaled from 1-5 to a percentage; an empty group is 0. */
  function Percentage(group: seq<SkillItem>): real {
    if |group| == 0 then 0.0 else SumScores(group) / (|group| as real) / 5.0 * 100.0
  }

  /** `calculate_percentage_scores`: one percentage per fixed skill type, 0 for a type no skill has. */
  function PercentageScores(items: seq<SkillItem>): (m: map<string, real>)
    ensures m.Keys == set t | t in SkillTypes
    ensures forall t :: t in m && OfType(items, t) == [] ==> m[t] == 0.0
  {
    var g := GroupByType(items);
    map t | t in g :: Percentage(g[t])
  }

  lemma {:induction false} SumScoresBounds(items: seq<SkillItem>)
    requires forall x :: x in items ==> 0.0 <= ScoreOf(x) <= 5.0
    ensures 0.0 <= SumScores(items) <= 5.0 * (|items| as real)
    decreases |items|
  {
    if |items| > 0 {
      assert items[0] in items;
      SumScoresBounds(items[1..]);
    }
  }

  /** A group whose scores lie between 0 and 5 scores between 0 and 100 percent. */
  lemma PercentageBound(group: seq<SkillItem>)
    requires forall x :: x in group ==> 0.0 <= ScoreOf(x) <= 5.0
    ensures 0.0 <= Percentage(group) <= 100.0
  {
    SumScoresBounds(group);
    if |group| > 0 {
      var n := |group| as real;
      var s := SumScores(group);
      AverageBound(s, n);
      assert Percentage(group) == (s / n) / 5.0 * 100.0;
    }
  }

  /** An average of values in 0..5 lies in 0..5. */
  lemma AverageBound(s: real, n: real)
    requires n > 0.0 && 0.0 <= s <= 5.0 * n
    ensures 0.0 <= s / n <= 5.0
  {
    var a := s / n;
    assert a * n == s;
    if a < 0.0 {
      assert false;
    }
    if a > 5.0 {
      assert false;
    }
  }

  /** With every score between 0 and 5, every percentage lies between 0 and 100. */
  lemma PercentageInRange(items: seq<SkillItem>)
    requires forall x :: x in items ==> 0.0 <= ScoreOf(x) <= 5.0
    ensures forall t :: t in PercentageScores(items) ==> 0.0 <= PercentageScores(items)[t] <= 100.0
  {
    var m := PercentageScores(items);
    forall t | t in m
      ensures 0.0 <= m[t] <= 100.0
    {
      PercentageBound(OfType(items, t));
    }
  }

  /** The assessment handed back to the endpoint (learning resources are outside the model). */
  datatype AssessmentResult = AssessmentResult(
    percentageScores: map<string, real>,
    strongSkills: seq<string>,
    skillsToImprove: seq<string>,
    missingSkills: seq<string>)

  /**
   * `process_skills`: an absent, empty or non-list skills value is refused
   * before anything else; otherwise `gaps` (the external gap analysis) is
   * run on the list, its lines are routed, and the skills are scored by type.
   */
  function ProcessSkills(input: SkillsInput, gaps: seq<SkillItem> -> seq<string>): (r: Result<AssessmentResult, AssessmentError>)
    ensures input.NotAList? || |input.items| == 0 ==> r == Failure(InvalidSkills)
    ensures input.SkillList? && |input.items| > 0 ==> (r.Success? <==> Routable(gaps(input.items)))
    ensures input.SkillList? && |input.items| > 0 && r.Failure? ==> r.error == MissingSeparator
    ensures r.Success? ==> r.value.percentageScores.Keys == set t | t in SkillTypes
    ensures r.Success? ==>
      && input.SkillList?
      && var routed := Route(gaps(input.items)).value;
         r.value == AssessmentResult(PercentageScores(input.items), routed.strong, routed.toImprove, routed.missing)
  {
    match input
    case NotAList => Failure(InvalidSkills)
    case SkillList(items) =>
      if |items| == 0 then Failure(InvalidSkills)
      else
        match Route(gaps(items))
        case Failure(e) => Failure(e)
        case Success(routed) =>
          Success(AssessmentResult(PercentageScores(items), routed.strong, routed.toImprove, routed.missing))
  }
}
