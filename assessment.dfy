/** The response aggregator shared by both variants of the risk-assessment
    form: the question catalog, the loop that files each submitted rating
    under its category, the per-category and overall averages, the optional
    classifier call, and the result record that is saved to the slot. */
module Assessment {
  import opened Wrappers
  import opened Text

  /** A submitted form field: its key (`"{category}_{index}"`) and its text. */
  type Field = (string, string)

  /** The four risk categories of the catalog. */
  datatype Category = Security | Compliance | Performance | Scalability

  /** The ratings collected per category (`scores` in the handler). */
  type Scores = map<Category, seq<int>>

  /** The exceptions the handler raises on a malformed submission. */
  datatype Error =
    | BadKey(key: string)               // `ValueError` from `category, idx = key.split("_")`
    | UnknownCategory(name: string)     // `KeyError` from `scores[category]`
    | NotAnInteger(value: string)       // `ValueError` from `int(value)`
    | EmptyCategory(category: Category)   // `ZeroDivisionError` from `sum(...) / len(...)`

  /** A loaded classifier: an opaque map from a feature vector to a label. */
  datatype Classifier = Classifier(predict: seq<real> -> string)

  /** What the `/` route receives: a GET for the form, or a POST of the
      form's fields in submission order, a repeated key included. */
  datatype FormRequest = ShowForm | SubmitForm(fields: seq<Field>)

  /** Every key occurs at most once. */
  predicate DistinctKeys(fields: seq<Field>)
  {
    forall i, j :: 0 <= i < j < |fields| ==> fields[i].0 != fields[j].0
  }

  /** The value of the first field whose key is `key`, if there is one. */
  function FirstValue(fields: seq<Field>, key: string): Option<string>
  {
    if fields == [] then None
    else if fields[0].0 == key then Some(fields[0].1)
    else FirstValue(fields[1..], key)
  }

  /** The fields, in order, whose key is not in `seen` and does not occur
      earlier in `fields`. */
  function FirstOccurrences(fields: seq<Field>, seen: set<string>): (d: seq<Field>)
    ensures DistinctKeys(d)
    ensures forall i :: 0 <= i < |d| ==> d[i].0 !in seen
  {
    if fields == [] then []
    else if fields[0].0 in seen then FirstOccurrences(fields[1..], seen)
    else
      var rest := FirstOccurrences(fields[1..], seen + {fields[0].0});
      assert forall i :: 0 < i < |[fields[0]] + rest| ==> ([fields[0]] + rest)[i] == rest[i - 1];
      [fields[0]] + rest
  }

  lemma {:induction false} FirstOccurrencesKeepFirstValue(fields: seq<Field>, seen: set<string>, key: string)
    requires key !in seen
    ensures FirstValue(FirstOccurrences(fields, seen), key) == FirstValue(fields, key)
  {
    if fields != [] && fields[0].0 != key {
      if fields[0].0 in seen {
        FirstOccurrencesKeepFirstValue(fields[1..], seen, key);
      } else {
        FirstOccurrencesKeepFirstValue(fields[1..], seen + {fields[0].0}, key);
      }
    }
  }

  lemma {:induction false} FirstOccurrencesOfDistinct(fields: seq<Field>, seen: set<string>)
    requires DistinctKeys(fields)
    requires forall i :: 0 <= i < |fields| ==> fields[i].0 !in seen
    ensures FirstOccurrences(fields, seen) == fields
  {
    if fields != [] {
      var tail := fields[1..];
      assert forall i :: 0 <= i < |tail| ==> tail[i] == fields[i + 1];
      FirstOccurrencesOfDistinct(tail, seen + {fields[0].0});
    }
  }

  /** `request.form.to_dict()`: one field per key, holding the first value
      submitted for it, keys in order of first occurrence. */
  function ToDict(fields: seq<Field>): (d: seq<Field>)
    ensures DistinctKeys(d)
    ensures fields == [] ==> d == []
  {
    FirstOccurrences(fields, {})
  }

  /** `to_dict` keeps exactly the submitted keys, each with its first value. */
  lemma ToDictKeepsFirstValue(fields: seq<Field>)
    ensures forall key :: FirstValue(ToDict(fields), key) == FirstValue(fields, key)
  {
    forall key ensures FirstValue(ToDict(fields), key) == FirstValue(fields, key) {
      FirstOccurrencesKeepFirstValue(fields, {}, key);
    }
  }

  /** A form without a repeated key passes through `to_dict` unchanged. */
  lemma ToDictOfDistinct(fields: seq<Field>)
    requires DistinctKeys(fields)
    ensures ToDict(fields) == fields
  {
    FirstOccurrencesOfDistinct(fields, {});
  }

  lemma {:induction false} FirstOccurrencesSnoc(fields: seq<Field>, f: Field, seen: set<string>)
    ensures FirstOccurrences(fields + [f], seen) == FirstOccurrences(fields, seen)
      + (if f.0 in seen || FirstValue(fields, f.0).Some? then [] else [f])
  {
    if fields == [] {
      assert [f][1..] == [];
    } else {
      var g := fields[0];
      assert (fields + [f])[0] == g;
      assert (fields + [f])[1..] == fields[1..] + [f];
      if g.0 in seen {
        FirstOccurrencesSnoc(fields[1..], f, seen);
      } else {
        FirstOccurrencesSnoc(fields[1..], f, seen + {g.0});
      }
    }
  }

  /** `to_dict` grows field by field: a field is appended exactly when its
      key has not been posted before. With `ToDict([]) == []` this fixes
      the order of the keys: the order in which they first occur. */
  lemma ToDictSnoc(fields: seq<Field>, f: Field)
    ensures ToDict(fields + [f]) == ToDict(fields) + (if FirstValue(fields, f.0).None? then [f] else [])
  {
    FirstOccurrencesSnoc(fields, f, {});
  }

  /** The record written to the result slot. */
  datatype AssessmentResult = AssessmentResult(
    avgScores: map<Category, real>,
    overallRisk: real,
    prediction: Option<string>)

  /** The categories of `risk_categories`, in the dictionary's order. */
  const Categories: seq<Category> := [Security, Compliance, Performance, Scalability]

  /** The dictionary key of each category. */
  function Name(c: Category): string
  {
    match c
    case Security => "Security"
    case Compliance => "Compliance"
    case Performance => "Performance"
    case Scalability => "Scalability"
  }

  /** The lookup `scores[category]` on a key's category text: `None` is the
      `KeyError`. */
  function CategoryOf(name: string): (r: Option<Category>)
    ensures forall c :: r == Some(c) <==> Name(c) == name
  {
    if name == "Security" then Some(Security)
    else if name == "Compliance" then Some(Compliance)
    else if name == "Performance" then Some(Performance)
    else if name == "Scalability" then Some(Scalability)
    else None
  }

  lemma CatalogListsEveryCategory()
    ensures forall c :: c in Categories
  {
    forall c ensures c in Categories {
      match c
      case Security => assert Categories[0] == c;
      case Compliance => assert Categories[1] == c;
      case Performance => assert Categories[2] == c;
      case Scalability => assert Categories[3] == c;
    }
  }

  /** Every catalog category is a key of `m`. */
  predicate Complete<V>(m: map<Category, V>)
  {
    forall c: Category :: c in m
  }

  /** `scores = {category: [] for category in risk_categories.keys()}`. */
  function EmptyScores(): (s: Scores)
    ensures Complete(s)
    ensures forall c :: s[c] == []
  {
    CatalogListsEveryCategory();
    map c | c in Categories :: []
  }

  /** One iteration of the loop body, without the append: unpack the key,
      look its category up, parse the value, in that order. */
  function ParseField(field: Field): (r: Result<(Category, int), Error>)
    ensures Count(field.0, '_') != 1 <==> r == Failure(BadKey(field.0))
    ensures r.Success? ==> ParseInt(field.1) == Some(r.value.1)
  {
    match SplitKey(field.0)
    case None => Failure(BadKey(field.0))
    case Some((name, idx)) =>
      match CategoryOf(name)
      case None => Failure(UnknownCategory(name))
      case Some(category) =>
        match ParseInt(field.1)
        case None => Failure(NotAnInteger(field.1))
        case Some(n) => Success((category, n))
  }

  /** A key built from an underscore-free category text and index is
      unpacked into them; the outcome then depends only on the category
      lookup and on `int` of the value. */
  lemma ParseFieldOfKey(key: string, name: string, idx: string, value: string)
    requires '_' !in name && '_' !in idx && key == name + "_" + idx
    ensures CategoryOf(name).None? ==>
      ParseField((key, value)) == Failure(UnknownCategory(name))
    ensures CategoryOf(name).Some? && ParseInt(value).None? ==>
      ParseField((key, value)) == Failure(NotAnInteger(value))
    ensures CategoryOf(name).Some? && ParseInt(value).Some? ==>
      ParseField((key, value)) == Success((CategoryOf(name).value, ParseInt(value).value))
  {
    SplitKeyOfJoin(name, idx);
  }

  /** Every field of the submission is well formed. */
  predicate AllParse(fields: seq<Field>)
  {
    AllOk(ParseAll(fields))
  }

  /** What one iteration of the loop makes of a field, before the append. */
  type Outcome = Result<(Category, int), Error>

  /** The outcome of every field, in submission order. */
  function ParseAll(fields: seq<Field>): (outcomes: seq<Outcome>)
    ensures |outcomes| == |fields|
    ensures forall i :: 0 <= i < |fields| ==> outcomes[i] == ParseField(fields[i])
  {
    seq(|fields|, i requires 0 <= i < |fields| => ParseField(fields[i]))
  }

  predicate AllOk(outcomes: seq<Outcome>)
  {
    forall i :: 0 <= i < |outcomes| ==> outcomes[i].Success?
  }

  /** The scores after the loop has run over fields with these outcomes, or
      the exception of the first field that stops it. */
  function Tally(outcomes: seq<Outcome>): (r: Result<Scores, Error>)
    ensures r.Success? <==> AllOk(outcomes)
    ensures r.Success? ==> Complete(r.value)
  {
    if outcomes == [] then Success(EmptyScores())
    else
      var init := outcomes[..|outcomes| - 1];
      assert forall i :: 0 <= i < |init| ==> init[i] == outcomes[i];
      match Tally(init)
      case Failure(e) => Failure(e)
      case Success(scores) =>
        match outcomes[|outcomes| - 1]
        case Failure(e) => Failure(e)
        case Success((category, n)) => Success(scores[category := scores[category] + [n]])
  }

  /** The `for key, value in responses.items()` loop, appending to the
      category lists in place. */
  method Aggregate(fields: seq<Field>) returns (r: Result<Scores, Error>)
    ensures r == Tally(ParseAll(fields))
  {
    ghost var outcomes := ParseAll(fields);
    var scores := EmptyScores();
    var i := 0;
    while i < |fields|
      invariant 0 <= i <= |fields|
      invariant Tally(outcomes[..i]) == Success(scores)
    {
      assert outcomes[..i + 1][..i] == outcomes[..i];
      var parsed := ParseField(fields[i]);
      assert outcomes[..i + 1][i] == parsed;
      if parsed.Failure? {
        TallyFailureSticks(outcomes, i + 1);
        return Failure(parsed.error);
      }
      var (category, n) := parsed.value;
      scores := scores[category := scores[category] + [n]];
      i := i + 1;
    }
    assert outcomes[..i] == outcomes;
    return Success(scores);
  }

  /** Once a prefix of the submission fails, the whole submission fails
      with the same error: later fields are never looked at. */
  lemma {:induction false} TallyFailureSticks(outcomes: seq<Outcome>, k: nat)
    requires k <= |outcomes|
    requires Tally(outcomes[..k]).Failure?
    ensures Tally(outcomes) == Tally(outcomes[..k])
  {
    if k < |outcomes| {
      var init := outcomes[..|outcomes| - 1];
      assert init[..k] == outcomes[..k];
      TallyFailureSticks(init, k);
    } else {
      assert outcomes[..k] == outcomes;
    }
  }

  /** What one field adds to the list of `category`. */
  function Contribution(outcome: Outcome, category: Category): seq<int>
  {
    match outcome
    case Success((c, n)) => if c == category then [n] else []
    case Failure(_) => []
  }

  /** Reference definition: the ratings of the well-formed fields whose
      category is `category`, in submission order. */
  function Ratings(outcomes: seq<Outcome>, category: Category): seq<int>
  {
    if outcomes == [] then []
    else Contribution(outcomes[0], category) + Ratings(outcomes[1..], category)
  }

  /** The ratings submitted under `category`. */
  function RatingsOf(fields: seq<Field>, category: Category): seq<int>
  {
    Ratings(ParseAll(fields), category)
  }

  lemma {:induction false} RatingsSnoc(outcomes: seq<Outcome>, outcome: Outcome, category: Category)
    ensures Ratings(outcomes + [outcome], category) == Ratings(outcomes, category) + Contribution(outcome, category)
  {
    if outcomes != [] {
      assert (outcomes + [outcome])[1..] == outcomes[1..] + [outcome];
      RatingsSnoc(outcomes[1..], outcome, category);
    }
  }

  /** When the loop completes, each category's list holds exactly the
      ratings submitted for it, in submission order; the index part of the
      key plays no role. */
  lemma {:induction false} TallyFilesEachRating(outcomes: seq<Outcome>)
    requires Tally(outcomes).Success?
    ensures forall c :: Tally(outcomes).value[c] == Ratings(outcomes, c)
  {
    if outcomes == [] {
      forall c ensures Tally(outcomes).value[c] == Ratings(outcomes, c) {
        assert Ratings(outcomes, c) == [];
      }
    } else {
      var init := outcomes[..|outcomes| - 1];
      var last := outcomes[|outcomes| - 1];
      assert init + [last] == outcomes;
      TallyFilesEachRating(init);
      var before := Tally(init).value;
      var (category, n) := last.value;
      assert Tally(outcomes).value == before[category := before[category] + [n]];
      forall c
        ensures Tally(outcomes).value[c] == Ratings(outcomes, c)
      {
        RatingsSnoc(init, last, c);
        assert Contribution(last, c) == if c == category then [n] else [];
      }
    }
  }

  /** The loop stops at the first malformed field, with that field's error. */
  lemma {:induction false} TallyFailsAtFirstError(outcomes: seq<Outcome>)
    requires Tally(outcomes).Failure?
    ensures exists i :: (0 <= i < |outcomes| && AllOk(outcomes[..i])
      && outcomes[i] == Failure(Tally(outcomes).error))
  {
    var init := outcomes[..|outcomes| - 1];
    var last := |outcomes| - 1;
    assert outcomes[..last] == init;
    if Tally(init).Failure? {
      TallyFailsAtFirstError(init);
      var i :| 0 <= i < |init| && AllOk(init[..i]) && init[i] == Failure(Tally(init).error);
      assert init[..i] == outcomes[..i];
    }
  }

  /** Total number of ratings held in the lists of `categories`. */
  function TotalRatings(categories: seq<Category>, scores: Scores): nat
    requires Complete(scores)
  {
    if categories == [] then 0
    else |scores[categories[0]]| + TotalRatings(categories[1..], scores)
  }

  lemma {:induction false} TotalRatingsAppend(categories: seq<Category>, scores: Scores, category: Category, n: int)
    requires Complete(scores)
    requires forall i, j :: 0 <= i < j < |categories| ==> categories[i] != categories[j]
    ensures TotalRatings(categories, scores[category := scores[category] + [n]])
      == TotalRatings(categories, scores) + (if category in categories then 1 else 0)
  {
    if categories != [] {
      TotalRatingsAppend(categories[1..], scores, category, n);
      assert categories[0] == category ==> category !in categories[1..];
    }
  }

  /** No rating is lost or duplicated: the lists together hold one entry
      per submitted field. */
  lemma {:induction false} TallyKeepsEveryRating(outcomes: seq<Outcome>)
    requires Tally(outcomes).Success?
    ensures TotalRatings(Categories, Tally(outcomes).value) == |outcomes|
  {
    if outcomes != [] {
      var init := outcomes[..|outcomes| - 1];
      TallyKeepsEveryRating(init);
      var (category, n) := outcomes[|outcomes| - 1].value;
      CatalogListsEveryCategory();
      TotalRatingsAppend(Categories, Tally(init).value, category, n);
    }
  }

  function Sum(xs: seq<int>): int
  {
    if xs == [] then 0 else xs[0] + Sum(xs[1..])
  }

  /** `sum(xs) / len(xs)`, computed exactly. */
  function Mean(xs: seq<int>): real
    requires |xs| > 0
  {
    Sum(xs) as real / |xs| as real
  }

  /** Bounds on the items bound their sum. */
  lemma {:induction false} SumWithin(xs: seq<int>, lo: real, hi: real)
    requires forall i :: 0 <= i < |xs| ==> lo <= xs[i] as real <= hi
    ensures (|xs| as real) * lo <= Sum(xs) as real <= (|xs| as real) * hi
  {
    if xs != [] {
      SumWithin(xs[1..], lo, hi);
      var m := |xs[1..]| as real;
      assert |xs| as real == m + 1.0;
      assert (m + 1.0) * lo == m * lo + lo;
      assert (m + 1.0) * hi == m * hi + hi;
    }
  }

  /** A mean lies between any bounds on the ratings it averages. */
  lemma MeanWithin(xs: seq<int>, lo: real, hi: real)
    requires |xs| > 0
    requires forall i :: 0 <= i < |xs| ==> lo <= xs[i] as real <= hi
    ensures lo <= Mean(xs) <= hi
  {
    SumWithin(xs, lo, hi);
    DivideWithin(Sum(xs) as real, |xs| as real, lo, hi);
  }

  lemma DivideWithin(total: real, n: real, lo: real, hi: real)
    requires n > 0.0 && n * lo <= total <= n * hi
    ensures lo <= total / n <= hi
  {
  }

  /** The `avg_scores` comprehension over `categories`: it raises on the
      first category, in that order, whose list is empty. */
  function Averages(categories: seq<Category>, scores: Scores): (r: Result<map<Category, real>, Error>)
    requires Complete(scores)
    ensures r.Success? <==> forall c :: c in categories ==> |scores[c]| > 0
    ensures r.Success? ==> forall c :: c in r.value <==> c in categories
    ensures r.Success? ==> forall c :: c in categories ==> r.value[c] == Mean(scores[c])
    ensures r.Failure? ==> exists i :: (0 <= i < |categories| && r.error == EmptyCategory(categories[i])
      && |scores[categories[i]]| == 0 && forall j :: 0 <= j < i ==> |scores[categories[j]]| > 0)
  {
    if categories == [] then Success(map[])
    else if |scores[categories[0]]| == 0 then Failure(EmptyCategory(categories[0]))
    else match Averages(categories[1..], scores)
      case Failure(e) =>
        var tail := categories[1..];
        var i :| 0 <= i < |tail| && e == EmptyCategory(tail[i])
          && |scores[tail[i]]| == 0 && forall j :: 0 <= j < i ==> |scores[tail[j]]| > 0;
        assert forall j :: 0 <= j < i + 1 ==> |scores[categories[j]]| > 0 by {
          forall j | 0 <= j < i + 1 ensures |scores[categories[j]]| > 0 {
            if j > 0 { assert categories[j] == tail[j - 1]; }
          }
        }
        Failure(e)
      case Success(m) => Success(m[categories[0] := Mean(scores[categories[0]])])
  }

  /** The averages in catalog order: `list(avg_scores.values())`. */
  function FeatureVector(avgScores: map<Category, real>): (v: seq<real>)
    requires Complete(avgScores)
    ensures v == [avgScores[Security], avgScores[Compliance], avgScores[Performance], avgScores[Scalability]]
  {
    seq(|Categories|, i requires 0 <= i < |Categories| => avgScores[Categories[i]])
  }

  function SumReal(xs: seq<real>): real
  {
    if xs == [] then 0.0 else xs[0] + SumReal(xs[1..])
  }

  /** `overall_risk = sum(avg_scores.values()) / len(avg_scores)`. */
  function Overall(avgScores: map<Category, real>): (overall: real)
    requires Complete(avgScores)
    ensures overall == (avgScores[Security] + avgScores[Compliance]
      + avgScores[Performance] + avgScores[Scalability]) / 4.0
  {
    var v := FeatureVector(avgScores);
    assert SumReal(v) == v[0] + v[1] + v[2] + v[3] by {
      assert SumReal(v[3..]) == v[3] by { assert v[3..][1..] == []; }
      assert SumReal(v[2..]) == v[2] + v[3] by { assert v[2..][1..] == v[3..]; }
      assert SumReal(v[1..]) == v[1] + v[2] + v[3] by { assert v[1..][1..] == v[2..]; }
    }
    SumReal(v) / |v| as real
  }

  /** The classifier step: no label without a loaded model, otherwise the
      model's label for the averages in catalog order. */
  function Predict(model: Option<Classifier>, avgScores: map<Category, real>): (p: Option<string>)
    requires Complete(avgScores)
    ensures model.None? ==> p.None?
    ensures model.Some? ==> p == Some(model.value.predict([avgScores[Security],
      avgScores[Compliance], avgScores[Performance], avgScores[Scalability]]))
  {
    match model
    case None => None
    case Some(m) => Some(m.predict(FeatureVector(avgScores)))
  }

  /** Everything after the loop: averages, overall risk, prediction and the
      record to be saved. */
  function Summarise(scores: Scores, model: Option<Classifier>): (r: Result<AssessmentResult, Error>)
    requires Complete(scores)
    ensures r.Success? <==> forall c :: |scores[c]| > 0
    ensures r.Success? ==> (Complete(r.value.avgScores)
      && forall c :: |scores[c]| > 0 && r.value.avgScores[c] == Mean(scores[c]))
    ensures r.Success? ==> (Complete(r.value.avgScores)
      && r.value.overallRisk == Overall(r.value.avgScores)
      && r.value.prediction == Predict(model, r.value.avgScores))
    ensures r.Failure? ==> exists i :: (0 <= i < |Categories| && r.error == EmptyCategory(Categories[i])
      && scores[Categories[i]] == [] && forall j :: 0 <= j < i ==> |scores[Categories[j]]| > 0)
  {
    match Averages(Categories, scores)
    case Failure(e) => Failure(e)
    case Success(avgScores) =>
      CatalogListsEveryCategory();
      Success(AssessmentResult(avgScores, Overall(avgScores), Predict(model, avgScores)))
  }

  /** The whole POST handling of a submission, up to the slot write. */
  function Assess(fields: seq<Field>, model: Option<Classifier>): Result<AssessmentResult, Error>
  {
    match Tally(ParseAll(fields))
    case Failure(e) => Failure(e)
    case Success(scores) => Summarise(scores, model)
  }

  /** The POST branch of the `/` handler up to the slot write: the append
      loop, then the averages, the overall risk and the prediction. */
  method Evaluate(fields: seq<Field>, model: Option<Classifier>) returns (r: Result<AssessmentResult, Error>)
    ensures r == Assess(fields, model)
  {
    var collected := Aggregate(fields);
    if collected.Failure? {
      return Failure(collected.error);
    }
    r := Summarise(collected.value, model);
  }

  /** Every catalog category has a rating, stated on the scores or on the
      reference ratings. */
  lemma FilledIff(outcomes: seq<Outcome>, scores: Scores)
    requires forall c :: c in scores && scores[c] == Ratings(outcomes, c)
    ensures (forall c :: c in Categories ==> |scores[c]| > 0) ==> forall c :: |Ratings(outcomes, c)| > 0
    ensures (forall c :: |Ratings(outcomes, c)| > 0) ==> forall c :: c in Categories ==> |scores[c]| > 0
  {
    CatalogListsEveryCategory();
    if forall c :: |Ratings(outcomes, c)| > 0 {
      forall c | c in Categories
        ensures |scores[c]| > 0
      {
        assert scores[c] == Ratings(outcomes, c);
      }
    } else {
      var d :| |Ratings(outcomes, d)| == 0;
      assert d in Categories && |scores[d]| == 0;
    }
  }

  /** A submission produces a record exactly when every field is well formed
      and every catalog category received at least one rating. */
  lemma AssessSucceedsIff(fields: seq<Field>, model: Option<Classifier>)
    ensures Assess(fields, model).Success? <==>
      AllParse(fields) && forall c :: |RatingsOf(fields, c)| > 0
  {
    var outcomes := ParseAll(fields);
    if Tally(outcomes).Success? {
      var scores := Tally(outcomes).value;
      TallyFilesEachRating(outcomes);
      FilledIff(outcomes, scores);
      assert Assess(fields, model).Success? <==> Averages(Categories, scores).Success?;
      assert forall c :: RatingsOf(fields, c) == Ratings(outcomes, c);
    }
  }

  /** The record of a successful submission: one average per catalog
      category, each the mean of that category's ratings; the overall risk
      is the mean of the four averages; the prediction is the model's label
      for the averages in catalog order, or none without a model. */
  lemma AssessResultSpec(fields: seq<Field>, model: Option<Classifier>)
    requires Assess(fields, model).Success?
    ensures Complete(Assess(fields, model).value.avgScores)
    ensures forall c :: (|RatingsOf(fields, c)| > 0 &&
      Assess(fields, model).value.avgScores[c] == Mean(RatingsOf(fields, c)))
    ensures var r := Assess(fields, model).value;
      r.overallRisk == (r.avgScores[Security] + r.avgScores[Compliance]
        + r.avgScores[Performance] + r.avgScores[Scalability]) / 4.0
    ensures var r := Assess(fields, model).value;
      && (model.None? ==> r.prediction.None?)
      && (model.Some? ==> r.prediction == Some(model.value.predict([r.avgScores[Security],
            r.avgScores[Compliance], r.avgScores[Performance], r.avgScores[Scalability]])))
  {
    var outcomes := ParseAll(fields);
    TallyFilesEachRating(outcomes);
    CatalogListsEveryCategory();
    assert forall c :: RatingsOf(fields, c) == Ratings(outcomes, c);
  }

  /** A failed submission reports the first malformed field, or, when every
      field is well formed, the first catalog category left without a
      rating. */
  lemma AssessFailureSpec(fields: seq<Field>, model: Option<Classifier>)
    requires Assess(fields, model).Failure?
    ensures var e := Assess(fields, model).error;
      if !AllParse(fields) then
        exists i :: 0 <= i < |fields| && AllParse(fields[..i]) && ParseField(fields[i]) == Failure(e)
      else
        exists i :: (0 <= i < |Categories| && e == EmptyCategory(Categories[i])
          && RatingsOf(fields, Categories[i]) == []
          && forall j :: 0 <= j < i ==> |RatingsOf(fields, Categories[j])| > 0)
  {
    var outcomes := ParseAll(fields);
    if Tally(outcomes).Failure? {
      TallyFailsAtFirstError(outcomes);
      var i :| 0 <= i < |outcomes| && AllOk(outcomes[..i]) && outcomes[i] == Failure(Tally(outcomes).error);
      assert ParseAll(fields[..i]) == outcomes[..i];
    } else {
      TallyFilesEachRating(outcomes);
      assert forall c :: RatingsOf(fields, c) == Ratings(outcomes, c);
    }
  }

  lemma {:induction false} RatingsWithin(outcomes: seq<Outcome>, category: Category, lo: real, hi: real)
    requires forall i :: 0 <= i < |outcomes| && outcomes[i].Success? ==>
      lo <= outcomes[i].value.1 as real <= hi
    ensures forall k :: 0 <= k < |Ratings(outcomes, category)| ==> lo <= Ratings(outcomes, category)[k] as real <= hi
  {
    if outcomes != [] {
      RatingsWithin(outcomes[1..], category, lo, hi);
    }
  }

  /** Ratings kept within a scale keep every average and the overall risk
      within that scale. */
  lemma OverallWithin(fields: seq<Field>, model: Option<Classifier>, lo: int, hi: int)
    requires Assess(fields, model).Success?
    requires forall i :: 0 <= i < |fields| ==>
      ParseInt(fields[i].1).Some? ==> lo <= ParseInt(fields[i].1).value <= hi
    ensures lo as real <= Assess(fields, model).value.overallRisk <= hi as real
  {
    AssessResultSpec(fields, model);
    var outcomes := ParseAll(fields);
    var r := Assess(fields, model).value;
    forall i | 0 <= i < |outcomes| && outcomes[i].Success?
      ensures lo as real <= outcomes[i].value.1 as real <= hi as real
    {
      assert ParseInt(fields[i].1) == Some(outcomes[i].value.1);
    }
    forall c
      ensures lo as real <= r.avgScores[c] <= hi as real
    {
      RatingsWithin(outcomes, c, lo as real, hi as real);
      MeanWithin(RatingsOf(fields, c), lo as real, hi as real);
    }
    var s, k, p, q := r.avgScores[Security], r.avgScores[Compliance],
      r.avgScores[Performance], r.avgScores[Scalability];
    assert 4.0 * lo as real <= s + k + p + q <= 4.0 * hi as real;
  }
}

module AssessmentExample {
  import opened Wrappers
  import opened Text
  import opened Assessment

  /** The form field for the first Security question, rated 5. */
  lemma ExampleField()
    ensures ParseField(("Security_0", "5")) == Success((Security, 5))
  {
    assert CategoryOf("Security") == Some(Security);
    assert ParseInt("5") == Some(5);
    ParseFieldOfKey("Security_0", "Security", "0", "5");
  }

  /** A key with a second underscore does not unpack into two parts. */
  lemma ExampleTooManyParts()
    ensures ParseField(("Security_0_1", "5")) == Failure(BadKey("Security_0_1"))
  {
    assert Count("Security_0_1", '_') == 2;
  }

  /** A key naming no catalog category is the lookup failure. */
  lemma ExampleUnknownCategory()
    ensures ParseField(("Privacy_0", "5")) == Failure(UnknownCategory("Privacy"))
  {
    assert CategoryOf("Privacy") == None;
    ParseFieldOfKey("Privacy_0", "Privacy", "0", "5");
  }

  /** A key posted twice keeps only its first value. */
  lemma ExampleRepeatedKey()
    ensures ToDict([("Security_0", "5"), ("Security_0", "3"), ("Compliance_0", "2")])
      == [("Security_0", "5"), ("Compliance_0", "2")]
  {
    var f := [("Security_0", "5"), ("Security_0", "3"), ("Compliance_0", "2")];
    var seen := {"Security_0"};
    assert "Compliance_0" != "Security_0" by { assert "Compliance_0"[0] != "Security_0"[0]; }
    assert FirstOccurrences(f[2..], seen) == [f[2]] by { assert f[2..][1..] == []; }
    assert FirstOccurrences(f[1..], seen) == [f[2]] by { assert f[1..][1..] == f[2..]; }
    assert {} + {f[0].0} == seen;
    assert ToDict(f) == [f[0]] + FirstOccurrences(f[1..], seen);
  }

  /** The worked ratings: 5, 3, 4 for Security and two equal ratings for
      each other category. */
  const ExampleScores: Scores :=
    map[Security := [5, 3, 4], Compliance := [2, 2], Performance := [1, 1], Scalability := [3, 3]]

  lemma ExampleScoresComplete()
    ensures Complete(ExampleScores)
  {
    forall c ensures c in ExampleScores {
      match c
      case Security =>
      case Compliance =>
      case Performance =>
      case Scalability =>
    }
  }

  lemma ExampleMeans()
    ensures Mean([5, 3, 4]) == 4.0 && Mean([2, 2]) == 2.0
    ensures Mean([1, 1]) == 1.0 && Mean([3, 3]) == 3.0
  {
    assert Sum([5, 3, 4]) == 12;
    assert Sum([2, 2]) == 4 && Sum([1, 1]) == 2 && Sum([3, 3]) == 6;
  }

  /** Averages 4, 2, 1 and 3 and overall risk 2.5; without a model no
      prediction, with one the label it gives for the vector (4, 2, 1, 3). */
  lemma ExampleSummary(model: Option<Classifier>)
    ensures Complete(ExampleScores) && Summarise(ExampleScores, model).Success?
    ensures var r := Summarise(ExampleScores, model).value;
      && Complete(r.avgScores)
      && r.avgScores[Security] == 4.0 && r.avgScores[Compliance] == 2.0
      && r.avgScores[Performance] == 1.0 && r.avgScores[Scalability] == 3.0
      && r.overallRisk == 2.5
      && r.prediction == if model.None? then None else Some(model.value.predict([4.0, 2.0, 1.0, 3.0]))
  {
    ExampleScoresComplete();
    SummaryOfExampleLists(ExampleScores, model);
  }

  /** Any score lists equal to the worked ones give the worked record. */
  lemma SummaryOfExampleLists(scores: Scores, model: Option<Classifier>)
    requires Complete(scores)
    requires scores[Security] == [5, 3, 4] && scores[Compliance] == [2, 2]
    requires scores[Performance] == [1, 1] && scores[Scalability] == [3, 3]
    ensures Summarise(scores, model).Success?
    ensures var r := Summarise(scores, model).value;
      && Complete(r.avgScores)
      && r.avgScores[Security] == 4.0 && r.avgScores[Compliance] == 2.0
      && r.avgScores[Performance] == 1.0 && r.avgScores[Scalability] == 3.0
      && r.overallRisk == 2.5
      && r.prediction == if model.None? then None else Some(model.value.predict([4.0, 2.0, 1.0, 3.0]))
  {
    ExampleMeans();
    forall c ensures |scores[c]| > 0 {
      match c
      case Security =>
      case Compliance =>
      case Performance =>
      case Scalability =>
    }
  }

  /** The nine fields of the worked submission, in form order. */
  const ExampleFields: seq<Field> := [
    ("Security_0", "5"), ("Security_1", "3"), ("Security_2", "4"),
    ("Compliance_0", "2"), ("Compliance_1", "2"),
    ("Performance_0", "1"), ("Performance_1", "1"),
    ("Scalability_0", "3"), ("Scalability_1", "3")]

  const ExampleOutcomes: seq<Outcome> := [
    Success((Security, 5)), Success((Security, 3)), Success((Security, 4)),
    Success((Compliance, 2)), Success((Compliance, 2)),
    Success((Performance, 1)), Success((Performance, 1)),
    Success((Scalability, 3)), Success((Scalability, 3))]

  /** `ParseFieldOfKey` for a field whose lookup and `int` outcomes are
      already known. The worked fields are literals; stating the step over a
      symbolic `field` keeps the verifier from unfolding the key split on
      each literal key, which otherwise exhausts its resources. */
  lemma FieldParses(field: Field, name: string, idx: string, c: Category, n: int)
    requires '_' !in name && '_' !in idx && field.0 == name + "_" + idx
    requires CategoryOf(name) == Some(c) && ParseInt(field.1) == Some(n)
    ensures ParseField(field) == Success((c, n))
  {
    ParseFieldOfKey(field.0, name, idx, field.1);
  }

  lemma ParseAllIs(fields: seq<Field>, outcomes: seq<Outcome>)
    requires |fields| == |outcomes|
    requires forall i :: 0 <= i < |fields| ==> ParseField(fields[i]) == outcomes[i]
    ensures ParseAll(fields) == outcomes
  {
  }

  /** The worked submission repeats no key. */
  lemma ExampleKeysDistinct()
    ensures DistinctKeys(ExampleFields)
  {
  }

  /** Every field of the worked submission is well formed and names its
      category and rating. */
  lemma ExampleFieldsParse()
    ensures ParseAll(ExampleFields) == ExampleOutcomes
  {
    var f, o := ExampleFields, ExampleOutcomes;
    assert CategoryOf("Security") == Some(Security);
    assert CategoryOf("Compliance") == Some(Compliance);
    assert CategoryOf("Performance") == Some(Performance);
    assert CategoryOf("Scalability") == Some(Scalability);
    forall i | 0 <= i < |f|
      ensures ParseField(f[i]) == o[i]
    {
      if i == 0 { FieldParses(f[i], "Security", "0", Security, 5); }
      else if i == 1 { FieldParses(f[i], "Security", "1", Security, 3); }
      else if i == 2 { FieldParses(f[i], "Security", "2", Security, 4); }
      else if i == 3 { FieldParses(f[i], "Compliance", "0", Compliance, 2); }
      else if i == 4 { FieldParses(f[i], "Compliance", "1", Compliance, 2); }
      else if i == 5 { FieldParses(f[i], "Performance", "0", Performance, 1); }
      else if i == 6 { FieldParses(f[i], "Performance", "1", Performance, 1); }
      else if i == 7 { FieldParses(f[i], "Scalability", "0", Scalability, 3); }
      else { FieldParses(f[i], "Scalability", "1", Scalability, 3); }
    }
    ParseAllIs(f, o);
  }

  /** The lists each category receives from the worked outcomes, one
      category at a time. */
  lemma ExampleSecurityRatings()
    ensures Ratings(ExampleOutcomes, Security) == [5, 3, 4]
  {
  }

  lemma ExampleComplianceRatings()
    ensures Ratings(ExampleOutcomes, Compliance) == [2, 2]
  {
  }

  lemma ExamplePerformanceRatings()
    ensures Ratings(ExampleOutcomes, Performance) == [1, 1]
  {
  }

  lemma ExampleScalabilityRatings()
    ensures Ratings(ExampleOutcomes, Scalability) == [3, 3]
  {
  }

  lemma ExampleRatings()
    ensures Ratings(ExampleOutcomes, Security) == [5, 3, 4]
    ensures Ratings(ExampleOutcomes, Compliance) == [2, 2]
    ensures Ratings(ExampleOutcomes, Performance) == [1, 1]
    ensures Ratings(ExampleOutcomes, Scalability) == [3, 3]
  {
    ExampleSecurityRatings();
    ExampleComplianceRatings();
    ExamplePerformanceRatings();
    ExampleScalabilityRatings();
  }

  lemma ExampleAllOk(fields: seq<Field>)
    requires ParseAll(fields) == ExampleOutcomes
    ensures AllParse(fields)
  {
    assert AllOk(ExampleOutcomes);
  }

  lemma ExampleRatingsOf(fields: seq<Field>)
    requires ParseAll(fields) == ExampleOutcomes
    ensures RatingsOf(fields, Security) == [5, 3, 4] && RatingsOf(fields, Compliance) == [2, 2]
    ensures RatingsOf(fields, Performance) == [1, 1] && RatingsOf(fields, Scalability) == [3, 3]
  {
    ExampleRatings();
  }

  /** Any well-formed submission with the worked ratings yields the worked
      record. */
  lemma RecordOfExampleRatings(fields: seq<Field>, model: Option<Classifier>)
    requires AllParse(fields)
    requires RatingsOf(fields, Security) == [5, 3, 4] && RatingsOf(fields, Compliance) == [2, 2]
    requires RatingsOf(fields, Performance) == [1, 1] && RatingsOf(fields, Scalability) == [3, 3]
    ensures Assess(fields, model).Success?
    ensures var r := Assess(fields, model).value;
      && Complete(r.avgScores)
      && r.avgScores[Security] == 4.0 && r.avgScores[Compliance] == 2.0
      && r.avgScores[Performance] == 1.0 && r.avgScores[Scalability] == 3.0
      && r.overallRisk == 2.5
      && r.prediction == if model.None? then None else Some(model.value.predict([4.0, 2.0, 1.0, 3.0]))
  {
    ExampleMeans();
    assert forall c :: |RatingsOf(fields, c)| > 0 by {
      forall c ensures |RatingsOf(fields, c)| > 0 {
        match c
        case Security =>
        case Compliance =>
        case Performance =>
        case Scalability =>
      }
    }
    AssessSucceedsIff(fields, model);
    AssessResultSpec(fields, model);
  }

  /** The nine-field submission from `to_dict` and the key split through
      the append loop to the record: averages 4, 2, 1 and 3, overall risk 2.5, and the
      model's label for (4, 2, 1, 3) when there is a model. */
  lemma ExampleSubmission(model: Option<Classifier>)
    ensures Assess(ToDict(ExampleFields), model).Success?
    ensures var r := Assess(ToDict(ExampleFields), model).value;
      && Complete(r.avgScores)
      && r.avgScores[Security] == 4.0 && r.avgScores[Compliance] == 2.0
      && r.avgScores[Performance] == 1.0 && r.avgScores[Scalability] == 3.0
      && r.overallRisk == 2.5
      && r.prediction == if model.None? then None else Some(model.value.predict([4.0, 2.0, 1.0, 3.0]))
  {
    ExampleFieldsParse();
    ExampleAllOk(ExampleFields);
    ExampleRatingsOf(ExampleFields);
    RecordOfExampleRatings(ExampleFields, model);
    ExampleKeysDistinct();
    ToDictOfDistinct(ExampleFields);
  }
}
