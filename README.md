# Blockchain risk-assessment form, modelled in Dafny

The system is a small Flask site with two variants. Both show a questionnaire
of Likert-scale questions in four fixed categories: Security, Compliance,
Performance and Scalability. The submitted ratings are averaged per category
and then into an overall risk. A loaded classifier, if there is one, turns
the averages into a risk label. The resulting record is saved to a single
slot, `results.json`, and shown on a results page. `App.py` is the open
variant. `Project-directory/app.py` adds a login gate with one hardcoded
credential pair.

The model covers:

- the shared response aggregator. It starts from `request.form.to_dict()`,
  which keeps the first value of each key. Then comes the loop that files
  each `"{category}_{index}"` field under its category, then the averages,
  the overall risk, the prediction and the result record, with the four
  exceptions a malformed submission raises. It lives in `assessment.dfy`.
  The form-key split and `int` are in `text.dfy`.
- the session gate of the gated variant: `/login`, `/`, `/results` and
  `/logout` over a session map and the result slot (`gated_site.dfy`).
- the `/` and `/results` routes of the open variant (`open_site.dfy`).

Design choices:

- Python's exceptions are `Failure` values of `Assessment.Error`:
  - `BadKey` is the tuple-unpack `ValueError`.
  - `UnknownCategory` is the `KeyError`.
  - `NotAnInteger` is the `ValueError` from `int`.
  - `EmptyCategory` is the `ZeroDivisionError`.
- Both sites answer a failure with `ServerError` and leave the slot
  untouched.
- Redirects and rendered pages are abstract response tags.
- The classifier is an opaque function from the vector of averages to a
  label. The model loaded at start-up and the slot contents left by an
  earlier run are constructor parameters.
- Categories are a datatype. `CategoryOf` is the dictionary lookup that maps
  a key's text to one, and `Categories` fixes the dictionary's order.

## Model

| member | source | states |
|---|---|---|
| `Text.Split` | Project-directory/app.py:70 | `str.split("_")` gives one more piece than there are underscores, no piece holds an underscore, and joining the pieces with `_` gives back the key |
| `Text.SplitOfJoin` | Project-directory/app.py:70 | splitting undoes joining underscore-free pieces |
| `Text.SplitKey` | Project-directory/app.py:70 | `category, idx = key.split("_")` succeeds exactly when the key holds one underscore, and then the key is `category + "_" + idx` with both parts underscore-free |
| `Text.SplitKeyOfJoin` | Project-directory/app.py:70 | every underscore-free category and index are recovered from the key built from them |
| `Text.ParseInt` | Project-directory/app.py:71 | `int(value)` succeeds exactly on an optionally signed decimal numeral; a leading `-` gives a non-positive number and no sign a non-negative one |
| `Text.ParseShowInt` | Project-directory/app.py:71 | `int(str(n)) == n` for every integer |
| `Text.ParseIntPlus` | Project-directory/app.py:71 | a leading `+` leaves the value of a digit string unchanged, and a bare `+` is rejected |
| `Text.ParseIntMinus` | Project-directory/app.py:71 | a leading `-` on a non-empty digit string gives the negated value |
| `Text.ParseIntLeadingZero` | Project-directory/app.py:71 | leading zeros leave the value of a non-empty digit string unchanged |
| `Assessment.CategoryOf` | Project-directory/app.py:20-38 | the lookup `scores[category]` finds category `c` exactly when the key's text is `c`'s dictionary key |
| `Assessment.ToDict` | Project-directory/app.py:65 | `request.form.to_dict()` leaves no key twice, and an empty form gives no items |
| `Assessment.ToDictSnoc` | Project-directory/app.py:65 | posting one more field appends it to `to_dict`'s result exactly when its key was not posted before, and otherwise leaves the result unchanged; so the keys keep the order of their first occurrence |
| `Assessment.ToDictKeepsFirstValue` | Project-directory/app.py:65 | for every key, `to_dict` gives the first value submitted under it, and it has the key exactly when the form has it |
| `Assessment.ToDictOfDistinct` | Project-directory/app.py:65 | a form without a repeated key passes through `to_dict` unchanged, order included |
| `Assessment.EmptyScores` | Project-directory/app.py:66 | the score lists start with every catalog category, each list empty |
| `Assessment.ParseField` | Project-directory/app.py:70-71 | a field fails with the unpack error exactly when its key does not hold one underscore; on success the category is a catalog category and the rating is `int` of the value |
| `Assessment.ParseFieldOfKey` | App.py:45-46 | for a well-shaped key the outcome is the `KeyError` for an unknown category, else the `int` error for a non-numeral, else the category and the parsed rating |
| `Assessment.Tally` | Project-directory/app.py:66-71 | the loop completes exactly when every field's outcome is a success, and then every catalog category has a list |
| `Assessment.Aggregate` | Project-directory/app.py:66-71 | the in-place append loop returns exactly the specified scores or error for the fields' outcomes |
| `Assessment.TallyFailureSticks` | Project-directory/app.py:69-71 | once a prefix of the submission fails, the whole submission fails with that error; later fields are never looked at |
| `Assessment.TallyFilesEachRating` | Project-directory/app.py:69-71 | after the loop each category's list is exactly the ratings submitted under that category, in submission order, whatever the index part of the key |
| `Assessment.TallyFailsAtFirstError` | App.py:44-46 | a failed loop reports the error of the first malformed field, and all fields before it are well formed |
| `Assessment.TallyKeepsEveryRating` | App.py:41-46 | the lists together hold exactly one rating per item of `responses`, that is, per distinct form key |
| `Assessment.MeanWithin` | Project-directory/app.py:74 | a category average lies within any bounds on its ratings |
| `Assessment.Averages` | Project-directory/app.py:74 | the averages exist exactly when every category has a rating; each is the mean of its list; otherwise the error names the first empty category in catalog order |
| `Assessment.FeatureVector` | Project-directory/app.py:80 | the classifier input is the four averages in the order Security, Compliance, Performance, Scalability |
| `Assessment.Overall` | Project-directory/app.py:75 | `overall_risk` is the sum of the four category averages divided by four |
| `Assessment.Predict` | Project-directory/app.py:78-80 | no model gives no prediction; a model gives its label for the averages in catalog order |
| `Assessment.Summarise` | App.py:49-62 | after the loop a record exists exactly when every category list is non-empty; each average is the mean of its list, the overall risk is `Overall` of the averages and the prediction is `Predict` of them; otherwise the error is `EmptyCategory` of the first empty category in catalog order |
| `Assessment.Evaluate` | App.py:41-62 | the POST handling of the `responses` items up to the slot write (append loop, then summary) yields exactly `Assess(fields, model)`, the function whose success, record and error `AssessSucceedsIff`, `AssessResultSpec` and `AssessFailureSpec` state |
| `Assessment.AssessSucceedsIff` | Project-directory/app.py:66-75 | a submission yields a record exactly when every field is well formed and every catalog category received at least one rating |
| `Assessment.AssessResultSpec` | Project-directory/app.py:74-87 | a record has exactly the four catalog averages, each the mean of that category's submitted ratings; its overall risk is the mean of the four; its prediction is `None` without a model and otherwise the model's label for the catalog-ordered averages |
| `Assessment.AssessFailureSpec` | App.py:44-49 | a failed submission reports the first malformed field, or, when all fields are well formed, the first catalog category without a rating |
| `Assessment.OverallWithin` | App.py:49-50 | ratings within a scale keep the overall risk within that scale |
| `AssessmentExample.ExampleField` | App.py:45-46 | field `Security_0` with value `5` files rating 5 under Security |
| `AssessmentExample.ExampleTooManyParts` | App.py:45 | a key with two underscores is the unpack error |
| `AssessmentExample.ExampleUnknownCategory` | App.py:46 | a key naming no catalog category is the lookup error |
| `AssessmentExample.ExampleSubmission` | App.py:40-62 | `to_dict` of the nine fields `Security_0`..`Scalability_1` rated 5, 3, 4, 2, 2, 1, 1, 3, 3 yield a record with averages 4, 2, 1, 3 and overall risk 2.5; the prediction is none without a model and otherwise its label for (4, 2, 1, 3) |
| `AssessmentExample.ExampleRepeatedKey` | Project-directory/app.py:65 | a form posting `Security_0` twice, with 5 and then 3, keeps only the 5 |
| `AssessmentExample.ExampleSummary` | App.py:49-55 | ratings 5,3,4 / 2,2 / 1,1 / 3,3 give averages 4, 2, 1, 3 and overall risk 2.5; there is no prediction without a model, and with one the prediction is its label for (4, 2, 1, 3) |
| `GatedSite.LoginTransition` | Project-directory/app.py:47-52 | a submitted login stores the username under `user` exactly when both fields equal the fixed pair; otherwise the session is unchanged; no other entry changes |
| `GatedSite.LogoutTransition` | Project-directory/app.py:134 | after logout the session is anonymous and every other entry is kept |
| `GatedSite.LogoutIdempotent` | Project-directory/app.py:134 | logging out twice is the same as logging out once |
| `GatedSite.LoginThenLogout` | Project-directory/app.py:131-136 | logging out right after a successful login restores the earlier anonymous session |
| `GatedSite.Site.constructor` | Project-directory/app.py:13-17 | a new client starts anonymous, with the slot as an earlier run left it |
| `GatedSite.Site.Login` | Project-directory/app.py:40-54 | GET changes nothing and shows the form; POST sets the session by the login transition and redirects to `/` exactly on a credential match, otherwise shows the form again; the stored user is always the valid username |
| `GatedSite.Site.Index` | Project-directory/app.py:56-93 | an anonymous session is redirected to login and the slot is untouched; otherwise GET shows the form, and POST evaluates `to_dict` of the form, then writes the record to the slot and redirects to results, or fails and leaves the slot as it was |
| `GatedSite.Site.Results` | Project-directory/app.py:95-110 | an anonymous session is redirected to login; an empty slot redirects to `/`; the results page is shown exactly when the session is authenticated and the slot is filled, and it shows the slot's record |
| `GatedSite.Site.Logout` | Project-directory/app.py:131-136 | the session becomes the logout transition of the old one, and the response redirects to login |
| `OpenSite.Site.constructor` | App.py:9-13 | the site starts with the given model and the slot as an earlier run left it |
| `OpenSite.Site.Index` | App.py:36-68 | GET shows the form; POST evaluates `to_dict` of the form, writes the record to the slot, replacing any earlier one, and redirects to results; on failure it leaves the slot as it was |
| `OpenSite.Site.Results` | App.py:70-79 | an empty slot gives the "No results found" message; otherwise the saved record is shown; there is no session check |

The aggregation code is identical in both files. Rows cite whichever file's
lines read most directly: `Project-directory/app.py:66-89` and
`App.py:41-64` are the same statements.

Two methods have no contract of their own: `GatedSite.Visit` and
`OpenSite.Resubmit`. They are client walk-throughs whose assertions follow
from the class contracts alone:

- `GatedSite.Visit`: the gate turns an anonymous client away, a wrong
  password does not log it in, the fixed pair does, and after logout the
  gate is closed again.
- `OpenSite.Resubmit`: a failed submission keeps the earlier record, which
  a successful one replaces.

## Left out

- The `/train` route of both files is not modelled. It reads a CSV with
  pandas, fits scikit-learn's `LogisticRegression` and pickles it; these are
  foreign library calls and numerics. Note that `train` assigns the new
  model to a local variable, so the running process keeps predicting with
  the model it loaded at start-up.
- Loading the pickled model at start-up is not modelled. The site
  constructors take the loaded model, or `None`, as a parameter. `if model:`
  is taken to be true for every loaded model.
- The JSON encoding of `results.json` is not modelled. The slot holds the
  record itself, so saving and loading give back the same record by
  construction. A failure while writing is not modelled either; an example
  is a label type `json.dump` cannot encode. Such a failure happens after
  `open("results.json", "w")` (App.py:63-64) has already truncated the
  file, so the program then loses the earlier record and a later
  `/results` fails in `json.load`; the model's slot keeps the earlier
  record on every failure.
- Flask itself is not modelled: routing, template rendering, `flash`
  messages, `secret_key`, HTTP status codes and cookies. Redirects and pages
  are response tags. One `GatedSite.Site` object stands for one client's
  session together with the shared slot. Flask keeps flashed messages in the
  same session; those entries are not modelled.
- The question texts of the catalog are not modelled. They are only
  rendered into the form; scoring uses only the category keys, which
  `Assessment.Categories` lists in the catalog's order.
- IEEE floating point is not modelled. Averages and the overall risk are
  exact rationals (`real`), where Python divides in binary floating point.
- Text.ParseInt: accepts only an optional `+` or `-` followed by ASCII
  digits. Python's `int` also accepts surrounding whitespace, underscores
  between digits and non-ASCII decimal digits, and the model rejects these.
  Python 3.11 and later also reject numerals longer than 4300 digits with a
  `ValueError`, and the model accepts them.
- Assessment.Predict: the classifier is a total function, so the model
  never fails in `model.predict`. The program raises there when, for
  example, the loaded model was fitted on other than four features or gets
  non-finite input. `Assessment.AssessSucceedsIff` therefore describes the
  program only for a classifier that does not raise.
- Assessment.Averages: each mean is an exact rational. Python's
  `sum(...) / len(...)` on integers raises `OverflowError` when the quotient
  exceeds the float range, for instance for a rating of 1 followed by 400
  zeros; the model has no such failure.
- The posted form is a sequence of (key, value) pairs in submission order.
  The `Site.Index` methods apply `Assessment.ToDict` before evaluating, so
  on a repeated key only the first value is filed. `Assess`, `Evaluate`
  and their lemmas take the items of `responses`. They hold for any
  sequence of items, and the routes pass them the output of `to_dict`.
- The model does not prove that the averages are unchanged when the fields
  are reordered. The classifier's input order is fixed by the catalog, as
  `Assessment.FeatureVector` states.
- Concurrent requests and last-writer-wins races on the slot are not
  modelled. The site has no concurrency control.
- Keys are split on every underscore and must unpack into exactly two
  parts. An unknown category, a non-integer rating and an empty category
  are uncaught exceptions (`ServerError`).
