/** The budget tracker: the month's budget per expense category, the progress of spend
    against it, the alert state machine that warns at more than 80% and alarms at more than
    100%, and the predicates the progress table is drawn from. */
module Budgets {
  import Seqs
  import opened Ledger
  import Summary

  /** A stored budget value: the empty string the edit field leaves, a number, or a value
      `Number` turns into NaN. */
  datatype BudgetCell = Empty | Numeric(value: real) | NotNumeric

  /** The budgets of the selected month, by category. */
  type BudgetMap = map<string, BudgetCell>

  /** A budget row as the budget store returns it. */
  datatype BudgetRow = BudgetRow(category: string, amount: BudgetCell)

  /** `Number(budgets[cat])`, with `None` for NaN (a missing key reads as `undefined`). */
  function NumberOf(b: BudgetMap, cat: string): Option<real> {
    if cat !in b then None
    else match b[cat]
      case Empty => Some(0.0)
      case Numeric(v) => Some(v)
      case NotNumeric => None
  }

  /** `Number(budgets[cat]) || 0`: the number, or 0 when it is NaN (and 0 is 0). */
  function BudgetAmount(b: BudgetMap, cat: string): (r: real)
    ensures NumberOf(b, cat).Some? ==> r == NumberOf(b, cat).value
    ensures NumberOf(b, cat).None? ==> r == 0.0
    ensures r == 0.0 <==> (cat !in b || b[cat] == Empty || b[cat] == NotNumeric || b[cat] == Numeric(0.0))
  {
    match NumberOf(b, cat)
    case None => 0.0
    case Some(v) => v
  }

  /** Row `i` is the last row for its category. */
  ghost predicate LastFor(rows: seq<BudgetRow>, i: int)
    requires 0 <= i < |rows|
  {
    forall j :: i < j < |rows| ==> rows[j].category != rows[i].category
  }

  /** The map `loadBudgets` builds with `forEach`, later rows overwriting earlier ones. */
  function BudgetMapOf(rows: seq<BudgetRow>): (r: BudgetMap)
    ensures r.Keys == set i | 0 <= i < |rows| :: rows[i].category
  {
    if |rows| == 0 then map[]
    else
      var init := rows[..|rows| - 1];
      assert (set i | 0 <= i < |rows| :: rows[i].category)
          == (set i | 0 <= i < |init| :: init[i].category) + {rows[|rows| - 1].category} by {
        forall i | 0 <= i < |init| ensures rows[i].category == init[i].category {
        }
      }
      BudgetMapOf(init)[rows[|rows| - 1].category := rows[|rows| - 1].amount]
  }

  /** Each key of the loaded map holds the amount of the last row for that category. */
  lemma {:induction false} BudgetMapLastWins(rows: seq<BudgetRow>)
    ensures forall i :: 0 <= i < |rows| && LastFor(rows, i) ==>
      rows[i].category in BudgetMapOf(rows) && BudgetMapOf(rows)[rows[i].category] == rows[i].amount
  {
    if |rows| > 0 {
      var init, last := rows[..|rows| - 1], rows[|rows| - 1];
      BudgetMapLastWins(init);
      var m := BudgetMapOf(rows);
      forall i | 0 <= i < |rows| && LastFor(rows, i)
        ensures rows[i].category in m && m[rows[i].category] == rows[i].amount
      {
        if i < |init| {
          assert rows[|rows| - 1].category != rows[i].category;
          assert init[i] == rows[i];
          assert LastFor(init, i);
        }
      }
    }
  }

  /** `handleBudgetChange`: a cleared field stores the empty string, anything else the
      number typed; no other category changes. */
  function ChangeBudget(b: BudgetMap, cat: string, input: NumberField): (r: BudgetMap)
    ensures r.Keys == b.Keys + {cat}
    ensures forall c :: c in b && c != cat ==> r[c] == b[c]
    ensures r[cat] == if input.Blank? then Empty else Numeric(input.number)
  {
    b[cat := if input.Blank? then Empty else Numeric(input.number)]
  }

  /** After an edit, the category's budget is what was typed, or 0 for a cleared field. */
  lemma ChangeSetsAmount(b: BudgetMap, cat: string, input: NumberField)
    ensures BudgetAmount(ChangeBudget(b, cat, input), cat) == if input.Blank? then 0.0 else input.number
    ensures forall c :: c != cat ==> BudgetAmount(ChangeBudget(b, cat, input), c) == BudgetAmount(b, c)
  {
  }

  /** One row of `budgetProgress`. */
  datatype Progress = Progress(category: string, spent: real, budget: real, percent: real)

  /** `percent` relates spend to budget as a percentage: with a positive budget it exceeds 100
      exactly when spend exceeds the budget, and 80 exactly when spend exceeds 80% of it;
      without one it is 0. */
  ghost predicate PercentConsistent(p: Progress) {
    && (p.budget > 0.0 ==>
         && p.percent * p.budget == p.spent * 100.0
         && (p.percent > 100.0 <==> p.spent > p.budget)
         && (p.percent >= 100.0 <==> p.spent >= p.budget)
         && (p.percent > 80.0 <==> p.spent > 0.8 * p.budget)
         && (p.percent > 0.0 <==> p.spent > 0.0))
    && (p.budget <= 0.0 ==> p.percent == 0.0)
  }

  lemma MulPositive(a: real, c: real)
    requires c > 0.0
    ensures a > 0.0 <==> a * c > 0.0
    ensures a >= 0.0 <==> a * c >= 0.0
  {
  }

  lemma DivCompare(x: real, y: real, k: real)
    requires y > 0.0
    ensures x / y > k <==> x > k * y
    ensures x / y >= k <==> x >= k * y
  {
    var q := x / y;
    assert q * y == x;
    MulPositive(q - k, y);
    assert (q - k) * y == q * y - k * y;
  }

  /** The percentage of a positive budget, `spent / budget * 100`, compares with 100 and 80 as
      spend compares with the budget and 80% of it. */
  lemma PercentFacts(spent: real, budget: real)
    requires budget > 0.0
    ensures PercentConsistent(Progress("", spent, budget, spent / budget * 100.0))
  {
    assert spent / budget * budget == spent;
    DivCompare(spent, budget, 1.0);
    DivCompare(spent, budget, 0.8);
    DivCompare(spent, budget, 0.0);
  }

  function ProgressFor(rates: Rates, es: seq<Entry>, b: BudgetMap, anchor: Date, cat: string): (p: Progress)
    ensures p.category == cat
    ensures p.spent == Summary.CategorySpend(rates, es, cat, anchor)
    ensures p.budget == BudgetAmount(b, cat)
    ensures PercentConsistent(p)
  {
    var spent := Summary.CategorySpend(rates, es, cat, anchor);
    var budget := BudgetAmount(b, cat);
    if budget > 0.0 then
      PercentFacts(spent, budget);
      Progress(cat, spent, budget, spent / budget * 100.0)
    else
      Progress(cat, spent, budget, 0.0)
  }

  /** `budgetProgress`: one row per expense category, in the fixed order, whose spend is the
      same filter-and-sum the category pie chart uses. */
  function BudgetProgress(rates: Rates, es: seq<Entry>, b: BudgetMap, anchor: Date): (r: seq<Progress>)
    ensures |r| == |ExpenseCategories|
    ensures forall i :: 0 <= i < |r| ==>
      && r[i].category == ExpenseCategories[i]
      && r[i].spent == Summary.CategorySpend(rates, es, ExpenseCategories[i], anchor)
      && r[i].budget == BudgetAmount(b, ExpenseCategories[i])
      && PercentConsistent(r[i])
  {
    seq(|ExpenseCategories|, (i: int) requires 0 <= i < |ExpenseCategories| =>
      ProgressFor(rates, es, b, anchor, ExpenseCategories[i]))
  }

  /** A category has positive spend in the progress table exactly when the pie chart has a
      slice for it, and that slice's value is the same spend. */
  lemma ProgressMatchesBreakdown(rates: Rates, es: seq<Entry>, b: BudgetMap, anchor: Date)
    ensures var r := BudgetProgress(rates, es, b, anchor);
      forall i :: 0 <= i < |r| ==>
        (r[i].spent > 0.0 <==> Summary.Slice(r[i].category, r[i].spent) in Summary.CategoryBreakdown(rates, es, anchor))
  {
    var r := BudgetProgress(rates, es, b, anchor);
    var slices := Summary.CategoryBreakdown(rates, es, anchor);
    forall i | 0 <= i < |r|
      ensures r[i].spent > 0.0 <==> Summary.Slice(r[i].category, r[i].spent) in slices
    {
      if Summary.Slice(r[i].category, r[i].spent) in slices {
        var k :| 0 <= k < |slices| && slices[k] == Summary.Slice(r[i].category, r[i].spent);
      }
    }
  }

  // ---------------------------------------------------------------------------------------
  // Alerts

  /** The alert marker of a category: `null`, `"approaching"` or `"exceeded"`. */
  datatype Band = Clear | Approaching | Exceeded

  /** The per-category alert markers; a missing category reads as `Clear`. */
  type AlertState = map<string, Band>

  function Marker(s: AlertState, cat: string): Band {
    if cat in s then s[cat] else Clear
  }

  /** The band a percentage falls in. */
  function BandOf(percent: real): Band {
    if percent > 100.0 then Exceeded else if percent > 80.0 then Approaching else Clear
  }

  /** Categories the alert effect considers: a positive budget and positive spend. */
  predicate Active(p: Progress) {
    p.budget > 0.0 && p.spent > 0.0
  }

  /** The alert raised on entering `band`; `Clear` is entered silently and has none. */
  function AlertFor(cat: string, band: Band): Notification
    requires band != Clear
  {
    if band == Exceeded then Notification(Error, "Budget exceeded for " + cat + "!")
    else Notification(Warning, "Budget approaching limit for " + cat)
  }

  /** One category's turn in the alert effect. An inactive category keeps its marker and
      raises nothing. An active one ends in the band of its percentage, and raises that
      band's alert exactly when it enters a band other than `Clear`, including a fall from
      `Exceeded` to `Approaching`; falling to `Clear` is silent. */
  function CategoryStep(prev: Band, p: Progress): (r: (Band, Option<Notification>))
    ensures !Active(p) ==> r == (prev, None)
    ensures Active(p) ==> r.0 == BandOf(p.percent)
    ensures r.1.Some? <==> r.0 != prev && r.0 != Clear
    ensures r.1.Some? ==> r.1.value == AlertFor(p.category, r.0)
  {
    if !Active(p) then (prev, None)
    else if p.percent > 100.0 && prev != Exceeded then
      (Exceeded, Some(AlertFor(p.category, Exceeded)))
    else if p.percent > 80.0 && p.percent <= 100.0 && prev != Approaching then
      (Approaching, Some(AlertFor(p.category, Approaching)))
    else if p.percent <= 80.0 && prev != Clear then
      (Clear, None)
    else
      (prev, None)
  }

  /** A second turn with the same progress changes nothing and raises nothing. */
  lemma CategoryStepSettles(prev: Band, p: Progress)
    ensures var b := CategoryStep(prev, p).0; CategoryStep(b, p) == (b, None)
  {
  }

  function CategoriesOf(ps: seq<Progress>): set<string> {
    set i | 0 <= i < |ps| :: ps[i].category
  }

  ghost predicate DistinctCategories(ps: seq<Progress>) {
    forall i, j :: 0 <= i < j < |ps| ==> ps[i].category != ps[j].category
  }

  /** Applies one category's turn; the marker is written only when it changes. */
  function Apply(s: AlertState, p: Progress): (AlertState, Option<Notification>) {
    var prev := Marker(s, p.category);
    var (b, note) := CategoryStep(prev, p);
    (if b == prev then s else s[p.category := b], note)
  }

  function NoteSeq(note: Option<Notification>): seq<Notification> {
    if note.Some? then [note.value] else []
  }

  /** The loop of the alert effect over the progress rows, in order. */
  function Sweep(s: AlertState, ps: seq<Progress>): (r: (AlertState, seq<Notification>))
    ensures |r.1| <= |ps|
    ensures forall c :: c !in CategoriesOf(ps) ==> (c in r.0 <==> c in s) && Marker(r.0, c) == Marker(s, c)
    decreases |ps|
  {
    if |ps| == 0 then (s, [])
    else
      var (s1, note) := Apply(s, ps[0]);
      var (s2, notes) := Sweep(s1, ps[1..]);
      assert forall c :: c in CategoriesOf(ps[1..]) ==> c in CategoriesOf(ps) by {
        forall c | c in CategoriesOf(ps[1..]) ensures c in CategoriesOf(ps) {
          var i :| 0 <= i < |ps[1..]| && ps[1..][i].category == c;
          assert ps[i + 1].category == c;
        }
      }
      assert ps[0].category in CategoriesOf(ps);
      (s2, NoteSeq(note) + notes)
  }

  /** The alert effect as a pure step: nothing happens before the budgets are loaded or while
      they are being edited; otherwise each category takes its turn, every category outside
      the progress rows keeps its marker, and at most one alert is raised per category. */
  function Step(s: AlertState, ps: seq<Progress>, loaded: bool, editing: bool): (r: (AlertState, seq<Notification>))
    ensures !loaded || editing ==> r == (s, [])
    ensures |r.1| <= |ps|
    ensures forall c :: c !in CategoriesOf(ps) ==> (c in r.0 <==> c in s) && Marker(r.0, c) == Marker(s, c)
  {
    if !loaded || editing then (s, []) else Sweep(s, ps)
  }

  /** The alerts each row raises when taken on its own from the markers before the sweep,
      joined in row order. */
  function RowNotes(s: AlertState, ps: seq<Progress>): (r: seq<Notification>)
    ensures |r| <= |ps|
    decreases |ps|
  {
    if |ps| == 0 then []
    else NoteSeq(CategoryStep(Marker(s, ps[0].category), ps[0]).1) + RowNotes(s, ps[1..])
  }

  /** `RowNotes` reads only the markers of the rows' own categories. */
  lemma {:induction false} RowNotesFrame(s: AlertState, t: AlertState, ps: seq<Progress>)
    requires forall i :: 0 <= i < |ps| ==> Marker(s, ps[i].category) == Marker(t, ps[i].category)
    ensures RowNotes(s, ps) == RowNotes(t, ps)
    decreases |ps|
  {
    if |ps| > 0 {
      assert forall i :: 0 <= i < |ps[1..]| ==> ps[1..][i] == ps[i + 1];
      RowNotesFrame(s, t, ps[1..]);
    }
  }

  /** The alerts `RowNotes` holds: a row's alert, when it raises one, is in the list, and
      every alert in the list is raised by some row. */
  lemma {:induction false} RowNotesMembers(s: AlertState, ps: seq<Progress>)
    ensures forall i :: 0 <= i < |ps| && CategoryStep(Marker(s, ps[i].category), ps[i]).1.Some? ==>
      CategoryStep(Marker(s, ps[i].category), ps[i]).1.value in RowNotes(s, ps)
    ensures forall n :: n in RowNotes(s, ps) ==>
      exists i :: 0 <= i < |ps| && CategoryStep(Marker(s, ps[i].category), ps[i]).1 == Some(n)
    decreases |ps|
  {
    if |ps| > 0 {
      var rest := ps[1..];
      RowNotesMembers(s, rest);
      var head := NoteSeq(CategoryStep(Marker(s, ps[0].category), ps[0]).1);
      assert RowNotes(s, ps) == head + RowNotes(s, rest);
      forall i | 0 <= i < |ps| && CategoryStep(Marker(s, ps[i].category), ps[i]).1.Some?
        ensures CategoryStep(Marker(s, ps[i].category), ps[i]).1.value in RowNotes(s, ps)
      {
        if i > 0 {
          assert rest[i - 1] == ps[i];
        }
      }
      forall n | n in RowNotes(s, ps)
        ensures exists i :: 0 <= i < |ps| && CategoryStep(Marker(s, ps[i].category), ps[i]).1 == Some(n)
      {
        if n in head {
          assert CategoryStep(Marker(s, ps[0].category), ps[0]).1 == Some(n);
        } else {
          assert n in RowNotes(s, rest);
          var j :| 0 <= j < |rest| && CategoryStep(Marker(s, rest[j].category), rest[j]).1 == Some(n);
          assert rest[j] == ps[j + 1];
        }
      }
    }
  }

  /** With one row per category, the sweep raises exactly the alerts each row raises on its
      own, in row order: an earlier row's turn never changes what a later row raises. */
  lemma {:induction false} SweepNotes(s: AlertState, ps: seq<Progress>)
    requires DistinctCategories(ps)
    ensures Sweep(s, ps).1 == RowNotes(s, ps)
    decreases |ps|
  {
    if |ps| > 0 {
      var s1 := Apply(s, ps[0]).0;
      var rest := ps[1..];
      assert forall i :: 0 <= i < |rest| ==> rest[i] == ps[i + 1];
      SweepNotes(s1, rest);
      forall i | 0 <= i < |rest| ensures Marker(s1, rest[i].category) == Marker(s, rest[i].category) {
        assert rest[i].category != ps[0].category;
      }
      RowNotesFrame(s1, s, rest);
    }
  }

  /** The step's alerts: none before loading or while editing; otherwise, with one row per
      category, exactly the alerts the rows raise on their own, in row order. */
  lemma StepNotes(s: AlertState, ps: seq<Progress>, loaded: bool, editing: bool)
    requires DistinctCategories(ps)
    ensures Step(s, ps, loaded, editing).1 == if loaded && !editing then RowNotes(s, ps) else []
  {
    if loaded && !editing {
      SweepNotes(s, ps);
    }
  }

  /** Only a prefix and suffix around the category distinguish two alert messages. */
  lemma Infix(pre: string, a: string, c: string, suf: string)
    requires pre + a + suf == pre + c + suf
    ensures a == c
  {
    var m := pre + a + suf;
    assert |a| == |c|;
    assert a == m[|pre|..|pre| + |a|];
    assert c == (pre + c + suf)[|pre|..|pre| + |c|];
  }

  /** Alerts name their category and band: no two differ in either and look the same. */
  lemma AlertForInjective(a: string, x: Band, c: string, y: Band)
    requires x != Clear && y != Clear
    requires AlertFor(a, x) == AlertFor(c, y)
    ensures a == c && x == y
  {
    if x == Exceeded {
      Infix("Budget exceeded for ", a, c, "!");
    } else {
      assert "Budget approaching limit for " + a + "" == "Budget approaching limit for " + a;
      assert "Budget approaching limit for " + c + "" == "Budget approaching limit for " + c;
      Infix("Budget approaching limit for ", a, c, "");
    }
  }

  /** With one row per category, the effect raises a category's "exceeded" (or
      "approaching") alert exactly when the category is active, its percentage is in that
      band, and its marker was not already that band. */
  lemma StepAlertIff(s: AlertState, ps: seq<Progress>, i: int, band: Band)
    requires DistinctCategories(ps)
    requires 0 <= i < |ps| && band != Clear
    ensures AlertFor(ps[i].category, band) in Step(s, ps, true, false).1 <==>
      Active(ps[i]) && BandOf(ps[i].percent) == band && Marker(s, ps[i].category) != band
  {
    StepNotes(s, ps, true, false);
    RowNotesMembers(s, ps);
    var note := AlertFor(ps[i].category, band);
    if note in Step(s, ps, true, false).1 {
      var j :| 0 <= j < |ps| && CategoryStep(Marker(s, ps[j].category), ps[j]).1 == Some(note);
      var b := CategoryStep(Marker(s, ps[j].category), ps[j]).0;
      AlertForInjective(ps[j].category, b, ps[i].category, band);
      assert j == i;
    }
  }

  /** With one row per category, each category ends with the marker its own turn gave it,
      starting from its marker before the sweep. */
  lemma {:induction false} SweepFinal(s: AlertState, ps: seq<Progress>)
    requires DistinctCategories(ps)
    ensures forall i :: 0 <= i < |ps| ==>
      Marker(Sweep(s, ps).0, ps[i].category) == CategoryStep(Marker(s, ps[i].category), ps[i]).0
    decreases |ps|
  {
    if |ps| > 0 {
      var s1 := Apply(s, ps[0]).0;
      var rest := ps[1..];
      SweepFinal(s1, rest);
      assert ps[0].category !in CategoriesOf(rest);
      forall i | 1 <= i < |ps|
        ensures Marker(Sweep(s, ps).0, ps[i].category) == CategoryStep(Marker(s, ps[i].category), ps[i]).0
      {
        assert rest[i - 1] == ps[i];
        assert Marker(s1, ps[i].category) == Marker(s, ps[i].category);
      }
    }
  }

  /** A sweep in which every row is already settled changes nothing and raises nothing. */
  lemma {:induction false} SweepSettledIsNoop(s: AlertState, ps: seq<Progress>)
    requires forall i :: 0 <= i < |ps| ==>
      CategoryStep(Marker(s, ps[i].category), ps[i]) == (Marker(s, ps[i].category), None)
    ensures Sweep(s, ps) == (s, [])
    decreases |ps|
  {
    if |ps| > 0 {
      assert Apply(s, ps[0]) == (s, None);
      assert forall i :: 0 <= i < |ps[1..]| ==> ps[1..][i] == ps[i + 1];
      SweepSettledIsNoop(s, ps[1..]);
    }
  }

  /** Re-running the alert effect on the same progress raises nothing and changes nothing. */
  lemma StepIdempotent(s: AlertState, ps: seq<Progress>, loaded: bool, editing: bool)
    requires DistinctCategories(ps)
    ensures var first := Step(s, ps, loaded, editing);
      Step(first.0, ps, loaded, editing) == (first.0, [])
  {
    if loaded && !editing {
      var s1 := Sweep(s, ps).0;
      SweepFinal(s, ps);
      forall i | 0 <= i < |ps|
        ensures CategoryStep(Marker(s1, ps[i].category), ps[i]) == (Marker(s1, ps[i].category), None)
      {
        CategoryStepSettles(Marker(s, ps[i].category), ps[i]);
      }
      SweepSettledIsNoop(s1, ps);
    }
  }

  /** After the effect has run, every active category's marker is the band of its
      percentage. */
  lemma StepReachesBand(s: AlertState, ps: seq<Progress>)
    requires DistinctCategories(ps)
    ensures forall i :: 0 <= i < |ps| && Active(ps[i]) ==>
      Marker(Step(s, ps, true, false).0, ps[i].category) == BandOf(ps[i].percent)
  {
    SweepFinal(s, ps);
  }

  /** The progress table has one row per category. */
  lemma ProgressCategoriesDistinct(rates: Rates, es: seq<Entry>, b: BudgetMap, anchor: Date)
    ensures DistinctCategories(BudgetProgress(rates, es, b, anchor))
  {
    ExpenseCategoriesDistinct();
  }

  // ---------------------------------------------------------------------------------------
  // The component's own state

  /** The budget component's state: budgets, whether they have been loaded, whether the edit
      form is open, and the alert markers. */
  datatype Tracker = Tracker(budgets: BudgetMap, loaded: bool, editing: bool, alerts: AlertState)

  const FetchFailedMessage := "Failed to fetch budgets"

  /** `loadBudgets`: runs only while the budgets are not loaded. A fetched list becomes the
      budget map, marks the budgets loaded and clears every alert marker; a failed fetch
      leaves the state as it is and reports an error. */
  function LoadBudgets(t: Tracker, fetched: Option<seq<BudgetRow>>): (r: (Tracker, Option<Notification>))
    ensures t.loaded ==> r == (t, None)
    ensures !t.loaded && fetched.None? ==> r == (t, Some(Notification(Error, FetchFailedMessage)))
    ensures !t.loaded && fetched.Some? ==>
      && r.1 == None
      && r.0 == Tracker(BudgetMapOf(fetched.value), true, t.editing, map[])
      && forall c :: Marker(r.0.alerts, c) == Clear
  {
    if t.loaded then (t, None)
    else match fetched
      case None => (t, Some(Notification(Error, FetchFailedMessage)))
      case Some(rows) => (Tracker(BudgetMapOf(rows), true, t.editing, map[]), None)
  }

  /** The alert effect on the component's state. */
  function AlertEffect(t: Tracker, rates: Rates, es: seq<Entry>, anchor: Date): (r: (Tracker, seq<Notification>))
    ensures r.0.budgets == t.budgets && r.0.loaded == t.loaded && r.0.editing == t.editing
    ensures |r.1| <= |ExpenseCategories|
    ensures r.1 == if t.loaded && !t.editing then RowNotes(t.alerts, BudgetProgress(rates, es, t.budgets, anchor)) else []
  {
    var ps := BudgetProgress(rates, es, t.budgets, anchor);
    ProgressCategoriesDistinct(rates, es, t.budgets, anchor);
    StepNotes(t.alerts, ps, t.loaded, t.editing);
    var (alerts, notes) := Step(t.alerts, ps, t.loaded, t.editing);
    (t.(alerts := alerts), notes)
  }

  /** Running the effect twice in a row raises alerts at most the first time. */
  lemma AlertEffectIdempotent(t: Tracker, rates: Rates, es: seq<Entry>, anchor: Date)
    ensures var first := AlertEffect(t, rates, es, anchor);
      AlertEffect(first.0, rates, es, anchor) == (first.0, [])
  {
    ProgressCategoriesDistinct(rates, es, t.budgets, anchor);
    StepIdempotent(t.alerts, BudgetProgress(rates, es, t.budgets, anchor), t.loaded, t.editing);
  }

  /** Replays the effect over successive progress snapshots of a loaded, not-edited
      component, collecting the alerts in order. */
  function Replay(s: AlertState, snapshots: seq<seq<Progress>>): (AlertState, seq<Notification>)
    decreases |snapshots|
  {
    if |snapshots| == 0 then (s, [])
    else
      var (s1, notes) := Step(s, snapshots[0], true, false);
      var (s2, more) := Replay(s1, snapshots[1..]);
      (s2, notes + more)
  }

  function FoodAt(spent: real): seq<Progress> {
    [Progress("Food", spent, 100.0, spent / 100.0 * 100.0)]
  }

  /** A budget of 100 with spend 50, 85, 110, 90, 110 raises four alerts: approaching at 85,
      exceeded at 110, approaching again on the fall to 90, exceeded again at 110. */
  lemma HysteresisExample()
    ensures var r := Replay(map[], [FoodAt(50.0), FoodAt(85.0), FoodAt(110.0), FoodAt(90.0), FoodAt(110.0)]);
      r.1 == [AlertFor("Food", Approaching), AlertFor("Food", Exceeded),
              AlertFor("Food", Approaching), AlertFor("Food", Exceeded)]
  {
    var none: AlertState := map[];
    var near: AlertState := map["Food" := Approaching];
    var over: AlertState := map["Food" := Exceeded];
    var warn, err := [AlertFor("Food", Approaching)], [AlertFor("Food", Exceeded)];
    assert Step(none, FoodAt(50.0), true, false) == (none, []) by {
      var r := FoodStep(none, 50.0);
    }
    assert Step(none, FoodAt(85.0), true, false) == (near, warn) by {
      var r := FoodStep(none, 85.0);
    }
    assert Step(near, FoodAt(110.0), true, false) == (over, err) by {
      var r := FoodStep(near, 110.0);
      assert near["Food" := Exceeded] == over;
    }
    assert Step(over, FoodAt(90.0), true, false) == (near, warn) by {
      var r := FoodStep(over, 90.0);
      assert over["Food" := Approaching] == near;
    }
    assert Step(near, FoodAt(110.0), true, false) == (over, err);
    var snaps := [FoodAt(50.0), FoodAt(85.0), FoodAt(110.0), FoodAt(90.0), FoodAt(110.0)];
    assert Replay(over, snaps[5..]) == (over, []);
    assert Replay(near, snaps[4..]) == (over, err) by {
      assert snaps[4..][0] == FoodAt(110.0) && snaps[4..][1..] == snaps[5..];
      assert err + [] == err;
    }
    assert Replay(over, snaps[3..]) == (over, warn + err) by {
      assert snaps[3..][0] == FoodAt(90.0) && snaps[3..][1..] == snaps[4..];
    }
    assert Replay(near, snaps[2..]) == (over, err + (warn + err)) by {
      assert snaps[2..][0] == FoodAt(110.0) && snaps[2..][1..] == snaps[3..];
    }
    assert Replay(none, snaps[1..]) == (over, warn + (err + (warn + err))) by {
      assert snaps[1..][0] == FoodAt(85.0) && snaps[1..][1..] == snaps[2..];
    }
    assert Replay(none, snaps) == (over, [] + (warn + (err + (warn + err)))) by {
      assert snaps[0] == FoodAt(50.0);
    }
  }

  /** The effect on a single "Food" row with budget 100, spelled out. */
  lemma FoodStep(s: AlertState, spent: real) returns (r: (AlertState, seq<Notification>))
    ensures r == Step(s, FoodAt(spent), true, false)
    ensures var prev := Marker(s, "Food");
      var (band, note) := CategoryStep(prev, Progress("Food", spent, 100.0, spent));
      r == (if band == prev then s else s["Food" := band], NoteSeq(note))
  {
    var p := FoodAt(spent)[0];
    assert p == Progress("Food", spent, 100.0, spent);
    assert FoodAt(spent)[1..] == [];
    var applied := Apply(s, p);
    assert Sweep(s, FoodAt(spent)) == (applied.0, NoteSeq(applied.1) + []);
    assert NoteSeq(applied.1) + [] == NoteSeq(applied.1);
    r := Step(s, FoodAt(spent), true, false);
  }

  // ---------------------------------------------------------------------------------------
  // The progress table

  /** The table's row filter, `Number(budgets[cat]) > 0`. */
  predicate Shown(b: BudgetMap, cat: string) {
    NumberOf(b, cat).Some? && NumberOf(b, cat).value > 0.0
  }

  /** The categories the table lists: those with a positive budget, in category order. */
  function ShownCategories(b: BudgetMap): (r: seq<string>)
    ensures forall c :: c in r <==> c in ExpenseCategories && BudgetAmount(b, c) > 0.0
  {
    Seqs.Keep(ExpenseCategories, (c: string) => Shown(b, c))
  }

  /** The listed categories keep the fixed category order. */
  lemma ShownInCategoryOrder(b: BudgetMap)
    ensures Seqs.SubsequenceAt(ShownCategories(b), ExpenseCategories,
                               Seqs.Positions(ExpenseCategories, (c: string) => Shown(b, c)))
  {
    Seqs.KeepIsStable(ExpenseCategories, (c: string) => Shown(b, c));
  }

  /** A listed row's progress has a positive budget, so it draws a bar. */
  lemma ShownRowsHaveBudget(rates: Rates, es: seq<Entry>, b: BudgetMap, anchor: Date)
    ensures var r := BudgetProgress(rates, es, b, anchor);
      forall i :: 0 <= i < |r| ==> (r[i].category in ShownCategories(b) <==> r[i].budget > 0.0)
  {
  }

  /** The bar's fill, `Math.min(percent, 100)`. */
  function BarValue(percent: real): (r: real)
    ensures r <= 100.0 && r <= percent
    ensures r == percent || r == 100.0
  {
    if percent < 100.0 then percent else 100.0
  }

  /** With a positive budget the bar is full exactly when the budget is used up. */
  lemma BarFullIffSpent(p: Progress)
    requires PercentConsistent(p) && p.budget > 0.0
    ensures BarValue(p.percent) == 100.0 <==> p.spent >= p.budget
  {
  }

  datatype BarColour = ErrorColour | WarningColour | PrimaryColour

  /** The bar's colour: error above 100%, warning above 80%, primary otherwise. */
  function Colour(percent: real): (c: BarColour)
    ensures c == BandColour(BandOf(percent))
  {
    if percent > 100.0 then ErrorColour else if percent > 80.0 then WarningColour else PrimaryColour
  }

  function BandColour(band: Band): BarColour {
    match band
    case Exceeded => ErrorColour
    case Approaching => WarningColour
    case Clear => PrimaryColour
  }

  /** After the alert effect has run, every active category's marker agrees with the colour
      of its bar. */
  lemma MarkersAgreeWithColours(t: Tracker, rates: Rates, es: seq<Entry>, anchor: Date)
    requires t.loaded && !t.editing
    ensures var ps := BudgetProgress(rates, es, t.budgets, anchor);
      var after := AlertEffect(t, rates, es, anchor).0;
      forall i :: 0 <= i < |ps| && Active(ps[i]) ==>
        BandColour(Marker(after.alerts, ps[i].category)) == Colour(ps[i].percent)
  {
    var ps := BudgetProgress(rates, es, t.budgets, anchor);
    ProgressCategoriesDistinct(rates, es, t.budgets, anchor);
    StepReachesBand(t.alerts, ps);
  }
}
