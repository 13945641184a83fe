/** `filteredEntries`: the entries listed on screen, narrowed to the selected day, month
    or year and to a free-text search over title and category. */
module PeriodFilter {
  import Seqs
  import Text
  import opened Ledger

  datatype Granularity = ByDay | ByMonth | ByYear

  /** The period test against the selected date. */
  predicate InPeriod(d: Date, g: Granularity, anchor: Date) {
    match g
    case ByDay => d.day == anchor.day && d.month == anchor.month && d.year == anchor.year
    case ByMonth => d.month == anchor.month && d.year == anchor.year
    case ByYear => d.year == anchor.year
  }

  /** The search box text as it is matched: trimmed, then lower-cased. */
  function SearchTerm(search: string): (term: string)
    ensures term == [] <==> Text.AllWhitespace(search)
  {
    Text.Lower(Text.Trim(search))
  }

  /** An empty term matches everything; otherwise the lower-cased title or category must
      contain the term. */
  predicate MatchesSearch(e: Entry, term: string) {
    term == [] || Text.Contains(Text.Lower(e.title), term) || Text.Contains(Text.Lower(e.category), term)
  }

  function Wanted(g: Granularity, anchor: Date, term: string): Entry -> bool {
    (e: Entry) => InPeriod(e.date, g, anchor) && MatchesSearch(e, term)
  }

  function InPeriodOnly(g: Granularity, anchor: Date): Entry -> bool {
    (e: Entry) => InPeriod(e.date, g, anchor)
  }

  /** `filteredEntries`: an entry is listed exactly when it is in the period and matches the
      search. */
  function Filtered(es: seq<Entry>, g: Granularity, anchor: Date, search: string): (r: seq<Entry>)
    ensures forall i :: 0 <= i < |r| ==>
      r[i] in es && InPeriod(r[i].date, g, anchor) && MatchesSearch(r[i], SearchTerm(search))
    ensures forall i :: 0 <= i < |es| ==>
      (InPeriod(es[i].date, g, anchor) && MatchesSearch(es[i], SearchTerm(search)) ==> es[i] in r)
  {
    Seqs.Keep(es, Wanted(g, anchor, SearchTerm(search)))
  }

  /** The filtered list is `es` read at the increasing positions of exactly the wanted
      entries: a subsequence keeping relative order, with nothing wanted left out. */
  lemma FilteredIsStable(es: seq<Entry>, g: Granularity, anchor: Date, search: string)
    ensures var pos := Seqs.Positions(es, Wanted(g, anchor, SearchTerm(search)));
      && Seqs.SubsequenceAt(Filtered(es, g, anchor, search), es, pos)
      && forall i :: 0 <= i < |es| ==>
           (i in pos <==> InPeriod(es[i].date, g, anchor) && MatchesSearch(es[i], SearchTerm(search)))
  {
    Seqs.KeepIsStable(es, Wanted(g, anchor, SearchTerm(search)));
  }

  /** With a blank search box, the listed entries are exactly those in the period. */
  lemma BlankSearchKeepsPeriod(es: seq<Entry>, g: Granularity, anchor: Date, search: string)
    requires Text.AllWhitespace(search)
    ensures Filtered(es, g, anchor, search) == Seqs.Keep(es, InPeriodOnly(g, anchor))
  {
    Seqs.KeepCongruent(es, Wanted(g, anchor, SearchTerm(search)), InPeriodOnly(g, anchor));
  }

  /** A non-blank search keeps an entry only if its lower-cased title or category contains
      the term somewhere. */
  lemma SearchNeedsOccurrence(es: seq<Entry>, g: Granularity, anchor: Date, search: string, e: Entry)
    requires !Text.AllWhitespace(search)
    requires e in Filtered(es, g, anchor, search)
    ensures exists i :: Text.OccursAt(Text.Lower(e.title), SearchTerm(search), i)
                     || Text.OccursAt(Text.Lower(e.category), SearchTerm(search), i)
  {
    var term := SearchTerm(search);
    var k :| 0 <= k < |Filtered(es, g, anchor, search)| && Filtered(es, g, anchor, search)[k] == e;
    Text.ContainsIffOccurs(Text.Lower(e.title), term);
    Text.ContainsIffOccurs(Text.Lower(e.category), term);
  }

  /** Narrower periods list fewer entries: the day view is the month view filtered by day,
      and the month view is the year view filtered by month. */
  lemma PeriodsNest(es: seq<Entry>, anchor: Date, search: string)
    ensures Filtered(es, ByDay, anchor, search)
         == Seqs.Keep(Filtered(es, ByMonth, anchor, search), InPeriodOnly(ByDay, anchor))
    ensures Filtered(es, ByMonth, anchor, search)
         == Seqs.Keep(Filtered(es, ByYear, anchor, search), InPeriodOnly(ByMonth, anchor))
  {
    var term := SearchTerm(search);
    Seqs.KeepKeep(es, Wanted(ByMonth, anchor, term), InPeriodOnly(ByDay, anchor), Wanted(ByDay, anchor, term));
    Seqs.KeepKeep(es, Wanted(ByYear, anchor, term), InPeriodOnly(ByMonth, anchor), Wanted(ByMonth, anchor, term));
  }

  /** With a blank search, an entry dated on the selected day is listed whatever the
      granularity. */
  lemma SelectedDayListed(es: seq<Entry>, g: Granularity, anchor: Date, search: string, e: Entry)
    requires Text.AllWhitespace(search)
    requires e in es && e.date == anchor
    ensures e in Filtered(es, g, anchor, search)
  {
  }

  /** With the first of March 2024 selected, an entry of 29 February 2024 is listed in the
      year view only. */
  lemma PeriodBoundary(es: seq<Entry>, e: Entry)
    requires e in es && e.date == Date(2024, 1, 29)
    ensures var anchor := Date(2024, 2, 1);
      && e !in Filtered(es, ByDay, anchor, "")
      && e !in Filtered(es, ByMonth, anchor, "")
      && e in Filtered(es, ByYear, anchor, "")
  {
    var anchor := Date(2024, 2, 1);
    assert Text.AllWhitespace("");
    assert InPeriod(e.date, ByYear, anchor);
  }
}
