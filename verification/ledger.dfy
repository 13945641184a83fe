/** The tracker's data: entries, dates, exchange rates, the fixed expense categories and
    the notifications the client shows; plus conversion to the base currency (USD) and
    the left-to-right sum of converted amounts that every aggregate is built from. */
module Ledger {
  import Seqs

  datatype Option<T> = None | Some(value: T)

  /** A calendar month as JavaScript's `Date.getMonth` numbers it: 0 is January. */
  type Month = m: int | 0 <= m < 12

  /** A local calendar date: what `getFullYear`, `getMonth` and `getDate` read. */
  datatype Date = Date(year: int, month: Month, day: int)

  datatype EntryKind = Income | Expense

  /** One income or expense record as the client holds it after loading. */
  datatype Entry = Entry(
    id: int,
    title: string,
    amount: real,
    currency: string,
    category: string,
    kind: EntryKind,
    date: Date)

  /** The value of an HTML number input: the browser reports either nothing or a valid
      number, so `Number(value)` of a non-empty value is that number. */
  datatype NumberField = Blank | Value(number: real)

  /** Units of each currency per one US dollar, as the rate source returns them. */
  type Rates = map<string, real>

  /** The expense categories, in the order every per-category view uses. */
  const ExpenseCategories: seq<string> :=
    ["Food", "Transport", "Shopping", "Bills", "Entertainment", "Other"]

  datatype Severity = Info | Warning | Success | Error

  /** A message for the client's snackbar. */
  datatype Notification = Notification(severity: Severity, message: string)

  /** A rate is usable when it is present and truthy, that is, nonzero. */
  predicate HasRate(rates: Rates, currency: string) {
    currency in rates && rates[currency] != 0.0
  }

  /** `convertToBase`: divides by the currency's rate when it has a usable one and passes
      the amount through unchanged otherwise; it never fails. */
  function ConvertToBase(rates: Rates, amount: real, currency: string): (r: real)
    ensures HasRate(rates, currency) ==> r * rates[currency] == amount
    ensures !HasRate(rates, currency) ==> r == amount
  {
    if HasRate(rates, currency) then amount / rates[currency] else amount
  }

  function Converted(rates: Rates, e: Entry): real {
    ConvertToBase(rates, e.amount, e.currency)
  }

  /** `reduce((sum, e) => sum + convertToBase(e.amount, e.currency), 0)`, summing from the left. */
  function Total(rates: Rates, es: seq<Entry>): real {
    if |es| == 0 then 0.0 else Total(rates, es[..|es| - 1]) + Converted(rates, es[|es| - 1])
  }

  /** The sum read from the front: the first entry's converted amount plus the rest's. */
  lemma TotalFromFront(rates: Rates, es: seq<Entry>)
    requires |es| > 0
    ensures Total(rates, es) == Converted(rates, es[0]) + Total(rates, es[1..])
  {
    TotalAppend(rates, [es[0]], es[1..]);
    assert [es[0]] + es[1..] == es;
    assert [es[0]][..0] == [];
  }

  /** Appending one entry adds its converted amount. */
  lemma TotalSnoc(rates: Rates, es: seq<Entry>, e: Entry)
    ensures Total(rates, es + [e]) == Total(rates, es) + Converted(rates, e)
  {
    assert (es + [e])[..|es|] == es;
  }

  /** Totals add up over concatenation, so a sum may be split anywhere. */
  lemma {:induction false} TotalAppend(rates: Rates, a: seq<Entry>, b: seq<Entry>)
    ensures Total(rates, a + b) == Total(rates, a) + Total(rates, b)
    decreases |b|
  {
    if |b| > 0 {
      var b' := b[..|b| - 1];
      assert (a + b)[..|a + b| - 1] == a + b';
      TotalAppend(rates, a, b');
    } else {
      assert a + b == a;
    }
  }

  /** Entries that are not counted contribute nothing: the total of a filter by `p` splits
      into the totals of the filters by two disjoint predicates `q`, `r` whose union is `p`. */
  lemma {:induction false} TotalSplit(rates: Rates, es: seq<Entry>, p: Entry -> bool, q: Entry -> bool, r: Entry -> bool)
    requires forall e :: p(e) == (q(e) || r(e))
    requires forall e :: !(q(e) && r(e))
    ensures Total(rates, Seqs.Keep(es, p))
         == Total(rates, Seqs.Keep(es, q)) + Total(rates, Seqs.Keep(es, r))
  {
    if |es| > 0 {
      var init, last := es[..|es| - 1], es[|es| - 1];
      TotalSplit(rates, init, p, q, r);
      TotalAppend(rates, Seqs.Keep(init, p), if p(last) then [last] else []);
      TotalAppend(rates, Seqs.Keep(init, q), if q(last) then [last] else []);
      TotalAppend(rates, Seqs.Keep(init, r), if r(last) then [last] else []);
      assert Total(rates, [last]) == Converted(rates, last) by {
        assert [last][..0] == [];
      }
    }
  }

  /** A filter that keeps nothing sums to zero. */
  lemma TotalOfNothing(rates: Rates, es: seq<Entry>, p: Entry -> bool)
    requires forall e :: e in es ==> !p(e)
    ensures Total(rates, Seqs.Keep(es, p)) == 0.0
  {
    Seqs.KeepNone(es, p);
  }

  /** Filters by predicates that agree on every entry have equal totals. */
  lemma TotalCongruent(rates: Rates, es: seq<Entry>, p: Entry -> bool, q: Entry -> bool)
    requires forall e :: e in es ==> p(e) == q(e)
    ensures Total(rates, Seqs.Keep(es, p)) == Total(rates, Seqs.Keep(es, q))
  {
    Seqs.KeepCongruent(es, p, q);
  }

  /** The fixed category list has no repeats. */
  lemma ExpenseCategoriesDistinct()
    ensures forall i, j :: 0 <= i < j < |ExpenseCategories| ==> ExpenseCategories[i] != ExpenseCategories[j]
  {
  }
}
