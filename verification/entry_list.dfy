/** The entry list's two updates: `handleAddEntry`, which validates the form, lets the
    store save the entry and appends what the store returns, and `handleDeleteEntry`, which
    drops every entry with the deleted id. */
module EntryList {
  import Seqs
  import Text
  import opened Ledger

  /** The add-entry form's fields. */
  datatype EntryForm = EntryForm(
    title: string,
    amount: NumberField,
    kind: EntryKind,
    category: string,
    currency: string)

  /** What the entry store answered: the id and date of the saved entry, or a failure. */
  datatype SaveOutcome = Saved(id: int, date: Date) | SaveFailed

  /** The guard of `handleAddEntry`: a title that is not blank once trimmed and an amount
      that is present and positive. */
  predicate ValidForm(f: EntryForm) {
    Text.Trim(f.title) != [] && f.amount.Value? && f.amount.number > 0.0
  }

  const InvalidFormMessage := "Please enter valid title and amount."
  const AddFailedMessage := "Failed to add entry."
  const AddedMessage := "Entry added successfully!"

  /** `handleAddEntry`: an invalid form or a failed save leaves the list as it is and reports
      an error; otherwise the saved entry, with the trimmed title, is appended at the end. */
  function AddEntry(es: seq<Entry>, f: EntryForm, outcome: SaveOutcome): (r: (seq<Entry>, Notification))
    ensures !ValidForm(f) ==> r == (es, Notification(Error, InvalidFormMessage))
    ensures ValidForm(f) && outcome.SaveFailed? ==> r == (es, Notification(Error, AddFailedMessage))
    ensures ValidForm(f) && outcome.Saved? ==>
      && r.1 == Notification(Success, AddedMessage)
      && |r.0| == |es| + 1 && r.0[..|es|] == es
      && var e := r.0[|es|];
         && e.id == outcome.id && e.date == outcome.date
         && e.amount == f.amount.number && e.amount > 0.0
         && e.kind == f.kind && e.category == f.category && e.currency == f.currency
         && e.title == Text.Trim(f.title)
  {
    if !ValidForm(f) then (es, Notification(Error, InvalidFormMessage))
    else match outcome
      case SaveFailed => (es, Notification(Error, AddFailedMessage))
      case Saved(id, date) =>
        var e := Entry(id, Text.Trim(f.title), f.amount.number, f.currency, f.category, f.kind, date);
        (es + [e], Notification(Success, AddedMessage))
  }

  /** The form guard in the user's terms: the form is rejected exactly when the title is
      blank or the amount is missing or not positive. */
  lemma FormRejection(f: EntryForm)
    ensures !ValidForm(f) <==>
      Text.AllWhitespace(f.title) || f.amount.Blank? || (f.amount.Value? && f.amount.number <= 0.0)
  {
  }

  /** The list grows exactly when the form is valid and the store saved the entry. */
  lemma AddGrowsIffAccepted(es: seq<Entry>, f: EntryForm, outcome: SaveOutcome)
    ensures AddEntry(es, f, outcome).0 != es <==> ValidForm(f) && outcome.Saved?
    ensures AddEntry(es, f, outcome).1.severity == Success <==> ValidForm(f) && outcome.Saved?
  {
    if ValidForm(f) && outcome.Saved? {
      assert |AddEntry(es, f, outcome).0| == |es| + 1;
    }
  }

  function Survives(id: int): Entry -> bool {
    (e: Entry) => e.id != id
  }

  const DeletedMessage := "Entry deleted."
  const DeleteFailedMessage := "Failed to delete entry"

  /** `handleDeleteEntry`: after the store confirms, every entry with the id is gone and every
      other entry stays; on failure nothing changes. */
  function DeleteEntry(es: seq<Entry>, id: int, confirmed: bool): (r: (seq<Entry>, Notification))
    ensures confirmed ==>
      && r.1 == Notification(Info, DeletedMessage)
      && (forall k :: 0 <= k < |r.0| ==> r.0[k] in es && r.0[k].id != id)
      && (forall i :: 0 <= i < |es| && es[i].id != id ==> es[i] in r.0)
    ensures !confirmed ==> r == (es, Notification(Error, DeleteFailedMessage))
  {
    if confirmed then (Seqs.Keep(es, Survives(id)), Notification(Info, DeletedMessage))
    else (es, Notification(Error, DeleteFailedMessage))
  }

  /** Deleting keeps the surviving entries in their order: the new list is the old one read at
      the increasing positions of exactly the entries whose id differs. */
  lemma DeleteKeepsOrder(es: seq<Entry>, id: int)
    ensures var pos := Seqs.Positions(es, Survives(id));
      && Seqs.SubsequenceAt(DeleteEntry(es, id, true).0, es, pos)
      && forall i :: 0 <= i < |es| ==> (i in pos <==> es[i].id != id)
  {
    Seqs.KeepIsStable(es, Survives(id));
  }

  /** Deleting an id no entry has changes nothing. */
  lemma DeleteAbsentId(es: seq<Entry>, id: int)
    requires forall e :: e in es ==> e.id != id
    ensures DeleteEntry(es, id, true).0 == es
  {
    Seqs.KeepAll(es, Survives(id));
  }

  /** An entry the form could have produced: positive amount, non-blank title with no
      whitespace at either end. */
  predicate WellFormed(e: Entry) {
    e.amount > 0.0 && e.title != [] && !Text.IsWhitespace(e.title[0]) && !Text.IsWhitespace(e.title[|e.title| - 1])
  }

  /** Adding and deleting preserve "every entry is well formed". */
  lemma UpdatesPreserveWellFormed(es: seq<Entry>, f: EntryForm, outcome: SaveOutcome, id: int, confirmed: bool)
    requires forall e :: e in es ==> WellFormed(e)
    ensures forall e :: e in AddEntry(es, f, outcome).0 ==> WellFormed(e)
    ensures forall e :: e in DeleteEntry(es, id, confirmed).0 ==> WellFormed(e)
  {
    var added := AddEntry(es, f, outcome).0;
    if ValidForm(f) && outcome.Saved? {
      assert added == es + [added[|es|]];
    }
  }
}
