/**
 * The record store: one browser storage slot holding the list of
 * expenses. Every change reads the list, builds a new one and writes it
 * back; a write that fails is swallowed, so the caller still gets the new
 * list while the slot keeps its old value. Outside a browser nothing is
 * read or written.
 */
module LocalStorage {
  import opened Wrappers
  import opened Expenses

  /** What the slot under the store's key holds. */
  datatype Slot =
    | Absent                        // nothing stored, or an empty string
    | Stored(expenses: seq<Expense>) // a list `JSON.parse` reads back
    | Malformed                     // text on which `JSON.parse` throws

  /** `Partial<Expense>`: the fields the caller supplies. */
  datatype Patch = Patch(
    id: Option<string>,
    date: Option<string>,
    amount: Option<int>,
    category: Option<Category>,
    description: Option<string>,
    createdAt: Option<string>,
    updatedAt: Option<string>)

  function Or<T>(o: Option<T>, d: T): T
  {
    if o.Some? then o.value else d
  }

  /** `{ ...expense, ...patch, updatedAt: now }`. */
  function Merge(e: Expense, patch: Patch, now: string): Expense
  {
    Expense(
      Or(patch.id, e.id),
      Or(patch.date, e.date),
      Or(patch.amount, e.amount),
      Or(patch.category, e.category),
      Or(patch.description, e.description),
      Or(patch.createdAt, e.createdAt),
      now)
  }

  /** The list after `updateExpense(id, patch)`: every record with that id merged. */
  function UpdatedList(expenses: seq<Expense>, id: string, patch: Patch, now: string): seq<Expense>
  {
    seq(|expenses|, i requires 0 <= i < |expenses| =>
      if expenses[i].id == id then Merge(expenses[i], patch, now) else expenses[i])
  }

  /** The list after `deleteExpense(id)`. */
  function WithoutId(expenses: seq<Expense>, id: string): seq<Expense>
  {
    Filter(expenses, (e: Expense) => e.id != id)
  }

  /** The store, with the presence of a browser window and a full quota as its environment. */
  class ExpenseStore {
    const hasWindow: bool
    var slot: Slot
    /** When set, every write throws (the storage quota is exhausted). */
    var quotaFull: bool

    constructor (hasWindow: bool, slot: Slot, quotaFull: bool)
      ensures this.hasWindow == hasWindow && this.slot == slot && this.quotaFull == quotaFull
    {
      this.hasWindow := hasWindow;
      this.slot := slot;
      this.quotaFull := quotaFull;
    }

    /** The list `getExpenses` returns in the current state. */
    function Contents(): seq<Expense>
      reads this
    {
      if !hasWindow then []
      else
        match slot
        case Absent => []
        case Stored(expenses) => expenses
        case Malformed => []
    }

    /** A write would go through. */
    predicate Writable()
      reads this
    {
      hasWindow && !quotaFull
    }

    /**
     * `getExpenses`: the stored list, or nothing when there is no window,
     * nothing stored, or text that does not parse.
     */
    method GetExpenses() returns (r: seq<Expense>)
      ensures r == Contents()
      ensures !hasWindow || slot.Absent? || slot.Malformed? ==> r == []
      ensures hasWindow && slot.Stored? ==> r == slot.expenses
    {
      if !hasWindow {
        return [];
      }
      match slot
      case Absent => r := [];
      case Stored(expenses) => r := expenses;
      case Malformed => r := [];
    }

    /** `saveExpenses`: stores the list, unless there is no window or the write throws. */
    method SaveExpenses(expenses: seq<Expense>)
      modifies this
      ensures slot == (if old(Writable()) then Stored(expenses) else old(slot))
      ensures quotaFull == old(quotaFull)
      ensures Writable() ==> Contents() == expenses
    {
      if !hasWindow {
        return;
      }
      if !quotaFull {
        slot := Stored(expenses);
      }
    }

    /** `addExpense`: the new record goes first. */
    method AddExpense(expense: Expense) returns (r: seq<Expense>)
      modifies this
      ensures r == [expense] + old(Contents())
      ensures slot == (if old(Writable()) then Stored(r) else old(slot))
      ensures quotaFull == old(quotaFull)
    {
      var expenses := GetExpenses();
      r := [expense] + expenses;
      SaveExpenses(r);
    }

    /** `updateExpense`: the clock's ISO reading is passed in as `now`. */
    method UpdateExpense(id: string, patch: Patch, now: string) returns (r: seq<Expense>)
      modifies this
      ensures r == UpdatedList(old(Contents()), id, patch, now)
      ensures slot == (if old(Writable()) then Stored(r) else old(slot))
      ensures quotaFull == old(quotaFull)
    {
      var expenses := GetExpenses();
      r := UpdatedList(expenses, id, patch, now);
      SaveExpenses(r);
    }

    /** `deleteExpense`. */
    method DeleteExpense(id: string) returns (r: seq<Expense>)
      modifies this
      ensures r == WithoutId(old(Contents()), id)
      ensures slot == (if old(Writable()) then Stored(r) else old(slot))
      ensures quotaFull == old(quotaFull)
    {
      var expenses := GetExpenses();
      r := WithoutId(expenses, id);
      SaveExpenses(r);
    }

    /** `clearAll`: removes the slot (removal does not hit the quota). */
    method ClearAll()
      modifies this
      ensures slot == (if hasWindow then Absent else old(slot))
      ensures quotaFull == old(quotaFull)
      ensures Contents() == []
    {
      if !hasWindow {
        return;
      }
      slot := Absent;
    }
  }

  /** An update keeps the length and order, and leaves records with another id untouched. */
  lemma UpdateKeepsOthers(expenses: seq<Expense>, id: string, patch: Patch, now: string)
    ensures var r := UpdatedList(expenses, id, patch, now);
      && |r| == |expenses|
      && forall i :: 0 <= i < |r| && expenses[i].id != id ==> r[i] == expenses[i]
  {
  }

  /**
   * A matching record takes every supplied field, keeps every field not
   * supplied, and always gets the new `updatedAt`.
   */
  lemma UpdateMergesMatch(expenses: seq<Expense>, id: string, patch: Patch, now: string, i: nat)
    requires i < |expenses| && expenses[i].id == id
    ensures var e, u := expenses[i], UpdatedList(expenses, id, patch, now)[i];
      && u.updatedAt == now
      && (patch.date.Some? ==> u.date == patch.date.value)
      && (patch.date.None? ==> u.date == e.date)
      && (patch.amount.Some? ==> u.amount == patch.amount.value)
      && (patch.amount.None? ==> u.amount == e.amount)
      && (patch.category.Some? ==> u.category == patch.category.value)
      && (patch.category.None? ==> u.category == e.category)
      && (patch.description.Some? ==> u.description == patch.description.value)
      && (patch.description.None? ==> u.description == e.description)
      && (patch.id.Some? ==> u.id == patch.id.value)
      && (patch.id.None? ==> u.id == id)
      && (patch.createdAt.Some? ==> u.createdAt == patch.createdAt.value)
      && (patch.createdAt.None? ==> u.createdAt == e.createdAt)
  {
  }

  /** Updating an id no record has changes nothing. */
  lemma UpdateUnknownIdIsNoOp(expenses: seq<Expense>, id: string, patch: Patch, now: string)
    requires forall i :: 0 <= i < |expenses| ==> expenses[i].id != id
    ensures UpdatedList(expenses, id, patch, now) == expenses
  {
  }

  /** A delete removes exactly the records with that id and keeps the others in order. */
  lemma DeleteRemovesExactly(expenses: seq<Expense>, id: string)
    ensures var r := WithoutId(expenses, id);
      && IsSubsequence(r, expenses)
      && (forall i :: 0 <= i < |r| ==> r[i].id != id)
      && (forall i :: 0 <= i < |expenses| && expenses[i].id != id ==> expenses[i] in r)
  {
  }

  /** Deleting the same id twice is the same as deleting it once. */
  lemma DeleteIdempotent(expenses: seq<Expense>, id: string)
    ensures WithoutId(WithoutId(expenses, id), id) == WithoutId(expenses, id)
  {
    FilterAllPass(WithoutId(expenses, id), (e: Expense) => e.id != id);
  }

  /** Deleting an id no record has changes nothing. */
  lemma DeleteUnknownIdIsNoOp(expenses: seq<Expense>, id: string)
    requires forall i :: 0 <= i < |expenses| ==> expenses[i].id != id
    ensures WithoutId(expenses, id) == expenses
  {
    FilterAllPass(expenses, (e: Expense) => e.id != id);
  }

  /** With a working store, what was added is read back first. */
  method AddThenGet(store: ExpenseStore, expense: Expense) returns (r: seq<Expense>)
    requires store.Writable()
    modifies store
    ensures r == [expense] + old(store.Contents())
  {
    var added := store.AddExpense(expense);
    r := store.GetExpenses();
  }

  /** A failed write is swallowed: the caller gets the new list, the store keeps the old one. */
  method FailedAddKeepsStore(store: ExpenseStore, expense: Expense) returns (r: seq<Expense>, after: seq<Expense>)
    requires store.hasWindow && store.quotaFull
    modifies store
    ensures r == [expense] + old(store.Contents())
    ensures after == old(store.Contents())
  {
    r := store.AddExpense(expense);
    after := store.GetExpenses();
  }

  /** After clearing, nothing is read back. */
  method ClearThenGet(store: ExpenseStore) returns (r: seq<Expense>)
    modifies store
    ensures r == []
  {
    store.ClearAll();
    r := store.GetExpenses();
  }
}
