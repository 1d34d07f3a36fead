/** The order document of `server/models/Order.js`: the status enumeration with
    its default, the bound on item quantities, and the `pre('save')` hook that
    appends to the status history. Saving runs the schema validation first and
    then the hook; the database write itself is left out. Dates are timestamps
    passed in by the caller. */
module Order {
  import opened Js

  const Pending := "pending to be confirmed"

  /** The values the `status` path accepts. */
  const Statuses: seq<string> := [Pending, "confirmed", "processing", "shipped", "delivered", "cancelled"]

  const CreatedNote := "Order created"

  datatype OrderItem = OrderItem(productId: string, name: string, price: int, quantity: int)

  /** One `statusHistory` entry; `note` is absent on plain status changes. */
  datatype HistoryEntry = HistoryEntry(status: string, date: int, note: Option<string>)

  /** What the schema validation checks of the modelled paths: the status is one
      of the enumeration and every item quantity is at least 1. */
  predicate PassesValidation(status: string, items: seq<OrderItem>)
  {
    status in Statuses && forall i :: 0 <= i < |items| ==> items[i].quantity >= 1
  }

  /** The history after the hook has run. */
  function HookHistory(history: seq<HistoryEntry>, status: string, isNew: bool, statusModified: bool, now: int)
    : (r: seq<HistoryEntry>)
  {
    if isNew then history + [HistoryEntry(status, now, Some(CreatedNote))]
    else if statusModified then history + [HistoryEntry(status, now, None)]
    else history
  }

  /** The hook only appends: earlier entries are kept as they are, one entry is
      added for a new order (with the creation note) or a changed status (without
      a note), and none otherwise. */
  lemma HookAppendsOnly(history: seq<HistoryEntry>, status: string, isNew: bool, statusModified: bool, now: int)
    ensures var r := HookHistory(history, status, isNew, statusModified, now);
      && |r| == |history| + (if isNew || statusModified then 1 else 0)
      && r[..|history|] == history
      && (isNew ==> r[|history|] == HistoryEntry(status, now, Some(CreatedNote)))
      && (!isNew && statusModified ==> r[|history|] == HistoryEntry(status, now, None))
  {
  }

  /** Every entry of a history built by successive saves of valid orders carries
      an enumeration value. */
  lemma HookKeepsStatusesValid(history: seq<HistoryEntry>, status: string, isNew: bool, statusModified: bool, now: int)
    requires forall i :: 0 <= i < |history| ==> history[i].status in Statuses
    requires status in Statuses
    ensures var r := HookHistory(history, status, isNew, statusModified, now);
      forall i :: 0 <= i < |r| ==> r[i].status in Statuses
  {
  }

  class OrderDocument {
    var status: string
    var items: seq<OrderItem>
    var statusHistory: seq<HistoryEntry>
    /** Mongoose's `isNew`: the document has not been saved yet. */
    var isNew: bool
    /** Mongoose's `isModified('status')` since the last save. */
    var statusModified: bool

    /** Every history entry names a status of the enumeration. */
    ghost predicate HistoryValid()
      reads this
    {
      forall i :: 0 <= i < |statusHistory| ==> statusHistory[i].status in Statuses
    }

    /** A new order; a missing status takes the schema default. */
    constructor (items: seq<OrderItem>, status: Option<string>)
      ensures this.items == items && statusHistory == [] && isNew && !statusModified
      ensures this.status == if status.Some? then status.value else Pending
      ensures HistoryValid()
    {
      this.items := items;
      this.status := if status.Some? then status.value else Pending;
      statusHistory := [];
      isNew := true;
      statusModified := false;
    }

    /** `order.status = s`: Mongoose marks the path modified only when the value changes. */
    method SetStatus(s: string)
      modifies this
      ensures status == s && statusModified == (old(statusModified) || s != old(status))
      ensures items == old(items) && statusHistory == old(statusHistory) && isNew == old(isNew)
    {
      if s != status {
        statusModified := true;
      }
      status := s;
    }

    /** The `pre('save')` hook. */
    method PreSave(now: int)
      modifies this
      ensures statusHistory == HookHistory(old(statusHistory), status, isNew, statusModified, now)
      ensures status == old(status) && items == old(items) && isNew == old(isNew) && statusModified == old(statusModified)
    {
      if isNew {
        statusHistory := statusHistory + [HistoryEntry(status, now, Some(CreatedNote))];
      } else if statusModified {
        statusHistory := statusHistory + [HistoryEntry(status, now, None)];
      }
    }

    /** `order.save()`: validation, then the hook, then the document counts as
        stored and unmodified. A document that fails validation is not changed. */
    method Save(now: int) returns (saved: bool)
      requires HistoryValid()
      modifies this
      ensures saved == PassesValidation(old(status), old(items))
      ensures !saved ==> statusHistory == old(statusHistory) && isNew == old(isNew) && statusModified == old(statusModified)
      ensures saved ==> statusHistory == HookHistory(old(statusHistory), status, old(isNew), old(statusModified), now)
      ensures saved ==> !isNew && !statusModified
      ensures status == old(status) && items == old(items)
      ensures HistoryValid()
    {
      if !PassesValidation(status, items) {
        return false;
      }
      PreSave(now);
      HookKeepsStatusesValid(old(statusHistory), status, old(isNew), old(statusModified), now);
      isNew := false;
      statusModified := false;
      saved := true;
    }
  }
}
