/** The record shapes of the ledger: savings goals and transactions.
    Currency amounts are exact `real` values; the JavaScript `number`
    arithmetic of the application is not modelled. */
module Types {

  /** An optional value, used for the goal's optional deadline. */
  datatype Option<+T> = None | Some(value: T)

  /** Direction of a transaction; the amount itself is always a magnitude. */
  datatype TxType = Income | Expense

  /** A savings target. `currentAmount` is what has been put aside so far. */
  datatype Goal = Goal(
    id: string,
    title: string,
    targetAmount: real,
    currentAmount: real,
    emoji: string,
    deadline: Option<string>
  )

  /** A single income or expense event. The `type` field of the
      application is called `kind` here. */
  datatype Transaction = Transaction(
    id: string,
    title: string,
    amount: real,
    category: string,
    date: string,
    kind: TxType
  )
}
