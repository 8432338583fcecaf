/** The rows every statement parser produces and the importer consumes (internal/importer/parser/parser.go). */
module Statement {
  import opened Common
  import opened Calendar

  datatype Direction = Debit | Credit

  /** Amounts and balances are paise. */
  datatype Row = Row(date: Date, description: string, amount: int, direction: Direction, reference: string,
                     balance: Option<int>)
}
