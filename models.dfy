/**
 * The wallet record and the error taxonomy shared by the repository and the
 * service (internal/models/wallet.go), with the Option and Result wrappers
 * used for Go's (value, error) pairs.
 */
module Models {

  /** Go's (*T, error) returns: a value on success, an error and nil otherwise. */
  datatype Result<+T> = Success(value: T) | Failure(error: Error)

  /** Go's bare error return: nil or an error. */
  datatype Option<+T> = None | Some(value: T)

  /** A uuid.UUID: 16 bytes, read here as one 128-bit number. */
  newtype WalletId = x: int | 0 <= x < 0x1_0000_0000_0000_0000_0000_0000_0000_0000

  /** The persisted wallet row: a primary-key id and an integer balance. */
  datatype Wallet = Wallet(id: WalletId, balance: int)

  /** The error half of a (*T, error) pair. */
  function ErrorOf<T>(r: Result<T>): (err: Option<Error>)
  {
    match r
    case Success(_) => None
    case Failure(e) => Some(e)
  }

  /** The balance a freshly inserted row gets (`default:0` on the column). */
  const DefaultBalance: int := 0

  /** The storage table: a balance per wallet id. */
  type Store = map<WalletId, int>

  /** The errors the core reports. */
  datatype Error =
    | NotFound           // gorm.ErrRecordNotFound: no row with that id
    | DuplicateKey       // the insert of an id that is already a primary key
    | AmountNotPositive  // the service's amount check
    | InsufficientFunds  // a withdrawal larger than the balance
    | UnknownOperation   // an operation kind that is neither DEPOSIT nor WITHDRAW

  /**
   * The text the error carries. The service writes its three messages
   * itself; "record not found" is GORM's ErrRecordNotFound, and for a
   * duplicate key this is only the start of PostgreSQL's message, which
   * goes on to name the constraint.
   */
  function Message(e: Error): (text: string)
  {
    match e
    case NotFound => "record not found"
    case DuplicateKey => "duplicate key value violates unique constraint"
    case AmountNotPositive => "Amount must be positive"
    case InsufficientFunds => "Insufficient funds"
    case UnknownOperation => "Error"
  }

  /** The committed-state invariant: no wallet holds a negative balance. */
  ghost predicate NonNegative(store: Store)
  {
    forall id :: id in store ==> 0 <= store[id]
  }
}
