/** The ledger's values and their validation (internal/ledger). */
module Ledger {
  import opened Wrappers
  import opened Text
  import opened Instants
  import opened Amounts

  datatype Error =
    | InvalidRequest | EmptyBatch
    | BadAmount | BadType | BadCategory | NoteTooLong | NoTimestamp | BadID | UnsupportedKind
    | WrongContext | NotFound | UpdatesDeleted | AlreadyDeleted | NotDeleted
    | BadTimestamp | BadFilter | SumOverflow
    | StatementFailed

  /** The identity every row, event and batch belongs to. */
  datatype Scope = Scope(user: string, guild: string, channel: string)

  datatype RequestContext = RequestContext(scope: Scope, source: string, receivedAt: Instant)

  predicate ValidScope(scope: Scope) {
    !IsBlank(scope.user) && !IsBlank(scope.guild) && !IsBlank(scope.channel)
  }

  predicate ValidRequest(request: RequestContext) {
    ValidScope(request.scope) && !IsBlank(request.source) && request.receivedAt != ZERO
  }

  const INCOME := "income"
  const EXPENSE := "expense"
  const MAX_NOTE_LENGTH := 2000

  const INCOME_CATEGORIES: set<string> :=
    {"salary", "bonus", "freelance", "business", "investment_return", "refund", "gift", "other"}

  const EXPENSE_CATEGORIES: set<string> :=
    {"food", "transport", "housing", "utilities", "shopping", "health", "education", "entertainment",
     "travel", "insurance", "tax_fee", "family", "pet", "work", "debt_finance", "other"}

  datatype Input = Input(typ: string, amount: int64, category: string, note: string, occurredAt: Instant)

  predicate ValidType(typ: string) {
    typ == INCOME || typ == EXPENSE
  }

  predicate ValidCategory(typ: string, category: string) {
    ValidType(typ) && category in (if typ == EXPENSE then EXPENSE_CATEGORIES else INCOME_CATEGORIES)
  }

  /** TransactionInput.Validate: None when the input is accepted, else the first complaint. */
  function ValidateInput(input: Input): Option<Error> {
    if input.amount <= 0 then Some(BadAmount)
    else if !ValidType(input.typ) then Some(BadType)
    else if !ValidCategory(input.typ, input.category) then Some(BadCategory)
    else if |input.note| > MAX_NOTE_LENGTH then Some(NoteTooLong)
    else if input.occurredAt == ZERO then Some(NoTimestamp)
    else None
  }

  predicate ValidInput(input: Input) {
    ValidateInput(input) == None
  }

  /** A row of the transactions table, its timestamps as instants. */
  datatype Transaction = Transaction(
    id: int, typ: string, amount: int64, category: string, note: string, occurredAt: Instant,
    scope: Scope, source: string, createdAt: Instant, updatedAt: Instant, deletedAt: Option<Instant>)

  function InputOf(row: Transaction): Input {
    Input(row.typ, row.amount, row.category, row.note, row.occurredAt)
  }

  /** The rows whose stored timestamps scanTransaction can parse again. */
  predicate ReadableRow(row: Transaction) {
    && FourDigitYear(row.occurredAt) && FourDigitYear(row.createdAt) && FourDigitYear(row.updatedAt)
    && (row.deletedAt.Some? ==> FourDigitYear(row.deletedAt.value))
  }

  /** scanTransaction: the row, unless one of its timestamps does not parse. */
  function Scan(row: Transaction): Result<Transaction, Error> {
    if ReadableRow(row) then Ok(row) else Err(BadTimestamp)
  }

  /** Scan succeeds exactly when every stored text parses, and then each text gives its instant back. */
  lemma ScanParsesEveryTimestamp(row: Transaction)
    ensures Scan(row).Ok? <==>
            && ParseTime(FormatTime(row.occurredAt)).Some? && ParseTime(FormatTime(row.createdAt)).Some?
            && ParseTime(FormatTime(row.updatedAt)).Some?
            && (row.deletedAt.Some? ==> ParseTime(FormatTime(row.deletedAt.value)).Some?)
    ensures Scan(row).Ok? ==>
            && ParseTime(FormatTime(row.occurredAt)) == Some(row.occurredAt)
            && ParseTime(FormatTime(row.createdAt)) == Some(row.createdAt)
            && ParseTime(FormatTime(row.updatedAt)) == Some(row.updatedAt)
            && (row.deletedAt.Some? ==> ParseTime(FormatTime(row.deletedAt.value)) == row.deletedAt)
  {
    ParseTimeOfFormatTime(row.occurredAt);
    ParseTimeOfFormatTime(row.createdAt);
    ParseTimeOfFormatTime(row.updatedAt);
    if row.deletedAt.Some? {
      ParseTimeOfFormatTime(row.deletedAt.value);
    }
  }

  datatype Kind = Create | Update | Delete | Restore | Unknown(name: string)

  datatype Mutation = Mutation(kind: Kind, id: int64, input: Input)

  /** validateMutation */
  function ValidateMutation(m: Mutation): Option<Error> {
    match m.kind
    case Create => ValidateInput(m.input)
    case Update => if m.id <= 0 then Some(BadID) else ValidateInput(m.input)
    case Delete => if m.id <= 0 then Some(BadID) else None
    case Restore => if m.id <= 0 then Some(BadID) else None
    case Unknown(_) => Some(UnsupportedKind)
  }

  /** The complaint about the first mutation that is not valid. */
  function ValidateAll(ms: seq<Mutation>): (bad: Option<Error>)
    ensures bad != Some(StatementFailed)
  {
    if ms == [] then None
    else if ValidateMutation(ms[0]).Some? then ValidateMutation(ms[0])
    else ValidateAll(ms[1..])
  }

  lemma {:induction false} ValidateAllSound(ms: seq<Mutation>)
    ensures ValidateAll(ms) == None <==> forall i :: 0 <= i < |ms| ==> ValidateMutation(ms[i]) == None
    decreases |ms|
  {
    if ms != [] {
      ValidateAllSound(ms[1..]);
      assert ms == [ms[0]] + ms[1..];
    }
  }

  // ----- the requirements in plain terms -----

  predicate IsIncomeCategory(category: string) {
    category in {"salary", "bonus", "freelance", "business", "investment_return", "refund", "gift", "other"}
  }

  predicate IsExpenseCategory(category: string) {
    category in {"food", "transport", "housing", "utilities", "shopping", "health", "education", "entertainment",
                 "travel", "insurance", "tax_fee", "family", "pet", "work", "debt_finance", "other"}
  }

  /** A positive amount, a listed category of its type, at most 2000 characters of note, a time. */
  predicate GoodInput(input: Input) {
    && input.amount >= 1
    && ((input.typ == "income" && IsIncomeCategory(input.category)) ||
        (input.typ == "expense" && IsExpenseCategory(input.category)))
    && |input.note| <= 2000
    && input.occurredAt != Civil(1, 1, 1, 0, 0, 0, 0)
  }

  /** Creates and updates need a good input; everything but a create needs a positive id. */
  predicate GoodMutation(m: Mutation) {
    match m.kind
    case Create => GoodInput(m.input)
    case Update => m.id >= 1 && GoodInput(m.input)
    case Delete => m.id >= 1
    case Restore => m.id >= 1
    case Unknown(_) => false
  }

  /** Some character is not white space. */
  predicate HasText(s: string) {
    exists i :: 0 <= i < |s| && !IsSpace(s[i])
  }

  /** Every identifier has text, and the time is set. */
  predicate GoodRequest(request: RequestContext) {
    && HasText(request.scope.user) && HasText(request.scope.guild) && HasText(request.scope.channel)
    && HasText(request.source) && request.receivedAt != Civil(1, 1, 1, 0, 0, 0, 0)
  }

  /** The validation accepts exactly the good inputs, and otherwise names the first requirement that fails. */
  lemma InputsAreJudged(input: Input)
    ensures ValidInput(input) <==> GoodInput(input)
    ensures ValidateInput(input) ==
            if input.amount < 1 then Some(BadAmount)
            else if input.typ != "income" && input.typ != "expense" then Some(BadType)
            else if (input.typ == "income" && !IsIncomeCategory(input.category)) ||
                    (input.typ == "expense" && !IsExpenseCategory(input.category)) then Some(BadCategory)
            else if |input.note| >= 2001 then Some(NoteTooLong)
            else if input.occurredAt == Civil(1, 1, 1, 0, 0, 0, 0) then Some(NoTimestamp)
            else None
  {
  }

  lemma MutationsAreJudged(m: Mutation)
    ensures ValidateMutation(m) == None <==> GoodMutation(m)
    ensures !GoodMutation(m) ==>
            ValidateMutation(m) ==
            if m.kind.Unknown? then Some(UnsupportedKind)
            else if m.kind != Create && m.id < 1 then Some(BadID)
            else ValidateInput(m.input)
  {
    hide ValidInput, ValidateInput, GoodInput;
    InputsAreJudged(m.input);
    ValidInputMeans(m.input);
  }

  /** A batch is refused with the complaint about its first mutation that is not good. */
  lemma {:induction false} FirstComplaintCounts(ms: seq<Mutation>, i: nat)
    requires i < |ms| && !GoodMutation(ms[i]) && forall j :: 0 <= j < i ==> GoodMutation(ms[j])
    ensures ValidateAll(ms) == ValidateMutation(ms[i])
    decreases i
  {
    hide GoodMutation, ValidateMutation;
    MutationsAreJudged(ms[0]);
    if i > 0 {
      FirstComplaintCounts(ms[1..], i - 1);
    }
  }

  lemma ValidInputMeans(input: Input)
    ensures ValidInput(input) <==> ValidateInput(input) == None
  {
    hide ValidateInput;
  }

  lemma RequestsAreJudged(request: RequestContext)
    ensures ValidRequest(request) <==> GoodRequest(request)
  {
    hide IsSpace;
  }
}
