/** The `PrismaErrorCode` enum and the `PrismaErrorMessages` table. */
module PrismaErrors {
  import opened Wrappers

  datatype PrismaErrorCode =
    | ForeignKeyConstraintViolation
    | UniqueConstraintViolation
    | RecordNotFound
    | ValidationError

  /** The string value of each enum member. */
  function Code(c: PrismaErrorCode): string {
    match c
    case ForeignKeyConstraintViolation => "P2003"
    case UniqueConstraintViolation => "P2002"
    case RecordNotFound => "P2025"
    case ValidationError => "P2000"
  }

  /** The message `PrismaErrorMessages` holds for each enum member. */
  function Message(c: PrismaErrorCode): string {
    match c
    case ForeignKeyConstraintViolation => "Foreign key constraint failed. The related record was not found."
    case UniqueConstraintViolation => "Unique constraint violation. The field must be unique."
    case RecordNotFound => "The requested record was not found in the database."
    case ValidationError => "A value provided for a field is invalid or violates a constraint."
  }

  /** The enum member whose value is `code`, if any. */
  function FromCode(code: string): (r: Option<PrismaErrorCode>)
    ensures r.Some? ==> Code(r.value) == code
    ensures r.None? ==> forall c :: Code(c) != code
  {
    if code == "P2003" then Some(ForeignKeyConstraintViolation)
    else if code == "P2002" then Some(UniqueConstraintViolation)
    else if code == "P2025" then Some(RecordNotFound)
    else if code == "P2000" then Some(ValidationError)
    else None
  }

  /** `PrismaErrorMessages[code]` for any code string; None where the lookup is `undefined`. */
  function Lookup(code: string): Option<string> {
    match FromCode(code)
    case Some(c) => Some(Message(c))
    case None => None
  }

  /** The enum has exactly four members, with four different values. */
  lemma CodesAreFourDistinct()
    ensures forall c1, c2 :: Code(c1) == Code(c2) ==> c1 == c2
    ensures forall code :: FromCode(code).Some? <==> code in {"P2003", "P2002", "P2025", "P2000"}
  {
  }

  /** The table is total over the enum, and every message is non-empty and names one code. */
  lemma TableIsTotal()
    ensures forall c :: Lookup(Code(c)) == Some(Message(c))
    ensures forall c :: |Message(c)| > 0
    ensures forall c1, c2 :: Message(c1) == Message(c2) ==> c1 == c2
  {
    // the four messages already differ in length
    assert |Message(ForeignKeyConstraintViolation)| == 64;
    assert |Message(UniqueConstraintViolation)| == 54;
    assert |Message(RecordNotFound)| == 51;
    assert |Message(ValidationError)| == 65;
  }

  /** A code string outside the enum has no entry, so the lookup used as a guard is falsy for it. */
  lemma UnknownCodeHasNoEntry(code: string)
    requires code !in {"P2003", "P2002", "P2025", "P2000"}
    ensures Lookup(code) == None
  {
  }
}
