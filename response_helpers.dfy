/** `sendErrorResponse`: the translation of a caught error into the one response sent for it. */
module ResponseHelpers {
  import opened Wrappers
  import opened Types
  import opened PrismaErrors

  const GenericMessage := "An unexpected error occurred. Please try again later."

  /** The generic 500: only an `error` string, no code and no meta. */
  const Unexpected := Response(INTERNAL_SERVER_ERROR, ErrorBody(GenericMessage))

  /**
   * A known Prisma error whose code has an entry in the table is a 400 that
   * carries the table's message and the error's own code and meta; every
   * other error is the generic 500.
   */
  function SendErrorResponse(error: Thrown): (r: Response)
    ensures r.status == BAD_REQUEST || r == Unexpected
    ensures r.status == BAD_REQUEST <==> error.PrismaKnown? && Lookup(error.code).Some?
  {
    if error.PrismaKnown? && Lookup(error.code).Some? then
      Response(BAD_REQUEST, PrismaErrorBody(Lookup(error.code).value, error.code, error.meta))
    else
      Unexpected
  }

  /** Each of the four codes gives a 400 with its message; code and meta are echoed unchanged. */
  lemma KnownCodeIsClientError(c: PrismaErrorCode, meta: Meta)
    ensures SendErrorResponse(PrismaKnown(Code(c), meta))
         == Response(BAD_REQUEST, PrismaErrorBody(Message(c), Code(c), meta))
  {
  }

  /** A 400 is produced for exactly the errors built from an enum member. */
  lemma ClientErrorExactlyForEnum(error: Thrown)
    ensures SendErrorResponse(error).status == BAD_REQUEST
        <==> error.PrismaKnown? && exists c :: Code(c) == error.code
  {
    if error.PrismaKnown? && FromCode(error.code).Some? {
      assert Code(FromCode(error.code).value) == error.code;
    }
  }

  /** A known Prisma error with a code outside the table gives the generic 500. */
  lemma UnknownCodeIsUnexpected(code: string, meta: Meta)
    requires code !in {"P2003", "P2002", "P2025", "P2000"}
    ensures SendErrorResponse(PrismaKnown(code, meta)) == Unexpected
  {
    UnknownCodeHasNoEntry(code);
  }

  /** Zod validation errors, and anything that is not a known Prisma error, give the generic 500. */
  lemma NonPrismaIsUnexpected(error: Thrown)
    requires !error.PrismaKnown?
    ensures SendErrorResponse(error) == Unexpected
    ensures SendErrorResponse(error).body.ErrorBody?
  {
  }
}
