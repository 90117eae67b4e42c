/** `RsqliteError` and the classification of SQLite result codes. */
module Errors {
  import opened Sqlite

  /** The wrapper's error type. `InvalidCString` carries the position of the
      first NUL byte (what `NulError` reports); `Unknown` carries the code as
      the engine returned it. */
  datatype RsqliteError =
    | InvalidCString(nulPosition: nat)
    | Abort | Auth | Busy | CantOpen | Constraint | Corrupt | Error | Full
    | Internal | Interrupt | IOerr | Locked | Mismatch | Misuse | Nolfs
    | Nomem | Notadb | Notfound | Perm | Protocol | Range | Readonly
    | Schema | Toobig
    | Unknown(code: Int32)

  datatype Result<T> = Ok(value: T) | Err(error: RsqliteError)

  /** The variants that name one primary SQLite result code. */
  predicate IsBackendClass(e: RsqliteError) {
    !e.InvalidCString? && !e.Unknown?
  }

  /** The primary result codes that have a variant of their own:
      1-15, 17-23, 25 and 26 (not 0 OK, 16 EMPTY, 24 FORMAT, 100 ROW, 101 DONE). */
  const ListedPrimaries: set<int> :=
    {1, 2, 3, 4, 5, 6, 7, 8, 9, 10, 11, 12, 13, 14, 15, 17, 18, 19, 20, 21, 22, 23, 25, 26}

  /** The SQLite primary result code a variant stands for (SQLITE_ERROR is 1,
      SQLITE_INTERNAL 2, ..., SQLITE_NOTADB 26). */
  function PrimaryCode(e: RsqliteError): (c: int)
    requires IsBackendClass(e)
    ensures c in ListedPrimaries
  {
    match e
    case Error => 1
    case Internal => 2
    case Perm => 3
    case Abort => 4
    case Busy => 5
    case Locked => 6
    case Nomem => 7
    case Readonly => 8
    case Interrupt => 9
    case IOerr => 10
    case Corrupt => 11
    case Notfound => 12
    case Full => 13
    case CantOpen => 14
    case Protocol => 15
    case Schema => 17
    case Toobig => 18
    case Constraint => 19
    case Mismatch => 20
    case Misuse => 21
    case Nolfs => 22
    case Auth => 23
    case Range => 25
    case Notadb => 26
  }

  /** `ecode & 255` on a C int. For two's complement the low byte of a
      negative number is its Euclidean remainder modulo 256, which is what
      Dafny's `%` computes. */
  function LowByte(ecode: Int32): (b: int)
    ensures 0 <= b < 256
    ensures (ecode - b) % 256 == 0
  {
    ecode % 256
  }

  /** `impl From<c_int> for RsqliteError`: classifies a result code by its
      primary (low) byte, so an extended code falls into its primary class;
      a code whose low byte has no variant becomes `Unknown` of the whole code. */
  function FromCode(ecode: Int32): (e: RsqliteError)
    ensures !e.InvalidCString?
    ensures e.Unknown? <==> LowByte(ecode) !in ListedPrimaries
    ensures e.Unknown? ==> e.code == ecode
    ensures IsBackendClass(e) ==> PrimaryCode(e) == LowByte(ecode)
  {
    match LowByte(ecode)
    case 4 => Abort
    case 23 => Auth
    case 5 => Busy
    case 14 => CantOpen
    case 19 => Constraint
    case 11 => Corrupt
    case 1 => Error
    case 13 => Full
    case 2 => Internal
    case 9 => Interrupt
    case 10 => IOerr
    case 6 => Locked
    case 20 => Mismatch
    case 21 => Misuse
    case 22 => Nolfs
    case 7 => Nomem
    case 26 => Notadb
    case 12 => Notfound
    case 3 => Perm
    case 15 => Protocol
    case 25 => Range
    case 8 => Readonly
    case 17 => Schema
    case 18 => Toobig
    case _ => Unknown(ecode)
  }

  /** Two codes with the same low byte fall into the same class; in
      particular an extended code classifies as its primary code. */
  lemma SameLowByteSameClass(a: Int32, b: Int32)
    requires LowByte(a) == LowByte(b)
    ensures FromCode(a) == FromCode(b) || (FromCode(a) == Unknown(a) && FromCode(b) == Unknown(b))
  {
  }

  /** SQLITE_CONSTRAINT_UNIQUE (19 | 8 << 8) is a `Constraint` error. */
  lemma ExtendedConstraintIsConstraint()
    ensures FromCode(19 + 8 * 256) == Constraint
  {
  }

  /** Each named variant is what its own primary code classifies as. */
  lemma PrimaryRoundTrip(e: RsqliteError)
    requires IsBackendClass(e)
    ensures FromCode(PrimaryCode(e)) == e
  {
  }

  /** Distinct variants stand for distinct primary codes. */
  lemma PrimaryCodeInjective(e1: RsqliteError, e2: RsqliteError)
    requires IsBackendClass(e1) && IsBackendClass(e2)
    requires PrimaryCode(e1) == PrimaryCode(e2)
    ensures e1 == e2
  {
  }

  /** The 24 listed primary codes map to 24 pairwise distinct named variants. */
  lemma ListedCodesClassifyInjectively(a: Int32, b: Int32)
    requires a in ListedPrimaries && b in ListedPrimaries
    ensures IsBackendClass(FromCode(a)) && IsBackendClass(FromCode(b))
    ensures FromCode(a) == FromCode(b) ==> a == b
  {
  }

  /** OK, EMPTY, FORMAT, ROW and DONE have no variant: they come back as
      `Unknown` with the unmasked code. */
  lemma UnlistedCodesAreUnknown()
    ensures FromCode(SQLITE_OK) == Unknown(0)
    ensures FromCode(16) == Unknown(16) && FromCode(24) == Unknown(24)
    ensures FromCode(SQLITE_ROW) == Unknown(100) && FromCode(SQLITE_DONE) == Unknown(101)
    ensures FromCode(-1) == Unknown(-1)
  {
  }
}
