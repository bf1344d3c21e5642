/** The rows of the four tables, the request bodies, the replies, and the
    HTTP errors the handlers raise. Text columns are strings; a nullable
    column is an Option. */
module Records {
  import opened Wrappers

  const ADMIN := "admin"
  const WORKER := "worker"
  const FARMER := "farmer"

  const ACTIVE := "Active"
  const REVOKED := "Revoked"
  const NEW := "New"
  const IN_REVIEW := "In Review"

  /** The stored password verifier: the SHA-256 hex digest of the password.
      It is kept symbolic, so two digests are equal exactly when the two
      passwords are. */
  datatype Digest = Sha256(plaintext: string)

  datatype User = User(
    id: nat,
    username: string,
    password: Digest,
    role: string,
    fullName: Option<string>,
    createdAt: string)

  datatype Certificate = Certificate(
    id: nat,
    certNumber: string,
    farmerName: string,
    farmName: string,
    level: string,
    status: string,
    issuedDate: string,
    validUntil: string,
    userId: Option<int>)

  datatype Complaint = Complaint(
    id: nat,
    complaintId: string,
    userId: Option<int>,
    category: string,
    subject: string,
    description: string,
    status: string,
    aiClassification: Option<string>,
    createdAt: string,
    updatedAt: string)

  datatype Rating = Rating(
    id: nat,
    userId: int,
    farmerId: int,
    transport: int,
    conditions: int,
    equipment: int,
    wages: int,
    comments: Option<string>,
    createdAt: string)

  /** Request bodies. */
  datatype ComplaintCreate = ComplaintCreate(category: string, subject: string, description: string)
  datatype CertificateCreate = CertificateCreate(farmerName: string, farmName: string, level: string, validUntil: string)
  datatype RatingCreate = RatingCreate(
    farmerId: int, transport: int, conditions: int, equipment: int, wages: int, comments: Option<string>)
  {
    /** Every integer of the body can be bound as an SQLite INTEGER. */
    predicate Bindable() {
      IsInt64(farmerId) && IsInt64(transport) && IsInt64(conditions) && IsInt64(equipment) && IsInt64(wages)
    }
  }

  /** The range of a signed 64-bit SQLite INTEGER; the database driver
      refuses to bind any other Python int (an OverflowError). */
  predicate IsInt64(n: int) {
    -0x8000_0000_0000_0000 <= n < 0x8000_0000_0000_0000
  }

  /** Replies of the mutating handlers. */
  datatype ComplaintReceipt = ComplaintReceipt(complaintId: string, status: string)
  datatype CertificateReceipt = CertificateReceipt(certNumber: string, status: string)
  datatype Ack = Ack(message: string)

  /** The HTTPException a handler raises, and the reply to an unhandled
      database error (a violated UNIQUE constraint, an unbindable integer). */
  datatype HttpError =
    | Unauthorized(detail: string)
    | Forbidden(detail: string)
    | NotFound(detail: string)
    | ServerError(detail: string)
  {
    function StatusCode(): int {
      match this
      case Unauthorized(_) => 401
      case Forbidden(_) => 403
      case NotFound(_) => 404
      case ServerError(_) => 500
    }
  }

  datatype Result<+T> = Ok(value: T) | Err(error: HttpError)
}
