/** The user record kept by the store and the creation parameters
    (`User` and `UserCreate`) that the provisioning code exchanges. */
module Models {
  import opened Outcomes

  type Email = string
  /** A plaintext password or generated secret. */
  type Secret = string
  /** The output of the one-way password hash. */
  type Digest = string
  /** Stands for the UUID primary key of a user row. */
  type UserId = nat

  /** The two-tier role of an account. */
  datatype Role = Basic | Admin

  /** A stored user account. */
  datatype User = User(
    id: UserId,
    email: Email,
    hashedPassword: Digest,
    firstName: Option<string>,
    lastName: Option<string>,
    isActive: bool,
    isSuperuser: bool,
    isVerified: bool,
    role: Role)

  /** The fields a caller supplies to create an account; the password is in plaintext. */
  datatype UserCreate = UserCreate(
    email: Email,
    password: Secret,
    firstName: Option<string>,
    lastName: Option<string>,
    isActive: bool,
    isSuperuser: bool,
    isVerified: bool,
    role: Role)
}
