/**
 * Password hashing as the application relies on it: a stored hash accepts
 * exactly the password it was made from. The salted digest itself is not
 * modelled; a hash is represented by the password it checks.
 */
module Passwords {

  datatype PasswordHash = PasswordHash(secret: string)

  /** werkzeug's generate_password_hash. */
  function GeneratePasswordHash(password: string): PasswordHash {
    PasswordHash(password)
  }

  /** werkzeug's check_password_hash. */
  predicate CheckPasswordHash(stored: PasswordHash, password: string) {
    stored.secret == password
  }
}
