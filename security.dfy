/** The foreign credential services, kept as uninterpreted functions: nothing
    is assumed about hashing or token signing beyond what the caller passes. */
module Security {

  /** `PasswordEncoder`: `encode` hashes a raw password, `matches` checks a raw
      password against a stored hash. */
  datatype PasswordEncoder = PasswordEncoder(
    encode: string -> string,
    matches: (string, string) -> bool)

  /** `JwtTokenProvider`: token generation from (user id, username), the access
      token lifetime in milliseconds, and the checks and claims of a token. */
  datatype JwtTokenProvider = JwtTokenProvider(
    generateAccessToken: (int, string) -> string,
    generateRefreshToken: (int, string) -> string,
    accessExpirationMs: int,
    validateToken: string -> bool,
    isRefreshToken: string -> bool,
    userIdFromToken: string -> int,
    usernameFromToken: string -> string)
}
