/**
 * The token maker the services and middlewares rely on. Its implementation is
 * not part of this model: creating and verifying a token are parameters.
 */
module Token {
  import opened Wrappers
  import opened Errors
  import opened Permission

  /** What a token vouches for: its id, the user and role, and when it was issued and expires. */
  datatype Payload = Payload(id: string, username: string, role: Role, issuedAt: int, expiredAt: int)

  /**
   * `CreateToken(username, role, duration)` gives the token string and its
   * payload or an error; `VerifyToken(token)` gives the payload or an error.
   * A new payload reads the clock and draws a random id, so `create` also
   * takes the time of the call and a draw number that stands for the random id:
   * calls with different draws stand for different ids.
   */
  datatype Maker = Maker(
    create: (string, Role, int, int, nat) -> Result<(string, Payload), Err>,
    verify: string -> Result<Payload, Err>)
}
