/** Tokens and signals of the streaming spine (crates/tideline-server/src/token.rs). */
module Spine {
  import opened Bytes

  datatype Token = Token(offset: nat, data: Text)

  datatype Signal =
    | Tok(token: Token)
    | Gap
    | Error(message: Text)
    | Done
}
