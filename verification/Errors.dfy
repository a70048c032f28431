/** The error values the modelled operations return (error.rs). */
module Errors {
  datatype Error =
    | NotFound
    | Io
    | BadConfig
    | BadChunkSize
    | BadManifest
    | OutOfRange(index: nat, total: nat)
}
