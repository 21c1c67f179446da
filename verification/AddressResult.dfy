/** The outcome of the address decoders: std::expected with the errors of address.hpp. */
module AddressResult {

  datatype Error = Empty | UnknownPrefix | BadLength | BadChecksum | BadCharacter | UnsupportedVersion | UnsupportedNetwork

  datatype Result<T> = Ok(value: T) | Err(error: Error)
}
