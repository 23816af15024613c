/** Shared definitions: optional values and bytes. */
module Basics {

  datatype Option<+T> = None | Some(value: T) {
    function GetOr(default: T): T {
      if Some? then value else default
    }
  }

  type Byte = bv8

  type Bytes = seq<Byte>
}
