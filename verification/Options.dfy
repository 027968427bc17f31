/** A value that may be absent: Go's nil results, missing map entries and unset fields. */
module Options {

  datatype Option<+T> = None | Some(value: T) {
    function GetOr(default: T): T {
      if Some? then value else default
    }
  }
}
