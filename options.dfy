/** A value that may be absent: JavaScript's `undefined`/`null` for a slot not yet filled,
    and the "no parse" answer of the decoders. */
module Options {
  datatype Option<+T> = None | Some(value: T)
}
