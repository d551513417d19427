/** An optional value: an input that may fail to parse, a search that may
    find nothing, a force that may not be applied. */
module Options {

  datatype Option<T> = None | Some(value: T)
}
