/** Python's optional values: a result that is either absent (`None`) or present. */
module Options {

  datatype Option<+T> = None | Some(value: T)
}
