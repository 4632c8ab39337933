/** A value that may be absent: JavaScript's `null` in the React state and the GraphQL resolvers. */
module Options {
  datatype Option<+T> = None | Some(value: T)
}
