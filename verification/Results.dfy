/** The result types shared by the models: a missing value, and a bounded machine byte. */
module Results {
  datatype Option<+T> = None | Some(value: T)

  type Byte = n: int | 0 <= n < 256
}
