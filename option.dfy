/** The `null`-or-value results of the source (`eigenvectors` of a complex
    pair, `svd2x2` when it gives up). */
module Optional {
  datatype Option<T> = None | Some(value: T)
}
