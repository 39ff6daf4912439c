/** An optional value: the game operations that draw food return None when the
    injected stream of random draws holds no free cell. */
module Optional {
  datatype Option<T> = None | Some(value: T)
}
