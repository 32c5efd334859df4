/** An optional value: a grid cell that holds no particle is `None`, which is
    distinct from every particle, including one whose type is Empty. */
module Options {

  datatype Option<+T> = None | Some(value: T)

}
