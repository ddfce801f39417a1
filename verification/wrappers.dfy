/** Small wrapper used for the slice's nullable fields (`error: string | null`)
    and for the `undefined` that `Array.find` returns when nothing matches. */
module Wrappers {

  datatype Option<+T> = None | Some(value: T)
}
