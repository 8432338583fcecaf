/** Values that may be absent and small numbers, shared by every component of the model. */
module Common {

  datatype Option<+T> = None | Some(value: T)

  function Abs(n: int): nat { if n < 0 then -n else n }

  function Min(a: nat, b: nat): nat { if a < b then a else b }
}
