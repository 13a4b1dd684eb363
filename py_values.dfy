/** The small part of Python's dynamic values that the humidifier integration
    handles: the booleans, integers and `None` a MIoT property read returns. */
module PyValues {

  datatype Option<+T> = None | Some(value: T)

  /** A property value as the device reports it. */
  datatype Value = B(bval: bool) | I(ival: int) | Null

  /** Python truthiness (`bool(v)`): `False`, `0` and `None` are falsy. */
  predicate Truthy(v: Value)
  {
    match v
    case B(b) => b
    case I(n) => n != 0
    case Null => false
  }

  /** The integer a value compares equal to (and hashes like) in Python,
      where `True == 1` and `False == 0`; `None` equals no integer. */
  function NumericValue(v: Value): Option<int>
  {
    match v
    case B(b) => Some(if b then 1 else 0)
    case I(n) => Some(n)
    case Null => None
  }
}
