/**
 * The right operand of a colour operator, as Python's `isinstance` sees it:
 * a colour of the operator's own class, a `float`, an `int`, or an object of
 * any other class (a colour of another class among them).
 */
module Operands {

  datatype Operand<C> =
    | Color(color: C)
    | Float(f: real)
    | Int(n: int)
    | Other(typeName: string)
  {
    /** `type(other).__name__`, given the name of the operator's own class. */
    function TypeName(className: string): string {
      match this
      case Color(_) => className
      case Float(_) => "float"
      case Int(_) => "int"
      case Other(name) => name
    }
  }
}
