/** Identifiers, context stack items and filters shared by the whole command line client. */
module Core {

  datatype Option<+T> = None | Some(value: T)

  type Ident = string

  /** A fully qualified object name, one identifier per level; PathText relates it to its text. */
  type Name = seq<Ident>

  datatype Object = Object(kind: Ident, name: Name)

  /** Db::ComparisonOperator. */
  datatype Comparison = Eq | Ne | Gt | Ge | Lt | Le | Contains | NotContains

  datatype Filter =
    | Compare(op: Comparison, kind: Ident, attribute: Ident, constant: string)
    | And(filters: seq<Filter>)
    | Or(filters: seq<Filter>)

  /** ContextStackItem: one named object, or every object a filter selects (no filter selects all). */
  datatype Item = Obj(kind: Ident, name: Ident) | Flt(kind: Ident, filter: Option<Filter>)

  type Stack = seq<Item>

  /** contextStackToPath: defined only for stacks without filters. */
  predicate FilterFree(stack: Stack) {
    forall i | 0 <= i < |stack| :: stack[i].Obj?
  }

  function StackPath(stack: Stack): (name: Name)
    requires FilterFree(stack)
    ensures |name| == |stack|
    ensures forall i | 0 <= i < |stack| :: name[i] == stack[i].name
  {
    seq(|stack|, i requires 0 <= i < |stack| => stack[i].name)
  }

  function Last<T>(s: seq<T>): T
    requires s != []
  {
    s[|s| - 1]
  }

  function DropLast<T>(s: seq<T>): seq<T>
    requires s != []
  {
    s[..|s| - 1]
  }

  predicate NoDuplicates<T(==)>(s: seq<T>) {
    forall i, j | 0 <= i < j < |s| :: s[i] != s[j]
  }

  function Elements<T>(s: seq<T>): set<T> {
    set x | x in s
  }
}
