/**
 * The opaque building blocks a weak form is put together from.
 *
 * The finite-element library decides which basis quantities it computes from a
 * set of update flags; every symbolic operand declares the flags it needs, and
 * a form or an integral takes the union of its parts' flags.  The operands
 * themselves (test functions, functors, integrals, ...) are modelled only by
 * what the forms and integrals use of them: which kind of operand they are,
 * their two renderings and their flags.
 */
module Operands {

  /** The number of values of a 32-bit unsigned integer. */
  const UInt32Modulus: int := 0x1_0000_0000

  /** The C++ unsigned int, and the library's 32-bit id types. */
  newtype uint32 = x: int | 0 <= x < UInt32Modulus

  /** The basis-evaluation quantities of the library's UpdateFlags bit set. */
  datatype Flag =
    | UpdateValues
    | UpdateGradients
    | UpdateHessians
    | Update3rdDerivatives
    | UpdateQuadraturePoints
    | UpdateNormalVectors
    | UpdateJxWValues

  /** A bit set of update flags; bitwise OR is set union, update_default is {}. */
  type UpdateFlags = set<Flag>

  /**
   * The role an operand plays at the head of its expression: it is (or leads
   * with) a test function, a trial solution, it is a plain functor, or it is
   * already a symbolic integral.
   */
  datatype OperandKind =
    | TestFunctionOp
    | TrialSolutionOp
    | FunctorOp
    | SymbolicIntegralOp

  /**
   * An operand as seen by a form: its kind, its ASCII and LaTeX renderings
   * (already produced with the caller's decorations) and its update flags.
   */
  datatype Operand = Operand(kind: OperandKind, ascii: string, latex: string, updateFlags: UpdateFlags)
}
