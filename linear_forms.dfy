/**
 * The linear form (test function, functor): an immutable pair that renders
 * as "(v, f)", asks for the union of its parts' update flags, and is turned
 * into a volume, boundary or interface integral by dV, dA and dI.
 */
module LinearForms {
  import opened Operands
  import opened SymbolicIntegrals

  /**
   * The LaTeX pieces a linear form is typeset with: the fixed square braces,
   * and the multiplication symbol chosen by the number of indices the test
   * function and the functor contract over.
   */
  datatype LatexSymbols = LatexSymbols(lSquareBrace: string, rSquareBrace: string, multiply: string)

  datatype LinearForm = LinearForm(testSpaceOp: Operand, functorOp: Operand)
  {
    /**
     * The construction constraints: the first part is (or leads with) a test
     * function; the functor leads with neither a test function nor a trial
     * solution; and the functor is not an integral, so integrals never nest.
     */
    predicate IsWellFormed()
    {
      && testSpaceOp.kind == TestFunctionOp
      && functorOp.kind != TestFunctionOp
      && functorOp.kind != TrialSolutionOp
      && functorOp.kind != SymbolicIntegralOp
    }

    /** "(" test ", " functor ")": both parts can be read back off the rendering. */
    function AsAscii(): (r: string)
      ensures |r| == |testSpaceOp.ascii| + |functorOp.ascii| + 4
      ensures r[0] == '(' && r[|r| - 1] == ')'
      ensures r[1..1 + |testSpaceOp.ascii|] == testSpaceOp.ascii
      ensures r[1 + |testSpaceOp.ascii|..3 + |testSpaceOp.ascii|] == ", "
      ensures r[3 + |testSpaceOp.ascii|..|r| - 1] == functorOp.ascii
    {
      "(" + testSpaceOp.ascii + ", " + functorOp.ascii + ")"
    }

    /** l-brace, test, multiply symbol, functor, r-brace, in that order. */
    function AsLatex(symbols: LatexSymbols): (r: string)
      ensures |r| == |symbols.lSquareBrace| + |testSpaceOp.latex| + |symbols.multiply| +
                     |functorOp.latex| + |symbols.rSquareBrace|
      ensures r[..|symbols.lSquareBrace|] == symbols.lSquareBrace
      ensures r[|symbols.lSquareBrace|..|symbols.lSquareBrace| + |testSpaceOp.latex|] == testSpaceOp.latex
      ensures r[|symbols.lSquareBrace| + |testSpaceOp.latex|..
                |symbols.lSquareBrace| + |testSpaceOp.latex| + |symbols.multiply|] == symbols.multiply
      ensures r[|r| - |symbols.rSquareBrace| - |functorOp.latex|..|r| - |symbols.rSquareBrace|] == functorOp.latex
      ensures r[|r| - |symbols.rSquareBrace|..] == symbols.rSquareBrace
    {
      symbols.lSquareBrace + testSpaceOp.latex + symbols.multiply + functorOp.latex + symbols.rSquareBrace
    }

    /** A flag is needed exactly when the test function or the functor needs it. */
    function GetUpdateFlags(): (r: UpdateFlags)
      ensures forall flag :: flag in r <==> flag in testSpaceOp.updateFlags || flag in functorOp.updateFlags
    {
      testSpaceOp.updateFlags + functorOp.updateFlags
    }

    /** dV(): the form integrated over every cell. */
    function DV(): (r: SymbolicIntegral<LinearForm>)
      requires IsWellFormed()
      ensures r.integrand == this && r.integralOperation.VolumeIntegral?
      ensures r.integralOperation.subdomains == {}
      ensures forall cell: Cell :: r.integralOperation.IntegrateOnCell(cell)
    {
      SymbolicIntegral(DefaultVolumeIntegral(), this)
    }

    /** dV(subdomains): the form integrated over the cells whose material id is admitted. */
    function DVOver(subdomains: set<SubdomainId>): (r: SymbolicIntegral<LinearForm>)
      requires IsWellFormed()
      ensures r.integrand == this && r.integralOperation == VolumeIntegral(subdomains)
      ensures forall cell: Cell :: r.integralOperation.IntegrateOnCell(cell) <==>
                subdomains == {} || subdomains == {InvalidIndex} || cell.materialId in subdomains
    {
      SymbolicIntegral(VolumeIntegral(subdomains), this)
    }

    /**
     * dV(subdomain) is dV({subdomain}): it admits the cells of that material,
     * or every cell when the id is the sentinel.
     */
    function DVOn(subdomain: SubdomainId): (r: SymbolicIntegral<LinearForm>)
      requires IsWellFormed()
      ensures r == DVOver({subdomain})
      ensures forall cell: Cell :: r.integralOperation.IntegrateOnCell(cell) <==>
                subdomain == InvalidIndex || cell.materialId == subdomain
    {
      DVOver({subdomain})
    }

    /** dA(): the form integrated over every boundary face. */
    function DA(): (r: SymbolicIntegral<LinearForm>)
      requires IsWellFormed()
      ensures r.integrand == this && r.integralOperation.BoundaryIntegral?
      ensures r.integralOperation.subdomains == {}
      ensures forall cell: Cell, face: nat | face < |cell.faces| ::
                r.integralOperation.IntegrateOnBoundaryFace(cell, face) <==> cell.faces[face].atBoundary
    {
      SymbolicIntegral(DefaultBoundaryIntegral(), this)
    }

    /** dA(boundaries): the form integrated over the boundary faces whose boundary id is admitted. */
    function DAOver(boundaries: set<SubdomainId>): (r: SymbolicIntegral<LinearForm>)
      requires IsWellFormed()
      ensures r.integrand == this && r.integralOperation == BoundaryIntegral(boundaries)
      ensures forall cell: Cell, face: nat | face < |cell.faces| ::
                r.integralOperation.IntegrateOnBoundaryFace(cell, face) <==>
                  cell.faces[face].atBoundary &&
                  (boundaries == {} || boundaries == {InvalidIndex} || cell.faces[face].boundaryId in boundaries)
    {
      SymbolicIntegral(BoundaryIntegral(boundaries), this)
    }

    /** dA(boundary) is dA({boundary}). */
    function DAOn(boundary: SubdomainId): (r: SymbolicIntegral<LinearForm>)
      requires IsWellFormed()
      ensures r == DAOver({boundary})
      ensures forall cell: Cell, face: nat | face < |cell.faces| ::
                r.integralOperation.IntegrateOnBoundaryFace(cell, face) <==>
                  cell.faces[face].atBoundary &&
                  (boundary == InvalidIndex || cell.faces[face].boundaryId == boundary)
    {
      DAOver({boundary})
    }

    /** dI(): the form integrated over every interior face. */
    function DI(): (r: SymbolicIntegral<LinearForm>)
      requires IsWellFormed()
      ensures r.integrand == this && r.integralOperation.InterfaceIntegral?
      ensures r.integralOperation.subdomains == {}
      ensures forall cell: Cell, face: nat, neighbourFace: nat | face < |cell.faces| ::
                r.integralOperation.IntegrateOnInterfaceFace(cell, face, neighbourFace) <==>
                  !cell.faces[face].atBoundary
    {
      SymbolicIntegral(DefaultInterfaceIntegral(), this)
    }

    /** dI(interfaces): the form integrated over the interior faces whose manifold id is admitted. */
    function DIOver(interfaces: set<SubdomainId>): (r: SymbolicIntegral<LinearForm>)
      requires IsWellFormed()
      ensures r.integrand == this && r.integralOperation == InterfaceIntegral(interfaces)
      ensures forall cell: Cell, face: nat, neighbourFace: nat | face < |cell.faces| ::
                r.integralOperation.IntegrateOnInterfaceFace(cell, face, neighbourFace) <==>
                  !cell.faces[face].atBoundary &&
                  (interfaces == {} || interfaces == {InvalidIndex} || cell.faces[face].manifoldId in interfaces)
    {
      SymbolicIntegral(InterfaceIntegral(interfaces), this)
    }

    /** dI(interface) is dI({interface}). */
    function DIOn(interface: SubdomainId): (r: SymbolicIntegral<LinearForm>)
      requires IsWellFormed()
      ensures r == DIOver({interface})
      ensures forall cell: Cell, face: nat, neighbourFace: nat | face < |cell.faces| ::
                r.integralOperation.IntegrateOnInterfaceFace(cell, face, neighbourFace) <==>
                  !cell.faces[face].atBoundary &&
                  (interface == InvalidIndex || cell.faces[face].manifoldId == interface)
    {
      DIOver({interface})
    }
  }

  /** The explicit constructor: it stores the two parts and nothing else. */
  function MakeLinearForm(testSpaceOp: Operand, functorOp: Operand): (r: LinearForm)
    requires LinearForm(testSpaceOp, functorOp).IsWellFormed()
    ensures r.IsWellFormed()
    ensures r.testSpaceOp == testSpaceOp && r.functorOp == functorOp
  {
    LinearForm(testSpaceOp, functorOp)
  }

  /** get_update_flags of a linear form, as a function value for the integral node. */
  function FormFlags(form: LinearForm): UpdateFlags
  {
    form.GetUpdateFlags()
  }

  /**
   * An integrated linear form needs exactly its test function's and its
   * functor's flags and the JxW values, whatever its domain.
   */
  lemma IntegratedFormUpdateFlags(form: LinearForm, ids: set<SubdomainId>, id: SubdomainId)
    requires form.IsWellFormed()
    ensures var expected := form.testSpaceOp.updateFlags + form.functorOp.updateFlags + {UpdateJxWValues};
            && form.DV().GetUpdateFlags(FormFlags) == expected
            && form.DVOver(ids).GetUpdateFlags(FormFlags) == expected
            && form.DVOn(id).GetUpdateFlags(FormFlags) == expected
            && form.DA().GetUpdateFlags(FormFlags) == expected
            && form.DAOver(ids).GetUpdateFlags(FormFlags) == expected
            && form.DAOn(id).GetUpdateFlags(FormFlags) == expected
            && form.DI().GetUpdateFlags(FormFlags) == expected
            && form.DIOver(ids).GetUpdateFlags(FormFlags) == expected
            && form.DIOn(id).GetUpdateFlags(FormFlags) == expected
  {
  }

  /** Given the test function's rendering, the ASCII rendering determines the functor's. */
  lemma AsciiDeterminesFunctor(a: LinearForm, b: LinearForm)
    requires a.testSpaceOp.ascii == b.testSpaceOp.ascii
    requires a.AsAscii() == b.AsAscii()
    ensures a.functorOp.ascii == b.functorOp.ascii
  {
  }
}
