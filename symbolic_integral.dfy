/**
 * Integration-domain wrappers and the symbolic integral node.
 *
 * A volume, boundary or interface integral stores a set of sub-domain ids
 * (material, boundary or manifold ids).  An empty set, or a set holding only
 * the invalid id SubDomainType(-1), means "integrate over the entire domain";
 * otherwise a cell or face is admitted when its id is in the set.  Wrapping an
 * integrand in an integral gives a node that asks for the integrand's update
 * flags plus the JxW values, and that evaluates to the JxW value at a
 * quadrature point.
 */
module SymbolicIntegrals {
  import opened Operands

  /** A material, boundary or manifold id: an unsigned 32-bit integer. */
  type SubdomainId = uint32

  /** The C++ conversion of a signed integer to the unsigned id type: the unique id congruent to it. */
  function ToSubdomainId(v: int): (r: SubdomainId)
    ensures (r as int - v) % UInt32Modulus == 0
  {
    var m := v % UInt32Modulus;
    assert v == (v / UInt32Modulus) * UInt32Modulus + m;
    assert m - v == -(v / UInt32Modulus) * UInt32Modulus;
    m as SubdomainId
  }

  /** The sentinel id SubDomainType(-1). */
  const InvalidIndex: SubdomainId := ToSubdomainId(-1)

  /** For the unsigned id type the sentinel -1 wraps round to the largest id. */
  lemma InvalidIndexIsLargestId()
    ensures InvalidIndex as int == UInt32Modulus - 1
  {
  }

  /** What an integral needs to know about a face of a cell. */
  datatype Face = Face(atBoundary: bool, boundaryId: SubdomainId, manifoldId: SubdomainId)

  /** What an integral needs to know about a cell: its material id and its faces. */
  datatype Cell = Cell(materialId: SubdomainId, faces: seq<Face>)

  /** A one-element set is the singleton of any of its elements. */
  lemma SingletonOfSizeOne(s: set<SubdomainId>, x: SubdomainId)
    requires |s| == 1 && x in s
    ensures s == {x}
  {
    assert |s - {x}| == 0;
    assert s - {x} == {};
  }

  /** The three integration domains; each owns the ids it is restricted to. */
  datatype Integral =
    | VolumeIntegral(subdomains: set<SubdomainId>)
    | BoundaryIntegral(subdomains: set<SubdomainId>)
    | InterfaceIntegral(subdomains: set<SubdomainId>)
  {
    /**
     * The whole domain is integrated when no id is given, or when the only
     * id given is the sentinel (for a one-element set, begin() is its only
     * element).
     */
    predicate IntegrateOverEntireDomain()
      ensures IntegrateOverEntireDomain() <==> subdomains == {} || subdomains == {InvalidIndex}
    {
      if |subdomains| == 1 && InvalidIndex in subdomains then
        SingletonOfSizeOne(subdomains, InvalidIndex);
        true
      else
        |subdomains| == 0
    }

    /** A sub-domain id is admitted when the whole domain is integrated or the id is listed. */
    predicate IntegrateOnSubdomain(idx: SubdomainId)
      ensures IntegrateOnSubdomain(idx) <==>
                subdomains == {} || subdomains == {InvalidIndex} || idx in subdomains
    {
      if IntegrateOverEntireDomain() then true else idx in subdomains
    }

    /** A volume integral admits a cell by its material id. */
    predicate IntegrateOnCell(cell: Cell)
      requires VolumeIntegral?
      ensures IntegrateOnCell(cell) <==>
                subdomains == {} || subdomains == {InvalidIndex} || cell.materialId in subdomains
    {
      IntegrateOnSubdomain(cell.materialId)
    }

    /** A boundary integral admits only boundary faces, and those by their boundary id. */
    predicate IntegrateOnBoundaryFace(cell: Cell, face: nat)
      requires BoundaryIntegral?
      requires face < |cell.faces|
      ensures IntegrateOnBoundaryFace(cell, face) <==>
                cell.faces[face].atBoundary &&
                (subdomains == {} || subdomains == {InvalidIndex} || cell.faces[face].boundaryId in subdomains)
    {
      if !cell.faces[face].atBoundary then false
      else IntegrateOnSubdomain(cell.faces[face].boundaryId)
    }

    /**
     * An interface integral admits only interior faces, and those by their
     * manifold id; the neighbour's face number plays no part.
     */
    predicate IntegrateOnInterfaceFace(cell: Cell, face: nat, neighbourFace: nat)
      requires InterfaceIntegral?
      requires face < |cell.faces|
      ensures IntegrateOnInterfaceFace(cell, face, neighbourFace) <==>
                !cell.faces[face].atBoundary &&
                (subdomains == {} || subdomains == {InvalidIndex} || cell.faces[face].manifoldId in subdomains)
    {
      if cell.faces[face].atBoundary then false
      else IntegrateOnSubdomain(cell.faces[face].manifoldId)
    }
  }

  /** The default volume integral (an empty id set) admits every cell. */
  function DefaultVolumeIntegral(): (r: Integral)
    ensures r.VolumeIntegral? && r.IntegrateOverEntireDomain()
    ensures forall cell: Cell :: r.IntegrateOnCell(cell)
  {
    VolumeIntegral({})
  }

  /** The default boundary integral admits exactly the boundary faces. */
  function DefaultBoundaryIntegral(): (r: Integral)
    ensures r.BoundaryIntegral? && r.IntegrateOverEntireDomain()
    ensures forall cell: Cell, face: nat | face < |cell.faces| ::
              r.IntegrateOnBoundaryFace(cell, face) <==> cell.faces[face].atBoundary
  {
    BoundaryIntegral({})
  }

  /** The default interface integral admits exactly the interior faces. */
  function DefaultInterfaceIntegral(): (r: Integral)
    ensures r.InterfaceIntegral? && r.IntegrateOverEntireDomain()
    ensures forall cell: Cell, face: nat, neighbourFace: nat | face < |cell.faces| ::
              r.IntegrateOnInterfaceFace(cell, face, neighbourFace) <==> !cell.faces[face].atBoundary
  {
    InterfaceIntegral({})
  }

  /**
   * The sentinel denotes the entire domain only on its own: together with any
   * other id it is an ordinary id, and just the two listed ids are admitted.
   */
  lemma SentinelWithOtherIdIsRestricted(integral: Integral, other: SubdomainId)
    requires other != InvalidIndex
    requires integral.subdomains == {InvalidIndex, other}
    ensures !integral.IntegrateOverEntireDomain()
    ensures forall idx :: integral.IntegrateOnSubdomain(idx) <==> idx == InvalidIndex || idx == other
  {
  }

  /** Every id is admitted by an integral over the entire domain. */
  lemma EntireDomainAdmitsEveryId(integral: Integral, idx: SubdomainId)
    requires integral.IntegrateOverEntireDomain()
    ensures integral.IntegrateOnSubdomain(idx)
  {
  }

  /** An integral restricted to some ids admits exactly those ids. */
  lemma RestrictedIntegralAdmitsListedIds(integral: Integral)
    requires !integral.IntegrateOverEntireDomain()
    ensures forall idx :: integral.IntegrateOnSubdomain(idx) <==> idx in integral.subdomains
  {
  }

  /** No face is admitted by both a boundary and an interface integral. */
  lemma FaceIntegralsExclusive(boundary: Integral, interface: Integral, cell: Cell, face: nat, neighbourFace: nat)
    requires boundary.BoundaryIntegral? && interface.InterfaceIntegral?
    requires face < |cell.faces|
    ensures !(boundary.IntegrateOnBoundaryFace(cell, face) &&
              interface.IntegrateOnInterfaceFace(cell, face, neighbourFace))
  {
  }

  /**
   * Over the entire domain (an empty id set or {sentinel}, in any
   * combination), each face belongs to exactly one of the boundary and
   * interface integrals.
   */
  lemma EntireDomainFaceIntegralsPartitionFaces(boundary: Integral, interface: Integral,
                                                cell: Cell, face: nat, neighbourFace: nat)
    requires boundary.BoundaryIntegral? && interface.InterfaceIntegral?
    requires boundary.IntegrateOverEntireDomain() && interface.IntegrateOverEntireDomain()
    requires face < |cell.faces|
    ensures boundary.IntegrateOnBoundaryFace(cell, face) != interface.IntegrateOnInterfaceFace(cell, face, neighbourFace)
  {
  }

  /** In particular, the default face integrals partition the faces. */
  lemma DefaultFaceIntegralsPartitionFaces(cell: Cell, face: nat, neighbourFace: nat)
    requires face < |cell.faces|
    ensures DefaultBoundaryIntegral().IntegrateOnBoundaryFace(cell, face) !=
            DefaultInterfaceIntegral().IntegrateOnInterfaceFace(cell, face, neighbourFace)
  {
    EntireDomainFaceIntegralsPartitionFaces(DefaultBoundaryIntegral(), DefaultInterfaceIntegral(), cell, face, neighbourFace);
  }

  /** The sentinel-only face integrals (dA(invalid), dI(invalid)) partition the faces too. */
  lemma SentinelFaceIntegralsPartitionFaces(cell: Cell, face: nat, neighbourFace: nat)
    requires face < |cell.faces|
    ensures BoundaryIntegral({InvalidIndex}).IntegrateOnBoundaryFace(cell, face) !=
            InterfaceIntegral({InvalidIndex}).IntegrateOnInterfaceFace(cell, face, neighbourFace)
  {
    EntireDomainFaceIntegralsPartitionFaces(BoundaryIntegral({InvalidIndex}), InterfaceIntegral({InvalidIndex}),
                                            cell, face, neighbourFace);
  }

  /**
   * The finite-element values an integral node reads: the JxW value (the
   * quadrature weight times the Jacobian determinant) at each quadrature
   * point.  The values themselves are opaque.
   */
  datatype FEValues<V> = FEValues(jxwValues: seq<V>)
  {
    function NQuadraturePoints(): nat { |jxwValues| }

    /** fe_values.JxW(q): the JxW value at one quadrature point. */
    function JxW(qPoint: nat): (r: V)
      requires qPoint < NQuadraturePoints()
      ensures r == jxwValues[qPoint]
    {
      jxwValues[qPoint]
    }
  }

  /** An integral applied to an integrand: the result of VolumeIntegral::integrate and its siblings. */
  datatype SymbolicIntegral<Integrand> = SymbolicIntegral(integralOperation: Integral, integrand: Integrand)
  {
    /**
     * The node needs what its integrand needs, and the JxW values; nothing
     * else.  `integrandFlags` is the integrand's get_update_flags.
     */
    function GetUpdateFlags(integrandFlags: Integrand -> UpdateFlags): (r: UpdateFlags)
      ensures UpdateJxWValues in r
      ensures integrandFlags(integrand) <= r
      ensures r - {UpdateJxWValues} <= integrandFlags(integrand)
    {
      integrandFlags(integrand) + {UpdateJxWValues}
    }

    /**
     * The value of the node at one quadrature point: the JxW value there,
     * whatever the integrand (the node contributes only the measure).
     */
    function Value<V>(feValues: FEValues<V>, qPoint: nat): (r: V)
      requires qPoint < feValues.NQuadraturePoints()
      ensures r == feValues.jxwValues[qPoint]
    {
      feValues.JxW(qPoint)
    }

    /**
     * The vectorised evaluation over a batch of `width` lanes.  Lane i is
     * written with the value at quadrature point qPointRange[i] when that
     * point exists; every other lane keeps what the batch held when it was
     * created (`initial`: the default-constructed batch's lanes are left
     * unspecified).
     */
    method EvaluateVectorized<V>(feValues: FEValues<V>, qPointRange: seq<nat>, width: nat, initial: seq<V>)
      returns (out: seq<V>)
      requires |qPointRange| <= width
      requires |initial| == width
      ensures |out| == width
      ensures forall i :: 0 <= i < width ==>
                out[i] == if i < |qPointRange| && qPointRange[i] < feValues.NQuadraturePoints()
                          then Value(feValues, qPointRange[i])
                          else initial[i]
    {
      var batch := new V[width](i requires 0 <= i < width => initial[i]);
      for i := 0 to |qPointRange|
        invariant forall k :: 0 <= k < width ==>
                    batch[k] == if k < i && qPointRange[k] < feValues.NQuadraturePoints()
                                then Value(feValues, qPointRange[k])
                                else initial[k]
      {
        if qPointRange[i] < feValues.NQuadraturePoints() {
          batch[i] := Value(feValues, qPointRange[i]);
        }
      }
      out := batch[..];
    }
  }
}
