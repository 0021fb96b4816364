/**
 * Parameter handling shared by all unit operation models: a registry mapping structured
 * parameter identities to the storage cells of the model's active (value plus AD
 * derivatives) parameters, and the set of cells whose AD directions are switched on.
 */
module UnitOperation {
  import opened Wrappers

  /**
   * Structured identity of a parameter. The name is the hash of the parameter's name; the
   * remaining fields hold an index or the sentinel meaning "independent of". Equality is
   * structural: no wildcard expansion happens at this level.
   */
  datatype ParameterId = ParameterId(name: nat, unitOperation: nat, component: nat, boundState: nat, reaction: nat, section: nat)

  /** An active scalar: a primal value and its derivatives by AD direction; a missing direction is 0. */
  datatype Active = Active(value: real, derivs: map<nat, real>)

  function Derivative(a: Active, dir: nat): real
  {
    if dir in a.derivs then a.derivs[dir] else 0.0
  }

  /** The storage of a cell after setValue: the value replaced, the derivatives kept. */
  function WithValue(a: Active, v: real): (r: Active)
    ensures r.value == v && r.derivs == a.derivs
  {
    Active(v, a.derivs)
  }

  /** The storage of a cell after setADValue(dir, seed): only that derivative changes. */
  function WithSeed(a: Active, dir: nat, seed: real): (r: Active)
    ensures r.value == a.value && Derivative(r, dir) == seed
    ensures forall d :: d != dir ==> Derivative(r, d) == Derivative(a, d)
  {
    Active(a.value, a.derivs[dir := seed])
  }

  /** Numeric value of a boolean parameter setting. */
  function BoolValue(b: bool): (r: real)
    ensures r == 1.0 || r == 0.0
    ensures b <==> r == 1.0
  {
    if b then 1.0 else 0.0
  }

  lemma SubsetCardinality<T>(a: set<T>, b: set<T>)
    requires a <= b
    ensures |a| <= |b|
  {
    assert b == a + (b - a);
  }

  class UnitOperationBase {
    /** Index of the unit operation; fixed on construction. */
    const unitOpIdx: nat
    /** Registered parameters: identity to the index of its storage cell. Several identities may share a cell. */
    var parameters: map<ParameterId, nat>
    /** Storage cells of the model's active parameters, owned by the concrete model. */
    var cells: seq<Active>
    /** Cells whose AD directions are activated. */
    var sensParams: set<nat>

    /** Every identity refers to an existing cell, and only registered cells are sensitive. */
    ghost predicate Valid()
      reads this
    {
      && (forall id | id in parameters :: parameters[id] < |cells|)
      && sensParams <= parameters.Values
    }

    constructor(idx: nat)
      ensures Valid()
      ensures UnitOperationId() == idx
      ensures parameters == map[] && cells == [] && sensParams == {}
    {
      unitOpIdx := idx;
      parameters := map[];
      cells := [];
      sensParams := {};
    }

    function UnitOperationId(): (r: nat)
      ensures r == unitOpIdx
    {
      unitOpIdx
    }

    function HasParameter(id: ParameterId): (r: bool)
      reads this
      ensures r <==> id in parameters.Keys
    {
      id in parameters
    }

    /** The current value of a parameter, or None (ParameterNotFound) when it is not registered. */
    function GetParameterDouble(id: ParameterId): (r: Option<real>)
      requires Valid()
      reads this
      ensures r.Some? <==> HasParameter(id)
      ensures r.Some? ==> r.value == cells[parameters[id]].value
    {
      if id in parameters then Some(cells[parameters[id]].value) else None
    }

    /** A snapshot of the value of every registered parameter. */
    function GetAllParameterValues(): (r: map<ParameterId, real>)
      requires Valid()
      reads this
      ensures r.Keys == parameters.Keys
      ensures forall id | id in r :: GetParameterDouble(id) == Some(r[id])
    {
      map id | id in parameters :: cells[parameters[id]].value
    }

    function NumSensParams(): (r: nat)
      reads this
      ensures r == |sensParams|
    {
      |sensParams|
    }

    /** There are never more sensitive parameters than registered identities. */
    lemma NumSensParamsBound()
      requires Valid()
      ensures NumSensParams() <= |parameters.Keys|
    {
      SubsetCardinality(sensParams, parameters.Values);
    }

    /** A concrete model adds the storage for one of its parameters. */
    method AddCell(a: Active) returns (cell: nat)
      requires Valid()
      modifies this
      ensures Valid()
      ensures cell == old(|cells|) && cells == old(cells) + [a]
      ensures parameters == old(parameters) && sensParams == old(sensParams)
    {
      cell := |cells|;
      cells := cells + [a];
    }

    /** A concrete model registers an identity for one of its cells. */
    method RegisterParameter(id: ParameterId, cell: nat)
      requires Valid() && id !in parameters && cell < |cells|
      modifies this
      ensures Valid()
      ensures parameters == old(parameters)[id := cell]
      ensures cells == old(cells) && sensParams == old(sensParams)
    {
      ghost var before := parameters;
      parameters := parameters[id := cell];
      forall c | c in sensParams ensures c in parameters.Values {
        var j :| j in before && before[j] == c;
        assert parameters[j] == c;
      }
    }

    /**
     * Sets the value of a registered parameter, keeping its derivatives; on an unknown identity
     * reports false and changes nothing.
     */
    method SetParameter(id: ParameterId, value: real) returns (found: bool)
      requires Valid()
      modifies this
      ensures Valid()
      ensures found <==> old(HasParameter(id))
      ensures parameters == old(parameters) && sensParams == old(sensParams)
      ensures found ==> cells == old(cells)[parameters[id] := WithValue(old(cells)[parameters[id]], value)]
      ensures !found ==> cells == old(cells)
      ensures found ==> GetParameterDouble(id) == Some(value)
      ensures forall j | j in parameters && (!found || parameters[j] != parameters[id]) ::
        GetParameterDouble(j) == old(GetParameterDouble(j))
    {
      if id in parameters {
        var c := parameters[id];
        cells := cells[c := WithValue(cells[c], value)];
        found := true;
      } else {
        found := false;
      }
    }

    /** The integer overload: the value converted to a real. */
    method SetParameterInt(id: ParameterId, value: int) returns (found: bool)
      requires Valid()
      modifies this
      ensures Valid()
      ensures found <==> old(HasParameter(id))
      ensures parameters == old(parameters) && sensParams == old(sensParams)
      ensures found ==> cells == old(cells)[parameters[id] := WithValue(old(cells)[parameters[id]], value as real)]
      ensures !found ==> cells == old(cells)
    {
      found := SetParameter(id, value as real);
    }

    /** The boolean overload: true is 1 and false is 0. */
    method SetParameterBool(id: ParameterId, value: bool) returns (found: bool)
      requires Valid()
      modifies this
      ensures Valid()
      ensures found <==> old(HasParameter(id))
      ensures parameters == old(parameters) && sensParams == old(sensParams)
      ensures found ==> cells == old(cells)[parameters[id] := WithValue(old(cells)[parameters[id]], BoolValue(value))]
      ensures !found ==> cells == old(cells)
    {
      found := SetParameter(id, BoolValue(value));
    }

    /**
     * Marks a registered parameter as sensitive and seeds its derivative in AD direction dir;
     * its value is not changed. On an unknown identity reports false and changes nothing.
     */
    method SetSensitiveParameter(id: ParameterId, dir: nat, seed: real) returns (found: bool)
      requires Valid()
      modifies this
      ensures Valid()
      ensures found <==> old(HasParameter(id))
      ensures parameters == old(parameters)
      ensures found ==> sensParams == old(sensParams) + {parameters[id]}
      ensures found ==> cells == old(cells)[parameters[id] := WithSeed(old(cells)[parameters[id]], dir, seed)]
      ensures !found ==> cells == old(cells) && sensParams == old(sensParams)
      ensures found ==> GetParameterDouble(id) == old(GetParameterDouble(id))
      ensures found ==> NumSensParams() == old(NumSensParams()) + (if parameters[id] in old(sensParams) then 0 else 1)
    {
      if id in parameters {
        var c := parameters[id];
        if c in sensParams {
          assert sensParams + {c} == sensParams;
        } else {
          assert |sensParams + {c}| == |sensParams| + 1;
        }
        sensParams := sensParams + {c};
        cells := cells[c := WithSeed(cells[c], dir, seed)];
        found := true;
      } else {
        found := false;
      }
    }

    /**
     * Sets the value of a parameter that is currently sensitive, keeping its derivatives; for
     * an unknown or non-sensitive identity nothing changes.
     */
    method SetSensitiveParameterValue(id: ParameterId, value: real)
      requires Valid()
      modifies this
      ensures Valid()
      ensures parameters == old(parameters) && sensParams == old(sensParams)
      ensures id in parameters && parameters[id] in sensParams ==>
        cells == old(cells)[parameters[id] := WithValue(old(cells)[parameters[id]], value)]
      ensures !(id in parameters && parameters[id] in sensParams) ==> cells == old(cells)
    {
      if id in parameters && parameters[id] in sensParams {
        var c := parameters[id];
        cells := cells[c := WithValue(cells[c], value)];
      }
    }

    /**
     * Switches off the AD directions of every sensitive cell (all its derivatives become 0)
     * and empties the set; values are not changed.
     */
    method ClearSensParams()
      requires Valid()
      modifies this
      ensures Valid()
      ensures parameters == old(parameters) && sensParams == {} && NumSensParams() == 0
      ensures |cells| == old(|cells|)
      ensures forall c :: 0 <= c < |cells| ==> cells[c].value == old(cells[c].value)
      ensures forall c :: 0 <= c < |cells| && c in old(sensParams) ==> cells[c].derivs == map[]
      ensures forall c :: 0 <= c < |cells| && c !in old(sensParams) ==> cells[c] == old(cells[c])
      ensures forall id | id in parameters :: GetParameterDouble(id) == old(GetParameterDouble(id))
    {
      var pending := sensParams;
      while pending != {}
        invariant pending <= old(sensParams) && sensParams == old(sensParams)
        invariant parameters == old(parameters) && Valid()
        invariant |cells| == old(|cells|)
        invariant forall c :: 0 <= c < |cells| ==> cells[c].value == old(cells[c].value)
        invariant forall c :: 0 <= c < |cells| && c in old(sensParams) - pending ==> cells[c].derivs == map[]
        invariant forall c :: 0 <= c < |cells| && c !in old(sensParams) - pending ==> cells[c] == old(cells[c])
        decreases |pending|
      {
        var c :| c in pending;
        assert c < |cells|;
        cells := cells[c := Active(cells[c].value, map[])];
        pending := pending - {c};
      }
      sensParams := {};
    }
  }

  /**
   * One registered velocity parameter of unit operation 0 with value 5.75e-4, made sensitive
   * in direction 2 with seed 1; marking it again does not add a second entry, an unknown
   * identity is reported, and clearing leaves no sensitive parameter and the value intact.
   */
  method VelocityScenario(velocityName: nat) returns (first: nat, again: nat, missed: bool, cleared: nat, value: Option<real>)
    ensures first == 1 && again == 1 && !missed && cleared == 0 && value == Some(5.75e-4)
  {
    var unit := new UnitOperationBase(0);
    var velocity := ParameterId(velocityName, 0, 0, 0, 0, 0);
    var cell := unit.AddCell(Active(5.75e-4, map[]));
    unit.RegisterParameter(velocity, cell);
    var found := unit.SetSensitiveParameter(velocity, 2, 1.0);
    first := unit.NumSensParams();
    found := unit.SetSensitiveParameter(velocity, 2, 1.0);
    again := unit.NumSensParams();
    var other := unit.SetParameter(ParameterId(velocityName, 1, 0, 0, 0, 0), 1.0);
    missed := other;
    unit.ClearSensParams();
    cleared := unit.NumSensParams();
    value := unit.GetParameterDouble(velocity);
  }
}
