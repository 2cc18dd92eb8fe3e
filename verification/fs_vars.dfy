/** The host-variable ABI that gauge plugins call (`fsVars*`). The variable
    table behind `AddVariable`, `GetVariable` and `UpdateVariable` is not part
    of this model: its three operations are parameters over an abstract
    table state `T`. */
module FsVars {

  /** `FsSimVarId`: the id the table hands out for a variable. */
  type SimVarId = int

  /** `FsUnitId`: the id reported for a unit name. */
  type UnitId = int

  /** The one unit id every unit name is given. */
  const PlaceholderUnit: UnitId := 1

  /** The table's registration, read and write operations. */
  datatype VarTable<!T> = VarTable(
    addVariable: (T, string, real) -> (T, SimVarId),
    getVariable: (T, SimVarId) -> real,
    updateVariable: (T, SimVarId, real) -> T)

  /** A write is seen by the next read of the same id. */
  ghost predicate ReadsBackWrites<T(!new)>(table: VarTable<T>) {
    forall vars: T, id: SimVarId, v: real {:trigger table.updateVariable(vars, id, v)} ::
      table.getVariable(table.updateVariable(vars, id, v), id) == v
  }

  /** A freshly registered variable reads as its initial value. */
  ghost predicate ReadsBackRegistration<T(!new)>(table: VarTable<T>) {
    forall vars: T, name: string, v: real {:trigger table.addVariable(vars, name, v)} ::
      table.getVariable(table.addVariable(vars, name, v).0, table.addVariable(vars, name, v).1) == v
  }

  /** `fsVarsGetUnitId`: units are not interpreted. */
  function GetUnitId(unitName: string): (r: UnitId)
    ensures r == PlaceholderUnit
  {
    PlaceholderUnit
  }

  /** `fsVarsGetAircraftVarId`: registers the name with initial value 0 and
      hands back the table's id. */
  function GetAircraftVarId<T>(table: VarTable<T>, vars: T, name: string): (r: (T, SimVarId))
    ensures r == table.addVariable(vars, name, 0.0)
  {
    table.addVariable(vars, name, 0.0)
  }

  /** `fsVarsAircraftVarGet`: writes the variable's value into `result[0]`
      and nothing else; `unit` and `param` are ignored. The caller must pass
      a buffer of at least one element (the pointer is not checked). */
  function AircraftVarGet<T, P>(table: VarTable<T>, vars: T, simvar: SimVarId, unit: UnitId,
                                param: P, result: seq<real>): (r: seq<real>)
    requires |result| >= 1
    ensures |r| == |result|
    ensures r[0] == table.getVariable(vars, simvar)
    ensures forall i :: 1 <= i < |r| ==> r[i] == result[i]
  {
    result[0 := table.getVariable(vars, simvar)]
  }

  /** `fsVarsAircraftVarSet`: forwards the value unchanged to the table;
      `unit` and `param` are ignored. */
  function AircraftVarSet<T, P>(table: VarTable<T>, vars: T, simvar: SimVarId, unit: UnitId,
                                param: P, value: real): (r: T)
    ensures r == table.updateVariable(vars, simvar, value)
  {
    table.updateVariable(vars, simvar, value)
  }

  /** The unit and parameter arguments never influence a read or a write. */
  lemma UnitAndParamIgnored<T, P>(table: VarTable<T>, vars: T, simvar: SimVarId,
                                  u1: UnitId, p1: P, u2: UnitId, p2: P, value: real, result: seq<real>)
    requires |result| >= 1
    ensures AircraftVarGet(table, vars, simvar, u1, p1, result) == AircraftVarGet(table, vars, simvar, u2, p2, result)
    ensures AircraftVarSet(table, vars, simvar, u1, p1, value) == AircraftVarSet(table, vars, simvar, u2, p2, value)
  {
  }

  /** Over a table that reads back its writes, a set through the ABI is
      returned by the next get through the ABI. */
  lemma SetThenGet<T(!new), P>(table: VarTable<T>, vars: T, simvar: SimVarId, unit: UnitId, param: P,
                         value: real, result: seq<real>)
    requires ReadsBackWrites(table)
    requires |result| >= 1
    ensures AircraftVarGet(table, AircraftVarSet(table, vars, simvar, unit, param, value),
                           simvar, unit, param, result)[0] == value
  {
  }

  /** Over a table that reads back registrations, a variable obtained
      through the ABI reads as 0 until it is set. */
  lemma RegisteredVariableReadsZero<T(!new), P>(table: VarTable<T>, vars: T, name: string, unit: UnitId,
                                          param: P, result: seq<real>)
    requires ReadsBackRegistration(table)
    requires |result| >= 1
    ensures var (vars', id) := GetAircraftVarId(table, vars, name);
            AircraftVarGet(table, vars', id, unit, param, result)[0] == 0.0
  {
  }
}
