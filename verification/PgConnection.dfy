/**
 What the proxy remembers of one PostgreSQL session: the prepared statements and the portals
 the client has named, within a limit on their number and on their bytes.
 */
module PgConnection {
  import opened Wire
  import opened MapSum
  import opened PgMessages
  import opened PgStartup
  import Utf8

  type Prepared = map<string, string>
  type Portals = map<string, BindMessage>

  datatype Connection = Connection(
    status: TransactionStatus, recovering: bool, statements: Prepared, portals: Portals, maxItems: nat, maxBytes: nat)

  function Fresh(maxItems: nat, maxBytes: nat): Connection {
    Connection(Idle, false, map[], map[], maxItems, maxBytes)
  }

  // ---------------------------------------------------------------------------
  // Bytes
  // ---------------------------------------------------------------------------

  function StatementWeight(name: string, query: string): nat {
    |Utf8.Encode(name)| + |Utf8.Encode(query)|
  }

  function ValueBytes(values: seq<Option<Bytes>>): nat {
    if values == [] then 0 else (if values[0].Some? then |values[0].value| else 0) + ValueBytes(values[1..])
  }

  function PortalWeight(name: string, bind: BindMessage): nat {
    |Utf8.Encode(name)| + |Utf8.Encode(bind.statementName)| + ValueBytes(bind.values)
  }

  ghost function StateBytes(c: Connection): nat {
    Total(c.statements, StatementWeight) + Total(c.portals, PortalWeight)
  }

  ghost predicate IsBounded(c: Connection) {
    |c.statements| <= c.maxItems && |c.portals| <= c.maxItems && StateBytes(c) <= c.maxBytes
  }

  // ---------------------------------------------------------------------------
  // Operations; None where the source raises
  // ---------------------------------------------------------------------------

  /** The portals that are not of that statement. */
  function Unbound(portals: Portals, statementName: string): Portals {
    map name | name in portals && portals[name].statementName != statementName :: portals[name]
  }

  ghost predicate StatementFits(c: Connection, name: string, query: string) {
    && (name in c.statements || |c.statements| < c.maxItems)
    && StateBytes(c.(statements := c.statements - {name})) + StatementWeight(name, query) <= c.maxBytes
  }

  ghost function RegisterStatement(c: Connection, name: string, query: string): Option<Connection> {
    if !StatementFits(c, name, query) then None
    else
      Some(c.(portals := if name == "" then Unbound(c.portals, "") else c.portals,
              statements := c.statements[name := query]))
  }

  ghost predicate PortalFits(c: Connection, bind: BindMessage) {
    && (bind.portalName in c.portals || |c.portals| < c.maxItems)
    && StateBytes(c.(portals := c.portals - {bind.portalName})) + PortalWeight(bind.portalName, bind) <= c.maxBytes
  }

  ghost function RegisterPortal(c: Connection, bind: BindMessage): Option<Connection> {
    if !PortalFits(c, bind) then None else Some(c.(portals := c.portals[bind.portalName := bind]))
  }

  function CloseStatement(c: Connection, name: string): Connection {
    c.(statements := c.statements - {name}, portals := Unbound(c.portals, name))
  }

  function ClosePortal(c: Connection, name: string): Connection {
    c.(portals := c.portals - {name})
  }

  function UpdateTransactionStatus(c: Connection, status: TransactionStatus): Connection {
    c.(status := status, portals := if status == Idle then map[] else c.portals)
  }

  // ---------------------------------------------------------------------------
  // Bounded state
  // ---------------------------------------------------------------------------

  datatype Op =
    | OpRegisterStatement(name: string, query: string) | OpRegisterPortal(bind: BindMessage)
    | OpCloseStatement(name: string) | OpClosePortal(name: string)
    | OpUpdateStatus(status: TransactionStatus) | OpSetRecovering(recovering: bool)

  /** The state after an operation; one that raises changes nothing. */
  ghost function After(c: Connection, op: Op): Connection {
    match op
    case OpRegisterStatement(name, query) =>
      var r := RegisterStatement(c, name, query);
      if r.None? then c else r.value
    case OpRegisterPortal(bind) =>
      var r := RegisterPortal(c, bind);
      if r.None? then c else r.value
    case OpCloseStatement(name) => CloseStatement(c, name)
    case OpClosePortal(name) => ClosePortal(c, name)
    case OpUpdateStatus(status) => UpdateTransactionStatus(c, status)
    case OpSetRecovering(recovering) => c.(recovering := recovering)
  }

  ghost function AfterAll(c: Connection, ops: seq<Op>): Connection
    decreases |ops|
  {
    if ops == [] then c else AfterAll(After(c, ops[0]), ops[1..])
  }

  /** A portal is accepted exactly when both limits hold with it. */
  lemma PortalAcceptance(c: Connection, bind: BindMessage)
    requires IsBounded(c)
    ensures RegisterPortal(c, bind).Some? <==> IsBounded(c.(portals := c.portals[bind.portalName := bind]))
  {
    TotalUpdate(c.portals, PortalWeight, bind.portalName, bind);
  }

  /** A statement is accepted exactly when both limits hold with it, the portals it makes invalid still counted. */
  lemma StatementAcceptance(c: Connection, name: string, query: string)
    requires IsBounded(c)
    ensures RegisterStatement(c, name, query).Some? <==> IsBounded(c.(statements := c.statements[name := query]))
  {
    TotalUpdate(c.statements, StatementWeight, name, query);
  }

  lemma RegistrationKeepsBounds(c: Connection, name: string, query: string)
    requires IsBounded(c)
    ensures IsBounded(After(c, OpRegisterStatement(name, query)))
  {
    StatementAcceptance(c, name, query);
    TotalOfPart(c.portals, Unbound(c.portals, ""), PortalWeight);
  }

  lemma ClosingKeepsBounds(c: Connection, name: string)
    requires IsBounded(c)
    ensures IsBounded(CloseStatement(c, name))
  {
    TotalOfPart(c.statements, c.statements - {name}, StatementWeight);
    TotalOfPart(c.portals, Unbound(c.portals, name), PortalWeight);
  }

  lemma FewerPortalsKeepBounds(c: Connection, names: set<string>)
    requires IsBounded(c)
    ensures IsBounded(c.(portals := c.portals - names))
  {
    TotalOfPart(c.portals, c.portals - names, PortalWeight);
  }

  lemma OperationKeepsBounds(c: Connection, op: Op)
    requires IsBounded(c)
    ensures IsBounded(After(c, op))
  {
    match op {
      case OpRegisterStatement(name, query) => RegistrationKeepsBounds(c, name, query);
      case OpRegisterPortal(bind) => PortalAcceptance(c, bind);
      case OpCloseStatement(name) => ClosingKeepsBounds(c, name);
      case OpClosePortal(name) => FewerPortalsKeepBounds(c, {name});
      case OpUpdateStatus(_) =>
        FewerPortalsKeepBounds(c, c.portals.Keys);
        assert c.portals - c.portals.Keys == map[];
      case OpSetRecovering(_) =>
    }
  }

  /** Whatever is registered, closed or refused, in any order, both limits hold. */
  lemma {:induction false} OperationsKeepBounds(c: Connection, ops: seq<Op>)
    requires IsBounded(c)
    ensures IsBounded(AfterAll(c, ops))
    decreases |ops|
  {
    if ops != [] {
      OperationKeepsBounds(c, ops[0]);
      OperationsKeepBounds(After(c, ops[0]), ops[1..]);
    }
  }

  lemma FreshIsBounded(maxItems: nat, maxBytes: nat)
    ensures IsBounded(Fresh(maxItems, maxBytes))
  {
    TotalOfNone(StatementWeight);
    TotalOfNone(PortalWeight);
  }

  // ---------------------------------------------------------------------------
  // A portal's query
  // ---------------------------------------------------------------------------

  function Lookup<T>(m: map<string, T>, name: string): Option<T> {
    if name in m then Some(m[name]) else None
  }

  /** What a Bind said, and the query its statement then had in the proxy's registry, if any. */
  datatype InForce = InForce(query: Option<string>, bind: BindMessage)

  /** For each portal name, its last accepted Bind. */
  type Bound = map<string, InForce>

  function InForceAt(c: Connection, bind: BindMessage): InForce {
    InForce(Lookup(c.statements, bind.statementName), bind)
  }

  /** What an Execute of a registered portal is judged by is the query in force when it was bound. */
  predicate Refines(c: Connection, bound: Bound) {
    forall name :: name in c.portals ==> name in bound && bound[name] == InForceAt(c, c.portals[name])
  }

  /** A Parse that leaves the meaning of every bound portal alone. */
  predicate IsSafeParse(c: Connection, name: string, query: string) {
    || name == ""
    || Lookup(c.statements, name) == Some(query)
    || forall portal :: portal in c.portals ==> c.portals[portal].statementName != name
  }

  lemma SafeParseKeepsRefinement(c: Connection, bound: Bound, name: string, query: string)
    requires Refines(c, bound) && IsSafeParse(c, name, query) && RegisterStatement(c, name, query).Some?
    ensures Refines(RegisterStatement(c, name, query).value, bound)
  {
    var next := RegisterStatement(c, name, query).value;
    forall portal | portal in next.portals
      ensures portal in bound && bound[portal] == InForceAt(next, next.portals[portal])
    {
      assert portal in c.portals && next.portals[portal] == c.portals[portal];
    }
  }

  lemma UnsafeParseBreaksRefinement(c: Connection, bound: Bound, name: string, query: string)
    requires Refines(c, bound) && !IsSafeParse(c, name, query) && RegisterStatement(c, name, query).Some?
    ensures !Refines(RegisterStatement(c, name, query).value, bound)
  {
    var next := RegisterStatement(c, name, query).value;
    var portal :| portal in c.portals && c.portals[portal].statementName == name;
    assert portal in next.portals && bound[portal].query == Lookup(c.statements, name);
  }

  /** Exactly which registrations keep the refinement. */
  lemma RegistrationKeepsRefinement(c: Connection, bound: Bound, name: string, query: string)
    requires Refines(c, bound) && RegisterStatement(c, name, query).Some?
    ensures Refines(RegisterStatement(c, name, query).value, bound) <==> IsSafeParse(c, name, query)
  {
    if IsSafeParse(c, name, query) {
      SafeParseKeepsRefinement(c, bound, name, query);
    } else {
      UnsafeParseBreaksRefinement(c, bound, name, query);
    }
  }

  ghost function BoundAfter(c: Connection, bound: Bound, op: Op): Bound {
    if op.OpRegisterPortal? && RegisterPortal(c, op.bind).Some?
    then bound[op.bind.portalName := InForceAt(c, op.bind)]
    else bound
  }

  lemma OperationKeepsRefinement(c: Connection, bound: Bound, op: Op)
    requires Refines(c, bound)
    requires op.OpRegisterStatement? ==> IsSafeParse(c, op.name, op.query)
    ensures Refines(After(c, op), BoundAfter(c, bound, op))
  {
    if op.OpRegisterStatement? && RegisterStatement(c, op.name, op.query).Some? {
      SafeParseKeepsRefinement(c, bound, op.name, op.query);
    }
  }

  /** Every portal is bound to a registered statement. */
  predicate IsLinked(c: Connection) {
    forall name :: name in c.portals ==> c.portals[name].statementName in c.statements
  }

  /** A client that binds registered statements only and never parses a name again while it is registered. */
  predicate IsDisciplined(c: Connection, op: Op) {
    && (op.OpRegisterStatement? ==> op.name == "" || op.name !in c.statements)
    && (op.OpRegisterPortal? ==> op.bind.statementName in c.statements)
  }

  lemma DisciplineKeepsLinks(c: Connection, op: Op)
    requires IsLinked(c) && IsDisciplined(c, op)
    ensures IsLinked(After(c, op))
    ensures op.OpRegisterStatement? ==> IsSafeParse(c, op.name, op.query)
  {
  }
}
