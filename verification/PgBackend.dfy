/**
 A PostgreSQL backend that takes what the proxy forwards, as section 55.2.3 of the PostgreSQL 16
 documentation has it: it may reject any message, and then skips to Sync. The proxy does not hear
 of it. This module says exactly when what the backend runs is what was approved.
 */
module PgBackend {
  import opened Wire
  import opened Framing
  import opened PgMessages
  import opened PgStartup
  import opened PgConnection
  import opened PgFrontend

  /** What an Execute of a portal runs. */
  datatype Work = Work(query: string, bind: BindMessage)

  datatype Backend = Backend(statements: Prepared, portals: map<string, Work>, skipping: bool)

  /**
   Whether the backend accepts a message it could accept; what it forgets at the end of one, and what the SQL it runs
   for one defines (PREPARE and DECLARE share the names of the protocol).
   */
  datatype Choice = Choice(
    accepts: bool, forgottenStatements: set<string>, forgottenPortals: set<string>,
    definedStatements: Prepared, definedPortals: map<string, Work>)

  const EMPTY := Backend(map[], map[], false)

  function Failed(b: Backend): Backend {
    b.(skipping := true)
  }

  /** The SQL of a message has been run. */
  function Executed(b: Backend, choice: Choice): Backend {
    b.(statements := b.statements - choice.forgottenStatements + choice.definedStatements,
       portals := b.portals - choice.forgottenPortals + choice.definedPortals)
  }

  /** A name is free for a Parse when it is empty or new; the unnamed statement is given up first. */
  function ReceiveParse(b: Backend, parsed: ParseMessage, choice: Choice): Backend {
    var name := parsed.statementName;
    var kept := if name == "" then b.(statements := b.statements - {""}) else b;
    if name in kept.statements || !choice.accepts then Failed(kept)
    else kept.(statements := kept.statements[name := parsed.query])
  }

  predicate IsTakenBind(b: Backend, bind: BindMessage, choice: Choice) {
    !b.skipping && bind.statementName in b.statements && (bind.portalName == "" || bind.portalName !in b.portals)
      && choice.accepts
  }

  function ReceiveBind(b: Backend, bind: BindMessage, choice: Choice): Backend
    requires !b.skipping
  {
    if !IsTakenBind(b, bind, choice) then Failed(b)
    else b.(portals := b.portals[bind.portalName := Work(b.statements[bind.statementName], bind)])
  }

  function Without(portals: map<string, Work>, statementName: string): map<string, Work> {
    map name | name in portals && portals[name].bind.statementName != statementName :: portals[name]
  }

  function ReceiveClose(b: Backend, close: CloseMessage): Backend {
    match close
    case CloseStatement(name) => b.(statements := b.statements - {name}, portals := Without(b.portals, name))
    case ClosePortal(name) => b.(portals := b.portals - {name})
  }

  /** Skipping ends at Sync. A simple query gives up what has no name, and may end a transaction or deallocate. */
  function Receive(b: Backend, m: Message, choice: Choice): Backend {
    if b.skipping then
      if m.kind == 'S' then b.(skipping := false, portals := b.portals - choice.forgottenPortals) else b
    else if m.kind == 'P' then
      var parsed := ParseParse(m.payload);
      if parsed.None? then Failed(b) else ReceiveParse(b, parsed.value, choice)
    else if m.kind == 'B' then
      var bind := ParseBind(m.payload);
      if bind.None? then Failed(b) else ReceiveBind(b, bind.value, choice)
    else if m.kind == 'E' then
      if Runs(b, m).None? || !choice.accepts then Failed(b) else Executed(b, choice)
    else if m.kind == 'C' then
      var close := ParseClose(m.payload);
      if close.None? then Failed(b) else ReceiveClose(b, close.value)
    else if m.kind == 'Q' then
      Executed(b.(statements := b.statements - {""}, portals := b.portals - {""}), choice)
    else if m.kind == 'F' then Executed(b, choice)
    else if m.kind == 'S' then b.(portals := b.portals - choice.forgottenPortals)
    else b
  }

  /** What the backend runs for an Execute, if it does not skip it. */
  function Runs(b: Backend, m: Message): Option<Work> {
    var execute := ParseExecute(m.payload);
    if b.skipping || m.kind != 'E' || execute.None? || execute.value.portalName !in b.portals then None
    else Some(b.portals[execute.value.portalName])
  }

  // ---------------------------------------------------------------------------
  // The proxy's registries and the backend's
  // ---------------------------------------------------------------------------

  ghost predicate AgreeOnStatements(c: Connection, b: Backend) {
    forall name :: name in c.statements && name in b.statements ==> c.statements[name] == b.statements[name]
  }

  /** A portal both know is bound alike, and to the query the proxy would look up. */
  predicate IsSameWork(c: Connection, bind: BindMessage, work: Work) {
    work.bind == bind && (bind.statementName in c.statements ==> work.query == c.statements[bind.statementName])
  }

  ghost predicate AgreeOnPortals(c: Connection, b: Backend) {
    forall name :: name in c.portals && name in b.portals ==> IsSameWork(c, c.portals[name], b.portals[name])
  }

  /** What both know they know alike; each may know what the other does not. */
  ghost predicate Agree(c: Connection, b: Backend) {
    AgreeOnStatements(c, b) && AgreeOnPortals(c, b)
  }

  /**
   A forwarded Parse does no harm unless the backend keeps another query under the name, because it
   skips or the name is taken, or keeps a portal of that statement bound to another query.
   */
  ghost predicate IsHarmlessParse(c: Connection, b: Backend, name: string, query: string) {
    && (name in b.statements && (b.skipping || name != "") ==> b.statements[name] == query)
    && (name != "" ==>
          forall portal :: portal in c.portals && portal in b.portals && c.portals[portal].statementName == name ==>
          b.portals[portal].query == query)
  }

  /** A forwarded Bind does no harm when the backend takes it, or has no portal of that name but an equal one. */
  ghost predicate IsHarmlessBind(c: Connection, b: Backend, bind: BindMessage, choice: Choice) {
    IsTakenBind(b, bind, choice) || (bind.portalName in b.portals ==> IsSameWork(c, bind, b.portals[bind.portalName]))
  }

  /** The backend runs SQL for the message. */
  predicate RunsSql(b: Backend, m: Message, choice: Choice) {
    !b.skipping && (m.kind == 'Q' || m.kind == 'F' || (m.kind == 'E' && Runs(b, m).Some? && choice.accepts))
  }

  /** What SQL defines does no harm under a name that the proxy does not know, or knows alike. */
  ghost predicate IsHarmlessSql(c: Connection, choice: Choice) {
    && (forall name :: name in c.statements && name in choice.definedStatements ==>
          c.statements[name] == choice.definedStatements[name])
    && (forall name :: name in c.portals && name in choice.definedPortals ==>
          IsSameWork(c, c.portals[name], choice.definedPortals[name]))
  }

  ghost predicate IsHarmless(c: Connection, b: Backend, m: Message, choice: Choice) {
    && (RunsSql(b, m, choice) ==> IsHarmlessSql(c, choice))
    && (m.kind == 'P' && ParseParse(m.payload).Some? ==>
          IsHarmlessParse(c, b, ParseParse(m.payload).value.statementName, ParseParse(m.payload).value.query))
    && (m.kind == 'B' && ParseBind(m.payload).Some? ==> IsHarmlessBind(c, b, ParseBind(m.payload).value, choice))
  }

  /** The backend after a Parse, skipping or not. */
  function AfterParse(b: Backend, parsed: ParseMessage, choice: Choice): Backend {
    if b.skipping then b else ReceiveParse(b, parsed, choice)
  }

  lemma HarmlessParseAgrees(c: Connection, b: Backend, parsed: ParseMessage, choice: Choice)
    requires Agree(c, b) && RegisterStatement(c, parsed.statementName, parsed.query).Some?
    requires IsHarmlessParse(c, b, parsed.statementName, parsed.query)
    ensures Agree(RegisterStatement(c, parsed.statementName, parsed.query).value, AfterParse(b, parsed, choice))
  {
    var next, after := RegisterStatement(c, parsed.statementName, parsed.query).value, AfterParse(b, parsed, choice);
    ParsedStatementsAgree(c, b, parsed, choice);
    forall name | name in next.portals && name in after.portals
      ensures IsSameWork(next, next.portals[name], after.portals[name])
    {
      assert IsSameWork(c, c.portals[name], b.portals[name]);
      ParsedPortalAgrees(c, b, next, parsed, name);
    }
  }

  lemma ParsedStatementsAgree(c: Connection, b: Backend, parsed: ParseMessage, choice: Choice)
    requires AgreeOnStatements(c, b) && IsHarmlessParse(c, b, parsed.statementName, parsed.query)
    ensures AgreeOnStatements(c.(statements := c.statements[parsed.statementName := parsed.query]),
                              AfterParse(b, parsed, choice))
  {
  }

  lemma ParsedPortalAgrees(c: Connection, b: Backend, next: Connection, parsed: ParseMessage, name: string)
    requires IsHarmlessParse(c, b, parsed.statementName, parsed.query) && name in c.portals && name in b.portals
    requires IsSameWork(c, c.portals[name], b.portals[name])
    requires next.statements == c.statements[parsed.statementName := parsed.query]
    requires parsed.statementName == "" ==> c.portals[name].statementName != ""
    ensures IsSameWork(next, c.portals[name], b.portals[name])
  {
  }

  lemma HarmfulParseDisagrees(c: Connection, b: Backend, parsed: ParseMessage, choice: Choice)
    requires RegisterStatement(c, parsed.statementName, parsed.query).Some?
    requires !IsHarmlessParse(c, b, parsed.statementName, parsed.query)
    ensures !Agree(RegisterStatement(c, parsed.statementName, parsed.query).value, AfterParse(b, parsed, choice))
  {
    var name := parsed.statementName;
    var next, after := RegisterStatement(c, name, parsed.query).value, AfterParse(b, parsed, choice);
    if name in b.statements && (b.skipping || name != "") && b.statements[name] != parsed.query {
      assert name in next.statements && name in after.statements;
    } else {
      var portal :| portal in c.portals && portal in b.portals && c.portals[portal].statementName == name
                    && b.portals[portal].query != parsed.query;
      assert !IsSameWork(next, next.portals[portal], after.portals[portal]);
    }
  }

  lemma ParseAgrees(c: Connection, b: Backend, m: Message, choice: Choice)
    requires Agree(c, b) && m.kind == 'P' && ParseParse(m.payload).Some?
    requires RegisterStatement(c, ParseParse(m.payload).value.statementName, ParseParse(m.payload).value.query).Some?
    ensures var parsed := ParseParse(m.payload).value;
      Agree(RegisterStatement(c, parsed.statementName, parsed.query).value, Receive(b, m, choice))
      <==> IsHarmlessParse(c, b, parsed.statementName, parsed.query)
  {
    var parsed := ParseParse(m.payload).value;
    assert Receive(b, m, choice) == AfterParse(b, parsed, choice);
    if IsHarmlessParse(c, b, parsed.statementName, parsed.query) {
      HarmlessParseAgrees(c, b, parsed, choice);
    } else {
      HarmfulParseDisagrees(c, b, parsed, choice);
    }
  }

  lemma BindAgrees(c: Connection, b: Backend, m: Message, choice: Choice)
    requires Agree(c, b) && m.kind == 'B' && ParseBind(m.payload).Some?
    requires RegisterPortal(c, ParseBind(m.payload).value).Some?
    ensures var bind := ParseBind(m.payload).value;
      Agree(RegisterPortal(c, bind).value, Receive(b, m, choice)) <==> IsHarmlessBind(c, b, bind, choice)
  {
    var bind := ParseBind(m.payload).value;
    var next, after := RegisterPortal(c, bind).value, Receive(b, m, choice);
    if IsHarmlessBind(c, b, bind, choice) {
      forall name | name in next.portals && name in after.portals
        ensures IsSameWork(next, next.portals[name], after.portals[name])
      {
        if name != bind.portalName {
          assert IsSameWork(c, c.portals[name], b.portals[name]);
        }
      }
    } else {
      assert bind.portalName in next.portals && bind.portalName in after.portals;
    }
  }

  /** What takes things away on either side, or gives nothing, keeps the agreement. */
  lemma LessAgrees(c: Connection, b: Backend, next: Connection, after: Backend)
    requires Agree(c, b)
    requires forall name :: name in next.statements ==>
        name in c.statements && next.statements[name] == c.statements[name]
    requires forall name :: name in after.statements ==>
        name in b.statements && after.statements[name] == b.statements[name]
    requires forall name :: name in next.portals ==> name in c.portals && next.portals[name] == c.portals[name]
    requires forall name :: name in after.portals ==> name in b.portals && after.portals[name] == b.portals[name]
    ensures Agree(next, after)
  {
    forall name | name in next.portals && name in after.portals
      ensures IsSameWork(next, next.portals[name], after.portals[name])
    {
      assert IsSameWork(c, c.portals[name], b.portals[name]);
    }
  }

  lemma CloseAgrees(c: Connection, b: Backend, m: Message, policy: Policy, choice: Choice)
    requires Agree(c, b) && m.kind == 'C' && !c.recovering
    ensures Agree(HandleClose(c, m, policy).next, Receive(b, m, choice))
  {
    LessAgrees(c, b, HandleClose(c, m, policy).next, Receive(b, m, choice));
  }

  /** The backend has run SQL; the names it defined are all that can be known differently. */
  lemma SqlAgrees(c: Connection, b: Backend, next: Connection, choice: Choice)
    requires Agree(c, b) && next.statements == c.statements && next.portals == c.portals
    ensures Agree(next, Executed(b, choice)) <==> IsHarmlessSql(c, choice)
  {
    var after := Executed(b, choice);
    if Agree(next, after) {
      forall name | name in c.portals && name in choice.definedPortals
        ensures IsSameWork(c, c.portals[name], choice.definedPortals[name])
      {
        assert IsSameWork(next, next.portals[name], after.portals[name]);
      }
      assert forall name :: name in choice.definedStatements ==>
        name in after.statements && after.statements[name] == choice.definedStatements[name];
    }
    if IsHarmlessSql(c, choice) {
      forall name | name in next.portals && name in after.portals
        ensures IsSameWork(next, next.portals[name], after.portals[name])
      {
        if name !in choice.definedPortals {
          assert IsSameWork(c, c.portals[name], b.portals[name]);
        }
      }
    }
  }

  lemma OthersAgree(c: Connection, b: Backend, next: Connection, m: Message, choice: Choice)
    requires Agree(c, b) && m.kind != 'P' && m.kind != 'B' && m.kind != 'C'
    requires next.statements == c.statements && next.portals == c.portals
    ensures Agree(next, Receive(b, m, choice)) <==> (RunsSql(b, m, choice) ==> IsHarmlessSql(c, choice))
  {
    if RunsSql(b, m, choice) {
      var given := if m.kind == 'Q' then b.(statements := b.statements - {""}, portals := b.portals - {""}) else b;
      LessAgrees(c, b, c, given);
      SqlAgrees(c, given, next, choice);
    } else {
      LessAgrees(c, b, next, Receive(b, m, choice));
    }
  }

  lemma OthersChangeNothing(c: Connection, m: Message, policy: Policy)
    requires m.kind != 'P' && m.kind != 'B' && m.kind != 'C'
    ensures var next := Handle(c, m, policy).next; next.statements == c.statements && next.portals == c.portals
  {
  }

  /** Exactly which forwarded message leaves proxy and backend knowing a name differently. */
  lemma ForwardAgrees(c: Connection, b: Backend, m: Message, policy: Policy, choice: Choice)
    requires Agree(c, b) && !policy.mode.Permissive? && Handle(c, m, policy).forwarded
    ensures Agree(Handle(c, m, policy).next, Receive(b, m, choice)) <==> c.recovering || IsHarmless(c, b, m, choice)
  {
    if m.kind == 'C' && !c.recovering {
      CloseAgrees(c, b, m, policy, choice);
    } else if m.kind == 'P' && !c.recovering {
      ParseForwardAgrees(c, b, m, policy, choice);
    } else if m.kind == 'B' && !c.recovering {
      BindForwardAgrees(c, b, m, policy, choice);
    } else {
      OtherForwardAgrees(c, b, m, policy, choice);
    }
  }

  lemma ParseForwardAgrees(c: Connection, b: Backend, m: Message, policy: Policy, choice: Choice)
    requires Agree(c, b) && !policy.mode.Permissive? && m.kind == 'P' && !c.recovering
    requires HandleParse(c, m, policy).forwarded
    ensures Agree(HandleParse(c, m, policy).next, Receive(b, m, choice)) <==> IsHarmless(c, b, m, choice)
  {
    ParseAgrees(c, b, m, choice);
  }

  lemma BindForwardAgrees(c: Connection, b: Backend, m: Message, policy: Policy, choice: Choice)
    requires Agree(c, b) && !policy.mode.Permissive? && m.kind == 'B' && !c.recovering
    requires HandleBind(c, m, policy).forwarded
    ensures Agree(HandleBind(c, m, policy).next, Receive(b, m, choice)) <==> IsHarmless(c, b, m, choice)
  {
    BindAgrees(c, b, m, choice);
  }

  lemma OtherForwardAgrees(c: Connection, b: Backend, m: Message, policy: Policy, choice: Choice)
    requires Agree(c, b) && Handle(c, m, policy).forwarded
    requires c.recovering || (m.kind != 'P' && m.kind != 'B' && m.kind != 'C')
    ensures Agree(Handle(c, m, policy).next, Receive(b, m, choice)) <==> c.recovering || IsHarmless(c, b, m, choice)
  {
    if c.recovering {
      SkippedOrSent(c, m, policy);
    }
    OthersChangeNothing(c, m, policy);
    OthersAgree(c, b, Handle(c, m, policy).next, m, choice);
  }

  // ---------------------------------------------------------------------------
  // Sessions
  // ---------------------------------------------------------------------------

  datatype Pair = Pair(proxy: Connection, backend: Backend)

  /** A client message with the backend's choice should it be forwarded, or a status the backend has told. */
  datatype Exchange =
    | FromClient(message: Message, policy: Policy, choice: Choice)
    | FromBackend(status: TransactionStatus)

  ghost function Exchanged(x: Pair, e: Exchange): Pair {
    match e
    case FromClient(m, policy, choice) =>
      var effect := Handle(x.proxy, m, policy);
      Pair(effect.next, if effect.forwarded then Receive(x.backend, m, choice) else x.backend)
    case FromBackend(status) => x.(proxy := UpdateTransactionStatus(x.proxy, status))
  }

  ghost function AllExchanged(x: Pair, es: seq<Exchange>): Pair
    decreases |es|
  {
    if es == [] then x else AllExchanged(Exchanged(x, es[0]), es[1..])
  }

  /** An exchange in which nothing harmful is forwarded. */
  ghost predicate IsHarmlessExchange(x: Pair, e: Exchange) {
    e.FromClient? ==>
      && !e.policy.mode.Permissive?
      && (!x.proxy.recovering && Handle(x.proxy, e.message, e.policy).forwarded ==>
            IsHarmless(x.proxy, x.backend, e.message, e.choice))
  }

  ghost predicate AreHarmless(x: Pair, es: seq<Exchange>)
    decreases |es|
  {
    es == [] || (IsHarmlessExchange(x, es[0]) && AreHarmless(Exchanged(x, es[0]), es[1..]))
  }

  /** Exactly which exchange ends the agreement. */
  lemma ExchangeAgrees(x: Pair, e: Exchange)
    requires Agree(x.proxy, x.backend) && (e.FromClient? ==> !e.policy.mode.Permissive?)
    ensures Agree(Exchanged(x, e).proxy, Exchanged(x, e).backend) <==> IsHarmlessExchange(x, e)
  {
    match e {
      case FromClient(m, policy, choice) =>
        if Handle(x.proxy, m, policy).forwarded {
          ForwardAgrees(x.proxy, x.backend, m, policy, choice);
        } else {
          RefusalChangesNothing(x.proxy, m, policy);
          LessAgrees(x.proxy, x.backend, Handle(x.proxy, m, policy).next, x.backend);
        }
      case FromBackend(status) => LessAgrees(x.proxy, x.backend, UpdateTransactionStatus(x.proxy, status), x.backend);
    }
  }

  lemma {:induction false} ExchangesAgree(x: Pair, es: seq<Exchange>)
    requires Agree(x.proxy, x.backend) && AreHarmless(x, es)
    ensures Agree(AllExchanged(x, es).proxy, AllExchanged(x, es).backend)
    decreases |es|
  {
    if es != [] {
      ExchangeAgrees(x, es[0]);
      ExchangesAgree(Exchanged(x, es[0]), es[1..]);
    }
  }

  function Start(maxItems: nat, maxBytes: nat): Pair {
    Pair(Fresh(maxItems, maxBytes), EMPTY)
  }

  /** While the two agree, what the backend runs for a forwarded Execute was approved, query and values. */
  lemma ForwardedWorkIsApproved(c: Connection, b: Backend, m: Message, policy: Policy)
    requires Agree(c, b) && !policy.mode.Permissive? && Handle(c, m, policy).forwarded
    ensures Runs(b, m).Some? ==> c.recovering || policy.approvePortal(Runs(b, m).value.query, Runs(b, m).value.bind)
  {
    if Runs(b, m).Some? && !c.recovering {
      var portal := ParseExecute(m.payload).value.portalName;
      assert IsSameWork(c, c.portals[portal], b.portals[portal]);
    }
  }

  /**
   Over any session in which nothing harmful is forwarded, whatever else the backend rejects, skips, forgets
   or defines: the query it runs for a forwarded Execute, with the values bound to it there, was approved.
   */
  lemma BackendRunsWhatWasApproved(maxItems: nat, maxBytes: nat, es: seq<Exchange>, m: Message, policy: Policy)
    requires AreHarmless(Start(maxItems, maxBytes), es) && !policy.mode.Permissive?
    requires var x := AllExchanged(Start(maxItems, maxBytes), es);
      Handle(x.proxy, m, policy).forwarded && Runs(x.backend, m).Some?
    ensures var work := Runs(AllExchanged(Start(maxItems, maxBytes), es).backend, m).value;
      policy.approvePortal(work.query, work.bind)
  {
    ExchangesAgree(Start(maxItems, maxBytes), es);
    var x := AllExchanged(Start(maxItems, maxBytes), es);
    ForwardedWorkIsApproved(x.proxy, x.backend, m, policy);
    if x.proxy.recovering {
      SkippedOrSent(x.proxy, m, policy);
    }
  }

  // ---------------------------------------------------------------------------
  // A backend that accepts
  // ---------------------------------------------------------------------------

  /** The backend takes every Parse and Bind it gets, and its SQL neither forgets a statement nor defines a name. */
  ghost predicate IsAccepted(b: Backend, m: Message, choice: Choice) {
    && (m.kind == 'P' || m.kind == 'B' ==> !b.skipping && !Receive(b, m, choice).skipping)
    && (RunsSql(b, m, choice) ==>
          choice.forgottenStatements == {} && choice.definedStatements == map[] && choice.definedPortals == map[])
  }

  /** The backend's portals are of statements it still has, or of the unnamed one. */
  predicate IsLinkedBackend(b: Backend) {
    forall name :: name in b.portals ==>
      b.portals[name].bind.statementName == "" || b.portals[name].bind.statementName in b.statements
  }

  lemma AcceptedKeepsLinks(b: Backend, m: Message, choice: Choice)
    requires IsLinkedBackend(b) && IsAccepted(b, m, choice)
    ensures IsLinkedBackend(Receive(b, m, choice))
  {
  }

  lemma AcceptedIsHarmless(c: Connection, b: Backend, m: Message, choice: Choice)
    requires Agree(c, b) && IsLinkedBackend(b) && IsAccepted(b, m, choice)
    ensures IsHarmless(c, b, m, choice)
  {
    if m.kind == 'P' && ParseParse(m.payload).Some? {
      var name := ParseParse(m.payload).value.statementName;
      forall portal | portal in c.portals && portal in b.portals && name != ""
        ensures c.portals[portal].statementName != name
      {
        assert IsSameWork(c, c.portals[portal], b.portals[portal]);
      }
    }
  }

  ghost predicate AreAccepted(x: Pair, es: seq<Exchange>)
    decreases |es|
  {
    es == []
    || (&& (es[0].FromClient? ==>
              && !es[0].policy.mode.Permissive?
              && (Handle(x.proxy, es[0].message, es[0].policy).forwarded ==>
                    IsAccepted(x.backend, es[0].message, es[0].choice)))
        && AreAccepted(Exchanged(x, es[0]), es[1..]))
  }

  /** Against such a backend nothing the proxy forwards is harmful, whatever the client sends. */
  lemma {:induction false} AcceptedAreHarmless(x: Pair, es: seq<Exchange>)
    requires Agree(x.proxy, x.backend) && IsLinkedBackend(x.backend) && AreAccepted(x, es)
    ensures AreHarmless(x, es)
    decreases |es|
  {
    if es != [] {
      if es[0].FromClient? && Handle(x.proxy, es[0].message, es[0].policy).forwarded {
        AcceptedIsHarmless(x.proxy, x.backend, es[0].message, es[0].choice);
        AcceptedKeepsLinks(x.backend, es[0].message, es[0].choice);
      }
      ExchangeAgrees(x, es[0]);
      AcceptedAreHarmless(Exchanged(x, es[0]), es[1..]);
    }
  }
}
