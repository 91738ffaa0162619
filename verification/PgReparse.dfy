/**
 A session in which an Execute is judged by a query that was not in force when its portal was
 bound: a named statement is parsed, bound and parsed again.
 */
module PgReparse {
  import opened Wire
  import opened Framing
  import opened MapSum
  import opened PgMessages
  import opened PgConnection
  import opened PgFrontend
  import Utf8

  const FIRST := ParseMessage("s", "a")
  const SECOND := ParseMessage("s", "b")
  const BIND := BindMessage("p", "s", [], [], [])

  ghost const START := Fresh(2, 8)

  lemma OneByte(s: string)
    requires s == "s" || s == "a" || s == "b" || s == "p"
    ensures |Utf8.Encode(s)| == 1
  {
  }

  lemma Weights()
    ensures StatementWeight("s", "a") == 2 && StatementWeight("s", "b") == 2 && PortalWeight("p", BIND) == 2
  {
    OneByte("s");
    OneByte("a");
    OneByte("b");
    OneByte("p");
  }

  ghost function Parsed(): Connection {
    START.(statements := map["s" := "a"])
  }

  ghost function WithPortal(): Connection {
    Parsed().(portals := map["p" := BIND])
  }

  ghost function Reparsed(): Connection {
    WithPortal().(statements := map["s" := "b"])
  }

  lemma FirstIsRegistered()
    ensures RegisterStatement(START, "s", "a") == Some(Parsed())
  {
    Weights();
    var none: Prepared := map[];
    assert none - {"s"} == none && none["s" := "a"] == map["s" := "a"];
    TotalOfNone(StatementWeight);
    TotalOfNone(PortalWeight);
  }

  lemma BindIsRegistered()
    ensures RegisterPortal(Parsed(), BIND) == Some(WithPortal())
  {
    Weights();
    var none: Portals := map[];
    var nothing: Prepared := map[];
    assert none - {"p"} == none && none["p" := BIND] == map["p" := BIND];
    assert nothing - {"s"} == nothing && nothing["s" := "a"] == map["s" := "a"];
    TotalUpdate(nothing, StatementWeight, "s", "a");
    TotalOfNone(StatementWeight);
    TotalOfNone(PortalWeight);
  }

  lemma SecondIsRegistered()
    ensures RegisterStatement(WithPortal(), "s", "b") == Some(Reparsed())
  {
    Weights();
    var none: Portals := map[];
    var nothing: Prepared := map[];
    assert none - {"p"} == none && none["p" := BIND] == map["p" := BIND];
    assert map["s" := "a"] - {"s"} == nothing && map["s" := "a"]["s" := "b"] == map["s" := "b"];
    TotalUpdate(none, PortalWeight, "p", BIND);
    TotalOfNone(StatementWeight);
    TotalOfNone(PortalWeight);
  }

  /** Some message says it. */
  lemma ParseMessageFor(parse: ParseMessage) returns (m: Message)
    requires IsParse(parse, [])
    ensures m.kind == 'P' && ParseParse(m.payload) == Some(parse)
  {
    ParseReads(parse, []);
    m := Message('P', WriteParse(parse, []), []);
  }

  lemma BindMessageFor(bind: BindMessage) returns (m: Message)
    requires IsBind(bind, [])
    ensures m.kind == 'B' && ParseBind(m.payload) == Some(bind)
  {
    BindReads(bind, []);
    m := Message('B', WriteBind(bind, []), []);
  }

  lemma ParseStep(c: Connection, bound: Bound, m: Message, policy: Policy, parse: ParseMessage, next: Connection)
    requires m.kind == 'P' && !c.recovering && ParseParse(m.payload) == Some(parse)
    requires RegisterStatement(c, parse.statementName, parse.query) == Some(next)
    ensures React(c, FromClient(m, policy)).next == next && BoundNext(c, bound, FromClient(m, policy)) == bound
  {
  }

  lemma UnsafeStep(c: Connection, m: Message, policy: Policy, parse: ParseMessage)
    requires m.kind == 'P' && !c.recovering && ParseParse(m.payload) == Some(parse)
    requires !IsSafeParse(c, parse.statementName, parse.query)
    ensures !ParsesSafely(c, [FromClient(m, policy)])
  {
    assert OperationOf(c, FromClient(m, policy)) == Some(OpRegisterStatement(parse.statementName, parse.query));
  }

  lemma BindStep(c: Connection, bound: Bound, m: Message, policy: Policy, bind: BindMessage, next: Connection)
    requires m.kind == 'B' && !c.recovering && ParseBind(m.payload) == Some(bind)
    requires RegisterPortal(c, bind) == Some(next)
    ensures React(c, FromClient(m, policy)).next == next
    ensures BoundNext(c, bound, FromClient(m, policy)) == bound[bind.portalName := InForceAt(c, bind)]
  {
  }

  lemma SessionCons(c: Connection, bound: Bound, e: Event, events: seq<Event>)
    ensures PgFrontend.After(c, [e] + events) == PgFrontend.After(React(c, e).next, events)
    ensures BoundBy(c, bound, [e] + events) == BoundBy(React(c, e).next, BoundNext(c, bound, e), events)
    ensures ParsesSafely(c, [e] + events) ==> ParsesSafely(React(c, e).next, events)
  {
    assert ([e] + events)[1..] == events;
  }

  lemma ThreeSteps(c: Connection, bound: Bound, e1: Event, e2: Event, e3: Event)
    ensures var c1, b1 := React(c, e1).next, BoundNext(c, bound, e1);
      var c2, b2 := React(c1, e2).next, BoundNext(c1, b1, e2);
      var events := [e1] + ([e2] + [e3]);
      && PgFrontend.After(c, events) == React(c2, e3).next && BoundBy(c, bound, events) == BoundNext(c2, b2, e3)
      && (ParsesSafely(c, events) ==> ParsesSafely(c2, [e3]))
  {
    var c1, b1 := React(c, e1).next, BoundNext(c, bound, e1);
    var c2, b2 := React(c1, e2).next, BoundNext(c1, b1, e2);
    assert [e3] + [] == [e3];
    SessionCons(c2, b2, e3, []);
    SessionCons(c1, b1, e2, [e3]);
    SessionCons(c, bound, e1, [e2] + [e3]);
  }

  lemma FirstEvent(policy: Policy) returns (e: Event)
    ensures React(START, e).next == Parsed() && BoundNext(START, map[], e) == map[]
  {
    var m := ParseMessageFor(FIRST);
    e := FromClient(m, policy);
    FirstIsRegistered();
    ParseStep(START, map[], m, policy, FIRST, Parsed());
  }

  lemma SecondEvent(policy: Policy) returns (e: Event)
    ensures React(Parsed(), e).next == WithPortal()
    ensures Lookup(BoundNext(Parsed(), map[], e), "p") == Some(InForce(Some("a"), BIND))
  {
    var m := BindMessageFor(BIND);
    e := FromClient(m, policy);
    BindIsRegistered();
    BindStep(Parsed(), map[], m, policy, BIND, WithPortal());
  }

  lemma ThirdEvent(bound: Bound, policy: Policy) returns (e: Event)
    ensures React(WithPortal(), e).next == Reparsed() && BoundNext(WithPortal(), bound, e) == bound
    ensures !ParsesSafely(WithPortal(), [e])
  {
    var m := ParseMessageFor(SECOND);
    e := FromClient(m, policy);
    SecondIsRegistered();
    ParseStep(WithPortal(), bound, m, policy, SECOND, Reparsed());
    assert "p" in WithPortal().portals && WithPortal().portals["p"].statementName == "s";
    UnsafeStep(WithPortal(), m, policy, SECOND);
  }

  /** Without a safe Parse the portal's query is not the one it was bound with. */
  lemma ReparseChangesTheQuery(policy: Policy) returns (events: seq<Event>)
    ensures var c, bound := PgFrontend.After(START, events), BoundBy(START, map[], events);
      && "p" in c.portals && "p" in bound && !ParsesSafely(START, events)
      && bound["p"] == InForce(Some("a"), BIND) && Lookup(c.statements, c.portals["p"].statementName) == Some("b")
  {
    var e1 := FirstEvent(policy);
    var e2 := SecondEvent(policy);
    var e3 := ThirdEvent(BoundNext(Parsed(), map[], e2), policy);
    ThreeSteps(START, map[], e1, e2, e3);
    events := [e1] + ([e2] + [e3]);
  }
}
