/**
 A session in which the backend runs a query that was not the one approved: it rejects the second
 Parse of a name, the proxy does not hear of it, and binds the name to the query rejected.
 */
module PgRejection {
  import opened Wire
  import opened Framing
  import opened MapSum
  import opened PgMessages
  import opened PgConnection
  import opened PgFrontend
  import opened PgBackend
  import opened PgReparse

  ghost const ORIGIN := PgBackend.Start(2, 8)

  function Yes(): Choice {
    Choice(true, {}, {}, map[], map[])
  }

  ghost function Reregistered(): Connection {
    START.(statements := map["s" := "b"])
  }

  ghost function Rebound(): Connection {
    Reregistered().(portals := map["p" := BIND])
  }

  lemma SecondParseFits()
    ensures RegisterStatement(Parsed(), "s", "b") == Some(Reregistered())
  {
    Weights();
    var nothing: Prepared := map[];
    assert map["s" := "a"] - {"s"} == nothing && map["s" := "a"]["s" := "b"] == map["s" := "b"];
    TotalOfNone(StatementWeight);
    TotalOfNone(PortalWeight);
  }

  lemma BindFits()
    ensures RegisterPortal(Reregistered(), BIND) == Some(Rebound())
  {
    Weights();
    var none: Portals := map[];
    var nothing: Prepared := map[];
    assert none - {"p"} == none && none["p" := BIND] == map["p" := BIND];
    assert nothing - {"s"} == nothing && nothing["s" := "b"] == map["s" := "b"];
    TotalUpdate(nothing, StatementWeight, "s", "b");
    TotalOfNone(StatementWeight);
    TotalOfNone(PortalWeight);
  }

  /** A Parse that the proxy registers. */
  lemma ParseExchanged(x: Pair, m: Message, policy: Policy, choice: Choice, parse: ParseMessage, next: Connection)
    requires m.kind == 'P' && !x.proxy.recovering && !x.backend.skipping && ParseParse(m.payload) == Some(parse)
    requires RegisterStatement(x.proxy, parse.statementName, parse.query) == Some(next)
    ensures Exchanged(x, PgBackend.FromClient(m, policy, choice)) == Pair(next, ReceiveParse(x.backend, parse, choice))
  {
  }

  lemma BindExchanged(x: Pair, m: Message, policy: Policy, choice: Choice, bind: BindMessage, next: Connection)
    requires m.kind == 'B' && !x.proxy.recovering && !x.backend.skipping && ParseBind(m.payload) == Some(bind)
    requires RegisterPortal(x.proxy, bind) == Some(next)
    ensures Exchanged(x, PgBackend.FromClient(m, policy, choice)) == Pair(next, ReceiveBind(x.backend, bind, choice))
  {
  }

  lemma SyncExchanged(x: Pair, m: Message, policy: Policy)
    requires m.kind == 'S' && !x.proxy.recovering && x.backend.skipping
    ensures Exchanged(x, PgBackend.FromClient(m, policy, Yes())) == Pair(x.proxy, x.backend.(skipping := false))
  {
    assert x.backend.portals - {} == x.backend.portals;
  }

  ghost function Kept(): Backend {
    Backend(map["s" := "a"], map[], false)
  }

  lemma FirstTwo(first: Message, second: Message, policy: Policy)
    requires first.kind == 'P' && ParseParse(first.payload) == Some(FIRST)
    requires second.kind == 'P' && ParseParse(second.payload) == Some(SECOND)
    ensures var x := Exchanged(ORIGIN, PgBackend.FromClient(first, policy, Yes()));
      && x == Pair(Parsed(), Kept())
      && Exchanged(x, PgBackend.FromClient(second, policy, Yes())) == Pair(Reregistered(), Kept().(skipping := true))
  {
    FirstIsRegistered();
    ParseExchanged(ORIGIN, first, policy, Yes(), FIRST, Parsed());
    var nothing: Prepared := map[];
    assert nothing["s" := "a"] == map["s" := "a"];
    SecondParseFits();
    ParseExchanged(Pair(Parsed(), Kept()), second, policy, Yes(), SECOND, Reregistered());
  }

  lemma LastTwo(sync: Message, bind: Message, policy: Policy)
    requires sync.kind == 'S' && bind.kind == 'B' && ParseBind(bind.payload) == Some(BIND)
    ensures var x := Exchanged(Pair(Reregistered(), Kept().(skipping := true)),
                               PgBackend.FromClient(sync, policy, Yes()));
      && x == Pair(Reregistered(), Kept())
      && Exchanged(x, PgBackend.FromClient(bind, policy, Yes()))
         == Pair(Rebound(), Kept().(portals := map["p" := Work("a", BIND)]))
  {
    SyncExchanged(Pair(Reregistered(), Kept().(skipping := true)), sync, policy);
    BindFits();
    BindExchanged(Pair(Reregistered(), Kept()), bind, policy, Yes(), BIND, Rebound());
    var none: map<string, Work> := map[];
    assert none["p" := Work("a", BIND)] == map["p" := Work("a", BIND)];
  }

  lemma ExchangedCons(x: Pair, e: Exchange, es: seq<Exchange>)
    ensures AllExchanged(x, [e] + es) == AllExchanged(Exchanged(x, e), es)
  {
    assert ([e] + es)[1..] == es;
  }

  lemma FourExchanges(x: Pair, e1: Exchange, e2: Exchange, e3: Exchange, e4: Exchange)
    ensures AllExchanged(x, [e1] + ([e2] + ([e3] + ([e4] + []))))
         == Exchanged(Exchanged(Exchanged(Exchanged(x, e1), e2), e3), e4)
  {
    ExchangedCons(x, e1, [e2] + ([e3] + ([e4] + [])));
    ExchangedCons(Exchanged(x, e1), e2, [e3] + ([e4] + []));
    ExchangedCons(Exchanged(Exchanged(x, e1), e2), e3, [e4] + []);
    ExchangedCons(Exchanged(Exchanged(Exchanged(x, e1), e2), e3), e4, []);
  }

  lemma ExecuteOfPortal(policy: Policy) returns (m: Message)
    ensures m.kind == 'E' && ParseExecute(m.payload) == Some(ExecuteMessage("p", 0))
  {
    var execute := ExecuteMessage("p", 0);
    ExecuteIsExact(WriteExecute(execute), execute);
    m := Message('E', WriteExecute(execute), []);
  }

  ghost function End(): Pair {
    Pair(Rebound(), Kept().(portals := map["p" := Work("a", BIND)]))
  }

  lemma SessionOfRejection(policy: Policy) returns (es: seq<Exchange>)
    ensures AllExchanged(ORIGIN, es) == End()
  {
    var e1, e2 := FirstExchanges(policy);
    var e3, e4 := LastExchanges(policy);
    FourExchanges(ORIGIN, e1, e2, e3, e4);
    es := [e1] + ([e2] + ([e3] + ([e4] + [])));
  }

  lemma FirstExchanges(policy: Policy) returns (e1: Exchange, e2: Exchange)
    ensures Exchanged(Exchanged(ORIGIN, e1), e2) == Pair(Reregistered(), Kept().(skipping := true))
  {
    var first := ParseMessageFor(FIRST);
    var second := ParseMessageFor(SECOND);
    FirstTwo(first, second, policy);
    e1, e2 := PgBackend.FromClient(first, policy, Yes()), PgBackend.FromClient(second, policy, Yes());
  }

  lemma LastExchanges(policy: Policy) returns (e3: Exchange, e4: Exchange)
    ensures Exchanged(Exchanged(Pair(Reregistered(), Kept().(skipping := true)), e3), e4) == End()
  {
    var bind := BindMessageFor(BIND);
    var sync := Message('S', [], []);
    LastTwo(sync, bind, policy);
    e3, e4 := PgBackend.FromClient(sync, policy, Yes()), PgBackend.FromClient(bind, policy, Yes());
  }

  lemma ExecuteAtEnd(m: Message, policy: Policy)
    requires m.kind == 'E' && ParseExecute(m.payload) == Some(ExecuteMessage("p", 0))
    ensures policy.approvePortal("b", BIND) ==> Handle(End().proxy, m, policy).forwarded
    ensures Runs(End().backend, m) == Some(Work("a", BIND))
  {
  }

  /** The Execute is forwarded when policy approves the query rejected, and the backend runs the other one. */
  lemma RejectionGoesUnheard(policy: Policy) returns (es: seq<Exchange>, m: Message)
    ensures var x := AllExchanged(ORIGIN, es);
      && m.kind == 'E' && (policy.approvePortal("b", BIND) ==> Handle(x.proxy, m, policy).forwarded)
      && Runs(x.backend, m) == Some(Work("a", BIND))
  {
    es := SessionOfRejection(policy);
    m := ExecuteOfPortal(policy);
    ExecuteAtEnd(m, policy);
  }
}
