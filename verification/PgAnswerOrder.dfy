/**
 In which order a PostgreSQL client gets its answers. The backend answers what was forwarded in order; the proxy
 answers what it refuses at once, also in front of the answers to the Parse and Bind before a refused Execute.
 */
module PgAnswerOrder {
  import opened Wire
  import opened Framing
  import PgStartup
  import opened PgConnection
  import opened PgFrontend
  import opened Ledgers

  /** status: what a ReadyForQuery among the backend's packets tells. */
  datatype Turn =
    | Sends(message: Message, policy: Policy)
    | Answers(last: bool, status: Option<PgStartup.TransactionStatus>)
    | EndsSilently

  ghost function NextTurn(c: Connection, turn: Turn): Connection {
    match turn
    case Sends(message, policy) => Handle(c, message, policy).next
    case Answers(_, status) => if status.Some? then UpdateTransactionStatus(c, status.value) else c
    case EndsSilently => c
  }

  /** An error and the ReadyForQuery behind it are written together and booked as one packet. */
  ghost function EntryOf(c: Connection, turn: Turn): Entry {
    match turn
    case Sends(message, policy) =>
      var effect := Handle(c, message, policy);
      if effect.forwarded then Passed else if effect.answers != [] then Refused else Unanswered
    case Answers(last, _) => Told(last)
    case EndsSilently => Silent
  }

  ghost function EntriesOf(c: Connection, turns: seq<Turn>): seq<Entry>
    decreases |turns|
  {
    if turns == [] then [] else [EntryOf(c, turns[0])] + EntriesOf(NextTurn(c, turns[0]), turns[1..])
  }

  /**
   Over every session: the client's stream is in order exactly when no packet of the backend comes behind a
   refusal of a later message; that is so when nothing is refused while an answer is on its way; and only then, if
   every answer comes.
   */
  lemma AnswersComeInOrder(c: Connection, turns: seq<Turn>)
    requires MayBookAll(BLANK, EntriesOf(c, turns))
    ensures var entries := EntriesOf(c, turns);
      var end := BookAll(BLANK, entries);
      && (IsInOrder(end.told) <==> !HasLate(BLANK, entries))
      && (!HasInterruption(BLANK, entries) ==> IsInOrder(end.told))
      && (end.owing == [] && !HasSilent(entries) ==> (IsInOrder(end.told) <==> !HasInterruption(BLANK, entries)))
  {
    var entries := EntriesOf(c, turns);
    OrderIsPunctuality(BLANK, entries);
    if !HasInterruption(BLANK, entries) {
      NothingInterruptedNothingLate(BLANK, entries);
    } else if BookAll(BLANK, entries).owing == [] && !HasSilent(entries) {
      OrderIsPatience(BLANK, entries);
    }
  }

  /** A client that sends what the proxy reads only when no answer is on its way. */
  ghost predicate IsStepwise(c: Connection, l: Ledger, turns: seq<Turn>)
    decreases |turns|
  {
    turns == []
    || (&& (turns[0].Sends? && (turns[0].message.kind == 'Q' || IsExtended(turns[0].message.kind)) ==> l.owing == [])
        && MayBook(l, EntryOf(c, turns[0]))
        && IsStepwise(NextTurn(c, turns[0]), Book(l, EntryOf(c, turns[0])), turns[1..]))
  }

  /** Whatever else such a client sends, and whatever is refused, its answers come in order. */
  lemma {:induction false} StepwiseIsUninterrupted(c: Connection, l: Ledger, turns: seq<Turn>)
    requires IsStepwise(c, l, turns)
    ensures MayBookAll(l, EntriesOf(c, turns)) && !HasInterruption(l, EntriesOf(c, turns))
    decreases |turns|
  {
    if turns != [] {
      var next, entry := NextTurn(c, turns[0]), EntryOf(c, turns[0]);
      if turns[0].Sends? {
        HandledIsAnswered(c, turns[0].message, turns[0].policy);
      }
      StepwiseIsUninterrupted(next, Book(l, entry), turns[1..]);
      BookJoins(l, [entry], EntriesOf(next, turns[1..]));
    }
  }

  lemma EntriesCons(c: Connection, turn: Turn, more: seq<Turn>)
    ensures EntriesOf(c, [turn] + more) == [EntryOf(c, turn)] + EntriesOf(NextTurn(c, turn), more)
  {
    assert ([turn] + more)[1..] == more;
  }

  /** Parse, Bind and Execute in one go, and the Execute is refused: the client hears of the Execute first. */
  lemma RefusedExecuteIsAnsweredFirst(c: Connection, parse: Message, bind: Message, execute: Message, policy: Policy)
    requires Handle(c, parse, policy).forwarded
    requires Handle(Handle(c, parse, policy).next, bind, policy).forwarded
    requires var bound := Handle(Handle(c, parse, policy).next, bind, policy).next;
      !bound.recovering && !Handle(bound, execute, policy).forwarded
    ensures var entries := EntriesOf(c, [Sends(parse, policy), Sends(bind, policy), Sends(execute, policy),
                                         Answers(true, None), Answers(true, None)]);
      MayBookAll(BLANK, entries) && BookAll(BLANK, entries) == Ledger(3, [], [2, 0, 1])
  {
    var parsed := Handle(c, parse, policy).next;
    var bound := Handle(parsed, bind, policy).next;
    var refused := Handle(bound, execute, policy).next;
    RefusalChangesNothing(bound, execute, policy);
    var last := [Answers(true, None)] + [];
    var answered := [Answers(true, None)] + last;
    var executed := [Sends(execute, policy)] + answered;
    var both := [Sends(bind, policy)] + executed;
    EntriesCons(refused, Answers(true, None), []);
    EntriesCons(refused, Answers(true, None), last);
    EntriesCons(bound, Sends(execute, policy), answered);
    EntriesCons(parsed, Sends(bind, policy), executed);
    EntriesCons(c, Sends(parse, policy), both);
    assert [Sends(parse, policy)] + both
        == [Sends(parse, policy), Sends(bind, policy), Sends(execute, policy), Answers(true, None),
            Answers(true, None)];
    assert EntriesOf(c, [Sends(parse, policy)] + both) == [Passed, Passed, Refused, Told(true), Told(true)];
    BookFive();
  }

  lemma BookFive()
    ensures MayBookAll(BLANK, [Passed, Passed, Refused, Told(true), Told(true)])
    ensures BookAll(BLANK, [Passed, Passed, Refused, Told(true), Told(true)]) == Ledger(3, [], [2, 0, 1])
  {
    var entries := [Passed, Passed, Refused, Told(true), Told(true)];
    assert entries[1..] == [Passed, Refused, Told(true), Told(true)];
    assert entries[1..][1..] == [Refused, Told(true), Told(true)];
    assert [Refused, Told(true), Told(true)][1..] == [Told(true), Told(true)];
    assert [Told(true), Told(true)][1..] == [Told(true)] && [Told(true)][1..] == [];
    assert Book(BLANK, Passed) == Ledger(1, [0], []);
    assert Book(Ledger(1, [0], []), Passed) == Ledger(2, [0, 1], []);
    assert Book(Ledger(2, [0, 1], []), Refused) == Ledger(3, [0, 1], [2]);
    assert Book(Ledger(3, [0, 1], [2]), Told(true)) == Ledger(3, [1], [2, 0]);
    assert Book(Ledger(3, [1], [2, 0]), Told(true)) == Ledger(3, [], [2, 0, 1]);
  }
}
