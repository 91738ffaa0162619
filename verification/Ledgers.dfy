/**
 Who answers what: the client's messages are numbered, and each packet it gets is booked under the message it
 answers. The proxy answers a message it refuses at once, and the server the others in order.
 */
module Ledgers {

  /**
   sent: how many messages the client has sent. owing: the messages whose answer, or the rest of it, is still to
   come from the server. told: for each packet the client got, the number of the message it answers.
   */
  datatype Ledger = Ledger(sent: nat, owing: seq<nat>, told: seq<nat>)

  /**
   A message that nobody answers, one that the proxy answers, one for the server; a packet of the server, and none.
   */
  datatype Entry = Unanswered | Refused | Passed | Told(last: bool) | Silent

  const BLANK := Ledger(0, [], [])

  predicate MayBook(l: Ledger, e: Entry) {
    e.Told? || e.Silent? ==> l.owing != []
  }

  function Book(l: Ledger, e: Entry): Ledger
    requires MayBook(l, e)
  {
    match e
    case Unanswered => l.(sent := l.sent + 1)
    case Refused => l.(sent := l.sent + 1, told := l.told + [l.sent])
    case Passed => l.(sent := l.sent + 1, owing := l.owing + [l.sent])
    case Told(last) => l.(told := l.told + [l.owing[0]], owing := if last then l.owing[1..] else l.owing)
    case Silent => l.(owing := l.owing[1..])
  }

  predicate MayBookAll(l: Ledger, entries: seq<Entry>)
    decreases |entries|
  {
    entries == [] || (MayBook(l, entries[0]) && MayBookAll(Book(l, entries[0]), entries[1..]))
  }

  function BookAll(l: Ledger, entries: seq<Entry>): Ledger
    requires MayBookAll(l, entries)
    decreases |entries|
  {
    if entries == [] then l else BookAll(Book(l, entries[0]), entries[1..])
  }

  /** The client gets its answers in the order of its messages, each in one piece. */
  predicate IsInOrder(told: seq<nat>) {
    forall i, j :: 0 <= i < j < |told| ==> told[i] <= told[j]
  }

  predicate IsLedger(l: Ledger) {
    && (forall i :: 0 <= i < |l.owing| ==> l.owing[i] < l.sent)
    && (forall i, j :: 0 <= i < j < |l.owing| ==> l.owing[i] < l.owing[j])
    && (forall i :: 0 <= i < |l.told| ==> l.told[i] < l.sent)
  }

  /** Some message that the server has still to answer is older than one answered already. */
  predicate IsOverdue(l: Ledger) {
    l.owing != [] && exists i :: 0 <= i < |l.told| && l.told[i] > l.owing[0]
  }

  /** A packet of the server for a message older than one the client has an answer to. */
  predicate IsLate(l: Ledger, e: Entry) {
    e.Told? && IsOverdue(l)
  }

  /** The proxy refuses a message while the server owes an answer to an earlier one. */
  predicate Interrupts(l: Ledger, e: Entry) {
    e.Refused? && l.owing != []
  }

  predicate HasLate(l: Ledger, entries: seq<Entry>)
    requires MayBookAll(l, entries)
    decreases |entries|
  {
    entries != [] && (IsLate(l, entries[0]) || HasLate(Book(l, entries[0]), entries[1..]))
  }

  predicate HasInterruption(l: Ledger, entries: seq<Entry>)
    requires MayBookAll(l, entries)
    decreases |entries|
  {
    entries != [] && (Interrupts(l, entries[0]) || HasInterruption(Book(l, entries[0]), entries[1..]))
  }

  predicate HasSilent(entries: seq<Entry>) {
    exists i :: 0 <= i < |entries| && entries[i].Silent?
  }

  lemma BookKeepsLedger(l: Ledger, e: Entry)
    requires IsLedger(l) && MayBook(l, e)
    ensures IsLedger(Book(l, e))
  {
  }

  lemma Appended(told: seq<nat>, n: nat)
    ensures IsInOrder(told + [n]) <==> IsInOrder(told) && forall i :: 0 <= i < |told| ==> told[i] <= n
  {
    var longer := told + [n];
    assert longer[|told|] == n;
    assert forall i :: 0 <= i < |told| ==> longer[i] == told[i];
  }

  /** Exactly the late packets put the client's stream out of order. */
  lemma BookKeepsOrder(l: Ledger, e: Entry)
    requires IsLedger(l) && MayBook(l, e)
    ensures IsInOrder(Book(l, e).told) <==> IsInOrder(l.told) && !IsLate(l, e)
  {
    if e.Refused? {
      Appended(l.told, l.sent);
    } else if e.Told? {
      Appended(l.told, l.owing[0]);
    }
  }

  lemma {:induction false} OrderIsPunctuality(l: Ledger, entries: seq<Entry>)
    requires IsLedger(l) && MayBookAll(l, entries)
    ensures IsInOrder(BookAll(l, entries).told) <==> IsInOrder(l.told) && !HasLate(l, entries)
    decreases |entries|
  {
    if entries != [] {
      BookKeepsLedger(l, entries[0]);
      BookKeepsOrder(l, entries[0]);
      OrderIsPunctuality(Book(l, entries[0]), entries[1..]);
    }
  }

  /** Only an interruption makes an answer overdue, and only the answer, late, or its silent end makes up for it. */
  lemma OverdueByInterruption(l: Ledger, e: Entry)
    requires IsLedger(l) && MayBook(l, e)
    ensures !IsOverdue(l) && !Interrupts(l, e) ==> !IsOverdue(Book(l, e))
    ensures Interrupts(l, e) ==> IsOverdue(Book(l, e))
    ensures IsOverdue(l) && !e.Told? && !e.Silent? ==> IsOverdue(Book(l, e))
  {
    var next := Book(l, e);
    if e.Refused? {
      assert next.told[|l.told|] == l.sent;
    }
    if IsOverdue(l) && !e.Told? && !e.Silent? {
      var i :| 0 <= i < |l.told| && l.told[i] > l.owing[0];
      assert next.told[i] == l.told[i] && next.owing[0] == l.owing[0];
    }
  }

  /** A client that is never refused while an answer is on its way gets its answers in order. */
  lemma {:induction false} NothingInterruptedNothingLate(l: Ledger, entries: seq<Entry>)
    requires IsLedger(l) && !IsOverdue(l) && MayBookAll(l, entries) && !HasInterruption(l, entries)
    ensures !HasLate(l, entries)
    decreases |entries|
  {
    if entries != [] {
      BookKeepsLedger(l, entries[0]);
      OverdueByInterruption(l, entries[0]);
      NothingInterruptedNothingLate(Book(l, entries[0]), entries[1..]);
    }
  }

  /** An overdue answer comes late, if it comes at all. */
  lemma {:induction false} OverdueComesLate(l: Ledger, entries: seq<Entry>)
    requires IsLedger(l) && IsOverdue(l) && MayBookAll(l, entries) && !HasSilent(entries)
    requires BookAll(l, entries).owing == []
    ensures HasLate(l, entries)
    decreases |entries|
  {
    assert !entries[0].Silent?;
    if !entries[0].Told? {
      BookKeepsLedger(l, entries[0]);
      OverdueByInterruption(l, entries[0]);
      RestIsNotSilent(entries);
      OverdueComesLate(Book(l, entries[0]), entries[1..]);
    }
  }

  lemma RestIsNotSilent(entries: seq<Entry>)
    requires entries != [] && !HasSilent(entries)
    ensures !HasSilent(entries[1..])
  {
    assert forall i :: 0 <= i < |entries[1..]| ==> entries[1..][i] == entries[i + 1];
  }

  /** Where every answer comes, and has come, exactly the interruptions put the client's stream out of order. */
  lemma {:induction false} OrderIsPatience(l: Ledger, entries: seq<Entry>)
    requires IsLedger(l) && !IsOverdue(l) && MayBookAll(l, entries) && !HasSilent(entries)
    requires BookAll(l, entries).owing == []
    ensures HasLate(l, entries) <==> HasInterruption(l, entries)
    decreases |entries|
  {
    if entries != [] {
      BookKeepsLedger(l, entries[0]);
      OverdueByInterruption(l, entries[0]);
      RestIsNotSilent(entries);
      if Interrupts(l, entries[0]) {
        OverdueComesLate(Book(l, entries[0]), entries[1..]);
      } else {
        OrderIsPatience(Book(l, entries[0]), entries[1..]);
      }
    }
  }

  /** The ledger behind one entry or none. */
  function BookFew(l: Ledger, few: seq<Entry>): Ledger
    requires |few| <= 1 && (few != [] ==> MayBook(l, few[0]))
  {
    if few == [] then l else Book(l, few[0])
  }

  lemma BookJoins(l: Ledger, few: seq<Entry>, more: seq<Entry>)
    requires |few| <= 1 && (few != [] ==> MayBook(l, few[0])) && MayBookAll(BookFew(l, few), more)
    ensures MayBookAll(l, few + more) && BookAll(l, few + more) == BookAll(BookFew(l, few), more)
    ensures HasInterruption(l, few + more)
       <==> (few != [] && Interrupts(l, few[0])) || HasInterruption(BookFew(l, few), more)
    ensures HasSilent(few + more) <==> (few != [] && few[0].Silent?) || HasSilent(more)
  {
    var all := few + more;
    assert forall i :: 0 <= i < |more| ==> all[i + |few|] == more[i];
    if few == [] {
      assert all == more;
    } else {
      assert all[0] == few[0] && all[1..] == more;
    }
  }
}
