/**
 Following the backend's answer to a query or an execution packet by packet, to
 know which packet is the last one.
 */
module Tracker {
  import opened Wire
  import opened Responses

  /** The stage names of the source; Other stands for any other string. */
  datatype Stage = Initial | Metadata | MetadataEof | Rows | Other(name: string)

  datatype Command = QueryCommand | ExecuteCommand

  datatype Error =
    | AlreadyPending | RegistryFull | StateTooLarge | EmptyDatabaseName | NoDatabaseChange
    | EmptyResponse | UnexpectedResponse | EmptySql | NoPrepare | DuplicatePrepareOk
    | NoMetadataPending | ExtraMetadata | EmptyMetadata | ExpectedEof | MetadataError | MissingKind
    | BadPacket | NoPrepareResponse | IncompleteMetadata | PrepareWithoutId | NoReusableStatement
    | UnknownStatement | TypeCountMismatch | ParameterOutOfRange | NoPing | NoReset | NoCommand
    | LocalInfile | UnexpectedMetadata | UnknownStage

  /** The command waiting for its answer, and how far the answer has come. */
  datatype Tracker = Tracker(pending: Option<Command>, stage: Stage, columnsRemaining: nat)

  const IDLE := Tracker(None, Initial, 0)

  /** The next state, with the server status when the packet tells one; or an error. */
  datatype Tracking = Accepted(next: Tracker, status: Option<nat>) | Failed(next: Tracker, error: Error)

  /** The end of one reply: another follows, or the command is answered. */
  function FinishOrContinue(t: Tracker, status: nat): Tracker {
    if Has(status, SERVER_MORE_RESULTS_EXISTS) then t.(stage := Initial, columnsRemaining := 0) else IDLE
  }

  function StageAfterMetadata(caps: nat): Stage {
    if DeprecateEof(caps) then Rows else MetadataEof
  }

  function TrackInitial(t: Tracker, payload: Bytes, caps: nat): Tracking
    requires payload != []
  {
    if payload[0] == OK_MARKER then
      var status := ParseOkStatus(payload, caps);
      if status.None? then Failed(t, BadPacket) else Accepted(FinishOrContinue(t, status.value), status)
    else if payload[0] == LOCAL_INFILE_MARKER then Failed(IDLE, LocalInfile)
    else
      var header := ParseResultSetHeader(payload, caps);
      if header.None? then Failed(t, BadPacket)
      else if header.value.1 then Accepted(t.(columnsRemaining := header.value.0, stage := Metadata), None)
      else Accepted(t.(columnsRemaining := 0, stage := StageAfterMetadata(caps)), None)
  }

  function TrackMetadata(t: Tracker, caps: nat): Tracking {
    if t.columnsRemaining == 0 then Failed(IDLE, UnexpectedMetadata)
    else
      var left := t.columnsRemaining - 1;
      Accepted(t.(columnsRemaining := left, stage := if left == 0 then StageAfterMetadata(caps) else t.stage), None)
  }

  function TrackMetadataEof(t: Tracker, payload: Bytes, caps: nat): Tracking {
    var status := ParseEofStatus(payload, caps);
    if status.None? then Failed(t, BadPacket) else Accepted(t.(stage := Rows), status)
  }

  function TrackRow(t: Tracker, payload: Bytes, caps: nat): Tracking
    requires payload != []
  {
    var ends := if DeprecateEof(caps) then payload[0] == EOF_MARKER else IsEofShaped(payload);
    if !ends then Accepted(t, None)
    else
      var status := if DeprecateEof(caps) then ParseOkStatus(payload, caps) else ParseEofStatus(payload, caps);
      if status.None? then Failed(t, BadPacket) else Accepted(FinishOrContinue(t, status.value), status)
  }

  function Track(t: Tracker, payload: Bytes, caps: nat): Tracking {
    if t.pending.None? then Failed(t, NoCommand)
    else if payload == [] then Failed(IDLE, EmptyResponse)
    else if payload[0] == ERR_MARKER then Accepted(IDLE, None)
    else
      match t.stage
      case Initial => TrackInitial(t, payload, caps)
      case Metadata => TrackMetadata(t, caps)
      case MetadataEof => TrackMetadataEof(t, payload, caps)
      case Rows => TrackRow(t, payload, caps)
      case Other(_) => Failed(IDLE, UnknownStage)
  }

  /** Stage and countdown agree with each other and with what is pending. */
  predicate IsTracked(t: Tracker) {
    && !t.stage.Other?
    && (t.stage.Metadata? <==> t.columnsRemaining > 0)
    && (t.pending.None? ==> t.stage.Initial?)
  }

  /** Every packet, acceptable or not, keeps that; so two of the source's errors can never be raised. */
  lemma TrackKeeps(t: Tracker, payload: Bytes, caps: nat)
    requires IsTracked(t)
    ensures var r := Track(t, payload, caps);
      IsTracked(r.next) && (r.Failed? ==> r.error != UnknownStage && r.error != UnexpectedMetadata)
  {
  }

  // ---------------------------------------------------------------------------
  // Recognition of well-formed responses
  // ---------------------------------------------------------------------------

  /** The packets of a response that are still to come, as the grammar produces them. */
  datatype Remaining =
    | Replies(replies: seq<Reply>)
    | InResultSet(definitions: seq<Bytes>, eof: Option<(nat, nat)>, rows: seq<Bytes>, end: RowsEnd, later: seq<Reply>)
    | Over

  predicate IsRemaining(r: Remaining, caps: nat) {
    match r
    case Over => true
    case Replies(replies) => IsResponse(replies, caps)
    case InResultSet(definitions, eof, rows, end, later) =>
      && (forall d :: d in definitions ==> IsDefinition(d))
      && (definitions != [] ==> (eof.Some? <==> !DeprecateEof(caps)))
      && (eof.Some? ==> !DeprecateEof(caps) && eof.value.0 < 0x1_0000 && eof.value.1 < 0x1_0000)
      && (forall row :: row in rows ==> IsRow(row, caps))
      && (end.EndOfRows? ==> IsOkFields(end.fields))
      && if end.EndOfRows? && Has(end.fields.status, SERVER_MORE_RESULTS_EXISTS) then IsResponse(later, caps)
         else later == []
  }

  function PacketsLeft(r: Remaining, caps: nat): seq<Bytes>
    requires IsRemaining(r, caps)
  {
    match r
    case Over => []
    case Replies(replies) => ResponsePackets(replies, caps)
    case InResultSet(definitions, eof, rows, end, later) =>
      definitions
      + ((if eof.Some? then [EofPacket(eof.value.0, eof.value.1)] else [])
      + (rows + [EndPacket(end, caps)]))
      + if later == [] then [] else ResponsePackets(later, caps)
  }

  /** What the tracker must hold when that is what is still to come. */
  function TrackerFor(r: Remaining, command: Command, caps: nat): Tracker {
    match r
    case Over => IDLE
    case Replies(_) => Tracker(Some(command), Initial, 0)
    case InResultSet(definitions, eof, _, _, _) =>
      if definitions != [] then Tracker(Some(command), Metadata, |definitions|)
      else Tracker(Some(command), if eof.Some? then MetadataEof else Rows, 0)
  }

  function FirstPacket(r: Reply, caps: nat): Bytes
    requires IsReply(r, caps)
  {
    match r
    case OkReply(fields) => OkPacket(OK_MARKER, fields)
    case ErrReply(rest) => ErrPacket(rest)
    case ResultSet(columns, definitions, _, _, _) => HeaderPacket(columns, definitions.Some?, caps)
  }

  function NextPacket(r: Remaining, caps: nat): Bytes
    requires IsRemaining(r, caps) && !r.Over?
  {
    match r
    case Replies(replies) => FirstPacket(replies[0], caps)
    case InResultSet(definitions, eof, rows, end, later) =>
      if definitions != [] then definitions[0]
      else if eof.Some? then EofPacket(eof.value.0, eof.value.1)
      else if rows != [] then rows[0]
      else EndPacket(end, caps)
  }

  function Or(replies: seq<Reply>): Remaining {
    if replies == [] then Over else Replies(replies)
  }

  function Advance(r: Remaining, caps: nat): Remaining
    requires IsRemaining(r, caps) && !r.Over?
  {
    match r
    case Replies(replies) =>
      (match replies[0]
       case ResultSet(_, definitions, eof, rows, end) =>
         InResultSet(if definitions.Some? then definitions.value else [],
                     if DeprecateEof(caps) then None else Some(eof), rows, end, replies[1..])
       case _ => Or(replies[1..]))
    case InResultSet(definitions, eof, rows, end, later) =>
      if definitions != [] then r.(definitions := definitions[1..])
      else if eof.Some? then r.(eof := None)
      else if rows != [] then r.(rows := rows[1..])
      else Or(later)
  }

  lemma AdvanceKeeps(r: Remaining, caps: nat)
    requires IsRemaining(r, caps) && !r.Over?
    ensures IsRemaining(Advance(r, caps), caps)
  {
  }

  lemma AdvanceInResultSet(r: Remaining, caps: nat)
    requires IsRemaining(r, caps) && r.InResultSet?
    ensures IsRemaining(Advance(r, caps), caps)
    ensures PacketsLeft(r, caps) == [NextPacket(r, caps)] + PacketsLeft(Advance(r, caps), caps)
  {
    AdvanceKeeps(r, caps);
    var InResultSet(definitions, eof, rows, end, later) := r;
    var more := if later == [] then [] else ResponsePackets(later, caps);
    var ending := rows + [EndPacket(end, caps)];
    var afterDefinitions := (if eof.Some? then [EofPacket(eof.value.0, eof.value.1)] else []) + ending;
    if definitions != [] {
      DropOne(definitions, 0);
      Assoc([definitions[0]], definitions[1..], afterDefinitions);
      Assoc([definitions[0]], definitions[1..] + afterDefinitions, more);
    } else if eof.Some? {
      assert [] + afterDefinitions == afterDefinitions && [] + ([] + ending) == ending;
      Assoc([EofPacket(eof.value.0, eof.value.1)], ending, more);
    } else if rows != [] {
      DropOne(rows, 0);
      Assoc([rows[0]], rows[1..], [EndPacket(end, caps)]);
      assert [] + ([] + ending) == ending;
      assert [] + ([] + (rows[1..] + [EndPacket(end, caps)])) == rows[1..] + [EndPacket(end, caps)];
      Assoc([rows[0]], rows[1..] + [EndPacket(end, caps)], more);
    } else {
      assert [] + ([] + ending) == ending == [EndPacket(end, caps)];
    }
  }

  /** Advancing takes exactly the next packet off what is left. */
  lemma AdvanceTakesNext(r: Remaining, caps: nat)
    requires IsRemaining(r, caps) && !r.Over?
    ensures IsRemaining(Advance(r, caps), caps)
    ensures PacketsLeft(r, caps) == [NextPacket(r, caps)] + PacketsLeft(Advance(r, caps), caps)
  {
    if r.InResultSet? {
      AdvanceInResultSet(r, caps);
    } else {
      AdvanceKeeps(r, caps);
      var replies := r.replies;
      var more := if AnnouncesMore(replies[0]) then ResponsePackets(replies[1..], caps) else [];
      if replies[0].ResultSet? {
        Assoc([NextPacket(r, caps)], Body(replies[0], caps), more);
      }
    }
  }

  /** The packet that ends the rows ends the command, or opens the next reply. */
  lemma EndIsRecognised(r: Remaining, command: Command, caps: nat)
    requires IsRemaining(r, caps) && Has(caps, CLIENT_PROTOCOL_41)
    requires r.InResultSet? && r.definitions == [] && r.eof.None? && r.rows == []
    ensures var t := Track(TrackerFor(r, command, caps), NextPacket(r, caps), caps);
      t.Accepted? && t.next == TrackerFor(Advance(r, caps), command, caps)
  {
    if r.end.EndOfRows? {
      if DeprecateEof(caps) {
        OkIsRead(EOF_MARKER, r.end.fields, caps);
      } else {
        EofIsRead(r.end.fields.status, r.end.fields.warnings, caps);
      }
    }
  }

  /** A packet before that one moves the tracker within the result set. */
  lemma InsideIsRecognised(r: Remaining, command: Command, caps: nat)
    requires IsRemaining(r, caps) && Has(caps, CLIENT_PROTOCOL_41)
    requires r.InResultSet? && (r.definitions != [] || r.eof.Some? || r.rows != [])
    ensures var t := Track(TrackerFor(r, command, caps), NextPacket(r, caps), caps);
      t.Accepted? && t.next == TrackerFor(Advance(r, caps), command, caps)
  {
    if r.definitions != [] {
      assert IsDefinition(r.definitions[0]);
    } else if r.eof.Some? {
      EofIsRead(r.eof.value.0, r.eof.value.1, caps);
    } else {
      assert IsRow(r.rows[0], caps);
    }
  }

  /**
   One packet of a well-formed response never fails, and moves the tracker to what
   the rest of the response needs: idle after the last packet, and only then.
   */
  lemma PacketIsRecognised(r: Remaining, command: Command, caps: nat)
    requires IsRemaining(r, caps) && !r.Over?
    requires Has(caps, CLIENT_PROTOCOL_41)
    ensures var t := Track(TrackerFor(r, command, caps), NextPacket(r, caps), caps);
      t.Accepted? && t.next == TrackerFor(Advance(r, caps), command, caps)
  {
    if r.Replies? {
      ReplyIsRecognised(r.replies, command, caps);
    } else if r.definitions == [] && r.eof.None? && r.rows == [] {
      EndIsRecognised(r, command, caps);
    } else {
      InsideIsRecognised(r, command, caps);
    }
  }

  /** A result-set header opens the metadata, or skips it when the definitions are cached. */
  lemma HeaderIsFollowed(t: Tracker, columns: nat, sent: bool, caps: nat)
    requires t.pending.Some? && t.stage == Initial
    requires 0 < columns < 0x1_0000_0000_0000_0000 && (!sent ==> Has(caps, MARIADB_CLIENT_CACHE_METADATA))
    ensures Track(t, HeaderPacket(columns, sent, caps), caps)
         == Accepted(if sent then t.(columnsRemaining := columns, stage := Metadata)
                     else t.(columnsRemaining := 0, stage := StageAfterMetadata(caps)), None)
  {
    HeaderIsRead(columns, sent, caps);
  }

  lemma ReplyIsRecognised(replies: seq<Reply>, command: Command, caps: nat)
    requires IsResponse(replies, caps) && Has(caps, CLIENT_PROTOCOL_41)
    ensures var r := Replies(replies);
      var t := Track(TrackerFor(r, command, caps), NextPacket(r, caps), caps);
      t.Accepted? && t.next == TrackerFor(Advance(r, caps), command, caps)
  {
    match replies[0] {
      case OkReply(fields) => OkIsRead(OK_MARKER, fields, caps);
      case ErrReply(_) =>
      case ResultSet(columns, definitions, _, _, _) =>
        HeaderIsFollowed(TrackerFor(Replies(replies), command, caps), columns, definitions.Some?, caps);
        assert definitions.Some? ==> definitions.value != [];
    }
  }

  /** The tracker after some packets, if none of them fails. */
  function TrackAll(t: Tracker, packets: seq<Bytes>, caps: nat): Option<Tracker>
    decreases |packets|
  {
    if packets == [] then Some(t)
    else
      var r := Track(t, packets[0], caps);
      if r.Failed? then None else TrackAll(r.next, packets[1..], caps)
  }

  lemma TakeOne(first: Bytes, rest: seq<Bytes>, k: nat)
    requires 0 < k <= |rest| + 1
    ensures ([first] + rest)[..k][0] == first && ([first] + rest)[..k][1..] == rest[..k - 1]
  {
  }

  lemma {:induction false} RemainingIsRecognised(r: Remaining, command: Command, caps: nat, k: nat)
    requires IsRemaining(r, caps) && Has(caps, CLIENT_PROTOCOL_41)
    requires k <= |PacketsLeft(r, caps)|
    ensures var t := TrackAll(TrackerFor(r, command, caps), PacketsLeft(r, caps)[..k], caps);
      t.Some? && (t.value.pending.None? <==> k == |PacketsLeft(r, caps)|)
    decreases k
  {
    if k > 0 {
      AdvanceTakesNext(r, caps);
      PacketIsRecognised(r, command, caps);
      RemainingIsRecognised(Advance(r, caps), command, caps, k - 1);
      TakeOne(NextPacket(r, caps), PacketsLeft(Advance(r, caps), caps), k);
    } else if !r.Over? {
      AdvanceTakesNext(r, caps);
    }
  }

  /** Any well-formed response is followed without an error, and the command is answered exactly by its last packet. */
  lemma ResponseIsRecognised(replies: seq<Reply>, command: Command, caps: nat, k: nat)
    requires IsResponse(replies, caps) && Has(caps, CLIENT_PROTOCOL_41)
    requires k <= |ResponsePackets(replies, caps)|
    ensures var t := TrackAll(Tracker(Some(command), Initial, 0), ResponsePackets(replies, caps)[..k], caps);
      t.Some? && (t.value.pending.None? <==> k == |ResponsePackets(replies, caps)|)
  {
    RemainingIsRecognised(Replies(replies), command, caps, k);
  }
}
