# Verification of the SQL safety proxy

The proxy sits between a database client and a MySQL/MariaDB or PostgreSQL server, cuts both byte
streams into protocol messages, inspects the SQL the client sends, and forwards or refuses it. To do
that it keeps a session of its own: which command each backend packet answers, which statements are
prepared, what is bound to which portal. This project models that machinery in Dafny. For MySQL it
proves that the session stays in step with the server on every run that begins as the login asks, and
exactly which logins do; for PostgreSQL, whose backend the proxy does not listen to, it proves exactly
when the two agree.

`dafny verify dfyconfig.toml` checks everything.

## How it is laid out

Code that the proxy writes as objects changed in place is modelled by classes whose fields are the
proxy's own (`SessionState`, `Dispatcher`, `BackendRouter`, `RelayState`, the framers, the assembler,
`PgSession`, `AuditLog`). Each method is proved to do to the fields and to the outgoing streams exactly
what a function says (`Session`, `Dispatch`, `Routing`, `Login`, `Relay`, `PgConnection`,
`PgFrontend`), and the theorems about whole runs are proved about those functions.

- `Wire`, `Utf8`, `MapSum`, `Streams`: bytes, integers, text, byte sums of registries, streams.
- `Framing`, `Assembler`: cutting streams into frames; MySQL messages split over packets.
- `Scanner`, `ExecuteParams`: the placeholder scanner, and the binary COM_STMT_EXECUTE decoder.
- `Lexing`, `Stripping`: what the scanner finds, said by a grammar of quotes and comments; and what
  white space around a template changes.
- `Responses`, `Tracker`: the grammar of a well-formed MySQL response, and following it.
- `Session`, `SessionState`: the session's operations and the session object.
- `Dispatch`, `Dispatcher`: one client command. `Routing`, `Login`, `BackendRouter`: one backend packet.
- `Relay`, `RelayState`: both streams, composing framing, login, assembly, dispatch and routing.
- `ProxyRuns`: a client, the session and a server that takes the forwarded commands in order and
  answers each with any well-formed response; the invariant of every run.
- `RunTheorems`, `LastCloseRun`: what follows from it, and a run that shows where one property ends.
- `Bindings`: the cached parameter types on both sides, and that the SQL the server runs is the SQL approved.
- `LiveRegistry`: exactly which event makes the registry name a statement the server has dropped.
- `WireRuns`: the same runs over bytes, with both streams in reads of any size.
- `LoginRuns`, `HastyClient`: whole connections over bytes, from the server's greeting on, and what the client
  gets through to the server before its login is accepted.
- `Capabilities`: what two capabilities that the proxy passes on do to what it reads.
- `Ledgers`, `AnswerOrder`, `EarlyPingRun`, `PgAnswerOrder`: in which order a client gets its answers.
- `DispatchedRuns`: runs against any backend at all, in every mode, and the errors that cannot occur there.
- `PgMessages`, `PgStartup`: reading and writing PostgreSQL messages. `PgConnection`, `PgFrontend`,
  `PgSession`: the PostgreSQL session. `PgReparse`: a session that shows where one property ends.
- `PgBackend`, `PgRejection`: a PostgreSQL backend that may reject and skip what it is sent, when what it
  runs is what was approved, and a session in which it is not.
- `AuditLog`: rotation of the audit log.

## What the run theorems assume

The MySQL runs are about the strict and balanced modes with CLIENT_PROTOCOL_41 negotiated, because the
permissive mode forwards commands whose answers nobody tracks. The capabilities in the client's handshake
response are those the server goes by, and they ask for the plain protocol (`ProxyRuns.IsPlainProtocol`): no
compression, no query attributes, no optional result-set metadata, no progress reports. The proxy does not see
to that. The server answers in the order of the
commands; a query or an execution gets a chain of OK, ERR and result-set replies (legacy or deprecated
EOF, column definitions sent or cached), with no cursor, no LOCAL INFILE request, no packet of 0xFFFFFF
bytes, and no row shaped like the packet that ends the rows. (`Responses.TextRowIsRow` and
`Responses.BinaryRowIsRow` show that rows of the usual encodings meet the last condition.) The id of a
newly prepared statement is not one the server still holds, and is not 0xFFFFFFFF. The server decodes an
execution as the protocol says, with the parameter count of its own answer to the prepare and the types last
sent for that statement, and keeps the types an execution sends. One dispatch and
one backend packet are each one step; the only place where a dispatch stops half-way, the pipelined
execution that waits for its prepare, is a step of its own.

## What turned out otherwise

- **Client packets before the login is accepted.** Until the proxy has routed the server's OK it passes on
  every client packet unread (`relay.py:151-159`), so a command sent right behind the handshake response is
  the server's next command although no policy has seen it, and the session has nothing pending for its
  answer: `HastyClient.CommandBehindTheResponse` and `HastyClient.UnapprovedQueryIsNext`, for any command and any
  policy. `LoginRuns.NothingIsLeftOver` says exactly when nothing of the kind is left when the OK is routed,
  `LoginRuns.PatientIsWellBegun` that a client which sends only what the server has asked for leaves nothing, and
  `LoginRuns.BytesRunApprovedSql` and `BytesRunApprovedQuery` hold for every connection that begins so.
- **Capabilities.** The proxy passes the handshake response on as it is, whatever capabilities it asks for
  (`relay.py:129-149`). Under CLIENT_QUERY_ATTRIBUTES policy is shown another text than the server runs
  (`Capabilities.AttributesAreShownAsText`); under CLIENT_COMPRESS a byte of a length is taken for the command
  (`Capabilities.CompressedLengthIsTheCommand`, `Capabilities.CompressedPassesForQuit`).
- **The order of answers.** A refusal is written at once, also while the answer to an earlier message is on
  its way (`dispatcher.py:92-110`, `proxy.py:535-552`). `AnswerOrder.AnswersComeInOrder` and
  `PgAnswerOrder.AnswersComeInOrder` say exactly when a client gets its answers whole and in order;
  `EarlyPingRun.RefusalOvertakesTheAnswer` is a MySQL run in which it does not, and by
  `PgAnswerOrder.RefusedExecuteIsAnsweredFirst` no PostgreSQL client does that sends Parse, Bind and a refused
  Execute in one go. A client that waits for each answer gets them in order
  (`AnswerOrder.StepwiseIsUninterrupted`, `PgAnswerOrder.StepwiseIsUninterrupted`).
- **COM_STMT_CLOSE of 0xFFFFFFFF.** The dispatcher resolves 0xFFFFFFFF to the last prepared statement for
  an execution, but not for a close (`dispatcher.py:211-240`). Against a server that does resolve it there,
  the registry then names a statement the server no longer has. `LastCloseRun.RegistryCanOutliveItsStatement`
  is such a run; `LiveRegistry.EventKeepsRegistryLive` says exactly which event does it, and
  `LiveRegistry.RunKeepsRegistryLive` and `RunTheorems.RegistryIsTheServers` hold for every run without one.
  That the inspected template is the one that runs (`Bindings.ServerRunsApprovedSql`) holds in either case.
- **A PostgreSQL backend's refusals.** A backend rejects a Parse of a name it has and a Bind to a portal it
  has, and after any error it skips to Sync. `register_statement` and `register_portal` (`proxy.py:133-177`)
  take the message over all the same and never hear of it. `PgRejection.RejectionGoesUnheard` is a session in
  which the backend then runs a query that was not the one approved; `PgBackend.ForwardAgrees` says exactly
  which forwarded message does it; `PgBackend.BackendRunsWhatWasApproved` holds for every session without
  one, and `PgBackend.AcceptedAreHarmless` shows that there is none while the backend takes every Parse and
  Bind it gets and its SQL forgets no statement and defines no name.
- **Parsing a bound name again.** `register_statement` replaces a named statement without touching the
  portals bound to it (`proxy.py:133-158`), so an Execute may be judged by a query that was not in force
  when its portal was bound. `PgConnection.RegistrationKeepsRefinement` says exactly which Parse keeps the
  portals' meaning; `PgReparse.ReparseChangesTheQuery` is a session where one does not;
  `PgFrontend.ExecuteIsJudgedByItsBind` holds for every session of safe Parses, and
  `PgFrontend.DisciplineIsSafe` shows that a client which binds registered statements and never parses a
  registered name again has only those.
- **The PostgreSQL startup framer depends on how the stream is cut.** It refuses bytes behind the startup
  message in the same read (`pg_protocol.py:63-66`). `PgStartup.TheCutDecides` shows one stream taken and
  refused; `PgStartup.StartupNeedsABoundary` says exactly when an announced message is taken. The framers
  for everything after it do not depend on the cut (`Framing.ChunkingIndependence`).

## Model

| member | source | states |
|---|---|---|
| Framing.FramesAreExact | sql_safety_proxy/adapters/mysql/protocol.py:183-214 | the frames cut from a buffer, joined with what is left, are the buffer: no byte lost or invented |
| Framing.FramesAreWhole | sql_safety_proxy/pg_protocol.py:80-115 | each frame is whole, and the leftover holds no frame and is shorter than the limit |
| Framing.FramesInvertConcatenation | sql_safety_proxy/adapters/mysql/protocol.py:183-214 | cutting any concatenation of whole frames and an unfinished one gives back exactly those, for both protocols |
| Framing.FramesContinue | sql_safety_proxy/adapters/mysql/protocol.py:183-214 | cutting two reads one after the other is cutting them joined |
| Framing.ChunkingIndependence | sql_safety_proxy/pg_protocol.py:80-115 | however a stream is cut into reads, it is refused or accepted alike and gives the same frames and leftover |
| Framing.BuiltPacketReadsBack | sql_safety_proxy/adapters/mysql/protocol.py:286-296 | a built packet is one frame that reads back as its sequence id and payload |
| Framing.MySqlPacketFramer.Push | sql_safety_proxy/adapters/mysql/protocol.py:183-214 | the loop returns exactly the frames of buffer and chunk as packets, keeps the leftover, and raises exactly when the cut fails |
| Framing.MessageFramer.Push | sql_safety_proxy/pg_protocol.py:80-115 | the same for PostgreSQL messages, with the signed length, the limit and the ASCII type |
| Assembler.PushKeepsPartial | sql_safety_proxy/adapters/mysql/protocol.py:236-283 | between packets only full-size parts are stored, with matching counts, sequence ids and size within the limit |
| Assembler.FeedSplit | sql_safety_proxy/adapters/mysql/protocol.py:236-283 | feeding the packets a payload is cut into gives that payload, its raw bytes, count and first and last sequence id |
| Assembler.SplitIsSilent | sql_safety_proxy/adapters/mysql/protocol.py:236-283 | nothing is delivered before the last of those packets |
| Assembler.AssemblyInvertsSplitting | sql_safety_proxy/adapters/mysql/protocol.py:236-283 | any conversation of split messages is assembled into exactly those messages, leaving the assembler empty |
| Assembler.MySqlLogicalMessageAssembler.PushPacket | sql_safety_proxy/adapters/mysql/protocol.py:236-283 | the object does what the function says, with its errors, and keeps its invariant |
| Scanner.SegmentsCoverTemplate | sql_safety_proxy/adapters/mysql/protocol.py:700-806 | an accepted template is its segments joined by the question marks found outside quotes and comments |
| Lexing.ScanIsLexing | sql_safety_proxy/adapters/mysql/protocol.py:700-806 | a template is accepted exactly when it is a string of quoted texts, comments, question marks and other characters; it is so in one way only; and the segments are what stands between those question marks |
| Stripping.FilledAlikeStripped | sql_safety_proxy/adapters/mysql/session.py:158-168 | a template and the stripped one the proxy keeps are filled alike, but for the white space around them |
| Scanner.FillStep | sql_safety_proxy/adapters/mysql/protocol.py:712-784 | one turn of the scan: copy, replace by the next literal, or reject |
| Scanner.ReconstructStmtExecuteSql | sql_safety_proxy/adapters/mysql/protocol.py:700-806 | the loop returns the segments interleaved in order with the literals when their numbers fit, and raises otherwise |
| Scanner.LiteralIsCopied | sql_safety_proxy/adapters/mysql/protocol.py:836-887 | a literal in front of scannable text neither opens nor closes anything nor makes a placeholder, whatever stands next to it |
| Scanner.FilledIsStable | sql_safety_proxy/adapters/mysql/protocol.py:700-806 | from every scanner mode, what substitution produces scans without placeholder, reject or open quote |
| Scanner.RescanIsIdentity | sql_safety_proxy/adapters/mysql/protocol.py:700-806 | scanning the result of any accepted substitution again with no parameters succeeds and returns it unchanged |
| ExecuteParams.NatTextReadsBack | sql_safety_proxy/adapters/mysql/protocol.py:836-843 | the decimal text of a number denotes that number |
| ExecuteParams.HexTextReadsBack | sql_safety_proxy/adapters/mysql/protocol.py:871-887 | the hexadecimal text of a string denotes its bytes |
| ExecuteParams.BitmapBit | sql_safety_proxy/adapters/mysql/protocol.py:659-672 | bit i of the NULL bitmap tells whether parameter i is NULL |
| ExecuteParams.BitmapFits | sql_safety_proxy/adapters/mysql/protocol.py:597-606 | a bitmap written for its parameters sets none of the unused bits |
| ExecuteParams.AcceptedHasLayout | sql_safety_proxy/adapters/mysql/protocol.py:561-697 | every accepted payload is bitmap, flag, types if sent, and one exact encoding per value that is not NULL, to its last byte, with every unused bit zero |
| ExecuteParams.LayoutIsAccepted | sql_safety_proxy/adapters/mysql/protocol.py:561-697 | and every payload of that layout is accepted with those values |
| ExecuteParams.DecodeInvertsEncode | sql_safety_proxy/adapters/mysql/protocol.py:561-697 | decoding the binary encoding of any parameters gives them back, for any count, NULL pattern and supported types, types sent or cached |
| ExecuteParams.CachedTypesAreEquivalent | sql_safety_proxy/adapters/mysql/protocol.py:621-658 | reusing cached types decodes to the same parameters as sending those types again |
| ExecuteParams.DecodedAreLiterals | sql_safety_proxy/adapters/mysql/protocol.py:836-887 | every decoded parameter's text is a number, NULL or a hexadecimal literal |
| ExecuteParams.InspectedSqlIsStable | sql_safety_proxy/adapters/mysql/dispatcher.py:283-291 | the SQL inspected for any accepted execution has no placeholder left and scans as itself |
| ExecuteParams.ParseStmtExecuteParameters | sql_safety_proxy/adapters/mysql/protocol.py:561-697 | the parser, loop by loop, is the decoder those lemmas are about |
| ExecuteParams.ReadParameters | sql_safety_proxy/adapters/mysql/protocol.py:659-689 | the loop over the values with its moving offset reads them to the last byte or raises |
| ExecuteParams.ReadTypes | sql_safety_proxy/adapters/mysql/protocol.py:628-645 | the loop over the type codes reads each with its unsigned flag or raises on other flags |
| Responses.OkIsRead | sql_safety_proxy/adapters/mysql/protocol.py:436-453 | under protocol 4.1 the status of any OK packet is read back, whatever its counters and text |
| Responses.OlderOkIsRead | sql_safety_proxy/adapters/mysql/protocol.py:436-461 | and so it is before protocol 4.1 when transactions are negotiated |
| Responses.EofIsRead | sql_safety_proxy/adapters/mysql/protocol.py:468-483 | the status of any EOF packet is read back |
| Responses.HeaderIsRead | sql_safety_proxy/adapters/mysql/protocol.py:491-521 | any result-set header reads back as its column count and whether definitions follow |
| Responses.PrepareOkIsRead | sql_safety_proxy/adapters/mysql/protocol.py:1044-1074 | any COM_STMT_PREPARE_OK reads back as its id and counts |
| Responses.TextRowIsRow | sql_safety_proxy/adapters/mysql/session.py:545-561 | a text row that fits in one packet is never taken for the end of the rows |
| Responses.BinaryRowIsRow | sql_safety_proxy/adapters/mysql/session.py:545-561 | nor is a binary row |
| Tracker.TrackKeeps | sql_safety_proxy/adapters/mysql/session.py:460-568 | columns remain exactly in the metadata stage and nothing pending means the initial stage, after any packet; so two of the tracker's errors cannot be raised |
| Tracker.PacketIsRecognised | sql_safety_proxy/adapters/mysql/session.py:460-568 | one packet of a well-formed response never fails and moves the tracker to what the rest needs |
| Tracker.ResponseIsRecognised | sql_safety_proxy/adapters/mysql/session.py:460-568 | any well-formed response is followed without error and the command is answered exactly by its last packet |
| Session.OperationsKeep | sql_safety_proxy/adapters/mysql/session.py:84-108 | after any operations, accepted or rejected, the registry is within its count and byte limits, its statements are well formed, and stage and countdowns agree |
| Session.RegistrationFits | sql_safety_proxy/adapters/mysql/session.py:84-108 | a registration is accepted exactly when the registry stays within both limits with it |
| Session.RejectedRegistrationChangesNothing | sql_safety_proxy/adapters/mysql/session.py:224-261 | a rejected registration leaves the session as it was; it is accepted exactly when the limits allow |
| DispatchedRuns.OnlyTheBackendIsToBlame | sql_safety_proxy/adapters/mysql/session.py:263-317 | against any backend, in every mode, over any commands and packets: no packet meets extra metadata, a missing kind, an unfinished count, an unknown stage or statement, or an operation that is not pending |
| DispatchedRuns.StoredCountAlwaysMatches | sql_safety_proxy/adapters/mysql/protocol.py:647-658 | nor does any execution find cached types of another number than its statement's parameters |
| SessionState.MySqlSessionState.BeginDatabaseChange | sql_safety_proxy/adapters/mysql/session.py:110-120 | only the stripped name becomes pending, or nothing changes and the error is the function's |
| SessionState.MySqlSessionState.CompleteDatabaseChange | sql_safety_proxy/adapters/mysql/session.py:122-156 | the database changes on OK only; nothing stays pending |
| SessionState.MySqlSessionState.BeginStatementPrepare | sql_safety_proxy/adapters/mysql/session.py:158-173 | the prepare starts with the stripped SQL and a fresh event, or nothing changes |
| SessionState.MySqlSessionState.CompleteStatementPrepare | sql_safety_proxy/adapters/mysql/session.py:175-207 | the statement is stored as the last one and the prepare is over, or nothing changes |
| SessionState.MySqlSessionState.FailStatementPrepare | sql_safety_proxy/adapters/mysql/session.py:209-222 | the unfinished statement and the last id are dropped and the waiting execution is woken |
| SessionState.MySqlSessionState.RequirePreparedCapacity | sql_safety_proxy/adapters/mysql/session.py:84-108 | the two limits, a replaced statement not counted |
| SessionState.MySqlSessionState.AcceptStatementPrepareOk | sql_safety_proxy/adapters/mysql/session.py:224-261 | the statement is stored and the expected metadata set, or nothing changes |
| SessionState.MySqlSessionState.ConsumeStatementPrepareMetadata | sql_safety_proxy/adapters/mysql/session.py:263-298 | one expected packet fewer, or nothing changes |
| SessionState.MySqlSessionState.FinishStatementPrepareResponse | sql_safety_proxy/adapters/mysql/session.py:300-317 | the statement becomes the last one and the waiting execution is woken |
| SessionState.MySqlSessionState.StatementAfterPrepare | sql_safety_proxy/adapters/mysql/session.py:319-332 | what a waiting execution finds |
| SessionState.MySqlSessionState.ClosePreparedStatement | sql_safety_proxy/adapters/mysql/session.py:355-365 | that statement is gone, also as the last one |
| SessionState.MySqlSessionState.RegisterStatementParameterTypes | sql_safety_proxy/adapters/mysql/session.py:367-378 | types of the right number are kept and long-data marks cleared |
| SessionState.MySqlSessionState.MarkStatementLongData | sql_safety_proxy/adapters/mysql/session.py:380-391 | an index in range is marked, otherwise nothing changes |
| SessionState.MySqlSessionState.ResetPreparedStatement | sql_safety_proxy/adapters/mysql/session.py:393-396 | types and marks are forgotten |
| SessionState.MySqlSessionState.BeginPing | sql_safety_proxy/adapters/mysql/session.py:398-400 | a ping is pending, or nothing changes |
| SessionState.MySqlSessionState.CompletePing | sql_safety_proxy/adapters/mysql/session.py:402-415 | the ping is over, whatever the packet |
| SessionState.MySqlSessionState.FailPing | sql_safety_proxy/adapters/mysql/session.py:417-418 | no ping is pending, and nothing else changes |
| SessionState.MySqlSessionState.FailStatementReset | sql_safety_proxy/adapters/mysql/session.py:446-447 | no reset is pending, and nothing else changes |
| SessionState.MySqlSessionState.BeginStatementReset | sql_safety_proxy/adapters/mysql/session.py:420-423 | a reset of a registered statement is pending, or nothing changes |
| SessionState.MySqlSessionState.CompleteStatementReset | sql_safety_proxy/adapters/mysql/session.py:425-444 | the statement is reset on OK only |
| SessionState.MySqlSessionState.AcceptCommandResponsePacket | sql_safety_proxy/adapters/mysql/session.py:460-568 | the object follows a response packet by packet as the tracker does |
| Dispatch.DispatchIsAllOrNothing | sql_safety_proxy/adapters/mysql/dispatcher.py:54-409 | in every mode a command goes to the backend verbatim, once, with nothing said to the client, or is answered by one ERR packet with the next sequence id and leaves the session unchanged, or waits |
| Dispatch.ResumeIsAllOrNothing | sql_safety_proxy/adapters/mysql/dispatcher.py:242-333 | the same for an execution whose wait ended, from the state it then finds |
| Dispatcher.DispatchAuthenticatedCommand | sql_safety_proxy/adapters/mysql/dispatcher.py:54-409 | session and streams change exactly as the function says, command by command |
| Dispatcher.HandleExecution | sql_safety_proxy/adapters/mysql/dispatcher.py:283-333 | decoding, rewriting, inspection and types of one execution, with the command given up when refused |
| Dispatcher.HandleCommandQuery | sql_safety_proxy/adapters/mysql/handler.py:44-92 | a query is forwarded exactly when its text decodes and policy approves it |
| Dispatcher.HandleProtocolGap | sql_safety_proxy/adapters/mysql/handler.py:184-273 | only the permissive mode forwards what cannot be inspected |
| Dispatcher.ResumePipelinedExecute | sql_safety_proxy/adapters/mysql/session.py:319-332 | what follows the wait of a pipelined execution |
| Routing.RouteKeepsSession | sql_safety_proxy/adapters/mysql/backend.py:96-167 | whatever the packet, and whether routing raises or not, limits, countdowns and registry stay well formed |
| Routing.RouterOrderIsIrrelevant | sql_safety_proxy/adapters/mysql/backend.py:99-154 | when one operation is pending, any order of the router's tests finds it |
| BackendRouter.MySqlBackendState.RouteBackendPacket | sql_safety_proxy/adapters/mysql/backend.py:68-167 | login, session and client stream change exactly as the functions say, packet by packet |
| BackendRouter.MySqlBackendState.RouteToPrepare | sql_safety_proxy/adapters/mysql/backend.py:114-152 | a packet for a pending prepare: forwarded before the prepare is finished or failed, or raised and not forwarded |
| BackendRouter.MySqlAuthState.AcceptClientResponse | sql_safety_proxy/adapters/mysql/auth.py:52-78 | capabilities and database from the client's response, TLS rejected, each only once |
| BackendRouter.MySqlAuthState.AcceptBackendPacket | sql_safety_proxy/adapters/mysql/auth.py:80-102 | the login ends by OK or ERR only |
| Login.CommandsFollowTheLogin | sql_safety_proxy/adapters/mysql/backend.py:29-48 | whatever arrives in whatever order, commands are answered exactly when the backend has accepted the login, and the connection is closed exactly when it was refused |
| Login.NoLoginWithoutOk | sql_safety_proxy/adapters/mysql/auth.py:80-102 | no login succeeds without an OK packet from the backend |
| Relay.BackendIsTransparent | sql_safety_proxy/adapters/mysql/relay.py:74-100 | while nothing raises the client receives every backend packet, unchanged and in order |
| Relay.BackendReadsAgree | sql_safety_proxy/adapters/mysql/relay.py:74-100 | however the backend's stream is cut into reads, session and client end the same, and the client has received exactly the stream but for an unfinished packet |
| Relay.ClientReadsJoin | sql_safety_proxy/adapters/mysql/relay.py:103-182 | two reads from the client do what one read of both does, unless the first already stops |
| Relay.LoginIsTransparent | sql_safety_proxy/adapters/mysql/relay.py:151-159 | until the backend accepts the login every client packet goes through as it came |
| Relay.SplitCommandIsDispatched | sql_safety_proxy/adapters/mysql/relay.py:169-180 | a command split over packets by its length is dispatched once, whole |
| RelayState.MySqlRelayState.ProcessBackendChunk | sql_safety_proxy/adapters/mysql/relay.py:74-100 | the loop over a backend read does what the function says |
| RelayState.MySqlRelayState.ProcessClientChunk | sql_safety_proxy/adapters/mysql/relay.py:103-182 | the loop over a client read does what the function says, up to a packet that waits or raises |
| RelayState.MySqlRelayState.ResumeClient | sql_safety_proxy/adapters/mysql/relay.py:118-180 | the rest of that loop once the wait is over: the execution, then the packets behind it |
| WireRuns.LinkRunIsRun | sql_safety_proxy/adapters/mysql/relay.py:161-182 | once the login is accepted: however both streams are cut into reads and in whatever order they are taken, what happens is a run of whole commands and packets |
| WireRuns.PushReadsBack | sql_safety_proxy/adapters/mysql/protocol.py:236-283 | the bytes of a completed command, cut and assembled again, give that command and nothing else |
| LoginRuns.LoginKeepsUnused | sql_safety_proxy/adapters/mysql/relay.py:124-149 | whatever login brings, the session that takes the first command is new |
| LoginRuns.ConverseKeeps | sql_safety_proxy/adapters/mysql/relay.py:74-182 | from the greeting on, over any reads of both streams and any login a server asks for: until the OK is routed the session is new and every packet of the client has been read by the server, passed on, or is still to be passed on; from then on a run of commands is what happens |
| LoginRuns.NothingIsLeftOver | sql_safety_proxy/adapters/mysql/relay.py:151-159 | when the OK is routed, nothing uninspected is left for the server and nothing waits at the proxy exactly when the client has sent as many packets as the server had asked for |
| LoginRuns.PatientIsWellBegun | sql_safety_proxy/adapters/mysql/relay.py:151-159 | so it is, whatever server and reads, for a client that sends no packet before it is asked for |
| LoginRuns.BytesRunApprovedSql | sql_safety_proxy/adapters/mysql/relay.py:74-182 | in every connection so begun, over any reads of both streams: the bytes forwarded for an execution read back as that execution, and the SQL the server runs for it was approved |
| LoginRuns.BytesRunApprovedQuery | sql_safety_proxy/adapters/mysql/relay.py:74-182 | and the bytes forwarded for a query read back as that query, which was approved |
| HastyClient.CommandBehindTheResponse | sql_safety_proxy/adapters/mysql/relay.py:151-159 | any packet sent right behind any handshake response is the server's next command, whatever the policy, and nothing is pending for its answer |
| HastyClient.UnapprovedQueryIsNext | sql_safety_proxy/adapters/mysql/relay.py:151-159 | in a connection of the plain protocol that packet may be any query that policy does not approve |
| Capabilities.AttributesAreShownAsText | sql_safety_proxy/adapters/mysql/handler.py:44-92 | a query under CLIENT_QUERY_ATTRIBUTES is forwarded exactly when policy approves its text with two more characters in front |
| Capabilities.CompressedLengthIsTheCommand | sql_safety_proxy/adapters/mysql/protocol.py:183-214 | a compressed packet is cut three bytes short, and the low byte of its uncompressed length is taken for the command |
| Capabilities.CompressedPassesForQuit | sql_safety_proxy/adapters/mysql/dispatcher.py:86-110 | when that byte is 1 the packet is forwarded, whatever the policy |
| AnswerOrder.AnswersComeInOrder | sql_safety_proxy/adapters/mysql/dispatcher.py:92-110 | over every run, once every answer has come: the client got its answers whole and in the order of its commands exactly when no command was refused while an answer was on its way |
| AnswerOrder.StepwiseIsUninterrupted | sql_safety_proxy/adapters/mysql/dispatcher.py:86-110 | that never happens to a client that sends a command behind another only if it is a pipelined execution that can wait |
| AnswerOrder.EarlyCommandInterrupts | sql_safety_proxy/adapters/mysql/dispatcher.py:92-110 | and happens with every other command it sends while one is pending, but a quit, whatever the policy |
| EarlyPingRun.RefusalOvertakesTheAnswer | sql_safety_proxy/adapters/mysql/dispatcher.py:92-110 | a run in which the second command is answered before the first |
| ProxyRuns.StartIsInvariant | sql_safety_proxy/adapters/mysql/session.py:37-64 | a fresh session and server satisfy the invariant of runs |
| ProxyRuns.ClientKeeps | sql_safety_proxy/adapters/mysql/dispatcher.py:54-409 | any client command keeps it, and never raises |
| ProxyRuns.WaitEndKeeps | sql_safety_proxy/adapters/mysql/session.py:319-332 | so does the end of a pipelined execution's wait |
| ProxyRuns.SendKeeps | sql_safety_proxy/adapters/mysql/backend.py:96-167 | any packet a well-formed server sends keeps it, or announces a statement that exceeds a limit and ends the run |
| ProxyRuns.ExecuteForwards | sql_safety_proxy/adapters/mysql/dispatcher.py:283-333 | a forwarded execution was decoded, filled in and approved, and its types are kept |
| ProxyRuns.RunKeeps | sql_safety_proxy/adapters/mysql/backend.py:68-167 | over every run the invariant holds until the connection ends, and only a full registry ends it |
| RunTheorems.OnlyAFullRegistryEndsARun | sql_safety_proxy/adapters/mysql/session.py:84-108 | on every run from a fresh session nothing is raised but the two capacity errors |
| RunTheorems.OneCommandAtATime | sql_safety_proxy/adapters/mysql/session.py:66-82 | at most one command awaits its answer, exactly the matching field is pending, and the router takes the next packet for it in whatever order it tests |
| RunTheorems.LastPacketClears | sql_safety_proxy/adapters/mysql/session.py:460-568 | a command stays pending until the last packet of its answer, and not beyond |
| RunTheorems.PrepareTakesExactly | sql_safety_proxy/adapters/mysql/session.py:253-260 | a successful prepare is answered by 1 + p + c packets and, unless EOF is deprecated, one more for each group that has any |
| RunTheorems.NothingWaitsForever | sql_safety_proxy/adapters/mysql/session.py:319-332 | while a command is pending or a pipelined execution waits, some event other than the client's can happen |
| RunTheorems.ServerRunsWhatWasInspected | sql_safety_proxy/adapters/mysql/dispatcher.py:242-291 | when the server takes an execution, the template it runs is the one that was inspected |
| RunTheorems.ServerRunsApprovedQuery | sql_safety_proxy/adapters/mysql/handler.py:44-92 | a query the server takes was approved, with exactly its text |
| Bindings.ServerDecodesAlike | sql_safety_proxy/adapters/mysql/protocol.py:621-658 | the server decodes an execution as the proxy did whenever its own types are the proxy's where the proxy has any |
| Bindings.RunKeepsAlignment | sql_safety_proxy/adapters/mysql/session.py:367-396 | over every run the parameter counts and the types the proxy keeps are the server's, or those the execution on its way will leave there |
| Bindings.ServerRunsApprovedSql | sql_safety_proxy/adapters/mysql/dispatcher.py:242-333 | for any execution the server takes whose statement it has, the server's own template, as the client sent it, filled with the values it decodes under its own types is the text policy was shown and approved, but for white space around it, and scans as itself |
| RunTheorems.RegistryIsTheServers | sql_safety_proxy/adapters/mysql/session.py:209-261 | every registered statement is live at the server with the SQL the client sent, and the last one is registered and is the server's last |
| LiveRegistry.EventKeepsRegistryLive | sql_safety_proxy/adapters/mysql/dispatcher.py:211-240 | exactly which event makes the registry name a statement the server no longer has |
| LiveRegistry.RunKeepsRegistryLive | sql_safety_proxy/adapters/mysql/session.py:355-365 | over every run without such an event each listed statement is live |
| LastCloseRun.RegistryCanOutliveItsStatement | sql_safety_proxy/adapters/mysql/dispatcher.py:211-240 | a run after which the registry lists a statement and the server has none |
| PgMessages.ParseIsExact | sql_safety_proxy/extended_protocol.py:45-55 | a Parse payload is accepted with a message exactly when it is that message's encoding with some list of type ids |
| PgMessages.BindIsExact | sql_safety_proxy/extended_protocol.py:67-129 | a Bind payload is accepted exactly when it is an encoding of the message, and every value has one resolved format code |
| PgMessages.ExecuteIsExact | sql_safety_proxy/extended_protocol.py:138-145 | an Execute payload is accepted exactly when it is the message's encoding |
| PgMessages.CloseIsExact | sql_safety_proxy/extended_protocol.py:154-166 | a Close payload is accepted exactly when it is the message's encoding |
| PgMessages.CStringIsExact | sql_safety_proxy/extended_protocol.py:16-26 | a string is read exactly when its UTF-8 bytes and one zero byte stand in front |
| PgMessages.ResolveFormatCodes | sql_safety_proxy/extended_protocol.py:120-129 | as many codes as parameters; refused exactly when more than one is given and the numbers differ |
| PgMessages.ReadBindValues | sql_safety_proxy/extended_protocol.py:86-96 | the loop over the values with its moving offset reads what the function reads |
| PgMessages.ParseBindMessage | sql_safety_proxy/extended_protocol.py:67-117 | the parser is the function the exactness lemma is about |
| PgStartup.StartupNeedsABoundary | sql_safety_proxy/pg_protocol.py:46-70 | an announced startup message that has arrived is taken exactly when some read ended at its last byte, and refused otherwise |
| PgStartup.TheCutDecides | sql_safety_proxy/pg_protocol.py:61-66 | one stream that is taken in two reads and refused in one |
| PgStartup.StartupFramer.Push | sql_safety_proxy/pg_protocol.py:46-70 | the object does what the function says |
| PgStartup.StartupParamsAreExact | sql_safety_proxy/pg_protocol.py:141-174 | accepted exactly when the length is right and named pairs and a terminator follow; a repeated key keeps its last value |
| PgStartup.ParseStartupParams | sql_safety_proxy/pg_protocol.py:141-174 | the loop fills the dictionary those pairs give |
| PgStartup.ReadyForQueryReadsBack | sql_safety_proxy/pg_protocol.py:177-196 | a built ReadyForQuery is one frame that reads back as its status |
| PgStartup.BuiltMessageIsFrame | sql_safety_proxy/pg_protocol.py:183-190 | a built answer is one frame of its type around its body |
| PgConnection.OperationsKeepBounds | sql_safety_proxy/proxy.py:112-193 | after any operations, accepted or rejected, both registries are within the item limit and their bytes together within the byte limit |
| PgConnection.StatementAcceptance | sql_safety_proxy/proxy.py:133-150 | a statement is accepted exactly when the limits hold with it |
| PgConnection.PortalAcceptance | sql_safety_proxy/proxy.py:160-177 | a portal is accepted exactly when the limits hold with it |
| PgConnection.RegistrationKeepsRefinement | sql_safety_proxy/proxy.py:133-158 | exactly which Parse keeps every portal's query the one it was bound with |
| PgConnection.DisciplineKeepsLinks | sql_safety_proxy/proxy.py:179-185 | a client that binds registered names and does not parse them again keeps every portal linked, and parses safely |
| PgFrontend.ReadyForQueryIsConserved | sql_safety_proxy/proxy.py:750-818 | over any session, forwarded Syncs, queries and function calls plus fabricated ReadyForQuery equal received Syncs plus queries and function calls received outside recovery |
| PgFrontend.ErrorsArePaired | sql_safety_proxy/proxy.py:535-552 | each fabricated error comes with its own ReadyForQuery or starts one skip to Sync |
| PgFrontend.SkippedUntilSync | sql_safety_proxy/proxy.py:759-768 | during recovery only Terminate reaches the backend, the client hears nothing, and no client message changes the registries |
| PgFrontend.RecoveryEndsWithSync | sql_safety_proxy/proxy.py:759-768 | a skip lasts exactly to the next Sync: up to it only Terminate is sent and nothing said, it is sent, and then messages are handled again |
| PgFrontend.RefusalChangesNothing | sql_safety_proxy/proxy.py:750-818 | a message is forwarded with nothing said, refused with one error and unchanged registries, or skipped in recovery |
| PgFrontend.SessionKeepsBounds | sql_safety_proxy/proxy.py:750-818 | the limits hold over every session from its start |
| PgFrontend.ExecuteIsJudgedByItsBind | sql_safety_proxy/proxy.py:615-747 | over any session of safe Parses an Execute is forwarded exactly when policy approves the query that its portal's last accepted Bind found in the proxy's registry, with the values of that Bind |
| PgFrontend.DisciplineIsSafe | sql_safety_proxy/proxy.py:133-193 | such a client's session has only safe Parses |
| PgReparse.ReparseChangesTheQuery | sql_safety_proxy/proxy.py:133-158 | a session in which a portal's query is no longer the one it was bound with |
| PgBackend.ForwardAgrees | sql_safety_proxy/proxy.py:770-804 | exactly which forwarded message leaves proxy and backend knowing a statement or a portal differently |
| PgBackend.BackendRunsWhatWasApproved | sql_safety_proxy/proxy.py:615-747 | over every session without one, what the backend runs for a forwarded Execute, query and values, was approved, whatever else it rejects, skips, forgets or defines |
| PgBackend.AcceptedAreHarmless | sql_safety_proxy/proxy.py:775-787 | against a backend that takes every Parse and Bind and whose SQL forgets no statement and defines no name nothing forwarded is harmful, whatever the client sends |
| PgRejection.RejectionGoesUnheard | sql_safety_proxy/proxy.py:775-780 | a session in which the backend runs a query other than the one approved |
| PgAnswerOrder.AnswersComeInOrder | sql_safety_proxy/proxy.py:535-552 | over any session the client's stream is in order exactly when no backend packet comes behind a refusal of a later message; so it is when nothing is refused while an answer is on its way, and only then if every answer comes |
| PgAnswerOrder.StepwiseIsUninterrupted | sql_safety_proxy/proxy.py:750-818 | nothing is, for a client that sends what the proxy reads only when no answer is on its way |
| PgAnswerOrder.RefusedExecuteIsAnsweredFirst | sql_safety_proxy/proxy.py:731-747 | whenever Parse, Bind and a refused Execute come in one go the client hears of the Execute first |
| PgSession.ConnectionState.RegisterStatement | sql_safety_proxy/proxy.py:133-158 | the object registers within the limits, dropping the unnamed statement's portals, or changes nothing |
| PgSession.ConnectionState.RegisterPortal | sql_safety_proxy/proxy.py:160-177 | the object registers the portal within the limits or changes nothing |
| PgSession.ConnectionState.CloseStatement | sql_safety_proxy/proxy.py:179-185 | the statement and its portals are gone |
| PgSession.ConnectionState.UpdateTransactionStatus | sql_safety_proxy/proxy.py:190-193 | idle clears the portals |
| PgSession.HandleFrontendMessage | sql_safety_proxy/proxy.py:750-818 | session and streams change exactly as the function says, message by message |
| PgSession.PipeBackendChunk | sql_safety_proxy/proxy.py:196-236 | a backend read reaches the client as it came once its ReadyForQuery statuses are taken over; with a malformed one nothing of it does, and those before it are taken over |
| AuditLog.LogIsBoundedQueue | sql_safety_proxy/audit.py:67-110 | after any appends to an empty log there are at most max_backups + 1 files without gaps; from oldest to live they are the last records of the history, whole and in order; a file over the limit holds one record; and a file was left only when the next record did not fit |
| AuditLog.LoggingIsPushing | sql_safety_proxy/audit.py:94-110 | what one append does to the files is what a push does to the queue |
| AuditLog.JsonlAuditLogger.Rotate | sql_safety_proxy/audit.py:100-110 | the descending loop of renames moves every file up by one, whatever gaps there are |
| AuditLog.JsonlAuditLogger.Append | sql_safety_proxy/audit.py:67-92 | rotation when needed, then the record at the end of the live file |

## Left out

- Classification, row estimation, policy thresholds and user confirmation are one oracle: any function of the SQL (and, for an Execute, of the bound values), possibly another one for each command.
- The texts of error messages, console output, audit event fields and their sanitization; an audit record is any byte string, its size the only thing used.
- The text of a decoded float is a parameter of the model; the stability theorems ask that it look like a decimal number.
- Sockets, drains, timeouts, cancellation and task scheduling: a write is an append to a stream. The dispatcher's branches for a write that fails are not modelled; the operations they call are.
- Parsing the client's MySQL handshake response: its result is a parameter of the login.
- Permissive mode in the run theorems, cursors, LOCAL INFILE, and backend rows of 0xFFFFFF bytes or more: see the assumptions above.
- What a framer returns with a bad header beyond that the read is refused: frames cut in the same read are dropped with it.
- Relay.ClientReadsJoin: compares reads whose policy answers alike, and stops at a packet that waits; in modules WireRuns and LoginRuns each packet has its own policy and what is behind a wait is taken up again.
- RelayState.MySqlRelayState.ProcessClientChunk: cannot wait inside its loop as the source does, so it hands back what is behind an execution that waits, and ResumeClient goes on with it.
- Of the packets that a server gets before its OK and did not ask for, only that they are its next commands: what it answers to them, and what the session makes of that, is not followed.
- Answers in the ledgers are numbers of messages: what the backend of a PostgreSQL session writes for a message is not modelled, only that it is for the oldest message still owed one.
- Command-line and environment parsing, the adapter registry, the runtime loops that open connections, scripts and the preview builder.
