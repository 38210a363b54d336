# Verified models of the vendored protocol code

The application in this repository talks to its services through a vendored TLS library
(BoringSSL-GRPC) and a vendored protocol buffer codec (nanopb). The modules here model the parts of
the two with the most state and branching, and prove what they promise. `dafny verify dfyconfig.toml`
checks the whole project.

## The parts

**The TLS 1.2 handshake** (`Handshake*`). `HandshakeObject` has the fields of the handshake object and
the steps of both machines as they assign them; each is proved against a step function
(`HandshakeServer`, `HandshakeClient`), and what a step means is proved of that function: against an agreed
peer in `HandshakeCompose`, against any peer in the two traces. `HandshakeLoop` has the state loops and the driver.
`HandshakeScript` writes down the message flow of section 7.3 of RFC 5246, with the tickets of section
3.3 of RFC 5077, independently of either machine. `HandshakeCompose` and `HandshakeRun` join the two
machines by reliable channels, for every combination of resumption, client certificate, stapled OCSP
response, ServerKeyExchange, ticket, NPN and Channel ID. `HandshakeTheorems` has safety, progress and
agreement over every schedule; `HandshakeRetry` says that "try again" answers are invisible;
`HandshakePath`, `HandshakeTrace` and `HandshakeClientTrace` say what a finished server, and a finished client, has
consumed from an arbitrary peer, step by step; `HandshakeFinishes`, `HandshakeMade` and `HandshakeAgreement` join the
two: across a network that does what it likes, sides that finish agree, unless a Finished was forged.
`HandshakeAnswers` says what the application's answers decide: a failing callback ends the run, and no side finishes
past a certificate that did not verify.
`HandshakeDescent` says why the loops end.

**Choices inside the handshake.** `CipherChoice` is the server's pass over equal-preference groups
against a declarative rule; `RsaPremaster` is the branch-free selection of the premaster secret against
the branching rule of section 7.4.7.1 of RFC 5246.

**The DTLS flight layer** (`Dtls*`). Reassembly: the bitmask of one message (`DtlsFragment`), the ring of
seven (`DtlsReceiver`), the same over values (`DtlsReassembly`), and an honest peer behind a bad network
(`DtlsHonestPeer`). Sending: `DtlsFlight` and `DtlsSender`; `DtlsLink` joins the two sides. Records: the replay window (`DtlsReplay`), the
two write epochs (`DtlsSeal`, `DtlsRecordWriter`), and both with the cipher's nonces (`DtlsNonces`).

**Record ciphers** (`AeadContext`). Configuration, nonce and additional data, sealing and opening.

**Serialised sessions** (`Der`, `SessionAsn1`, `SessionReader`, `SessionWriter`). The format as a printer and a
parser over values, the theorem that the second undoes the first exactly when it should, and the code's
own cursor and builder, proved equal to them. `SessionForm` has the format in the octets of the ASN.1 module,
`SessionParsed` what comes out of the parser for any bytes at all.

**Reference counts** (`RefCount`) and **resumable writes** (`TlsWrite`).

**The protocol buffer codec** (`Pb*`). A message is a list of cells addressed by a descriptor tree. The
decoder's and encoder's streams are classes proved against functions on bytes; the round trip, the
bounds and the required fields are proved of those functions. `PbUnknown` is about fields that the reader does
not know, `PbFormat` about the wire format and what is refused. Field numbers and sizes have 32 bits, as this
repository builds the library (PB_FIELD_32BIT).

`Basics`, `BigEndian` and `Bits` hold what the others share.

## What the code does where one might expect something else

- A DTLS fragment exactly seven messages ahead passes the "too far" test and then fails the connection
  (`DtlsHonestPeer.FatalExactly`).
- The 32-bit varint decoder, which reads tags and lengths, looks at bits 32 to 34 only if the fifth byte is the last:
  a number with those bits in a form longer than it need be is cut (`PbFormat.OverlongIsCut`); in the form that
  encoders write it is refused (`PbFormat.TooBigFails`).
- A serialised session that carries both a peer chain and a peer hash parses with both, and loses the chain when it is
  printed again (`SessionParsed.Reprints`).
- When a DTLS sequence counter comes round, that one seal fails, but the next succeeds and starts again at
  number zero (`DtlsSeal.AfterOverflowZeroComesAgain`); numbers repeat exactly then.
- Under TLS 1.3 the record length is checked against the largest overhead although no length is
  authenticated, so a primitive with variable overhead could seal what cannot be opened
  (`AeadContext.Tls13Opens`, `AeadContext.ShortRecord`). None of the TLS 1.3 ciphers has variable overhead.
- A negative verify result is printed as a 64-bit number that the parser refuses; a chain whose
  certificates are not single DER elements comes back differently or not at all
  (`SessionAsn1.ParseOfPrint`).
- If the server's cipher list ended inside an equal-preference group, a match in that group would be forgotten
  (`CipherChoice.NoneIff`, `CipherChoice.UnendedGroup`). The rule parser closes its groups (ssl_cipher.cc:1043-1048
  and :1196), so no list it makes does.
- If sealing fails after the pending handshake flight went into the write buffer, application writes fail from
  then on (`TlsWrite.Writer.DoWrite`) until a later handshake flight is flushed, which drains the buffer first
  (`TlsWrite.Writer.FlushFlight`); and a call with too short a length forgets how far the write
  had come (`TlsWrite.Writer.WriteAppData`).
- A DTLS packet whose second or later record cannot be sealed is lost with what it held: the next flush goes on
  behind it, and only a retransmission sends those bytes (`DtlsSender.Sender.SendPacket`).
- A singular submessage that contains a required field, or fixed-length bytes, is encoded even when all it
  holds is zero (`PbEncoding.DefaultExactly`, `PbEncoding.ZeroesAreEncoded`); other default values are not.

## Model

| member | source | states |
|---|---|---|
| `HandshakeTheorems.NothingUnexpected` | src/Pods/BoringSSL-GRPC/ssl/handshake_server.cc:1539-1621 | With agreed parameters and honest callbacks, under every schedule and pattern of retries, neither side ever fails on the other's messages, and each message a side holds, Finished included, was made on exactly the transcript that side now has |
| `HandshakeTheorems.RunGood` | src/Pods/BoringSSL-GRPC/ssl/handshake_client.cc:1707-1789 | Every run of the two composed machines keeps the invariant: what each has left of the conversation differs by exactly the records in flight |
| `HandshakeTheorems.NextGood` | src/Pods/BoringSSL-GRPC/ssl/handshake_server.cc:1539-1621 | One turn of either side, whatever the callbacks answer short of failure, keeps that invariant |
| `HandshakeTheorems.TurnsBounded` | src/Pods/BoringSSL-GRPC/ssl/handshake.cc:491-628 | No schedule keeps the machines busy for ever: effective turns are bounded by the rank of the start plus the number of retries |
| `HandshakeTheorems.NoDeadlock` | src/Pods/BoringSSL-GRPC/ssl/handshake.cc:491-628 | From every good state, reached by any schedule and retries, both are done or one side can take a turn that gets somewhere |
| `HandshakeTheorems.CanFinish` | src/Pods/BoringSSL-GRPC/ssl/handshake.cc:491-628 | From every state that can be reached, some retry-free continuation finishes both sides |
| `HandshakeTheorems.RunKeepsEnding` | src/Pods/BoringSSL-GRPC/ssl/handshake.cc:380-476 | No schedule or retry changes the transcript and master secret the run is heading for |
| `HandshakeTheorems.SameEnding` | src/Pods/BoringSSL-GRPC/ssl/handshake.cc:380-476 | Both sides head for the same transcript and master secret |
| `HandshakeTheorems.FinishedRunsAgree` | src/Pods/BoringSSL-GRPC/ssl/handshake.cc:380-476 | When both are done, transcripts, master secrets and epochs are equal, both channels are empty, and the transcript is that of the agreed flow |
| `HandshakeRetry.RetriesAreInvisible` | src/Pods/BoringSSL-GRPC/ssl/handshake.cc:491-628 | Every run with "try again" answers is, up to the retry it may be in, a run that was never told to retry |
| `HandshakeRetry.EndedRunsCoincide` | src/Pods/BoringSSL-GRPC/ssl/handshake.cc:491-628 | Two runs over the same input that have ended, with any two patterns of retries, have the same final state, transcript and sent records |
| `HandshakeTrace.FinishedServerFollowedTheFlow` | src/Pods/BoringSSL-GRPC/ssl/handshake_server.cc:1539-1621 | Against any peer: a finished server consumed exactly the client's records of the flow, each checked over the transcript before it, and left the rest of its input alone |
| `HandshakeTrace.FinishedServerConsumed` | src/Pods/BoringSSL-GRPC/ssl/handshake_server.cc:949-1040 | By kinds: ClientHello [Certificate] ClientKeyExchange [CertificateVerify] ChangeCipherSpec [NextProto] [ChannelID] Finished, or the resumed form; CertificateVerify exactly when a non-empty chain came |
| `HandshakeTrace.StepFollows` | src/Pods/BoringSSL-GRPC/ssl/handshake_server.cc:1269-1509 | Each server step that does not fail takes at most the message the flow has next, genuine where it stands, or leaves the flow's foreseen chain |
| `HandshakeClientTrace.FinishedClientFollowedTheFlow` | src/Pods/BoringSSL-GRPC/ssl/handshake_client.cc:1707-1789 | Against any peer: a finished client consumed exactly the server's records of a flow that its configuration allows, each checked over the transcript before it, and left the rest of its input alone |
| `HandshakeClientTrace.FinishedClientConsumed` | src/Pods/BoringSSL-GRPC/ssl/handshake_client.cc:771-1167 | By kinds: ServerHello [Certificate] [CertificateStatus] [ServerKeyExchange] [CertificateRequest] ServerHelloDone [NewSessionTicket] ChangeCipherSpec Finished, or the resumed form; the options only as the client allows |
| `HandshakeAnswers.FailedTurnEndsTheRun` | src/Pods/BoringSSL-GRPC/ssl/handshake.cc:491-628 | Against any peer, in any run: a turn of either machine whose callback fails is the last that does anything; from then on the handshake is in error in the state it was, with nothing taken from the peer, nothing added to the transcript and nothing sent |
| `HandshakeAnswers.FinishedClientVerified` | src/Pods/BoringSSL-GRPC/ssl/handshake_client.cc:871-889 | Against any peer: a client that finishes a full handshake under a certificate cipher had the server's Certificate in its transcript, asked at that point whether it verifies, and was answered yes at the turn that left the step |
| `HandshakeAnswers.FinishedServerVerified` | src/Pods/BoringSSL-GRPC/ssl/handshake_server.cc:1042-1056 | The same for a server that finishes with a client's certificate |
| `HandshakeAnswers.LeftOnConsent` | src/Pods/BoringSSL-GRPC/ssl/handshake.cc:491-628 | Every step that asks the application is only ever left at a turn answered Proceed |
| `HandshakeAnswers.RetryStays` | src/Pods/BoringSSL-GRPC/ssl/handshake.cc:559-607 | Told to try again, each step that asks stays as it is, with its own kind of wait, unless it has no message to look at or a bad one |
| `HandshakeAnswers.EarlyOnlyForFalseStart` | src/Pods/BoringSSL-GRPC/ssl/handshake_client.cc:1514-1560 | The client returns early exactly in a full handshake with False Start, when its Finished is on its way |
| `HandshakeClientTrace.StepFollows` | src/Pods/BoringSSL-GRPC/ssl/handshake_client.cc:1707-1789 | Each client step that does not fail takes at most the message the flow has next, genuine where it stands |
| `HandshakeAgreement.AttackedRunsAgree` | src/Pods/BoringSSL-GRPC/ssl/handshake.cc:380-476 | Across a network that may drop, alter, invent, repeat and reorder records: if every Finished the two take was made by one of them, and the MAC is injective, a client and a server that finish have the same transcript and master secret, and both resumed or neither did |
| `HandshakeMade.RunMakes` | src/Pods/BoringSSL-GRPC/ssl/handshake.cc:431-476 | Against any peer: every Finished a side has made is the MAC, under its final master secret, over what its final transcript has before it |
| `HandshakeMade.StepAccounts` | src/Pods/BoringSSL-GRPC/ssl/handshake.cc:431-476 | Whatever a side was sent, one step only adds to transcript and flight; once the master secret stands it does not change, and only then is a Finished made |
| `HandshakeFinishes.AllStand` | src/Pods/BoringSSL-GRPC/ssl/handshake.cc:380-476 | Along any path that uses up its flow, each Finished said or taken is a MAC over the transcript before it, stands in the final transcript in the flow's order, and if it is the peer's came in a record |
| `HandshakeClientTrace.ChoiceLeads` | src/Pods/BoringSSL-GRPC/ssl/handshake_client.cc:821-1143 | Until the message that decides it is looked at, a flow with and one without an optional message fit the run alike |
| `HandshakeDescent.StepDescends` | src/Pods/BoringSSL-GRPC/ssl/handshake_server.cc:1463-1509 | Every step goes down a ranking of the states or halts where it is, despite the jump back on resumption |
| `HandshakeDescent.MicroDescends` | src/Pods/BoringSSL-GRPC/ssl/handshake.cc:491-628 | Every turn of the driver lowers the weight or changes nothing; a retry raises it by at most one |
| `HandshakeCompose.AtSendServerFinished` | src/Pods/BoringSSL-GRPC/ssl/handshake_server.cc:1463-1509 | The server's last flight is the flow's: ticket if negotiated, ChangeCipherSpec, Finished |
| `HandshakeCompose.AtReadClientCertificateVerify` | src/Pods/BoringSSL-GRPC/ssl/handshake_server.cc:1269-1363 | With an agreed client the signature checks over the raw buffer, which still mirrors the transcript |
| `HandshakeCompose.AtSendClientFinished` | src/Pods/BoringSSL-GRPC/ssl/handshake_client.cc:1457-1512 | The client's last flight is the flow's: ChangeCipherSpec, [NextProto], [ChannelID], Finished |
| `HandshakeCompose.AtReadServerKeyExchange` | src/Pods/BoringSSL-GRPC/ssl/handshake_client.cc:891-1071 | With an agreed server the client takes ServerKeyExchange exactly when it is in the flow |
| `HandshakeRun.KeepsJoined` | src/Pods/BoringSSL-GRPC/ssl/handshake.cc:491-628 | One turn of one side: what it sends or takes is what the two conversations say |
| `HandshakeLoop.Connection.RunHandshake` | src/Pods/BoringSSL-GRPC/ssl/handshake.cc:491-628 | One call of the driver ends; all it did is a run of turns; it reports completion only when done and failure exactly on an error, of the machine or of reading |
| `HandshakeLoop.Connection.DoHandshake` | src/Pods/BoringSSL-GRPC/ssl/handshake_server.cc:1539-1621 | The state loop ends, done or waiting, and is so many turns; unless it is told to retry, the weight has gone down |
| `HandshakeLoop.Connection.Resolve` | src/Pods/BoringSSL-GRPC/ssl/ssl_lib.cc:210-254 | Flushing moves the pending records out in order; a read takes one record, under the present epoch and of the kind waited for; a record that is not leaves the machine waiting, and every read after it fails with nothing taken |
| `HandshakeLoop.Connection.constructor` | src/Pods/BoringSSL-GRPC/ssl/handshake.cc:156-163 | A connection starts with empty transcript, epoch 0 and nothing sent |
| `HandshakeObject.Handshake.GetFinished` | src/Pods/BoringSSL-GRPC/ssl/handshake.cc:380-429 | Waits without a message, fails unless it is the peer's Finished over the transcript and master secret, else takes it |
| `HandshakeObject.Handshake.ServerStep` | src/Pods/BoringSSL-GRPC/ssl/handshake_server.cc:1539-1621 | One turn of the object, whatever its fields hold, is the server step that the theorems are about |
| `HandshakeObject.Handshake.ClientStep` | src/Pods/BoringSSL-GRPC/ssl/handshake_client.cc:1707-1789 | One turn of the object, whatever its fields hold, is the client step that the theorems are about |
| `HandshakeCompose.AddsMessage` | src/Pods/BoringSSL-GRPC/ssl/s3_both.cc:171-205 | Adding the message whose turn it is puts exactly that turn of the conversation into the flight: its content over the transcript before it, under the present epoch, and the transcript one message on |
| `HandshakeCompose.AddsSwitch` | src/Pods/BoringSSL-GRPC/ssl/s3_both.cc:207-218 | ChangeCipherSpec is a turn under the old epoch; what is left of the conversation goes on under the next |
| `HandshakeCompose.AddsFinishing` | src/Pods/BoringSSL-GRPC/ssl/handshake.cc:431-476 | The Finished sent after the switch is the one the flow has there: the MAC over the transcript it ends |
| `HandshakeTrace.SelectParametersFollows` | src/Pods/BoringSSL-GRPC/ssl/handshake_server.cc:572-684 | Whoever the peer is. Takes ClientHello into the transcript, once the session is there; a retry takes nothing |
| `HandshakeTrace.SendServerHelloFollows` | src/Pods/BoringSSL-GRPC/ssl/handshake_server.cc:686-752 | Whoever the peer is. Goes from ServerHello to the certificate, or on resumption to the last flight, with the transcript the flow has there |
| `HandshakeTrace.SendServerCertificateFollows` | src/Pods/BoringSSL-GRPC/ssl/handshake_server.cc:754-840 | Whoever the peer is. Certificate and, if stapling, CertificateStatus, for certificate ciphers only, are the flow's next turns |
| `HandshakeTrace.SendServerKeyExchangeFollows` | src/Pods/BoringSSL-GRPC/ssl/handshake_server.cc:842-912 | Whoever the peer is. ServerKeyExchange exactly where the flow has it; a retried signature leaves transcript and flow as they were |
| `HandshakeTrace.SendServerHelloDoneFollows` | src/Pods/BoringSSL-GRPC/ssl/handshake_server.cc:914-947 | Whoever the peer is. [CertificateRequest] ServerHelloDone are the flow's next turns |
| `HandshakeTrace.ReadClientCertificateFollows` | src/Pods/BoringSSL-GRPC/ssl/handshake_server.cc:949-1040 | Whoever the peer is. Takes only a Certificate that parses and is empty only where none is required; an empty or a non-empty chain is the one foreseen, or the run is told apart |
| `HandshakeTrace.ReadClientKeyExchangeFollows` | src/Pods/BoringSSL-GRPC/ssl/handshake_server.cc:1058-1267 | Whoever the peer is. Takes only a ClientKeyExchange; the master secret afterwards is that of the message over the transcript with it; a retried decryption takes nothing |
| `HandshakeTrace.ReadClientCertificateVerifyFollows` | src/Pods/BoringSSL-GRPC/ssl/handshake_server.cc:1269-1363 | Whoever the peer is. Takes CertificateVerify exactly if a non-empty chain came, and only if it verifies over the whole transcript before it |
| `HandshakeTrace.ProcessClientChangeCipherSpecFollows` | src/Pods/BoringSSL-GRPC/ssl/handshake_server.cc:1370-1377 | Whoever the peer is. Goes on to reading NextProto, under the next read epoch, with no message in hand |
| `HandshakeTrace.ReadNextProtoFollows` | src/Pods/BoringSSL-GRPC/ssl/handshake_server.cc:1379-1413 | Whoever the peer is. Takes NextProto exactly if negotiated, under epoch 1 |
| `HandshakeTrace.ReadChannelIdFollows` | src/Pods/BoringSSL-GRPC/ssl/handshake_server.cc:1415-1437 | Whoever the peer is. Takes ChannelID exactly if negotiated, and only if it verifies over the transcript before it |
| `HandshakeTrace.ReadClientFinishedFollows` | src/Pods/BoringSSL-GRPC/ssl/handshake_server.cc:1439-1461 | Whoever the peer is. Takes only the Finished that is the client's MAC over the transcript before it and the master secret |
| `HandshakeTrace.SendServerFinishedFollows` | src/Pods/BoringSSL-GRPC/ssl/handshake_server.cc:1463-1509 | Whoever the peer is. [NewSessionTicket] ChangeCipherSpec Finished are the flow's next turns, on resumption too |
| `HandshakeClientTrace.ReadServerHelloFollows` | src/Pods/BoringSSL-GRPC/ssl/handshake_client.cc:535-759 | Whoever the peer is. Takes only a ServerHello, and goes on to what the flow has next, resuming or not |
| `HandshakeClientTrace.ReadServerCertificateFollows` | src/Pods/BoringSSL-GRPC/ssl/handshake_client.cc:771-819 | Whoever the peer is. Takes Certificate exactly for certificate ciphers |
| `HandshakeClientTrace.ReadCertificateStatusFollows` | src/Pods/BoringSSL-GRPC/ssl/handshake_client.cc:821-869 | Whoever the peer is. If negotiated, takes CertificateStatus if that is what came; another message stays in hand, untouched, and the flow has no CertificateStatus |
| `HandshakeClientTrace.ReadServerKeyExchangeFollows` | src/Pods/BoringSSL-GRPC/ssl/handshake_client.cc:891-1071 | Whoever the peer is. Takes ServerKeyExchange if that is what came, never with RSA key exchange; another message stays in hand only if the cipher can do without |
| `HandshakeClientTrace.ReadCertificateRequestFollows` | src/Pods/BoringSSL-GRPC/ssl/handshake_client.cc:1073-1143 | Whoever the peer is. Takes CertificateRequest if that is what came; ServerHelloDone stays in hand; nothing else will do |
| `HandshakeClientTrace.ReadServerHelloDoneFollows` | src/Pods/BoringSSL-GRPC/ssl/handshake_client.cc:1145-1167 | Whoever the peer is. Takes only ServerHelloDone |
| `HandshakeClientTrace.SendClientCertificateFollows` | src/Pods/BoringSSL-GRPC/ssl/handshake_client.cc:1169-1215 | Whoever the peer is. Certificate is the flow's next turn exactly if one was asked for; a retry says nothing |
| `HandshakeClientTrace.SendClientKeyExchangeFollows` | src/Pods/BoringSSL-GRPC/ssl/handshake_client.cc:1220-1371 | Whoever the peer is. The master secret is that of the message over the transcript with it |
| `HandshakeClientTrace.SendClientCertificateVerifyFollows` | src/Pods/BoringSSL-GRPC/ssl/handshake_client.cc:1373-1455 | Whoever the peer is. What is signed is the whole transcript before it, exactly if asked and able; a retry says nothing |
| `HandshakeClientTrace.SendClientFinishedFollows` | src/Pods/BoringSSL-GRPC/ssl/handshake_client.cc:1457-1512 | Whoever the peer is. ChangeCipherSpec [NextProto] [ChannelID] Finished are the flow's next turns, each over the transcript before it; a retry says nothing |
| `HandshakeClientTrace.ReadSessionTicketFollows` | src/Pods/BoringSSL-GRPC/ssl/handshake_client.cc:1566-1647 | Whoever the peer is. Takes NewSessionTicket exactly if a ticket is expected |
| `HandshakeClientTrace.ReadServerFinishedFollows` | src/Pods/BoringSSL-GRPC/ssl/handshake_client.cc:1658-1672 | Whoever the peer is. Takes only the Finished that is the server's MAC over the transcript before it and the master secret |
| `CipherChoice.Choose` | src/Pods/BoringSSL-GRPC/ssl/handshake_server.cc:391-424 | The single pass picks what the rule says: the best-ranked member, for the other side, of the first equal-preference group with a usable suite; nothing if none is usable or that group runs off the list |
| `CipherChoice.ChooseCipher` | src/Pods/BoringSSL-GRPC/ssl/handshake_server.cc:357-424 | Odd-length lists are refused; otherwise the rule with the server's groups, or the client's order without |
| `CipherChoice.NoneIff` | src/Pods/BoringSSL-GRPC/ssl/handshake_server.cc:416-424 | Nothing is picked exactly when no suite is usable or the first usable one is in an unterminated group |
| `CipherChoice.UnendedGroup` | src/Pods/BoringSSL-GRPC/ssl/handshake_server.cc:416-424 | A list of one shared suite whose group does not end: nothing is picked |
| `CipherChoice.PickedIsUnique` | src/Pods/BoringSSL-GRPC/ssl/internal.h:1860-1893 | The rule leaves no choice |
| `CipherChoice.FirstWithoutGroups` | src/Pods/BoringSSL-GRPC/ssl/handshake_server.cc:380-385 | Without groups the first usable suite of the list is picked, whatever the other side's order |
| `CipherChoice.PickedMeans` | src/Pods/BoringSSL-GRPC/ssl/handshake_server.cc:392-424 | A suite that is picked is on both lists, known at the version, and shares a key exchange and an authentication with the masks |
| `CipherChoice.UsableMeansPicked` | src/Pods/BoringSSL-GRPC/ssl/handshake_server.cc:392-424 | Without groups one is picked if there is any such suite |
| `CipherChoice.ListTrip` | src/Pods/BoringSSL-GRPC/ssl/handshake_server.cc:293-321 | A list written with two bytes a suite, high byte first, is read as the suites written less the unknown ones |
| `CipherChoice.ParseClientCipherList` | src/Pods/BoringSSL-GRPC/ssl/handshake_server.cc:293-321 | The list is read to the known suites in order |
| `CipherChoice.OddListsAreRefused` | src/Pods/BoringSSL-GRPC/ssl/handshake_server.cc:304-312 | A list is refused exactly if it is half a suite too long |
| `CipherChoice.Find` | src/Pods/BoringSSL-GRPC/ssl/handshake_server.cc:402 | First occurrence, or nothing exactly if there is none |
| `RsaPremaster.SelectPremaster` | src/Pods/BoringSSL-GRPC/ssl/handshake_server.cc:1136-1178 | In place: fails exactly if the decryption is not a whole block or the block is below 59 bytes; else the result is the message of the block if it is a premaster for the offered version, and otherwise the random one |
| `RsaPremaster.CheckBlock` | src/Pods/BoringSSL-GRPC/ssl/handshake_server.cc:1157-1171 | The accumulated mask is all ones exactly for 00 02, non-zero padding, 00, version |
| `RsaPremaster.PositionsSuffice` | src/Pods/BoringSSL-GRPC/ssl/handshake_server.cc:1157-1178 | For every block of at least 59 bytes the fixed-position checks equal unpadding (section 7.2.2 of RFC 3447) and comparing length and version (section 7.4.7.1 of RFC 5246) |
| `RsaPremaster.ComparisonsAreMasks` | src/Pods/BoringSSL-GRPC/crypto/internal.h:303-328 | The branch-free zero and equality tests of 64-bit words give all ones exactly when they hold, else zero |
| `RsaPremaster.ComparisonsAreMasks32` | src/Pods/BoringSSL-GRPC/crypto/internal.h:303-328 | The same where words have 32 bits |
| `RsaPremaster.SelectChooses` | src/Pods/BoringSSL-GRPC/crypto/internal.h:351-362 | Selection under a mask is the choice |
| `RsaPremaster.IsZeroMask` | src/Pods/BoringSSL-GRPC/crypto/internal.h:320-322 | The byte form keeps the mask through truncation |
| `RsaPremaster.EqMask` | src/Pods/BoringSSL-GRPC/crypto/internal.h:332-334 | The same for equality |
| `DtlsHonestPeer.DeliveredAsSent` | src/Pods/BoringSSL-GRPC/ssl/d1_both.cc:350-438 | For every loss, duplication, reordering and overlapping re-cutting of an honest peer's fragments, over all changes of the read epoch: messages come out in order, byte-identical to the sender's serialised form; one is complete iff a fragment of it came while it was looked for and what came then covers it |
| `DtlsHonestPeer.EncryptedMessageIsAssembled` | src/Pods/BoringSSL-GRPC/ssl/d1_both.cc:373-400 | In epoch 1, after any run that led there: pieces of the next message, however cut, repeated and reordered, complete it exactly when they cover it, and it comes out as its sender serialised it |
| `DtlsHonestPeer.FatalExactly` | src/Pods/BoringSSL-GRPC/ssl/d1_both.cc:373-386 | An honest fragment is fatal in epoch 1 exactly if it is not of the next message, and in other epochs exactly if it is seven ahead of it; what is not looked for never changes the ring |
| `DtlsHonestPeer.OnlyNextInEpochOne` | src/Pods/BoringSSL-GRPC/ssl/d1_both.cc:373-378 | From any peer: in epoch 1 a fragment of any other message is fatal and the ring stays as it is |
| `DtlsHonestPeer.HonestCompleteStays` | src/Pods/BoringSSL-GRPC/ssl/d1_both.cc:388-400 | With an honest peer, however much arrives and for however long: a complete message does not change until it is taken |
| `DtlsHonestPeer.CompleteWhileOpen` | src/Pods/BoringSSL-GRPC/ssl/d1_both.cc:388-400 | With any peer: a complete message does not change while its number is in the window |
| `DtlsHonestPeer.CompleteStays` | src/Pods/BoringSSL-GRPC/ssl/d1_both.cc:388-438 | With any peer, whatever arrives: it does not change until it is taken, as long as the messages taken do not bring the 16-bit number round |
| `DtlsLink.DeliveredAsAdded` | src/Pods/BoringSSL-GRPC/ssl/d1_both.cc:350-438 | Sender and receiver joined: whatever flights, resumed flushes and retransmissions a sender has sent, and however its records are lost, repeated and reordered, what comes out is what was added, in order and byte for byte |
| `DtlsLink.PassCompletes` | src/Pods/BoringSSL-GRPC/ssl/d1_both.cc:739-845 | A message is complete once the records that one pass made of it have arrived while it was in the window, in whatever order and company |
| `DtlsReassembly.RecordIsItsFragments` | src/Pods/BoringSSL-GRPC/ssl/d1_both.cc:350-406 | A record does what its fragments do one after the other |
| `DtlsReassembly.StoredExactly` | src/Pods/BoringSSL-GRPC/ssl/d1_both.cc:265-400 | From any peer: a fragment is stored exactly if it lies within a message that is not too long, of a number looked for in the epoch, and agrees in type and length with what is there; it is passed over exactly if it is well-formed and of the past or at least eight ahead; the rest is fatal |
| `DtlsReassembly.FeedBounded` | src/Pods/BoringSSL-GRPC/ssl/d1_both.cc:363-371 | From any peer, whatever a record holds: no message above the limit is put together |
| `DtlsReassembly.PutValid` | src/Pods/BoringSSL-GRPC/ssl/d1_both.cc:265-295 | Every slot i keeps holding a number in [next, next + 7) that is i modulo 7 |
| `DtlsReassembly.AdvanceValid` | src/Pods/BoringSSL-GRPC/ssl/d1_both.cc:426-438 | So it does when a message is taken |
| `DtlsReceiver.Receiver.OneFragment` | src/Pods/BoringSSL-GRPC/ssl/d1_both.cc:363-400 | The ring of objects does to its abstraction what the window does, and fails exactly where it does (what that is: FatalExactly and StoredExactly) |
| `DtlsReceiver.Receiver.OpenHandshake` | src/Pods/BoringSSL-GRPC/ssl/d1_both.cc:350-406 | The loop over a record equals feeding its bytes to the window |
| `DtlsReceiver.Receiver.OpenRecord` | src/Pods/BoringSSL-GRPC/ssl/d1_both.cc:297-406 | Application data, ChangeCipherSpec and other types leave the ring alone and have their own outcomes |
| `DtlsReceiver.Receiver.GetIncoming` | src/Pods/BoringSSL-GRPC/ssl/d1_both.cc:265-295 | Outside the window, or disagreeing with the slot in type or length: nothing; else the slot's message, made if need be |
| `DtlsReceiver.Receiver.GetMessage` | src/Pods/BoringSSL-GRPC/ssl/d1_both.cc:408-424 | The next message, with header, exactly if it is complete |
| `DtlsReceiver.Receiver.HasUnprocessed` | src/Pods/BoringSSL-GRPC/ssl/d1_both.cc:440-457 | True exactly if a ChangeCipherSpec waits or a message other than the current one is in the ring |
| `DtlsReceiver.Receiver.NextMessage` | src/Pods/BoringSSL-GRPC/ssl/d1_both.cc:426-438 | Its slot is emptied and the window moves by one |
| `DtlsFragment.HmFragment.Mark` | src/Pods/BoringSSL-GRPC/ssl/d1_both.cc:211-253 | In the bitmask a byte is marked afterwards exactly if it was or lies in the range, over all alignments; the mask is dropped exactly when full |
| `DtlsFragment.HmFragment.IsFull` | src/Pods/BoringSSL-GRPC/ssl/d1_both.cc:237-252 | Full means every byte of the message is marked |
| `DtlsFragment.HmFragment.Store` | src/Pods/BoringSSL-GRPC/ssl/d1_both.cc:388-400 | Copying a fragment and marking it overlays its bytes on the slot |
| `DtlsFragment.HmFragment.RawIsData` | src/Pods/BoringSSL-GRPC/ssl/d1_both.cc:152-201 | A complete slot's buffer is the message with the header its sender serialised |
| `DtlsFragment.HmFragment.constructor` | src/Pods/BoringSSL-GRPC/ssl/d1_both.cc:152-201 | A new slot has the header and no byte of the body |
| `DtlsWire.ParsePrint` | src/Pods/BoringSSL-GRPC/ssl/d1_both.cc:459-473 | A printed fragment parses to itself and leaves what follows |
| `DtlsWire.PrintLayout` | src/Pods/BoringSSL-GRPC/ssl/d1_both.cc:511-551 | Byte by byte: type, three bytes of message length, two of message number, three of offset, three of fragment length, most significant first, and the body |
| `DtlsSender.Sender.SealNextMessage` | src/Pods/BoringSSL-GRPC/ssl/d1_both.cc:644-737 | At most the room given; the record carries the next bytes of the message, under the keys of the epoch it was added in, at least one unless it is empty, or nothing has moved; it is cut short only where the room ends, makes no progress only where nothing fits, and fails only with the cipher or for an epoch whose keys are gone |
| `DtlsSender.Sender.SealNextPacket` | src/Pods/BoringSSL-GRPC/ssl/d1_both.cc:739-780 | The packet's records tile the flight from the position before to the one after, within the size allowed |
| `DtlsSender.Sender.SendPacket` | src/Pods/BoringSSL-GRPC/ssl/d1_both.cc:796-818 | A packet not taken is tried again from where it began; a packet whose sealing fails is lost, and what it held is not gone back to |
| `DtlsSender.Sender.SendFlight` | src/Pods/BoringSSL-GRPC/ssl/d1_both.cc:782-827 | Whatever stalls or fails: what was tried tiles the flight up to here, what was sent is that less the packets that failed, each datagram within the MTU; the loop ends by (messages left, bytes left) |
| `DtlsSender.Sender.FlushFlight` | src/Pods/BoringSSL-GRPC/ssl/d1_both.cc:829-834 | A flush goes on where the last one stalled, or behind what a failed packet had sealed |
| `DtlsSender.Sender.Retransmit` | src/Pods/BoringSSL-GRPC/ssl/d1_both.cc:836-845 | A new pass over the same flight, from the start |
| `DtlsSender.Sender.AddOutgoing` | src/Pods/BoringSSL-GRPC/ssl/d1_both.cc:555-594 | The first addition after a flush starts a new flight; at most seven; only handshake messages take numbers, each its place among the messages ever added |
| `DtlsSender.Sender.PassIsExact` | src/Pods/BoringSSL-GRPC/ssl/d1_both.cc:782-845 | After a finished pass without failures the taken records give every message's body once and in order, and each ChangeCipherSpec once |
| `DtlsFlight.TilingIsExact` | src/Pods/BoringSSL-GRPC/ssl/d1_both.cc:644-780 | Tiling means: the bodies of the records for a message, end to end, are the message |
| `DtlsFlight.TiledAreCuts` | src/Pods/BoringSSL-GRPC/ssl/d1_both.cc:644-737 | Every record of a tiling is a piece of the message it names, at its place |
| `DtlsReplay.ReplayWindow.ShouldDiscard` | src/Pods/BoringSSL-GRPC/ssl/dtls_record.cc:140-153 | Discards exactly numbers accepted before and those at least 64 below the maximum |
| `DtlsReplay.ReplayWindow.Record` | src/Pods/BoringSSL-GRPC/ssl/dtls_record.cc:155-175 | The shifted bits stand for the accepted set and the number |
| `DtlsReplay.FrameTrip` | src/Pods/BoringSSL-GRPC/ssl/dtls_record.cc:177-222 | A record in the sender's form is framed as type, version, sequence and body exactly if the body is at most 16704 bytes |
| `DtlsReplay.PrintedLayout` | src/Pods/BoringSSL-GRPC/ssl/dtls_record.cc:320-343 | Byte by byte: type, version, epoch and number, length, ciphertext |
| `DtlsReplay.RecordReader.OpenRecord` | src/Pods/BoringSSL-GRPC/ssl/dtls_record.cc:177-272 | A record is accepted exactly if it is framed, of the epoch, opens, fits and is new to the window; under one set of keys no number is ever accepted twice |
| `DtlsReplay.RecordReader.SetReadState` | src/Pods/BoringSSL-GRPC/ssl/dtls_method.cc:81-95 | Refused, with nothing changed, while handshake data waits; else the next epoch with an empty window, and nothing accepted is forgotten, though the 16-bit epoch comes round |
| `DtlsReplay.ToU64` | src/Pods/BoringSSL-GRPC/ssl/dtls_record.cc:128-136 | The eight bytes as one number |
| `DtlsSeal.NumbersNeverRepeat` | src/Pods/BoringSSL-GRPC/ssl/dtls_record.cc:294-351 | Over every interleaving of sealing in both epochs and key changes, of any length, no two seals are under the same keys and number while no counter comes round; two numbers on the wire agree only in epochs 65536 key changes apart |
| `DtlsSeal.RepeatsIffOverflowed` | src/Pods/BoringSSL-GRPC/ssl/dtls_record.cc:336-343 | A seal repeats a pair exactly if its counter has come round |
| `DtlsSeal.AfterOverflowZeroComesAgain` | src/Pods/BoringSSL-GRPC/ssl/dtls_record.cc:336-343 | After the seal that fails on overflow the next one succeeds under number 0 again |
| `DtlsRecordWriter.SequenceUpdate` | src/Pods/BoringSSL-GRPC/ssl/tls_record.cc:154-163 | The bytes count up by one with carries; it fails exactly when they come round |
| `DtlsRecordWriter.RecordWriter.SealRecord` | src/Pods/BoringSSL-GRPC/ssl/dtls_record.cc:294-351 | The number sealed under is the 16-bit epoch and the counter of that epoch; the arrays follow the counters |
| `DtlsRecordWriter.RecordWriter.SetWriteState` | src/Pods/BoringSSL-GRPC/ssl/dtls_method.cc:97-107 | The old counter is kept for the previous epoch, the new one starts at zero; the 16-bit epoch may come round |
| `AeadContext.OpenInvertsSeal` | src/Pods/BoringSSL-GRPC/ssl/ssl_aead_ctx.cc:225-405 | In every configuration Create can build the receiver finds the same nonce and additional data and gets the plaintext back, if the primitive is correct and has fixed overhead wherever a length is authenticated |
| `AeadContext.SealedForm` | src/Pods/BoringSSL-GRPC/ssl/ssl_aead_ctx.cc:57-149 | Suite by suite, in the standards' terms: the nonce is the random bytes, salt and number, or number over static nonce, padded on the left; the additional data are number, type, version and length with the parts each configuration leaves out; the explicit nonce goes in front of stateful and TLS 1.2 AES-GCM records only |
| `AeadContext.AdLayout` | src/Pods/BoringSSL-GRPC/ssl/ssl_aead_ctx.cc:203-223 | Position by position: eight bytes of number, the type, the version if it is in, the length last if it is in; 13, 11, 9 or 0 bytes |
| `AeadContext.AdFromParts` | src/Pods/BoringSSL-GRPC/ssl/ssl_aead_ctx.cc:203-223 | And bytes with these parts are the additional data |
| `AeadContext.NonceLayout` | src/Pods/BoringSSL-GRPC/ssl/ssl_aead_ctx.cc:258-281 | The fixed part stands in front as it is; behind it the variable part, XORed over the end of the fixed nonce or appended |
| `AeadContext.Tls13Opens` | src/Pods/BoringSSL-GRPC/ssl/ssl_aead_ctx.cc:232-243 | Under TLS 1.3, without fixed overhead, a sealed record opens exactly if it is at least as long as the overhead allowed for |
| `AeadContext.ShortRecord` | src/Pods/BoringSSL-GRPC/ssl/ssl_aead_ctx.cc:232-243 | A primitive that allows for sixteen bytes of overhead and adds none seals a record that is refused |
| `AeadContext.NonceInjective` | src/Pods/BoringSSL-GRPC/ssl/ssl_aead_ctx.cc:329-369 | Different variable parts make different nonces |
| `AeadContext.Context.Create` | src/Pods/BoringSSL-GRPC/ssl/ssl_aead_ctx.cc:57-149 | The flags set case by case are the table of four configurations; wrong key lengths give nothing |
| `AeadContext.Context.GetAdditionalData` | src/Pods/BoringSSL-GRPC/ssl/ssl_aead_ctx.cc:203-223 | What is written in place, by positions: bytes 0 to 7 the number, byte 8 the type, bytes 9 and 10 the version high byte first if it is in, the last two the length high byte first if it is in; nothing where additional data are left out |
| `AeadContext.Context.AssembleNonce` | src/Pods/BoringSSL-GRPC/ssl/ssl_aead_ctx.cc:258-281 | The bytes assembled and XORed in place are the nonce |
| `AeadContext.Context.Open` | src/Pods/BoringSSL-GRPC/ssl/ssl_aead_ctx.cc:225-294 | The input split, checked and opened as specified |
| `AeadContext.Context.Seal` | src/Pods/BoringSSL-GRPC/ssl/ssl_aead_ctx.cc:296-405 | The explicit nonce goes in front exactly where it is in the record |
| `SessionAsn1.ParseOfPrint` | src/Pods/BoringSSL-GRPC/ssl/ssl_asn1.cc:200-757 | What was printed parses to a session that agrees with the original field by field, but for the session ID and ticket in tickets, an empty ticket or ALPN string, and the chain when its hash is kept, and following bytes are left alone, if and only if its version and cipher are known, its verify result is not negative, and the printed certificates are a non-empty leaf and single DER elements |
| `SessionParsed.ParsedInRange` | src/Pods/BoringSSL-GRPC/ssl/ssl_asn1.cc:527-757 | Whatever bytes come: a session that is parsed is within the ranges of all its fields, of a known version and cipher, without a negative verify result, a NUL in the PSK identity, or certificates that are not elements |
| `SessionParsed.Reprints` | src/Pods/BoringSSL-GRPC/ssl/ssl_asn1.cc:200-757 | Whatever bytes come: a session that is parsed, printed and parsed again is itself, unless it came with both a chain and a hash for it |
| `SessionForm.OrdinaryIsPrinted` | src/Pods/BoringSSL-GRPC/ssl/ssl_asn1.cc:200-399 | Printing does not fail on a session whose strings, leaf and chain are below 64 MiB each |
| `SessionForm.VersionForm` | src/Pods/BoringSSL-GRPC/ssl/ssl_asn1.cc:100-110 | The printed body begins with identifier octets and contents as the ASN.1 module has them: INTEGER 1, INTEGER protocol version, OCTET STRING of the two cipher bytes |
| `SessionForm.SecretsForm` | src/Pods/BoringSSL-GRPC/ssl/ssl_asn1.cc:100-110 | And goes on with the session ID, the master key, [1] time and [2] timeout |
| `SessionForm.UintForm` | src/Pods/BoringSSL-GRPC/crypto/bytestring/cbb.c:473-506 | Integers go under identifier octet 02, octet strings (OctetsForm) under 04, explicit tags (ExplicitForm) under A0 plus their number, the whole (PrintForm) under 30 |
| `SessionAsn1.OptionalsTrip` | src/Pods/BoringSSL-GRPC/ssl/ssl_asn1.cc:407-525 | Optional elements under ascending tags are each found again, absent ones absent |
| `SessionAsn1.DecodeTrip` | src/Pods/BoringSSL-GRPC/ssl/ssl_asn1.cc:593-754 | Every optional field decodes to what was there or to what its absence stands for |
| `SessionAsn1.DecodeRefused` | src/Pods/BoringSSL-GRPC/ssl/ssl_asn1.cc:605-712 | A negative verify result or a certificate that is not one element never comes back as it was |
| `SessionAsn1.HeaderTrip` | src/Pods/BoringSSL-GRPC/ssl/ssl_asn1.cc:536-591 | The mandatory fields come back |
| `SessionAsn1.HeaderRefused` | src/Pods/BoringSSL-GRPC/ssl/ssl_asn1.cc:541-566 | An unknown version or cipher is refused |
| `SessionAsn1.SplitTrip` | src/Pods/BoringSSL-GRPC/ssl/ssl_asn1.cc:698-711 | Concatenated elements split into themselves |
| `SessionAsn1.SplitGivesElements` | src/Pods/BoringSSL-GRPC/ssl/ssl_asn1.cc:698-711 | What the chain splits into are single elements |
| `SessionReader.ParseSession` | src/Pods/BoringSSL-GRPC/ssl/ssl_asn1.cc:527-757 | The cursor, field by field, accepts and returns exactly what the specification of the format does, and stops where it does |
| `SessionReader.ReadHeader` | src/Pods/BoringSSL-GRPC/ssl/ssl_asn1.cc:536-591 | The mandatory part |
| `SessionReader.ReadFirst` | src/Pods/BoringSSL-GRPC/ssl/ssl_asn1.cc:593-625 | Tags 3 to 10: fails only if no session can come of it |
| `SessionReader.ReadMiddle` | src/Pods/BoringSSL-GRPC/ssl/ssl_asn1.cc:627-668 | Tags 13 to 18, likewise |
| `SessionReader.ReadCertificates` | src/Pods/BoringSSL-GRPC/ssl/ssl_asn1.cc:670-712 | Tag 19 and the certificates, likewise |
| `SessionReader.ReadLast` | src/Pods/BoringSSL-GRPC/ssl/ssl_asn1.cc:720-754 | Tags 21 to 26, likewise, and nothing after them |
| `SessionReader.ReadChain` | src/Pods/BoringSSL-GRPC/ssl/ssl_asn1.cc:698-711 | The loop splits the chain |
| `SessionReader.Fields.OctetString` | src/Pods/BoringSSL-GRPC/crypto/bytestring/cbs.c:461-481 | An octet string that is all there is under its tag |
| `SessionReader.Fields.BoundedOctetString` | src/Pods/BoringSSL-GRPC/ssl/ssl_asn1.cc:469-481 | Absent is empty; too long fails |
| `SessionReader.Fields.Uint` | src/Pods/BoringSSL-GRPC/ssl/ssl_asn1.cc:483-525 | Absent is the default; out of range fails |
| `SessionReader.Fields.Boolean` | src/Pods/BoringSSL-GRPC/crypto/bytestring/cbs.c:501-527 | Only 00 and FF will do |
| `SessionWriter.WriteSession` | src/Pods/BoringSSL-GRPC/ssl/ssl_asn1.cc:200-399 | The builder ends with exactly the printed form (what that holds: ParseOfPrint), or fails exactly where an element is too long (when that is not: OrdinaryIsPrinted) |
| `SessionWriter.Builder.Explicit` | src/Pods/BoringSSL-GRPC/ssl/ssl_asn1.cc:227-235 | One optional element goes to the end |
| `SessionWriter.Chain` | src/Pods/BoringSSL-GRPC/ssl/ssl_asn1.cc:334-349 | The certificates after the first, end to end |
| `Der.ElementTrip` | src/Pods/BoringSSL-GRPC/crypto/bytestring/cbs.c:246-342 | An element written with minimal length octets is read back with its tag and content, and what follows is left |
| `Der.GetTrip` | src/Pods/BoringSSL-GRPC/crypto/bytestring/cbs.c:350-375 | The same for one expected tag |
| `Der.ElementIsCanonical` | src/Pods/BoringSSL-GRPC/crypto/bytestring/cbs.c:243-322 | What is read as an element is byte for byte what would have been written: no length has a second form |
| `Der.UintIsCanonical` | src/Pods/BoringSSL-GRPC/crypto/bytestring/cbs.c:391-426 | Nor has a number |
| `Der.Uint64Trip` | src/Pods/BoringSSL-GRPC/crypto/bytestring/cbb.c:473-506 | Written integers read back, in at most nine bytes |
| `Der.AddUint64` | src/Pods/BoringSSL-GRPC/crypto/bytestring/cbb.c:473-506 | The loop from the top byte writes the minimal content, with a zero before a high bit |
| `Der.ReadUint64` | src/Pods/BoringSSL-GRPC/crypto/bytestring/cbs.c:391-426 | The loop reads the number or refuses: empty, negative, padded or too big |
| `RefCount.RunsLinearize` | src/Pods/BoringSSL-GRPC/crypto/refcount_c11.c:37-65 | Under every interleaving, with spurious failures, the operations in the order they took effect are a legal history of the locked count ending in the present value; each call took effect once, while it lasted, different calls as different operations, and calls that followed one another in that order |
| `RefCount.StepLinearized` | src/Pods/BoringSSL-GRPC/crypto/refcount_c11.c:37-65 | Every step of every thread keeps that |
| `RefCount.FailuresAreProgress` | src/Pods/BoringSSL-GRPC/crypto/refcount_c11.c:41-46 | A swap that fails for a reason fails because another operation took effect |
| `RefCount.OneLastReference` | src/Pods/BoringSSL-GRPC/crypto/refcount_c11.c:49-65 | With disciplined unsaturated use the count is start plus increments minus decrements, at most one call is told it was the last, and one is exactly when the count is zero |
| `RefCount.SaturationIsPermanent` | src/Pods/BoringSSL-GRPC/crypto/refcount_lock.c:29-51 | Once at 2^32 - 1, always there, and never reported as zero |
| `RefCount.ExactlyOneZero` | src/Pods/BoringSSL-GRPC/crypto/refcount_lock.c:37-51 | In any disciplined history exactly the decrement that ends it reports zero |
| `RefCount.LockedCount.Inc` | src/Pods/BoringSSL-GRPC/crypto/refcount_lock.c:29-35 | Up by one unless saturated |
| `RefCount.LockedCount.DecAndTestZero` | src/Pods/BoringSSL-GRPC/crypto/refcount_lock.c:37-51 | Aborts exactly at zero, keeps a saturated count, and reports zero exactly from one |
| `TlsWrite.Writer.WriteAppData` | src/Pods/BoringSSL-GRPC/ssl/s3_pkt.cc:129-200 | Called again with the same arguments after any stalls it goes on; when it returns the length, the plaintexts sealed for it are the data once and in order; what is left of the flight precedes the first record; and once nothing stalls it does return the length |
| `TlsWrite.Repeat` | src/Pods/BoringSSL-GRPC/ssl/s3_pkt.cc:129-200 | Over any number of calls with the same arguments, the first that succeeds has sealed the data exactly once since the first call |
| `TlsWrite.Writer.WriteFrom` | src/Pods/BoringSSL-GRPC/ssl/s3_pkt.cc:170-199 | The loop keeps: sealed so far is the data so far, queued is flight then records |
| `TlsWrite.Writer.DoWrite` | src/Pods/BoringSSL-GRPC/ssl/s3_pkt.cc:221-289 | A pending record is flushed and nothing sealed; else at most one record is sealed, behind the flight; a failed seal behind a flight leaves the writer stuck, and no further write gets it out |
| `TlsWrite.Writer.WritePending` | src/Pods/BoringSSL-GRPC/ssl/s3_pkt.cc:202-218 | Arguments other than those the record was sealed with are refused with nothing written |
| `TlsWrite.Writer.Flush` | src/Pods/BoringSSL-GRPC/ssl/ssl_buffer.cc:239-252 | The buffer goes out in order, as much as the transport takes; what went and what is left are what was queued |
| `TlsWrite.Writer.FlushFlight` | src/Pods/BoringSSL-GRPC/ssl/s3_both.cc:231-279 | What is in the write buffer goes first, then the flight; stalled or not, nothing is lost or overtaken, an unfinished write stays as it was, and a finished flush leaves no writer stuck |
| `TlsWrite.Writer.AddMessage` | src/Pods/BoringSSL-GRPC/ssl/s3_both.cc:171-205 | A handshake message joins the flight in records whose plaintexts, end to end, are the message: all but the last full, at least one even for an empty message; a failure leaves the records of a beginning of it |
| `TlsWrite.Writer.SendMessage` | src/Pods/BoringSSL-GRPC/ssl/s3_both.cc:171-279 | Added and flushed: when the flush ends, what was queued before has gone out and behind it the message's records, nothing else |
| `TlsWrite.Writer.Queue` | src/Pods/BoringSSL-GRPC/ssl/s3_pkt.cc:231-283 | Either the flight and one record are queued, or nothing is sealed |
| `PbRoundTrip.RoundTrip` | src/Pods/nanopb/pb_encode.c:494-516 | Every well-formed static message encodes, and decoding the encoding restores every value, has-flag, count and choice (below 4 GiB) |
| `PbUnknown.OlderReader` | src/Pods/nanopb/pb_decode.c:953-964 | Unknown fields are invisible: a reader whose descriptor has only some of the writer's fields, any of them, decodes every message of the writer to what it holds in those |
| `PbUnknown.UnknownField` | src/Pods/nanopb/pb_decode.c:316-327 | Whatever a field the decoder does not know holds, absent, single, packed or repeated, what comes behind it is read as if it were not there |
| `PbUnknown.ValueIsSkipped` | src/Pods/nanopb/pb_decode.c:316-327 | Any value is skipped whole by its wire type alone |
| `PbUnknown.OtherWireTypesFail` | src/Pods/nanopb/pb_decode.c:316-327 | An unknown field of any other wire type ends the decoding |
| `PbUnknown.TagSays` | src/Pods/nanopb/pb_encode.c:641-672 | The wire types by number: varints 0, eight bytes 1, length-delimited 2, four bytes 5 |
| `PbFormat.VarintForm` | src/Pods/nanopb/pb_encode.c:574-594 | The encoder's varint is the number in groups of seven bits, least significant first, every byte but the last marked, none superfluous |
| `PbFormat.ScalarForm` | src/Pods/nanopb/pb_encode.c:574-633 | Two's complement in 64 bits for int types, zigzag for sint types, little-endian words for fixed types |
| `PbFormat.TagForm` | src/Pods/nanopb/pb_encode.c:635-639 | A tag is eight times the field number plus the wire type |
| `PbFormat.VarintEnds` | src/Pods/nanopb/pb_decode.c:250-271 | Any varint is read up to its end, and refused if it has none or is longer than ten bytes |
| `PbFormat.TooBigFails` | src/Pods/nanopb/pb_decode.c:182-242 | The 32-bit decoder refuses the encoding of every number from 2^32 up to 2^63 |
| `PbFormat.OverlongIsCut` | src/Pods/nanopb/pb_decode.c:209-234 | But seven times 2^32, written with one byte too many, is read as zero |
| `PbFormat.ScalarIsExact` | src/Pods/nanopb/pb_decode.c:1289-1389 | On any bytes: a number is stored as its type means it, or the field fails because it does not fit |
| `PbFormat.BlobIsExact` | src/Pods/nanopb/pb_decode.c:1391-1509 | On any bytes: a blob that is read is the whole payload, text up to its first NUL, zeros for empty fixed-length bytes; none is cut to fit |
| `PbRoundTrip.MessageTrip` | src/Pods/nanopb/pb_decode.c:901-1049 | Decoding the fields from the i-th on, after those before it, ends in the message |
| `PbRoundTrip.FieldTrip` | src/Pods/nanopb/pb_decode.c:401-475 | One field's encoding is consumed exactly and sets that field, whatever follows |
| `PbRoundTrip.MessageEncodes` | src/Pods/nanopb/pb_encode.c:307-392 | A message whose values fit always encodes |
| `PbScalarTrip.ScalarTrip` | src/Pods/nanopb/pb_encode.c:126-211 | All scalar widths come back: varint, signed, unsigned, zigzag, fixed |
| `PbScalarTrip.VarintTrip` | src/Pods/nanopb/pb_decode.c:250-271 | 64-bit varints come back |
| `PbScalarTrip.Varint32Trip` | src/Pods/nanopb/pb_decode.c:182-242 | The 32-bit decoder reads every encoding of a number below 2^32 |
| `PbScalarTrip.ZigZagTrip` | src/Pods/nanopb/pb_encode.c:596-605 | Zigzag comes back |
| `PbSafety.DecodeStaysInBounds` | src/Pods/nanopb/pb_decode.c:401-475 | On arbitrary bytes: what decodes is well-typed, with no array beyond its bound, at every nesting level |
| `PbSafety.DecodedHasRequired` | src/Pods/nanopb/pb_decode.c:1008-1046 | On arbitrary bytes: success means every required field among the first 64 was stored, in the message and in every submessage read on the way, at every depth |
| `PbSafety.SeenWasStored` | src/Pods/nanopb/pb_decode.c:1003-1024 | What the seen set says was really stored |
| `PbEncode.SizeThenWrite` | src/Pods/nanopb/pb_encode.c:533-542 | Sizing a message and then writing it: writing succeeds exactly if sizing does and the size fits the buffer, writes exactly as many bytes as were counted, and leaves the rest of the buffer alone |
| `PbEncode.SizingAndWritingAgree` | src/Pods/nanopb/pb_encode.c:101-119 | Why: two streams that both meet the contract of encoding agree |
| `PbEncode.GetEncodedSize` | src/Pods/nanopb/pb_encode.c:533-542 | The size is the length of the encoding |
| `PbEncode.OStream.Encode` | src/Pods/nanopb/pb_encode.c:494-516 | Succeeds exactly if there is an encoding and it fits, and then writes exactly that |
| `PbEncode.OStream.EncodeSubmessage` | src/Pods/nanopb/pb_encode.c:682-730 | The two passes agree: the encoding with its length in front; "submsg size changed" cannot be reached |
| `PbEncode.OStream.EncodeField` | src/Pods/nanopb/pb_encode.c:307-392 | One field, present or not |
| `PbEncode.OStream.EncodeArray` | src/Pods/nanopb/pb_encode.c:126-211 | Packed or one by one, and too many items fail |
| `PbEncode.OStream.EncodePacked` | src/Pods/nanopb/pb_encode.c:141-188 | One tag, the size, the items |
| `PbEncode.PackedSize` | src/Pods/nanopb/pb_encode.c:146-166 | The computed size is that of the items |
| `PbEncode.OStream.EncodeVarint` | src/Pods/nanopb/pb_encode.c:574-594 | Least significant seven bits first |
| `PbEncode.FillVarint` | src/Pods/nanopb/pb_encode.c:574-594 | The loop fills the buffer with the varint, at most ten bytes |
| `PbEncode.OStream.EncodeString` | src/Pods/nanopb/pb_encode.c:674-680 | Length, then bytes |
| `PbEncode.OStream.Write` | src/Pods/nanopb/pb_encode.c:101-119 | Counts always; writes only in a buffer and only what fits |
| `PbEncode.OStream.CheckDefault` | src/Pods/nanopb/pb_encode.c:215-303 | Default exactly if the value is what decoding gives an absent field and nothing compared is required or has a fixed length above zero |
| `PbEncoding.DefaultExactly` | src/Pods/nanopb/pb_encode.c:215-303 | The same of the rule: a field holding a required field, or fixed-length bytes, is encoded even when all it holds is zero |
| `PbDecode.IStream.DecodeNoInit` | src/Pods/nanopb/pb_decode.c:901-1049 | Terminates on every input; equals the decoding function; cursor plus bytes left stays the same end on success |
| `PbDecode.IStream.DecodeStaticField` | src/Pods/nanopb/pb_decode.c:401-475 | The same for one field, with substreams closed |
| `PbDecode.IStream.MakeSubstream` | src/Pods/nanopb/pb_decode.c:367-380 | Substream and rest divide the input at the length read |
| `PbDecode.IStream.CloseSubstream` | src/Pods/nanopb/pb_decode.c:382-397 | The parent goes on where the substream ended |
| `PbDecode.IStream.DecodePacked` | src/Pods/nanopb/pb_decode.c:409-437 | Items are appended until the substream is empty, never past the array |
| `PbDecode.IStream.DecodeVarint` | src/Pods/nanopb/pb_decode.c:250-271 | The loop is the varint function |
| `PbDecode.IStream.DecodeVarint32Eof` | src/Pods/nanopb/pb_decode.c:182-242 | The loop is the 32-bit function, and reports the end of the stream |
| `PbDecode.IStream.DecodeTag` | src/Pods/nanopb/pb_decode.c:293-314 | A zero byte ends the message |
| `PbDecode.IStream.DecodeBlob` | src/Pods/nanopb/pb_decode.c:1391-1508 | Bytes, strings and fixed-length bytes within their space |
| `PbDecode.IStream.SkipUnknown` | src/Pods/nanopb/pb_decode.c:316-327 | The stream skips what the function says (that it is the field: UnknownField), and fails where it does |
| `PbDecode.IStream.Read` | src/Pods/nanopb/pb_decode.c:100-132 | Exactly the bytes asked for, or none |
| `PbDecode.DecodeMessage` | src/Pods/nanopb/pb_decode.c:1051-1063 | Defaults first, then the fields |
| `PbDecode.SetToDefaults` | src/Pods/nanopb/pb_decode.c:884-895 | Every cell gets its default |
| `PbDecode.FieldsSeen.Mark` | src/Pods/nanopb/pb_decode.c:1003-1008 | The bit set in its word is membership in the set |
| `PbDecode.FieldsSeen.HasAll` | src/Pods/nanopb/pb_decode.c:1026-1043 | The words' test, whole words and the masked last one, is "all of the first n are in the set" |
| `PbDecode.CheckRequired` | src/Pods/nanopb/pb_decode.c:1008-1043 | Walking to the last field and testing the words says whether all tracked required fields were seen |
| `PbCommon.FieldIter.Next` | src/Pods/nanopb/pb_common.c:20-76 | Cyclic: says no exactly on coming back to the first field; the required index counts the required fields before |
| `PbCommon.FieldIter.Find` | src/Pods/nanopb/pb_common.c:78-97 | Finds a tag exactly if a field has it, whatever the position it starts from, else comes back to it |
| `PbCommon.FieldIter.Begin` | src/Pods/nanopb/pb_common.c:8-18 | At the first field |

## Left out

- HandshakeTheorems.NothingUnexpected: supposes agreed hello parameters (what extension negotiation yields is a parameter both sides share) and callbacks that do not fail.
- HandshakeAgreement.AttackedRunsAgree: supposes that the MAC of Finished is injective and that no third party makes one; how hard that is, is not modelled.
- HandshakeObject.Handshake.Send: a message is one record; its encoding, its fragmentation into records and the protection of the records are not modelled, only the epoch it goes under.
- HandshakeLoop.Connection.Resolve: the alert that goes with a read error is not sent.
- HandshakeObject.Handshake.DoSelectParameters: waiting for a session and waiting for a ticket key are one kind of wait.
- HandshakeObject.Handshake.DoReadSessionTicket: where the code extends the transcript before it finds that a message does not parse, the model fails first; the transcript is not used after an error.
- DtlsHonestPeer.CompleteStays: with a peer that is not honest, supposes that fewer messages are taken than there are 16-bit numbers left; HonestCompleteStays and CompleteWhileOpen suppose nothing of the kind.
- DtlsSender.Sender.SealNextMessage: sizes of sealed records and failures of the cipher come from the environment; the sealed bytes are not modelled here.
- DtlsHonestPeer.DeliveredAsSent: new read keys may come at any point of a run; when the code refuses them is `DtlsReplay.RecordReader.SetReadState`.
- PbRoundTrip.RoundTrip: says nothing of encodings of 4 GiB and more, whose length the decoder cannot read.
- PbSafety.DecodedHasRequired: required fields beyond the first 64 are not checked by the code either.
- RsaPremaster.SelectPremaster: the selection runs on 64-bit words; the less-than and greater-or-equal helpers (internal.h:244-300), which it does not use, are left out.
- RefCount.OneLastReference: supposes that nobody takes a reference when none is left and that the count stays below saturation.
- TlsWrite.Writer.WriteAppData: without partial-write mode and early data; a record split in two by the cipher counts as one seal.
- TLS 1.3, SSL 3.0, the version 2 ClientHello, renegotiation, early data, HelloVerifyRequest, the handback format and hello extension parsing.
- Cryptography, X.509 and randomness: uninterpreted functions with inverse laws, or parameters.
- Allocation failure, the error queue, info and message callbacks, and the caching of parsed certificates in a session.
- DTLS timers, the MTU query and the rest of the write shutdown; the transport either takes a datagram or not.
- Padded records, alerts and the limits on empty records and warnings.
- DER tag numbers of 31 and above, and BER; the session parser's format needs neither.
- In the protocol buffer codec: callbacks, extensions, pointer fields, fixed-count arrays, custom streams, delimited and null-terminated forms; addresses within structs; C strings are their characters up to the terminator.
- The application's own Swift code: user interface, Firebase and Realm plumbing, and list filters that would add only easy members.
