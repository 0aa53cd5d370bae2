# go-dqlite: roles, wire protocol and leader search

A Dafny model of the parts of go-dqlite whose behaviour is decided entirely by
the Go code, with proofs about it.

**Roles.** `RolesRuns` is the role manager as a transition system. A cluster is a
map from node id to role and metadata, where metadata is present exactly if the
node answered the last probe. `Decide` and `AdjustPlan` say what one turn of the
adjustment loop asks for, and `Step`, `IsRun` and `IsCompleteRun` are its runs,
with every choice the code leaves open (map iteration order, who accepts a role)
left open. `RolesChanges`, `AdjustLoop`, `Joins`, `Handovers` and `Background` are
the code itself, as methods over a `Service` whose calls may fail at any time and
then change nothing. `Service` records every configuration the cluster goes
through, which changes were made by others, every call in order (looking for a
client and closing it, joining, listing the members, asking who leads, offering a
role), when readiness was announced and who was asked to take over the leadership;
the contracts are about that record.

**Wire protocol.** `Wire`, `Readers`, `Framing` and `RowFormat` define the format
as byte sequences, with reference readers and encoders for the server's side,
which is not part of this repository, and `Layouts` spells out the format byte by
byte. `Messages` is the message with its reused,
growing buffer, `Params`, `Requests`, `Responses`, `ProtocolRows` and `Lists` are
the encoders and decoders, and `Protocols` is the connection, which hands over
bytes in pieces of any size. `Streaming` walks a result set that spans many
responses, with the bytes abstracted away, and `Driver` is the driver's iterator
on real bytes, proved to do exactly what `Streaming` says.

**Leader search.** `Connector` tries the entries of the node store in role order,
against servers whose answers stay the same during one attempt.

## What is proved

- Every complete run of the adjustment loop ends in one configuration shape that
  depends only on the shape it started from (`RolesRuns.Convergence`), after at
  most as many role changes as an explicit measure says (`RolesRuns.RunBound`),
  and it stops exactly at the fixed points (`RolesRuns.FixedPointIff`).
- Starting from a majority of online voters, a complete run keeps the majority
  throughout if and only if fewer voters than the target are offline
  (`RolesRuns.QuorumKeptIff`): excess online voters are demoted before offline
  ones.
- Complete runs exist from every configuration with a voting leader
  (`RolesRuns.CompleteRunExists`).
- Over the whole life of a node, whatever others do meanwhile, it adds itself at
  most once, promotes itself in one go, announces readiness exactly once, and from
  then on does nothing but adjust roles as the leader (`Background.Run`). Nothing it
  does costs the online voters their majority as long as fewer voters are offline
  than are wanted (`Background.NodeIsHarmless`), and left alone it makes only a
  bounded number of changes (`Background.FinitelyManyChanges`).
- Clusters that grew by joins are already fixed points (`Joins.JoinsSettle`), and a
  handover conserves the number of nodes in the role that is passed on
  (`Handovers.HandoverConserves`).
- Requests are read back as what was encoded, whatever the reused buffer held
  before (`Requests.RequestRoundTrip`), from any chunking of the stream
  (`Protocols.Recv`, `Protocols.RecvSession`).
- Walking a result set yields all rows of all parts in order and then the end, if
  and only if no later part is empty while announcing more
  (`Streaming.StreamingIff`, `Driver.ReadAll`). A result set may be given up
  anywhere, and then nothing of it is left in the connection
  (`Driver.DriverRows.Close`): the next query on it is read from its first row to its
  end (`Driver.QueryAgain`).
- The leader search succeeds if and only if some entry leads to a leader, returns
  the first such entry in role order and closes every other connection exactly
  once (`Connector.Network.AttemptAll`).

## Properties that hold only under a condition

- `RolesRuns.QuorumKeptIff`: the majority is lost exactly when at least as many
  voters are offline as are wanted. `RolesRuns.MajorityLost` is such a run.
- `RolesRuns.EmptyAskedIff`: `Adjust` can name a role and nobody to take it, and the
  loop would then turn forever. This happens exactly when the node running it is
  the only online node of a class whose target is zero, which a voting leader and
  a positive voters target rule out (`RolesRuns.CandidatesExist`).
- `Streaming.StreamingIff`: an empty part that is not the last one surfaces as an
  error of the iterator, because after switching to a part it reads only once.
- `Wire.TextSurvivesIff`: a text is cut at its first NUL.
- `Framing.EncodedSizeIff`: from 2^32 bytes on, the word count in the header wraps
  and the message is cut short. `Protocols.ReceivedWholeIff`: the getters see the
  whole body that was received exactly below 2^29 words.
- `Lists.DumpCompleteIff`: `Dump` stops at the first file without a name.
- `Connector.RedirectKeepsVersion`: a redirect keeps the version and has no
  fallback, so a leader is found through an entry exactly if the entry speaks the
  leader's version, or the legacy one and the leader answers to that too.
  `Connector.RedirectMisses` gives a cluster of either kind that fails.
- `Streaming.CallsAtEnd`: each call of `Next` after the end eats one of the eight
  marker bytes; seven more calls are safe and the eighth panics
  (`Streaming.EighthCallPanics`), which is why `Driver.DriverRows.Next` requires that
  one is left. `Driver.NothingAheadIff` says so of the bytes.

## Assumptions

- Node ids are unique, and nobody else changes the cluster, its online nodes or
  their metadata during one turn of a node. Between turns others may change
  anything (`Service.Wait`).
- A node that leads is a voter and its own probe succeeds (`Service.Leader`). The
  voters target is at least 3 where the proof needs it (app/app.go:230 demands it)
  and the stand-bys target is not negative.
- `Assign` is refused for unknown nodes and for nodes that already have the role;
  a failed call changes nothing.
- On an interrupt the server still delivers any whole responses it had already
  written, then an empty response, and nothing after that (`Protocols.ServeInterrupt`).
- A result set without columns comes in one response without rows. If such a
  response announced more, the driver would report the end and never interrupt, and
  the rest would stay in the connection.
- The responses to a query arrive on a connection that holds nothing else
  (`Driver.ServeQuery`).
- Responses are well-formed. Where the code would panic on malformed input, the
  methods require the input that the reference reader accepts.

## Model

| member | source | states |
|---|---|---|
| `RolesRuns.StayIffTarget` | app/roles.go:145-227 | the decision has nothing to do exactly on the class counts that equal the target computed from them |
| `RolesRuns.MoveEffect` | app/roles.go:145-227 | one accepted change strictly lowers 2·abs(online voters − target) + offline voters + abs(online stand-bys − target) + offline stand-bys, and leaves the target and the number of online nodes as they were |
| `RolesRuns.StepNode` | app/roles.go:129-228 | a turn of the loop moves exactly one node of an asked class to the role, never the leader, and touches nobody else |
| `RolesRuns.StepEffect` | app/app.go:638-673 | one turn lowers the measure, in small clusters too, and keeps members, metadata, leader and target |
| `RolesRuns.CandidatesExist` | app/roles.go:134-227 | with a voting leader the candidate list is never empty, never holds the leader, and holds only nodes that lack the role and, for promotions, are online |
| `RolesRuns.EmptyAskedIff` | app/roles.go:172-221 | exactly when a role is named with nobody to take it |
| `RolesRuns.WhoIsAskedIff` | app/roles.go:129-228 | node by node, exactly who is asked to take which role: voters are put right before stand-bys, and offline nodes lose a role only when the online ones suffice |
| `RolesRuns.FixedPointIff` | app/roles.go:129-228 | Adjust returns no change if and only if the configuration is settled, said without its branches; below three nodes that means the leader is the only voter |
| `RolesRuns.RunEffect` | app/app.go:638-673 | along every run the measure drops by at least one per change, and members, leader and target are kept |
| `RolesRuns.RunBound` | app/app.go:638-673 | no run makes more role changes than the measure of its first configuration, spelled out for clusters of at least three nodes |
| `RolesRuns.Convergence` | app/app.go:638-673 | every complete run ends with min(m, Voters) online voters, and for m ≥ Voters with no offline voter, min(m − Voters, StandBys) online stand-bys and, with enough nodes, no offline stand-by |
| `RolesRuns.OfflineUntouched` | app/roles.go:145-227 | with fewer nodes online than voters wanted, no run changes any offline node |
| `RolesRuns.StepKeepsSafe` | app/roles.go:134-190 | a turn keeps the leader a voter, the online voters a strict majority and the offline voters fewer than the target |
| `RolesRuns.RunKeepsQuorum` | app/roles.go:134-190 | the same for every point of every run, in clusters of any size, and the leader's entry never changes |
| `RolesRuns.QuorumKeptIff` | app/roles.go:172-190 | the side condition of quorum safety is exact |
| `RolesRuns.CompleteRunExists` | app/app.go:638-673 | from every configuration with a voting leader the loop can go on to a fixed point |
| `RolesRuns.MajorityLost` | app/roles.go:172-190 | a complete run from four online and three offline voters, with three wanted, that loses the majority |
| `RolesChanges.LessIsStrictWeakOrder` | app/roles.go:280-298 | the comparator is a strict weak order for every set of used domains |
| `RolesChanges.OrderedIff` | app/roles.go:276-298 | sorted means: nodes outside the given failure domains first, lighter nodes first within each group |
| `RolesChanges.PreferredIff` | app/roles.go:264-300 | sorting by the domains of the online nodes with the role is the documented preference: candidates from domains that host no such node come first, lighter ones first within each group |
| `RolesChanges.HandoverToOthers` | app/roles.go:82-123 | nobody hands a role to itself, and every receiver is online and lacks the role |
| `RolesChanges.ReceiversIff` | app/roles.go:82-123 | exactly who can receive a role: any online spare, and any online stand-by if it is a voter's; without one nothing is handed over |
| `RolesChanges.AssumeIff` | app/roles.go:41-75 | exactly when a node takes which role at startup, whatever the rest of the cluster looks like |
| `RolesChanges.RolesChanges.List` | app/roles.go:247-255 | exactly the nodes with the role and reachability, each once |
| `RolesChanges.RolesChanges.FailureDomains` | app/roles.go:264-274 | exactly the domains of the online nodes among those given |
| `RolesChanges.RolesChanges.SortCandidates` | app/roles.go:279-300 | in place: a permutation of the candidates in preference order |
| `RolesChanges.RolesChanges.Ranked` | app/roles.go:152-171 | all promotable online nodes, each once, in preference order |
| `RolesChanges.RolesChanges.Handover` | app/roles.go:82-123 | our role and exactly those who can receive it, each once, in the preference order that leaves us out, or nothing |
| `RolesChanges.RolesChanges.Adjust` | app/roles.go:129-228 | the role and exactly the candidates of the plan, each once, in the preference order for promotions; one of them in a small cluster |
| `RolesChanges.RolesChanges.Rebalance` | app/roles.go:145-227 | the branches for clusters of at least three nodes: the role and the exact candidates of the decision, in the preference order for promotions |
| `RolesChanges.RolesChanges.DemoteOther` | app/roles.go:134-144 | in a smaller cluster, one voter other than the leader, if there is one |
| `Sorting.SortSlice` | app/roles.go:281-299 | for any comparator that is a strict weak order on the elements: a permutation in which nothing precedes something less |
| `Service.Service.Add` | client/client.go:157-181 | adds a new spare or changes nothing |
| `Service.Service.Assign` | client/client.go:193-213 | changes exactly one role or nothing |
| `AdjustLoop.MaybeAdjustRoles` | app/app.go:638-673 | what happens to the cluster is a run of the transition system within the bound; when it returns without error the cluster is settled on its target; quorum safety holds at every point of its history; the last call tells why it stopped |
| `AdjustLoop.AdjustUntilDone` | app/app.go:638-673 | what the loop adds to the history is a run, and it stops without error only where there is no plan |
| `AdjustLoop.OneTurn` | app/app.go:639-672 | asks who leads before anything else and goes on only as the leader; tells apart another leader, a failed call, refusal by all and nothing to do |
| `AdjustLoop.AdjustOnce` | app/app.go:653-672 | offers the role to the candidates in the order Adjust gave, to all of them unless one takes it; the cluster changes by that one step or not at all; idle if and only if there is no plan |
| `AdjustLoop.OfferInOrder` | app/app.go:658-670 | the nodes of a list are asked in order; the first that accepts gets the role, and otherwise all have refused |
| `Joins.MaybePromoteOurselves` | app/app.go:604-635 | we are offered our role first; the history gains our promotion, and that of at most one helper when there was a single voter; an error changes nothing |
| `Joins.PromoteHelper` | app/app.go:620-632 | the nodes that do not vote are asked, each at most once, until one accepts or all have refused |
| `Joins.PromotionKeepsMajority` | app/app.go:604-635 | if we are online, promoting ourselves, and a helper that may be offline, never costs the online voters their majority |
| `Joins.AssumeHelps` | app/roles.go:41-75 | what a spare takes at startup lowers the measure and exceeds no target |
| `Joins.JoinGrows` | app/app.go:549-591 | one join takes the classes of an n-node cluster to those of n + 1 |
| `Joins.ThirdNode` | app/app.go:620-632 | the third node makes all three voters |
| `Joins.JoinsSettle` | app/app.go:549-635 | after any number of joins the classes are min(n, Voters) voters, min(n − voters, StandBys) stand-bys and spares, and Adjust changes nothing, for one and two nodes too |
| `Handovers.HandoverConserves` | app/app.go:338-408 | one receiver gains the role, we become spare, the number of nodes with the role is the same, and the voter counts never drop on the way |
| `Handovers.HandoverOutcome` | app/app.go:338-408 | on the configurations a successful handover leaves behind: an online node that could receive our role has it, we are spare, everybody else is as before, role and voter counts are kept |
| `Handovers.PassOn` | app/app.go:341-355 | our role is offered to the receivers in the preferred order until one takes it |
| `Handovers.Handover` | app/app.go:316-411 | the history gains the promotion, and the demotion if and only if it returns success; the receivers were asked in the preferred order; if nobody takes the role nothing changes; every client is closed again and at most one node is asked to lead |
| `Handovers.DemoteUntil` | app/app.go:390-408 | keeps asking to be a spare until it works or time is up, and for nothing else |
| `Handovers.TransferLeadership` | app/app.go:358-387 | if we lead, the record of transfers gains exactly one other online voter, if there is one; otherwise it is unchanged |
| `Background.Run` | app/app.go:528-601 | on the record of the cluster: every firing of the timer looks for a client; the changes we made are one addition of ourselves if we had to join, then one promotion ending where readiness was announced, then only adjustments made as the leader; unless cancelled before, we have taken the role meant for us when we announce readiness; every turn follows the rules of an observer of its calls |
| `Background.ClientsClosed` | app/app.go:528-601 | such a record announces readiness exactly once, closes every client exactly once before the next is opened, and adds the node at most once and only if it had to join |
| `Background.TurnsGetThrough` | app/app.go:542-599 | a client is closed only after joining, listing the members or taking our role failed, or readiness was announced, or it was found out who leads |
| `Background.NodeIsHarmless` | app/app.go:528-635 | no change of ours costs the online voters their majority, as long as fewer voters are offline than are wanted and we are online when we promote ourselves, whatever others do in between |
| `Background.FinitelyManyChanges` | app/app.go:595-599 | left alone after readiness, a node changes no more roles than the measure says, however often the timer fires |
| `Background.Tick` | app/app.go:542-561 | one firing of the timer keeps the law and closes the client it opened, whichever way it ends |
| `Background.WithMember` | app/app.go:564-599 | the part of a turn after joining: promotes before readiness, adjusts after it, and closes the client on every path |
| `Background.GetReady` | app/app.go:577-591 | readiness is announced right after the promotion, and not at all if that failed |
| `Background.GiveUp` | app/app.go:535-541 | cancelled before it was ready, the node announces readiness and has changed nothing but its membership |
| `Wire.NumLE` | internal/protocol/message.go:131-144 | little-endian numbers are read back |
| `Wire.TextSurvivesIff` | internal/protocol/message.go:301-320 | a text comes back whole, with the offset behind its padding, if and only if it holds no NUL |
| `Wire.ReadBlobAt` | internal/protocol/message.go:322-338 | a blob comes back whole, empty ones too, with the offset behind its padding |
| `Wire.ReadValueAt` | internal/protocol/message.go:545-587 | every valid value without NUL is read back from wherever its encoding stands |
| `Layouts.LowestFirst` | internal/protocol/message.go:131-144 | byte i of a number is its i-th digit in base 256, lowest first |
| `Layouts.TextShape` | internal/protocol/message.go:86-112 | a text, a NUL, zeros up to the next multiple of eight bytes |
| `Layouts.BlobShape` | internal/protocol/message.go:59-83 | eight bytes of length, the data, zeros up to a multiple of eight |
| `Layouts.TypeCodes` | internal/protocol/constants.go:23-36 | the type code of every kind of value |
| `Layouts.FixedValues` | internal/protocol/message.go:194-220 | the number that stands for each value of fixed size |
| `Layouts.TypeNames` | internal/protocol/message.go:658-686 | the name of a column type belongs to the values read from that column, and exactly the types that can be read have one |
| `Layouts.FrameShape` | internal/protocol/message.go:273-282 | length, type, schema, extra and body of a frame, in this order |
| `Layouts.TupleShape` | internal/protocol/message.go:162-251 | count, type codes, skipped bytes and values of a parameter tuple |
| `Layouts.HeaderShape` | internal/protocol/message.go:487-535 | two columns per byte of a row header, the first in the low half |
| `Layouts.MarkerShape` | internal/protocol/message.go:500-514 | a response ends in eight equal bytes, 0xff for the last one and 0xee for the others |
| `Layouts.PartShape` | internal/protocol/message.go:411-424 | column count, names and rows of a response |
| `Layouts.NodeShape` | internal/protocol/message.go:389-400 | id, address and role of a node |
| `Layouts.FileShape` | internal/protocol/message.go:618-630 | name, length and data of a file |
| `Layouts.RequestTypes` | internal/protocol/constants.go:38-59 | the type of every request, and the schema that marks wide parameters |
| `Layouts.RequestShape` | internal/protocol/request.go:9-212 | the bytes of every request body |
| `Messages.Message.Reset` | internal/protocol/message.go:47-56 | clears header and position |
| `Messages.Message.BufferForPut` | internal/protocol/message.go:284-293 | doubling ends with enough room and keeps every byte written so far |
| `Messages.Message.PutUint8` | internal/protocol/message.go:115-120 | appends one byte to what was written |
| `Messages.Message.PutUint32` | internal/protocol/message.go:131-136 | appends four bytes |
| `Messages.Message.PutUint64` | internal/protocol/message.go:139-144 | appends eight bytes |
| `Messages.Message.PutString` | internal/protocol/message.go:86-112 | appends the text, a NUL and zeros up to the word, whatever the buffer held |
| `Messages.Message.PutBlob` | internal/protocol/message.go:59-83 | appends the length, the bytes and zeros up to the word |
| `Messages.Message.PutValue` | internal/protocol/message.go:194-220 | appends the encoding of the value |
| `Messages.Message.PutHeader` | internal/protocol/message.go:255-282 | finishes the message; eight times the stored words is the offset for bodies under 2^32 bytes |
| `Messages.Message.GetUint64` | internal/protocol/message.go:365-370 | what the reference reader reads, and its position |
| `Messages.Message.GetString` | internal/protocol/message.go:301-320 | what the reference reader reads, although the search covers stale bytes behind the body |
| `Messages.Message.GetBlob` | internal/protocol/message.go:322-338 | what the reference reader reads, padding consumed |
| `Framing.TakeFrameInverts` | internal/protocol/protocol.go:162-205 | a frame comes back whatever follows it, and exactly its bytes are taken |
| `Framing.SessionRoundTrip` | internal/protocol/protocol.go:123-205 | any sequence of frames is read as that sequence |
| `Framing.EncodedSizeIff` | internal/protocol/message.go:273-282 | a finished message is read back whole if and only if its body is under 2^32 bytes |
| `Framing.WholePrefix` | internal/protocol/protocol.go:84-115 | a cut of a stream that leaves whole frames is a prefix of its frames |
| `Params.PutNamedValues` | internal/protocol/message.go:162-251 | appends count, type codes, skipped bytes with stale contents, and values |
| `Params.TupleRoundTrip` | internal/protocol/message.go:162-251 | both tuple formats are uniquely decodable, whatever the skipped bytes hold |
| `Requests.Encode` | internal/protocol/request.go:9-212 | every encoder reaches the header with a positive word-aligned offset and leaves a body of its request |
| `Requests.BodyAligned` | internal/protocol/request.go:9-212 | every body is non-empty and fills whole words |
| `Requests.FieldsRoundTrip` | internal/protocol/request.go:9-212 | a list of fields is read back and uses up the body |
| `Requests.RequestRoundTrip` | internal/protocol/request.go:9-212 | the server reads exactly the request that was encoded |
| `Requests.SentRequestIsRead` | internal/protocol/protocol.go:123-160 | the bytes sent, followed by anything, are taken as one frame and parsed as the request |
| `Requests.DriverFormat` | driver/driver.go:382-425 | for statements and queries the driver refuses exactly the counts that do not fit, uses the wide format exactly when needed, and in either format the server reads the same database, statement and parameters |
| `Responses.Decode` | internal/protocol/response.go:34-99 | a failure is reported whatever was asked for, another type is an error, otherwise exactly the fields of the body come out |
| `Responses.DecodeFailure` | internal/protocol/response.go:11-31 | the code and the description of a failure |
| `Responses.DecodeAnswer` | internal/protocol/response.go:11-278 | against the answers of a reference server: the wanted one comes out field by field and is used up, a failure is reported with its code and message, every other type is an error |
| `Protocols.RecvFill` | internal/protocol/protocol.go:221-238 | succeeds if and only if bytes are left and one of the next hundred reads is not empty |
| `Protocols.RecvPeek` | internal/protocol/protocol.go:208-218 | fills the buffer with exactly the next bytes, and fails only if they are missing or the connection stalls |
| `Protocols.Recv` | internal/protocol/protocol.go:162-205 | takes exactly one frame off the stream, however it was cut into pieces |
| `Protocols.ReceivedWholeIff` | internal/protocol/message.go:434-453 | the getters see the whole received body if and only if it is below 2^29 words |
| `Protocols.RecvSession` | internal/protocol/protocol.go:162-238 | repeated receiving yields the frames that were sent and leaves what follows them |
| `Protocols.Send` | internal/protocol/protocol.go:123-160 | header and body go out whole, or an error is returned |
| `Protocols.InterruptQuery` | internal/protocol/protocol.go:84-115 | on success nothing the server produced for the query is left |
| `Protocols.DrainToEmpty` | internal/protocol/protocol.go:95-112 | drops responses up to and including the empty one, and nothing behind it |
| `RowFormat.RowHeaderRoundTrip` | internal/protocol/message.go:487-535 | the header fills 8·ceil(n/16) bytes, none of which is an end marker, and the codes come back |
| `RowFormat.ReadRowAt` | internal/protocol/message.go:539-590 | a row is read back, stopping right behind its last value |
| `RowFormat.PartColumns` | internal/protocol/message.go:411-424 | the column names are read back, stopping at the first row |
| `RowFormat.PartRow` | internal/protocol/message.go:539-590 | reading at the start of row i yields row i and stands at row i + 1 |
| `RowFormat.PartMark` | internal/protocol/message.go:487-535 | any of the eight marker bytes ends the part with its marker |
| `RowFormat.PeekFits` | internal/protocol/message.go:470-536 | peeking never meets the end of a well-formed part |
| `ProtocolRows.Rows.ColumnCodes` | internal/protocol/message.go:470-536 | the codes or the marker ahead; with `save` the position is unchanged |
| `ProtocolRows.ScanHeader` | internal/protocol/message.go:487-535 | unpacks exactly the nibbles up to the end of the header or to the first marker |
| `ProtocolRows.Rows.Next` | internal/protocol/message.go:539-590 | the row or marker the reference reader finds, and its position; every value as it was sent, but for the empty timestamp |
| `ProtocolRows.SeenIs` | internal/protocol/message.go:545-587 | every value is delivered as it is, but for the empty timestamp, which is NULL |
| `ProtocolRows.Rows.ColumnTypes` | internal/protocol/message.go:658-686 | names for all columns or none, position unchanged |
| `ProtocolRows.Rows.Close` | internal/protocol/message.go:593-610 | the last byte of an unfinished response decides |
| `ProtocolRows.DecodeRows` | internal/protocol/response.go:214-233 | failure, wrong type, or an iterator with the column names, standing at the first row |
| `Lists.GetNodes` | internal/protocol/message.go:389-400 | what the reference reader reads, and its position |
| `Lists.NodesRoundTrip` | internal/protocol/message.go:389-400 | every node list is read back, stopping right behind it |
| `Lists.Files.Next` | internal/protocol/message.go:618-630 | the next file, or nothing when none is left |
| `Lists.FilesRoundTrip` | internal/protocol/message.go:618-630 | every list of files is read back, empty files included, stopping right behind it |
| `Lists.Dump` | client/client.go:137-147 | the files before the first unnamed one; a complete dump consumes the encoding |
| `Lists.DumpCompleteIff` | client/client.go:139-147 | a dump is complete if and only if every file has a name |
| `Streaming.NextRow` | driver/driver.go:719-740 | a returned row is the first remaining one, and the end is reported only when none remains |
| `Streaming.CallsAtEnd` | driver/driver.go:719-740 | at the end of the final part, further calls run out of marker bytes exactly after the eighth byte |
| `Streaming.EighthCallPanics` | internal/protocol/message.go:444-453 | after the first report of the end, seven more calls are safe and the eighth panics |
| `Streaming.StreamingIff` | driver/driver.go:719-740 | draining yields all rows of all parts and then the end, if and only if no later part is empty while announcing more |
| `Streaming.Delivery` | driver/driver.go:719-740 | value by value, the rows that come out are the rows that were sent; only an empty timestamp comes out as NULL |
| `Driver.AtPosition` | internal/protocol/message.go:539-590 | at every position the reader finds what the part holds there |
| `Driver.DriverRows.ColumnTypes` | driver/driver.go:757-772 | peeking at types never moves the stream, at any position |
| `Driver.DriverRows.Next` | driver/driver.go:719-740 | on bytes, each call returns and leaves what the streaming model says, and fails only on network errors |
| `Driver.DriverRows.NextPart` | driver/driver.go:722-733 | closing, receiving and decoding the next response lands at its first row |
| `Driver.DriverRows.Close` | driver/driver.go:691-712 | an interrupt goes out if and only if the current part announces more, on success the connection holds nothing of the query, and both messages can be used again |
| `Driver.Open` | driver/driver.go:432-452 | the first response sets the iterator to the start of the result set |
| `Driver.ReadAll` | driver/driver.go:719-740 | walking to the end over a connection that never stalls returns what draining the streaming model returns |
| `Driver.NothingAheadIff` | internal/protocol/message.go:444-453 | the reader finds nothing exactly when all eight marker bytes are eaten |
| `Driver.Query` | driver/driver.go:418-453 | a query on an empty connection opens the result set the server answers with |
| `Driver.QueryAgain` | driver/driver.go:418-453 | wherever a result set is given up, the next query on the connection is read from its first row to its end; without empty timestamps the rows are exactly those sent |
| `Connector.UsableIff` | internal/protocol/connector.go:131-185 | what makes an entry usable, in terms of the servers' answers alone |
| `Connector.Network.AttemptOne` | internal/protocol/connector.go:223-298 | connected if and only if the server leads; an unreturned connection is closed once; which answers redirect, name nobody or ask for the legacy version |
| `Connector.Network.TryEntry` | internal/protocol/connector.go:131-185 | at most three dials per entry; succeeds if and only if the entry is usable; closes every other connection once |
| `Connector.Network.AttemptAll` | internal/protocol/connector.go:118-189 | succeeds if and only if some entry is usable, uses the first in role order, and leaks no connection |
| `Connector.SortByRole` | internal/protocol/connector.go:124-127 | in place: a permutation sorted by role |
| `Connector.LowestRole` | internal/protocol/connector.go:124-185 | the used entry has the lowest role among the usable ones |
| `Connector.FindsAgreedLeader` | internal/protocol/connector.go:118-189 | if all answers agree on a leader, it is found if and only if the store holds someone who names it, in any order |
| `Connector.RedirectKeepsVersion` | internal/protocol/connector.go:162-184 | exactly when an entry gets to the leader it names, given that the leader can be reached directly |
| `Connector.RedirectMisses` | internal/protocol/connector.go:162-184 | mixed clusters of both kinds exist in which the leader is missed |

## Left out

- Handovers.TransferLeadership: does not say that leadership moves; the loop ends after one attempt whether or not it worked, so a node may still lead when it is demoted.
- Handovers.Handover: retries of the final demotion are bounded by a number of attempts in place of a deadline.
- Joins.MaybePromoteOurselves: when every helper refuses, nothing is said about the fixed point; the leader's next adjustment repairs it.
- Messages.Message.PutValue: floats are opaque 64-bit words and timestamps are their text; formatting and parsing of times, with its errors, is not modelled.
- Params.PutNamedValues: parameters are taken in order of position; the ordinals and unsupported types that make the source panic are not modelled.
- Protocols.Recv: the sticky network error, locks, deadlines and contexts are not modelled; a failure may happen at any read or write.
- Responses.Decode: the generated decoders are one method over the list of fields each of them reads.
- Requests.Encode: the generated encoders are one method over the list of fields each of them writes.
- Connector.Network.AttemptAll: retries, backoff and cancellation around an attempt are not modelled; nor is a server that changes its answer during one attempt.
- Sorting.SortSlice: nothing is said about equal elements, so stand-bys are not claimed to precede spares of the same weight.
- Driver.QueryAgain: the query is assumed short enough for the 32-bit size, as in `Driver.Askable`.
- The parallel probing of nodes: its result is taken as given.
- The heartbeat, which the source has commented out.
- Prepared statements, transactions and the mapping of errors in the driver.
- Node stores, TLS, proxies, the C bindings, configuration options, the shell and the benchmark.
