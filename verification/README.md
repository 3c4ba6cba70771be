# Coaptic in Dafny

Coaptic is a bounded-memory CoAP library. This project models the parts of it where many
operations have to agree with each other, and proves what they agree on.

- **Discovery text and URIs.** An RFC 6690 parser and writer, a percent-encoding catalog writer and
  a URI parser. The parser is characterised exactly (`LinkGrammar.ParsesExactly`), down to the words of
  the two grammars (`LinkValues`) and the label of a refusal (`LinkRefusals.RefusedIff`); the catalog of
  any reachable route table reads back as the registered routes (`Sites.DiscoveryFindsRoutes`), and URI
  parsing is characterised exactly too (`UriText.ParsesIff`, `UriText.RefusesIff`).
- **The client call lifecycle.** Two fixed tables, the storage engine and the operations on them, as
  a state machine (`ClientModel`, `ClientRuns`) and as classes changed in place (`LiveTable`,
  `ReplyTable`, `Clients`, `ClientPoll`, `ClientReceive`, `ClientAsync`, `ClientRevoke`, `Send`,
  `Prepared`, `Outgoing`). The methods have the model's effect; the laws are proved of every run of
  the model without revocations: a finished call has an outcome until it is collected, and is handed it
  once, as it was delivered (`ClientOutcomes`); an unfinished one is not forgotten; every packet and body
  has one owner; dropping a new request in preparation leaves what refusing it would; stored notifications
  are in the sender's order; cooldowns survive row removal, the reported timeout is exact, and a receive
  packet stays free.
- **Identity allocation.** Message ID reuse over unbounded runs, and the uniform jitter each ID leaves.
- **Associations.** Namespaces that never repeat and resolution, by namespace or for a protected request,
  that is never ambiguous.
- **Retransmission.** Every attempt the transport took uses up an attempt number, so none is repeated, and
  each waits twice as long as the one before.

## How the model reads

Text is a Dafny `string` of Unicode scalar values; where the library works on UTF-8 bytes the model
goes through `Utf8`. The library's byte predicates accept only ASCII, so testing bytes and testing
characters agree (`Utf8.AsciiScan`).

The storage engine is a value (`Engines.Engine`) with the interface the client uses: exchanges by
token and peer, observe interest, transmit slots with a pending mark, receive packets, body and upload
slots, security bindings. A peer stands for a whole endpoint, namespace included.

Everything outside the library is a parameter: clocks, entropy (the next eight answers of the
source), transports (how the race between timer and send ended), what applying a block to a body
reported, whether a follow-up could be sent. A statement for all parameters is a statement for all
behaviours. A prepared call holds the whole application exclusively, so nothing interleaves between
its preparation and its commitment or drop; its own steps may each fail or be the last.

A call's path, queries and method are its cooldown target; `Queries` shows that the packed query
buffers the library compares stand for exactly the query lists.

A delivery's awaits are its ACK or Reset and its follow-ups. Dropped at the former it is the
`Interrupted` step, and also when that send fails in doubt; dropped at the latter it is a delivery whose
follow-up was not sent, because the call is abandoned and failed either way.

Seven statements the code does not meet are recorded as such. Each has a run from an idle client that
breaks it (`Scenarios`, `Subscriptions`) and the exact condition under which it holds.

- A stored response stays until it is collected. A further confirmable response with its token, refused
  with a Reset that is cut short or fails in doubt, replaces it by a failure
  (`Scenarios.ResponseReplaced`, `ClientRuns.OutcomeKeptIff`).
- A Reset, or the last retransmission, ends the call that sent the packet. It ends the first call whose
  exchange names the slot, and an older non-confirmable request may still name a slot taken again
  (`Scenarios.ResetCanMiss`, `Authority.EndsOnlyTheSenderIff`).
- A call's exchange is its own. A failed upload send drops the first exchange that names its slot, which
  leaves the other call waiting for ever (`Scenarios.UploadRobs`, `ClientRuns.ExchangeLostIff`,
  `Authority.RobsNoneIff`).
- An outcome always finds a row. Revoking an association clears live rows and leaves their failures in
  the reply table; admission counts live rows only, so a call admitted next can find the table full
  (`Scenarios.RevokedCanLose`, `Revocation.AdmittedFitsIff`).
- An outcome is handed out once. Revocation also fails retired rows, so a call that was collected and is
  still cooling is answered again (`Scenarios.AnsweredTwice`, `Revocation.AnsweredAgainIff`).
- A delivery is about its own call. A response is also looked up as an acknowledgement by its Message ID,
  which in a separate response is the server's own; it can end the retransmissions of another request to
  that server (`Scenarios.ResponseSilences`, `ClientPackets.PacketStopsIff`).
- A subscription without a deadline lasts until one side ends it. A notification in blocks sends a further
  request, which counts as overdue once the registration's lifetime is past, and the next poll ends the
  subscription (`Subscriptions.SubscriptionCut`, `Subscriptions.ClockSparesIff`).

## Model

| member | source | states |
|---|---|---|
| `Utf8.DecodeEncode` | src/uri.rs:274-290 | Encoding any text gives bytes that pass the scalar-at-a-time check, and decoding them gives the text back |
| `Utf8.WellFormedIff` | src/uri.rs:274-290 | A byte string passes exactly when it is the UTF-8 encoding (section 4 of RFC 3629) of some text, and of only one |
| `Utf8.SplitAtAscii` | src/uri.rs:217-232 | Byte strings on both sides of an ASCII byte are well formed together exactly when each is alone |
| `Utf8.AsciiScan` | src/link_format.rs:209-221 | Testing every byte of a text against an ASCII class is testing every character |
| `Uri.ScanText` | src/uri.rs:263-273 | The first loop of `validate` accepts exactly text whose escapes are complete and whose other characters are in the class |
| `Uri.ScanScalars` | src/uri.rs:274-290 | The second loop accepts exactly the byte strings that are well-formed UTF-8 as a whole |
| `Uri.Validate` | src/uri.rs:263-291 | `validate` accepts a component exactly when its characters and escapes are legal and its decoded bytes are UTF-8 |
| `Uri.ValidComponents` | src/uri.rs:217-232 | Text is valid exactly when every piece between separators is, so splitting before decoding is safe |
| `Uri.PathDecodes` | src/uri.rs:163-189 | In a valid path every segment decodes to UTF-8, and the byte test finds exactly the segments that read "." or "..", however they are spelled |
| `Uri.TailRefused` | src/uri.rs:163-189 | The last checks refuse as bad encoding exactly an invalid path or query, and then as a dot segment exactly a path with a segment that reads "." or ".." |
| `Uri.HexSpelled` | src/uri.rs:244-251 | A hexadecimal digit of an escape is its place in "0123456789abcdef" or "0123456789ABCDEF" |
| `Uri.ClassesSpelled` | src/uri.rs:235-243 | The four character classes are the sets of section 2 of RFC 3986, character by character |
| `Uri.AcceptedDecodes` | src/uri.rs:99-189 | In an accepted URI every segment, query argument, name and zone decodes, no segment reads "." or "..", and scheme, authority, path and query reassemble the input |
| `UriText.ParsesIff` | src/uri.rs:99-189 | `Uri::parse` accepts a text with certain parts if and only if the text is some spelling of the scheme, a namable host, a port of 16 bits or none, a path that is empty or starts with a slash and in which nothing reads "." or "..", and a query, all valid |
| `UriText.RefusesIff` | src/uri.rs:99-189 | It refuses for a fragment exactly a text with a number sign, for the scheme exactly one that begins with neither scheme, and for dot segments exactly one that is otherwise a good URI and has a segment that reads "." or ".." |
| `UriText.ParsesText` | src/uri.rs:99-189 | Completeness in any spelling of the scheme and any spelling of the port: exactly those parts come back, or the refusal of a dot segment exactly if there is one |
| `UriText.ParsesBack` | src/uri.rs:99-189 | In particular for a URI written from a transport, a host, a port number and a path and query |
| `UriErrors.Answers` | src/uri.rs:99-189 | The answer to a text put together from a scheme, an authority of any shape, a path and a query: the refusal of the first part that is wrong, with its label, or the parts |
| `UriErrors.Parts` | src/uri.rs:112-189 | Every text after a scheme is put together so |
| `UriErrors.SchemeSpelled` | src/uri.rs:103-110 | The schemes are coap and coaps, each letter in either case |
| `Strings.LowerSpelled` | src/uri.rs:104-108 | Comparing without regard to case pairs each upper-case letter with its lower-case one and changes no other character |
| `Uri.Decode` | src/uri.rs:50-66 | `decode` writes exactly the decoded bytes and returns their text; a short buffer is refused and not modified |
| `LinkSyntax.ScanQuoted` | src/link_format.rs:233-248 | The quoted-string scan finds the closing quote the grammar does |
| `LinkSyntax.ReadAttributes` | src/link_format.rs:190-206 | The attribute loop, keeping only the unread text and the mask, stops where the attribute list of the document does |
| `LinkSyntax.ParseLink` | src/link_format.rs:183-206 | `parse_link` gives the link and the remaining text of the reference reading, and what remains is strictly shorter |
| `LinkSyntax.Links.Next` | src/link_format.rs:166-181 | One step of the iterator consumes input, or reports the error and ends |
| `LinkSyntax.Links.Drain` | src/link_format.rs:162-181 | Draining the iterator gives the links of the document, or its first error |
| `LinkGrammar.AttributeSound` | src/link_format.rs:208-263 | An accepted attribute is grammatical, and its text and what follows reassemble the input |
| `LinkGrammar.AttributeComplete` | src/link_format.rs:208-263 | Every grammatical attribute before a separator is read back as itself |
| `LinkGrammar.MaskStep` | src/link_format.rs:265-287 | One step of the bit mask for rt, if and sz is one step of counting them without regard to case |
| `LinkGrammar.AttributesAgain` | src/link_format.rs:99-109 | Iterating `Link::attributes` again over the retained slice never stops early and yields the validated attributes |
| `LinkGrammar.DocumentSound` | src/link_format.rs:162-206 | An accepted document is exactly the written form of the links and attributes read from it |
| `LinkGrammar.DocumentComplete` | src/link_format.rs:162-206 | Every written document of admissible links is accepted, with those links |
| `LinkGrammar.ParsesExactly` | src/link_format.rs:162-287 | A document parses to a list of links if and only if the list is admissible and the document is its written form |
| `LinkSyntax.NamesSpelled` | src/link_format.rs:328-330 | The characters of attribute names, written out |
| `LinkSyntax.TokensSpelled` | src/link_format.rs:332-334 | The characters of unquoted values, written out |
| `LinkValues.ControlSpelled` | src/link_format.rs:233-248 | The characters a quoted string may hold bare or escaped, written out |
| `LinkValues.NameIff` | src/link_format.rs:208-221 | A name is one or more name characters, with or without a final star |
| `LinkValues.CardinalIff` | src/link_format.rs:303-307 | A size is the decimal spelling of a number, without leading zeros, and of any number |
| `LinkValues.CodeIff` | src/link_format.rs:281-284 | A content-format code is such a spelling of a number up to 65535 |
| `LinkValues.ListedIff` | src/link_format.rs:295-301 | The list test and the word splitter together read exactly words with one or more spaces between them |
| `LinkValues.UriCharsIff` | src/link_format.rs:336-350 | Link targets are exactly what can be put together from legal characters and complete escapes |
| `LinkValues.RelationTypeIff` | src/link_format.rs:309-326 | A relation type is a registered name or a URI with a scheme |
| `LinkValues.CarriesIff` | src/link_format.rs:277-287 | The value test of the known attributes: relation types, one unquoted number, or a list of codes |
| `LinkRefusals.AttributeIff` | src/link_format.rs:208-263 | An attribute is read from a text, with a remainder, if and only if it is grammatical, the two make the text, and the remainder does not continue it |
| `LinkRefusals.RefusedIff` | src/link_format.rs:162-287 | A document is refused as holding a reserved or repeated attribute if and only if it is admissible up to an attribute that is one |
| `LinkRefusals.FaultyRefused` | src/link_format.rs:162-287 | The first inadmissible attribute decides: reserved before repeated before a bad value |
| `LinkWriter.CharsOfEscape` | src/link_format.rs:39-49 | Undoing the escapes of a written quoted string gives the original characters |
| `LinkWriter.DescribedOk` | src/link_format.rs:406-428 | Metadata that `validate` passes describes a grammatical, admissible attribute list |
| `LinkWriter.FirstExtensionIs` | src/link_format.rs:404-427 | Metadata is refused for its first bad extension: as reserved if it has a core name, else as syntax |
| `LinkValues.ExtensionIff` | src/link_format.rs:404-427 | The extensions that may be written: a name of name characters, and text without control characters but the tab |
| `LinkWriter.WrittenLinkParses` | src/link_format.rs:467-488 | Round trip of `write_link`: the parser reads back exactly the target and the described attributes |
| `LinkReading.AccessorsReadBack` | src/link_format.rs:112-151 | Each accessor of a link parsed from written metadata returns what the metadata said |
| `LinkReading.ExtensionsReadBack` | src/link_format.rs:453-459 | Extension attributes come back in order after the core ones with their original values |
| `LinkValues.SizeRead` | src/link_format.rs:138-143 | For any attribute list: the first size is returned, or that it does not fit 64 bits |
| `LinkValues.SizeAbsent` | src/link_format.rs:138-143 | And an admissible link has none exactly without the attribute |
| `LinkValues.FormatsOfOne` | src/link_format.rs:129-135 | Each ct attribute contributes its numbers in order and no other attribute contributes any |
| `LinkReading.FormatsConcat` | src/link_format.rs:129-135 | And the formats of a list are those of its attributes in order |
| `LinkValues.WordsRead` | src/link_format.rs:112-126 | Resource types and interfaces are the words of the first attribute of the name, none without it |
| `LinkValues.ObservableIff` | src/link_format.rs:145-150 | Observable exactly if some attribute is obs |
| `LinkOutput.Output.WriteStr` | src/link_format.rs:501-518 | A write appends exactly its bytes when they fit, and otherwise changes nothing |
| `LinkOutput.WriteQuoted` | src/link_format.rs:490-499 | `quoted` writes the quotes and the escaped value |
| `LinkOutput.Write` | src/link_format.rs:430-461 | `Metadata::write` appends the written form of the described attributes, and fails exactly when it does not fit |
| `LinkOutput.EncodedLen` | src/link_format.rs:380-389 | The counting pass returns the exact length of what the writer writes, the validation error, or a refusal when that length is no usize |
| `LinkOutput.WriteInto` | src/link_format.rs:391-404 | `write_into` writes exactly that text into its slice, or leaves every byte unchanged |
| `LinkOutput.WriteLink` | src/link_format.rs:464-488 | `write_link` likewise, with the target checked first |
| `Paths.FirstError` | src/app/request.rs:70-113 | Segments are accepted exactly when there is room for them and none is empty, "." or ".." |
| `Paths.FirstErrorIs` | src/app/request.rs:70-113 | The error is that of the first segment that has one: empty, a dot segment, or the first for which there is no room |
| `Paths.PathIff` | src/app/request.rs:70-113 | A path is at most eight segments, none empty, "." or ".." |
| `Paths.TrimIff` | src/app/request.rs:70-74 | Of a bind path all leading slashes are ignored, and nothing else |
| `Paths.SplitPath` | src/app/request.rs:70-88 | `split_path` returns the pieces between slashes, or the error of the first piece that has one |
| `Paths.FromSegments` | src/app/request.rs:90-113 | `path_from_segments` and `Path::from_segments`: length first, then the first bad segment |
| `Paths.FromText` | src/app/request.rs:115-120 | A bind path is accepted exactly when its pieces make a path |
| `Paths.PiecesJoin` | src/app/request.rs:70-88 | The pieces joined by slashes are the text without its leading slashes |
| `Catalog.EscapedReads` | src/app/site.rs:496-549 | Percent-encoding any bytes is undone by the URI decoder, stays within path and link characters, and never contains a separator |
| `Catalog.EscapeSpelled` | src/app/site.rs:496-518 | The bytes left bare, written out; any other becomes a percent sign and two upper-case digits |
| `Catalog.TargetSplits` | src/app/site.rs:519-549 | Splitting a written target gives one encoded piece for each segment, whatever the segments contain |
| `Catalog.TargetRoundTrip` | src/app/site.rs:519-549 | Splitting and decoding a written target gives back the registered segments; it passes the URI checks |
| `Catalog.TargetsDiffer` | src/app/site.rs:519-549 | Different routes have different targets |
| `Catalog.AdvertisedPathResolves` | src/app/site.rs:343-344 | An advertised target after any host is a URI the library accepts, with that target as its path |
| `CatalogOutput.LinkBytes` | src/app/site.rs:479-494 | `link_bytes` returns the length exactly when the encoded path fits the limit |
| `CatalogOutput.WriteLink` | src/app/site.rs:519-549 | `write_link` writes all of `<target>` inside the buffer and advances by its length, or changes nothing |
| `Sites.OthersStay` | src/app/site.rs:261-321 | Binding, unbinding or describing one path leaves every other route's slot, handler and metadata alone |
| `Sites.SelfStays` | src/app/site.rs:238-271 | Rebinding keeps slot and metadata; describing keeps slot and handler |
| `Sites.NewRoute` | src/app/site.rs:272-287 | A new route takes the first free slot without metadata, if there is one |
| `Sites.RemovedRoute` | src/app/site.rs:310-321 | A removed route is gone and its slot is free |
| `Sites.IdentityStable` | src/app/site.rs:375-387 | Over any run of operations a route that is not removed keeps its slot, which is its observe identity |
| `Sites.Site.Position` | src/app/site.rs:375-387 | The scan finds the slot of a path by exact segment comparison |
| `Sites.Site.InsertRoute` | src/app/site.rs:261-287 | `insert_route`: the table becomes what the operation says, and Full exactly when the path is new and every slot is taken |
| `Sites.Site.RemovePath` | src/app/site.rs:310-321 | `remove_path`, and whether there was something to remove |
| `Sites.Site.TryRoute` | src/app/site.rs:217-224 | `try_route`: accepted exactly for a good path with a slot; a refusal changes nothing |
| `Sites.Site.SetDiscoveryMetadata` | src/app/site.rs:242-259 | Metadata is attached exactly when path, metadata and route are all good; a refusal changes nothing |
| `Sites.Site.LinkFormat` | src/app/site.rs:424-455 | The catalog is produced exactly when the text of all links fits, and is then exactly that text |
| `Sites.CatalogRoundTrip` | src/app/site.rs:424-455 | The catalog parses to one link for each registered route in slot order, with its attributes |
| `Sites.DiscoveryFindsRoutes` | src/app/site.rs:424-455 | From the response bytes: they are UTF-8, they parse to those links, and each target splits and decodes to its route's segments |
| `Identity.JitterUnbiased` | src/app/identity.rs:195-206 | For every width, the rejection limit is a multiple of it and every residue has the same number of accepted draws |
| `Identity.SampleJitter` | src/app/identity.rs:188-208 | At most eight draws; the first usable one decides; the result is within the span |
| `Identity.AppIds.Next` | src/app/identity.rs:150-174 | `next`: new state and answer are those of one step that ignores pending confirmables, jitter included; a refusal changes nothing |
| `Identity.AppIds.NextFor` | src/app/identity.rs:129-148 | `next_for`: new state and answer of one step, jitter included, which refuses at the end of an epoch while a confirmable is pending |
| `Identity.JitterLeft` | src/app/identity.rs:150-208 | The jitter a successful step leaves is the first draw below the limit modulo 1001, or 0 in test mode, whatever the state was |
| `Identity.JitterUniform` | src/app/identity.rs:188-208 | Every jitter from 0 to 1000 ms is left by the same number of usable draws |
| `Identity.FailsIff` | src/app/identity.rs:129-208 | IDs are exhausted exactly when all 65536 are used and a confirmable is pending or 247 s have not passed; randomness fails exactly when a draw is refused or none of the eight is usable |
| `Identity.SameIdIff` | src/app/identity.rs:150-174 | Two calls of a run get the same ID if and only if a whole number of trips round the ID space lies between them |
| `Identity.ReuseWaits` | src/app/identity.rs:155-172 | A reissued ID has waited out EXCHANGE_LIFETIME on the highest time ever given, whichever calls fail and however the clock moves |
| `Identity.ReuseCrossesBoundary` | src/app/identity.rs:129-172 | Between two issues of an ID lies an epoch change with no pending confirmable and a full lifetime of silence |
| `Associations.Store.Check` | src/app/associations.rs:94-131 | `check_install`: busy, ambiguous, capacity and exhausted generations in that order, else the first free row and the next namespace |
| `Associations.AmbiguousIff` | src/app/associations.rs:94-131 | An install is ambiguous exactly when, with the row added, two rows would share owner and epoch, or address, recipient and ID context |
| `Associations.InstallIff` | src/app/associations.rs:94-131 | Every refusal of an install and when it is given, and that it takes the first free row and the next namespace |
| `Associations.Store.Install` | src/app/associations.rs:68-92 | `install` takes the candidate exactly on success; a refusal leaves store and candidate unchanged |
| `Associations.Store.SetPrimary` | src/app/mod.rs:1718-1737 | `set_oscore`: refused without a candidate, while busy, or once anything was installed; the candidate is taken exactly on success |
| `Associations.Store.RemoveAssociation` | src/app/mod.rs:1768-1883 | Removal revokes at once, and reclaims the row unless a buffer is pinned |
| `Associations.Store.Resolve` | src/app/associations.rs:205-221 | `resolve` answers unprotected exactly when nothing was ever attached, and otherwise succeeds exactly when one unrevoked row is meant |
| `Associations.Store.InboundRoute` | src/app/associations.rs:222-267 | `inbound_route` succeeds exactly when one unrevoked row accepts the message |
| `Associations.Store.ContextFor` | src/app/associations.rs:185-204 | `context` finds an unrevoked row of the namespace whenever there is one |
| `Associations.NamespaceUnambiguous` | src/app/associations.rs:205-221 | A peer with a namespace is never ambiguous |
| `Associations.RequestUnambiguous` | src/app/associations.rs:248-266 | Nor is a protected request, because an install never repeats an address, recipient and ID context |
| `Associations.FoundAgain` | src/app/associations.rs:205-266 | Every unrevoked association is the one its own route and its own protected requests select |
| `Associations.MeantFor` | src/app/associations.rs:205-266 | The traffic an association is for: unrevoked, from its address, its namespace or none, a request for its recipient and ID context, a response it awaits |
| `Associations.PrimaryFor` | src/app/associations.rs:205-247 | A primary context is for every address, outside any namespace |
| `Associations.HandleKeepsItsContext` | src/app/associations.rs:68-92 | Over every run, what a namespace selects is the context it was issued for, or nothing |
| `Associations.NamespaceFresh` | src/app/associations.rs:126-130 | Namespaces are nonzero and strictly increasing over every run |
| `Associations.NeverUnprotected` | src/app/associations.rs:205-209 | Once anything was installed, no run returns to the unprotected answer |
| `Queries.New` | src/app/client.rs:530-549 | `RetainedQueries::new` accepts exactly what fits and packs it |
| `Queries.Values` | src/app/client.rs:551-559 | Reading a packed buffer gives the queries back in order |
| `Queries.PackedDetermines` | src/app/client.rs:721-740 | A packed buffer stands for one list, so comparing values is comparing lists |
| `Observe.FreshIsNewer` | src/app/client.rs:807-816 | The masked subtraction test is the three-clause condition of section 3.4 of RFC 7641, for all values and times |
| `Observe.SenderOrder` | src/app/client.rs:807-816 | However long a subscription lasts and however often its numbers wrap, accepted unprotected notifications are strictly increasing in the sender's own counters, provided those prompt after the last accepted are within half the space of it and those accepted after a silence are not old ones |
| `Observe.SenderOrderIff` | src/app/client.rs:807-816 | They are in that order if and only if the fallback was right each time it let one through |
| `Observe.FreshIffNewest` | src/app/client.rs:807-816 | And none is held back: one is fresh exactly when it is newer than every one accepted, or comes after a silence |
| `Observe.FormatSticks` | src/app/client.rs:852-867 | A recorded format never changes |
| `Observe.OneFormat` | src/app/client.rs:818-867 | Every accepted representation of a run has the first one's format |
| `Observe.AcceptedIff` | src/app/client.rs:818-867 | A notification of a run is accepted exactly if it is fresh, its format is readable and is that of every representation accepted before, or it is a 2.03 that says none |
| `ObserveRuns.CompleteNotes` | src/app/client.rs:3764-3912 | A delivered response changes the observation record only as an accepted notification does |
| `ObserveRuns.JudgedIff` | src/app/client.rs:818-867 | A response of the call is refused exactly if it starts a notification, is not old and has the wrong format; it is taken exactly if it starts none or starts a new one that fits; later blocks and failures are never held back |
| `ObserveRuns.RecordedIs` | src/app/client.rs:941-957 | The record changes only by a notification that starts and is taken, to its number, its time and the first format said |
| `ObserveRuns.RunFollows` | src/app/client.rs:2050-2051 | Over every client run, refreshes included, a subscription's record is the run of the notifications it heard |
| `ObserveRuns.CompleteStores` | src/app/client.rs:3909-4127 | A delivery that stores a response, whole or in part, has accepted and recorded it |
| `ObserveRuns.StoredInOrder` | src/app/client.rs:1198-1202 | Over every client run, what an unprotected subscription stores for collection is in the sender's own order |
| `ObserveRuns.StoredOneFormat` | src/app/client.rs:818-867 | And the representations any subscription stores for collection have one format; a 2.03 without one says nothing |
| `Engines.AbandonSlots` | src/app/client.rs:5438-5451 | With one confirmable per endpoint, the slot loop of `abandon_send` frees exactly this call's pending requests |
| `Engines.ReserveKeeps` | src/storage/memory.rs:469-490 | A reservation keeps one pending confirmable per endpoint |
| `Engines.DropExchangeFrees` | src/app/client.rs:5654-5675 | Dropping an exchange frees at most the slot carrying its own Message ID to its own peer |
| `Engines.DropExchangeOk` | src/app/client.rs:5654-5675 | Between operations a pending request is the one its call's exchange names; dropping the exchange keeps that and leaves no packet of the call |
| `Engines.AbandonOk` | src/app/client.rs:5437-5451 | So does abandoning the call's send |
| `Engines.AbandonEnds` | src/app/client.rs:5429-5466 | `abandon_send` takes the call's exchange, binding, uploads and pending requests, and nothing of another call |
| `ClientInvariant.RoomForReply` | src/app/client.rs:397-432 | An active call without a reply row leaves room for one |
| `ClientInvariant.FailIs` | src/app/client.rs:5643-5717 | The whole effect of `fail_call`: one recorded failure, timers off, and nothing of the call left in exchanges, observes, bindings, packets, bodies or uploads |
| `ClientInvariant.FailKeeps` | src/app/client.rs:5643-5717 | `fail_call` keeps the client invariant |
| `ClientSteps.StoreKeeps` | src/app/client.rs:4188-4212 | `store_reply` for a call whose exchange and upload are done: stores exactly the outcome, keeps the invariant, and leaves other calls and loose packets alone |
| `ClientDelivery.CompleteDelivers` | src/app/client.rs:3712-4127 | A delivered response keeps the invariant, leaves other calls their rows, exchanges, interests, uploads, bodies and bindings, and retains or gives back the packet in hand; what it does to their pending requests is `ClientPackets.CompleteEffects` |
| `ClientDelivery.InterruptDelivers` | src/app/client_async.rs:39-66 | A delivery dropped at its ACK or Reset, or whose send fails in doubt, keeps the invariant, touches no other call, gives the packet back, and leaves the call failed |
| `ClientAsync.Continuation.Finish` | src/app/client_async.rs:27-37 | `finish` stays armed exactly when the peer may have seen the send |
| `ClientAsync.Continuation.Drop` | src/app/client_async.rs:39-66 | `drop` in place is the model's, when armed, and nothing otherwise |
| `ClientEndings.ResetKeeps` | src/app/mod.rs:3520-3531 | A Reset fails the call the tables name and releases the packet it answers; together this keeps the invariant, whichever call that is |
| `ClientEndings.GiveUpKeeps` | src/app/mod.rs:2776-2785 | So do the last retransmission and a retransmission in doubt |
| `ClientEndings.FailUploadKeeps` | src/app/client.rs:5389-5481 | A failed upload send ends its call and takes the exchange of at most one other; all else is kept |
| `ClientAdmission.CollectKeeps` | src/app/client.rs:1215-1243 | Collecting keeps the invariant, gives packet and body back, and the row is gone |
| `ClientAdmission.AdmitKeeps` | src/app/client.rs:1926-1967 | An admitted call keeps the invariant |
| `ClientAdmission.ReplaceKeeps` | src/app/client.rs:1991-2009 | A replaced subscription keeps the invariant too, the bound on response credits included, and touches no other call |
| `ClientOutcomes.LaunchedIs` | src/app/client.rs:3143-3163 | A request launched, new or in place of a subscription's, is in the table as asked for, with the exchange sent, the binding of its protection, its own packet pending, and nothing left of an earlier one |
| `ClientRuns.StartsSound` | src/app/client.rs:390-395 | The idle client keeps the invariant |
| `ClientRuns.StepSound` | src/app/client.rs:3712-5920 | Every enabled step (delivery, its interruption, failure, Reset, give-up, retransmission, follow-up, failed upload, acknowledgement, collection, expiry, admission, replacement, refusal, end of interest, attaching a context, server work in the shared slots) keeps the invariant, accounts for every receive packet, and changes nothing of a call it is not about but the exchange a failed upload may take and the pending request, which is `ClientPackets.PacketStopsIff` |
| `ClientRuns.RunKeeps` | src/app/client.rs:3712-5920 | So the invariant holds in every state of every run |
| `ClientRuns.OutcomeAlwaysFits` | src/app/client.rs:397-432 | Storing an outcome for an active call always finds a slot and evicts no other |
| `ClientRuns.OutcomeStaysIff` | src/app/client.rs:4188-4212 | An untaken response of an ordinary call is unchanged by a step other than its collection if and only if the step is not an interrupted delivery to that call; an outcome is there in any case |
| `ClientRuns.OutcomeRemains` | src/app/client.rs:1208-1243 | Over every run an outcome is there until collected: the one stored, or the failure an interrupted delivery put in its place |
| `ClientRuns.OutcomeKeptIff` | src/app/client.rs:1208-1243 | Over every run a stored response is there, unchanged, until collected if and only if no delivery to the call was interrupted |
| `ClientRuns.ExchangeLostIff` | src/app/client.rs:5468-5481 | A call no step is about loses its exchange exactly when a failed upload send takes it |
| `ClientPackets.CompleteEffects` | src/app/client.rs:3738-3819 | A delivery stops another call's pending request exactly when the response is taken as an answer and carries that request's Message ID, or the two exchanges share theirs and the call's own is stopped |
| `ClientPackets.PacketStopsIff` | src/app/client.rs:3799-3819 | Every step leaves the pending request of a call it is not about exactly as it was, if and only if it is not one of the named ways to stop it |
| `ClientPackets.StoppedBy` | src/app/client.rs:3799-3819 | With Message IDs distinct those are an ACK, a Reset or the give-up of that very packet, and an accepted response to another call that carries its Message ID |
| `ClientPackets.PendingIff` | src/app/client.rs:3799-3819 | Over every run of steps about other things a request goes on being pending if and only if none of them stops it |
| `ClientProgress.CompleteMoves` | src/app/client.rs:3738-4127 | A delivery ends the call, or keeps its timers, its interest and its exchange, unless a follow-up reports success without an exchange |
| `ClientProgress.AttendsIff` | src/app/client.rs:5878-5920 | A step leaves an active call with an outcome, a timer or a live interest if and only if it is not an upload that takes its exchange, a follow-up without one, or the end of its interest, with nothing else left |
| `ClientProgress.RunAttends` | src/app/client.rs:5878-5920 | Over every run, so does every state, unless such a step came before |
| `ClientProgress.ExpiryEnds` | src/app/client.rs:5896-5919 | And the first expiry at or after the call's own time gives it an outcome |
| `Subscriptions.ClockSparesIff` | src/app/client.rs:5896-5919 | Expiry leaves a subscription alone if and only if its deadline has not come and no request of it is open past the lifetime of the last registration |
| `ClientRuns.HandedOnce` | src/app/client.rs:1215-1243 | An ordinary call's outcome is handed out at most once, until its token is admitted anew |
| `ClientOutcomes.DeliveryShows` | src/app/client.rs:3738-4127 | What a delivery leaves in the call's row and of its interest, for every message: nothing new, one named failure, the beginning of a response, or the whole of it with body or packet |
| `ClientOutcomes.FirstFragmentDescribes` | src/app/client.rs:4164-4181 | A response in blocks keeps the header it began with, and the interest after it depends on that header alone |
| `ClientOutcomes.BlocksDescribedByFirst` | src/app/client.rs:480-494 | Over every run, what a row assembled from blocks says is the header and time of the message that began it |
| `ClientOutcomes.OnlyDeliveryStores` | src/app/client.rs:4188-4212 | Only a delivery to the call puts a response into its row |
| `ClientOutcomes.HandedIsStored` | src/app/client.rs:1215-1326 | Over every run, what an ordinary call is handed is what was stored, the failure of an interrupted delivery, or ResponseBodyBounds exactly when there is a body beyond the hold; a buffer too small is handed nothing |
| `ClientOutcomes.HandedIsDelivered` | src/app/client.rs:1198-1243 | From the delivery of a whole response to its collection: the header delivered is the one handed out |
| `ClientOutcomes.ExpiryLabels` | src/app/client.rs:5896-5919 | Expiry fails a waiting call with DeadlineExceeded exactly at its deadline, else with TimedOut exactly when its request is open past its lifetime, and no other |
| `ClientOutcomes.EndingLabels` | src/app/client.rs:5643-5717 | Each other way a call is ended leaves its own failure and nothing waiting |
| `ClientOutcomes.CancelEnds` | src/app/client.rs:1328-1348 | `cancel` fails an unanswered call or a live subscription, and otherwise changes nothing |
| `ClientModel.CodesRead` | src/message/mod.rs:340-476 | The codes the client tells apart, by class and detail |
| `ClientRuns.HeadroomHolds` | src/app/client.rs:672-696 | Retained packets are within the response credits, and with complete responses the credits leave a receive packet free |
| `ClientRuns.HeadroomAlways` | src/app/client.rs:1926-1938 | The same in every state of every run, through replacement too |
| `ClientRuns.CreditsExact` | src/app/client.rs:672-696 | The response credits are exactly the active calls without a recorded failure |
| `ClientTimers.EarlyExpiryIsIdle` | src/app/client.rs:638-670 | Expiring strictly before every reported cooldown, deadline and lifetime changes nothing |
| `ClientTimers.ExpiryLeavesLater` | src/app/client.rs:5878-5920 | After expiring at a time, every time still reported is strictly later |
| `Cooldowns.TracksOne` | src/app/client.rs:721-740 | A table stands for one plain map of cooldowns |
| `Cooldowns.ExpireTracks` | src/app/client.rs:708-719 | Expiry drops exactly the entries due by now |
| `Cooldowns.RecordTracks` | src/app/client.rs:742-776 | `record_backoff` raises the target's entry to the maximum after that |
| `Cooldowns.RemoveTracks` | src/app/client.rs:877-913 | `remove`, whether it deletes, merges or retires, leaves every target's cooldown unchanged |
| `Cooldowns.ReplacedIsCool` | src/app/client.rs:1841-1850 | A row that is replaced has no cooldown, because the request was refused first if its target had one |
| `Cooldowns.CompleteRecords` | src/app/client.rs:3900-3905 | A delivered response changes cooldowns as `record_backoff` does exactly when it is the call's, is accepted, does not merely carry an upload on, and its header is retained; otherwise not at all |
| `Cooldowns.StepRefines` | src/app/client.rs:708-797 | Every step of the client is a step of the plain map, whose next value the step determines: the maximum is taken exactly when such a response carries the overload code |
| `Cooldowns.RunRefines` | src/app/client.rs:708-797 | Over every run there is a plain history the table refines throughout |
| `LiveTable.ViewsCount` | src/app/client.rs:1939-1941 | The occupied rows are the active calls and the retired cooldowns |
| `LiveTable.ClientLives.Get` | src/app/client.rs:799-805 | `get` finds the active row of a call exactly when there is one |
| `LiveTable.ClientLives.Count` | src/app/client.rs:1939-1941 | The row count admission compares with the capacity |
| `LiveTable.ClientLives.UsesToken` | src/app/client.rs:2105-2122 | Whether any row, retired ones included, uses a token |
| `LiveTable.ClientLives.CanAdmit` | src/app/client.rs:778-783 | `can_admit`: the call's own row or a free one |
| `LiveTable.ClientLives.Insert` | src/app/client.rs:785-797 | `insert` over the call's own row or in a free one, for a call no retired row names |
| `LiveTable.ClientLives.Remove` | src/app/client.rs:877-913 | `remove` on the rows is the model's removal on the maps, keeping one retired row for a target |
| `LiveTable.ClientLives.ExpireBackoffs` | src/app/client.rs:708-719 | The loop ages every row and frees retired rows whose time has come |
| `LiveTable.ClientLives.BackoffUntil` | src/app/client.rs:721-740 | The scan returns the longest cooldown of the target, if it has one |
| `ReplyTable.ClientInbox.Insert` | src/app/client.rs:397-432 | `insert` replaces the call's own row or takes a free one, and is refused only when every row is another call's |
| `ReplyTable.ClientInbox.TakeDatagram` | src/app/client.rs:441-448 | `take_datagram` |
| `ReplyTable.ClientInbox.HoldsDatagram` | src/app/client.rs:434-439 | `holds_datagram` |
| `ReplyTable.ClientInbox.Discard` | src/app/client.rs:457-463 | `discard` removes the call's row and no other |
| `ReplyTable.ClientInbox.RetainPartial` | src/app/client.rs:480-494 | `retain_partial` keeps the first fragment's header with its body |
| `ReplyTable.ClientInbox.Take` | src/app/client.rs:497-518 | `take` removes and returns the row exactly when it is complete |
| `Clients.Client.FailCall` | src/app/client.rs:5643-5717 | `fail_call` in place is the model's failure, on every state |
| `Clients.Client.StoreReply` | src/app/client.rs:4188-4212 | `store_reply` in place |
| `Clients.Client.AbandonCall` | src/app/client.rs:5429-5466 | `abandon_send` in place |
| `Clients.Client.TakeResponse` | src/app/client.rs:1215-1243 | `take_response`: new state and answer, which is the stored one or ResponseBodyBounds, as `ClientOutcomes.HandedIsStored` says of runs |
| `Clients.Client.TakeResponseInto` | src/app/client.rs:1256-1326 | `take_response_into`: a buffer too small leaves everything |
| `Clients.Client.Cancel` | src/app/client.rs:1328-1348 | `cancel`, and when it refuses |
| `ClientPoll.DueCalls` | src/app/client.rs:5888-5916 | The first loop of expiry lists exactly the due calls, each once, with its failure |
| `ClientPoll.ExpireExchanges` | src/app/client.rs:5878-5920 | `expire_client_exchanges` is ageing followed by those failures |
| `ClientPoll.NextTimeoutAfter` | src/app/client.rs:638-670 | `next_timeout_after` is the earliest timer later than its argument; none is missed |
| `ClientPoll.ResponseCredits` | src/app/client.rs:672-696 | `response_credits` |
| `ClientReceive.RecordBackoff` | src/app/client.rs:742-776 | `record_backoff` in place |
| `ClientReceive.RecordObservation` | src/app/client.rs:852-867 | `record_observation` in place |
| `ClientReceive.AcceptObserve` | src/app/client.rs:5527-5555 | `accept_client_observe` in place |
| `ClientReceive.Finish` | src/app/client.rs:4131-4186 | `finish_assembled` in place: the interest and the row get the first fragment's header, as `ClientOutcomes.FirstFragmentDescribes` says |
| `ClientReceive.Assemble` | src/app/client.rs:3909-4080 | The block branches of `complete_client` in place |
| `ClientReceive.Keep` | src/app/client.rs:4083-4127 | The single-packet branch in place |
| `ClientReceive.Complete` | src/app/client.rs:3712-4127 | `complete_client` in place is the model's delivery, on every state |
| `ClientReceive.ResetReceived` | src/app/client.rs:5719-5747 | `complete_client_rst` with the release of the answered packet, in place |
| `ClientReceive.UploadSendFailed` | src/app/client.rs:5402-5481 | `finish_client_send` failing, in place: the packet is recorded, `drop_exchange_for_tx` searches for its slot, and the call ends |
| `Revocation.RevokeEnds` | src/app/client.rs:5923-5948 | `revoke_association` ends exactly the peer's work: no row, exchange, pending request, interest, binding, body or upload of it is left, one failure stays for each row, and calls to other peers keep what they hold, their pending requests included |
| `Revocation.OutcomesFitIff` | src/app/client.rs:397-432 | In any state, storing outcomes one after another loses none if and only if the calls answered and the reply rows in use fit the table together |
| `Revocation.LostGivesBack` | src/app/client.rs:4188-4212 | And an outcome that is lost gives its body back and changes no other row |
| `Revocation.AdmittedFitsIff` | src/app/client.rs:1939-1941 | After an admission the outcomes of all active calls fit if and only if active calls and reply rows together left a row free; the guard counts live rows only |
| `Revocation.GuardSuffices` | src/app/client.rs:1939-1941 | In every state that keeps the client invariant the guard implies that condition |
| `Revocation.AnsweredAgainIff` | src/app/client.rs:5930-5945 | A call without a reply has one after a revocation if and only if a row of the peer carried it, so a collected call is answered again exactly when it was still cooling |
| `LiveTable.ClientLives.Clear` | src/app/client.rs:5945-5945 | A row cleared, active or retired: its call and its cooldown are gone and no other |
| `ClientRevoke.RevokeAssociation` | src/app/client.rs:5923-5948 | `revoke_association` in place is the model's revocation of exactly the calls in the peer's rows |
| `Scenarios.RevokedCanLose` | src/app/client.rs:5945-5945 | A run from an idle client, a revocation, and a run from there in which the next call is admitted, its response digested, and it is left with no outcome and nothing that will ever end it |
| `Scenarios.AnsweredTwice` | src/app/client.rs:5930-5945 | A run from an idle client that hands out an overloaded server's response, after which a revocation has the same call answered again |
| `Scenarios.ResponseReplaced` | src/app/client_async.rs:45-62 | A run from an idle client in which a stored, untaken response gives way to a failure because a further confirmable response is interrupted |
| `Scenarios.ResetCanMiss` | src/app/client.rs:5594-5603 | A run from an idle client after which a Reset ends an older call whose slot was taken again |
| `Scenarios.UploadRobs` | src/app/client.rs:5468-5481 | A run from an idle client in which one call's failed upload leaves another call with no exchange, no outcome and nothing that will ever end it |
| `Scenarios.ResponseSilences` | src/app/client.rs:3817-3819 | A run from an idle client in which one call's response, by its Message ID, ends the retransmissions of another call that still waits |
| `Subscriptions.SubscriptionCut` | src/app/client.rs:5906-5911 | A run from an idle client in which a notification has its next block asked for and the same instant's expiry ends the subscription as timed out |
| `Send.Prepare` | src/app/send.rs:42-80 | `SendOwner::prepare` turns other work's slot away untouched; a new reservation succeeds exactly when the slot is occupied and the endpoint has nothing outstanding, and is then the only change; otherwise the slot is released |
| `Send.SendOwner.Commit` | src/app/send.rs:82-95 | Committing an owner cannot fail, and starts the timer of a reserved packet |
| `Send.SendOwner.Drop` | src/app/send.rs:30-39 | Dropping before a commit empties the slot; after it nothing happens |
| `Send.Finish` | src/app/send.rs:98-185 | An unsent or uncertain packet is gone with its reservation, a sent NON is released without asking the clock, a sent CON keeps its slot with a running timer if the clock answers |
| `Outgoing.FindSubscription` | src/app/client.rs:915-938 | `observe_call` returns the one matching subscription, or says there is none or more than one |
| `Outgoing.NextToken` | src/app/client.rs:2105-2122 | `next_token`: the first of the candidates no row uses, or every candidate is used |
| `Outgoing.PrepareNew` | src/app/client.rs:1841-1990 | `prepare` of a new call only expires cooldowns; it refuses exactly for one of its reasons, which the error names, and otherwise takes the first unused token, the admission guard holds and, under the client invariant, the engine holds nothing under the call |
| `Outgoing.CheckReplacement` | src/app/client.rs:1841-1990 | The checks of a refresh or deregistration: the error names a reason that holds, and going ahead means there is one such subscription, its target is cool and it is not too late |
| `Outgoing.PrepareReplacement` | src/app/client.rs:1942-2009 | `prepare` of a refresh or deregistration: it refuses exactly for one of its reasons, which the error names; otherwise the old request is abandoned and recorded as failed, only a refresh keeps the record, and the deadline is none later than the old one and the new one and is one of them |
| `Outgoing.DroppedIsRefused` | src/app/client.rs:3108-3123 | Dropping a new call at any point leaves exactly what refusing it would have left |
| `Outgoing.CommittedIsAdmitted` | src/app/client.rs:3143-3163 | Committing one is an enabled admission step of the state machine |
| `Outgoing.ReplacementEnabled` | src/app/client.rs:1981-2009 | What `prepare` makes of a refresh or deregistration may be committed as the replacement step, whatever is sent |
| `Prepared.NeverRefused` | src/app/client.rs:3208-3243 | Handing a staged packet to its send owner is never refused |
| `Prepared.DropRestores` | src/app/client.rs:3108-3123 | From anywhere between preparation and commitment, dropping gives what abandoning gives at the start |
| `Prepared.PreparedCall.Stage` | src/app/client.rs:3167-3205 | Staging fills a free slot under the call's token and binding and may begin its upload; without a free slot nothing changes |
| `Prepared.PreparedCall.Admit` | src/app/client.rs:3128-3141 | `admit` succeeds exactly with room for the exchange and, for a confirmable, a free endpoint; it records the exchange once and reserves the endpoint |
| `Prepared.PreparedCall.Submit` | src/app/client.rs:3208-3243 | Handing over the staged packet: the engine afterwards is exactly the slot freed, or this call's own pending packet with a running timer |
| `Prepared.PreparedCall.Transmit` | src/app/client.rs:3245-3336 | `accept`: nothing is sent, and all stays staged, exactly when the call's deadline or other work is due; otherwise the engine is exactly what handing over the packet leaves, and it goes ahead exactly when sent and the clock then shows a time that has not gone back and is before the deadline |
| `Prepared.OverdueIs` | src/app/client.rs:3268-3275 | What is reported then: the deadline if it is the call's own and the first of the two, else that other work is due, and when |
| `Prepared.PreparedCall.Drop` | src/app/client.rs:3108-3123 | Cancellation: the state is exactly the one the preparation started from with the call abandoned, and that same state when the engine held nothing under the call, as it does for a new one |
| `Prepared.PreparedCall.Commit` | src/app/client.rs:3143-3163 | `commit` installs the call with its lifetime and discards a replaced call's recorded failure |
| `Prepared.CommitIsLaunch` | src/app/client.rs:3143-3163 | A committed call is exactly the admission step of the state machine |
| `Authority.UnsentIgnoresResponses` | src/app/client.rs:4235-4257 | Between reservation and commit no response completes the call: the packet is dropped and nothing else changes |
| `Authority.CommittedAccepts` | src/app/client.rs:4235-4257 | After the commit a matching response is the call's, and a piggybacked one exactly with the request's Message ID |
| `Authority.ReusedSlotIsForeign` | src/app/client.rs:4245-4257 | A reservation of another request on a reused slot neither blocks the older exchange nor is cancelled with it |
| `Authority.ResetSparesUnsent` | src/app/client.rs:5719-5747 | No Reset ends a call whose request is not yet sent |
| `Authority.EndsOnlyTheSenderIff` | src/app/client.rs:5558-5603 | A Reset or a give-up ends only the sender's own call, in every table order, if and only if no foreign exchange still names the slot |
| `Authority.RobsNoneIff` | src/app/client.rs:5402-5481 | A failed upload send, its own entry recorded, takes no other call's exchange, in any table order, if and only if no other call's exchange names its slot |
| `Authority.ResetByMessageId` | src/app/client.rs:5605-5615 | With nothing pending under the Message ID, only its sender can be meant |
| `Authority.ForTxFirst` | src/app/client.rs:5594-5603 | The call found for a slot is the first in the table's order whose exchange names it |
| `Retransmit.ProtocolTransport.Send` | src/app/async_server.rs:114-147 | `send`: its outcome, and a completion time that never goes back |
| `Retransmit.ErrorsExact` | src/app/async_server.rs:114-147 | Which error a send returns, exactly: clock, deadline, transport, before or after the packet was taken |
| `Retransmit.CompletionsOrdered` | src/app/async_server.rs:114-147 | Over any clock, timer and transport, completion times are nondecreasing and every success began before its deadline |
| `Retransmit.SendRetransmit` | src/app/async_server.rs:350-402 | The pending mark is unchanged only if the transport never took the packet; otherwise the next attempt waits twice as long, as `Retransmit.Schedule` says of any sequence, or the slot is retired |
| `Retransmit.AttemptsNeverRepeat` | src/storage/pending.rs:158-179 | However events fall, each acceptance uses up an attempt number, so a packet is put on the wire a bounded number of times |
| `Retransmit.Schedule` | src/storage/pending.rs:158-179 | Over any events a packet is still pending exactly if no send is in doubt, attempts are left, and each retransmission came no earlier than twice the wait of the one before; its timer is then exact |
| `Retransmit.TransmitSpan` | src/message/mod.rs:583-602 | Sent on time, the four retransmissions come after 1, 3, 7 and 15 first waits of 2 to 3 s, the last within 45 s, and it is given up within 93 s |
| `Retransmit.LifetimesCoverSpan` | src/app/client.rs:3151-3158 | The lifetimes are 247 s for a confirmable and 145 s for a non-confirmable request: that span, latency and processing |

## Left out

- The CoAP message codec, Block and Q-Block body internals, OSCORE and EDHOC cryptography: the client sees only their outcomes, which are parameters here.
- UriText.ParsesIff: the IPv6 literal check is a parameter, taken to accept nothing but hex digits, colons and dots; the textual form of addresses is not modelled.
- Joining an existing subscription in `prepare`: it returns the existing call and only expires cooldowns.
- When uploads are paced and missing blocks asked for (`arm_q_pacing`, `pace_qblock1`, recovery timers): a follow-up is a step that may come during any transfer; its pacing time is reported with the other timers.
- Request-tag checks in `prepare` (a tag required for Q-Block1, a tag already in use): two refusals that change nothing.
- Evicting cached server replies to make transmit room before admission.
- ClientRuns.RunKeeps: its runs contain no revocations, after which two of the run laws fail as `Revocation` and `Scenarios` state, and keep one security mode throughout.
- Associations.Store.RemoveAssociation: the peer's server-side work, which `remove_association` releases too, is not modelled; whether a buffer was pinned is a parameter.
- Server dispatch, deferred replies, the deduplication table and server-side Observe.
- The catalog's ETag (a hash of the body) and response options.
- LiveTable.ClientLives.Insert: requires that no retired row carries the call, which the token choice (`Outgoing.NextToken`) ensures.
- When an interest ends by itself: the step exists for every interest, although the library gives that wait to server interests only.
- Which transmit slot is taken, and the one kept free: a sent request names any slot, and one that finds none is refused or dropped.
- Pool sizes and memory layout: tables have a length, packets and bodies are slots.
- Futures, wakers and pinning: an await is a step that succeeds, fails or is the last, and what its drop then does is modelled.
- Builders, configuration plumbing, metrics and diagnostics.
- Retransmit.SendRetransmit: a send whose timer wins the race counts as never taken by the transport, as the library's own classifier says; whether a transport sent bytes before its future was dropped is not modelled.
- Token bytes: tokens are numbers, and candidates come from the caller.
