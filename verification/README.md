# PJLIB-UTIL: resolver, formats, hashes and protocols

A Dafny model of the utility library that comes with pjproject 2.2.1, with proofs of what its
most intricate parts do. `dafny verify dfyconfig.toml` checks everything.

Each part has a pure description (functions on values) of what the C code computes, methods and
classes that change state step by step as the C code does and are proved against the description,
and lemmas about the description.

| files | part |
|---|---|
| `ResponseCache`, `Nameservers`, `ResolverSteps`, `ResolverShape`, `ResolverTimers`, `ResolverAnswers`, `ResolverRuns`, `ResolverOrigins`, `ResolverIds`, `DnsResolver`, `ResolverAdds` | the asynchronous DNS resolver |
| `DnsPackets`, `DnsNames`, `DnsParser`, `DnsLabels`, `DnsPrinter`, `DnsWire`, `DnsServer` | packets: duplication, parsing, printing with name compression |
| `JsonText`, `JsonDoc`, `JsonCharacters`, `JsonReader`, `JsonWriter` | JSON over the text scanner |
| `Blocks`, `Crc32`, `Sha1`, `Sha1Example`, `Md5` | checksums and hashes |
| `Getopt` | option scanning with argument permutation |
| `SrvResolver` | ordering of SRV targets |
| `Telnet`, `TelnetQueue` | option negotiation between two endpoints |
| `Bytes` | octets, case folding, network order |

**The resolver** is a transition system (`ResolverSteps`). Each step is one region that runs with
the mutex held, or one application callback made with the mutex released, so runs interleave
callbacks, timers, responses, cancellations and new requests in every possible order. Time, the
network and the contents of responses are parameters of a step. Two histories are kept beside the
state, the callbacks made and the events of the cache. The class `DnsResolver.Resolver` has the
source's fields and methods and refines the steps (`Perform`). Runs assume that a timer fires only
while armed or when its query is gone, that a query is cancelled only while pending and at most
once, that settings do not change, and that no parent is published under a transaction id in use;
`IndicesSurviveExactlyFreshId` says what becomes of the last assumption when it fails, and
`ClashOnlyAfterRound` that it holds while no query waits through 65535 others.

**Where the code departs from what one would expect**

- `pj_json_parse` rejects a document that consists of `null` or `true` alone, because comparing with
  "false" raises an error near the end of the input (`JsonDoc.RootExact`).
- `pj_json_write` needs two octets more than the document, not one (`JsonWriter.WriteJson`).
- The header `json.h` says that parsing puts a NUL behind the text if there is room; nothing does.
  The model takes the octet behind the text to be NUL; without it a number at the end of the text
  runs on (`JsonDoc.SpanRunsOn`).
- The writer's indent grows beyond its buffer at the thirty-fourth nesting (`JsonDoc.DepthExact`).
- `get_name` leaves a trailing dot when the last label is followed by a pointer to the root
  (`DnsNames.NameRead`, `DnsNames.TrailingDot`).
- `print_name` compares text with encoded octets, in which each dot has become a length. So it hardly
  ever recognises a name of several labels, and can take one name for another
  (`DnsPrinter.MatchExact`, `DnsPrinter.PacketRoundTrip`, `DnsPrinter.AnswerForAnother`).
- `pj_dns_packet_dup` changes the letter case of a name that equals an earlier one but for case
  (`DnsPackets.DupExact`, `DnsPackets.DupChangesCase`).
- `pj_dns_resolver_add_entry` returns with the mutex locked when the name is too long
  (`DnsResolver.Resolver.AddCacheEntry`).
- `pj_sha1_update` loses carries for updates of 2^29 octets and more (`Sha1.CountExact`).
- `pj_getopt` gives an option that lacked its argument the first non-option when the permuted line is
  scanned again (`Getopt.PermutedMeansTheSame`).
- Asking for a telnet option while a reply is awaited prolongs the exchange
  (`Telnet.DeliveriesBounded`, `Telnet.FourDeliveries`).
- A second request for a telnet option takes back the first, where RFC 1143 goes on waiting
  (`TelnetQueue.RequestExact`, `TelnetQueue.RunsRequest`).

## Model

| member | source | states |
|---|---|---|
| `ResolverRuns.AnsweredExactlyOnce` | telephony/Classes/pjproject-2.2.1/pjlib-util/src/pjlib-util/resolver.c:738-913 | In every run from the start, no callback is ever made twice or for a request that was not accepted; once nothing is in flight each accepted request has been answered exactly once, unless cancelling it without notification silenced it, and then not at all |
| `ResolverRuns.AcceptedWhenStarted` | telephony/Classes/pjproject-2.2.1/pjlib-util/src/pjlib-util/resolver.c:738-890 | Starting a query puts exactly the new request into the account, and only if it has a callback and did not fail; no other request moves |
| `ResolverRuns.SilencedOnlyByCancel` | telephony/Classes/pjproject-2.2.1/pjlib-util/src/pjlib-util/resolver.c:896-913 | Whatever the step, a request is silenced only by cancelling that request without notification, and none is forgotten |
| `ResolverRuns.CancelPlaces` | telephony/Classes/pjproject-2.2.1/pjlib-util/src/pjlib-util/resolver.c:896-913 | Cancelling answers or silences the request of the cancelled parent and leaves every other, its merged children included, where it was |
| `ResolverRuns.NodesConserved` | telephony/Classes/pjproject-2.2.1/pjlib-util/src/pjlib-util/resolver.c:546-572 | In every reachable state a node is in exactly one place: free list (once), pending parent, completing, or child of exactly one parent |
| `ResolverRuns.IndicesAgree` | telephony/Classes/pjproject-2.2.1/pjlib-util/src/pjlib-util/resolver.c:841-882 | The indices by id and by name and type hold the same parents, each under its own id and key, which are pairwise different; exactly those have an armed timer |
| `ResolverRuns.IndicesSurviveExactlyFreshId` | telephony/Classes/pjproject-2.2.1/pjlib-util/src/pjlib-util/resolver.c:864-882 | After the 16-bit id wraps around, publishing a parent keeps the two indices in agreement if and only if the id is not still in use |
| `ResolverIds.StartDraws` | telephony/Classes/pjproject-2.2.1/pjlib-util/src/pjlib-util/resolver.c:778-882 | A request draws a new id exactly if it is neither answered from the cache nor merged with a pending query |
| `ResolverIds.IdsInTurn` | telephony/Classes/pjproject-2.2.1/pjlib-util/src/pjlib-util/resolver.c:864-868 | In every run the ids are drawn in turn from 1 to 65535 and then from 1 again |
| `ResolverIds.ClashOnlyAfterRound` | telephony/Classes/pjproject-2.2.1/pjlib-util/src/pjlib-util/resolver.c:864-882 | In every run the next id is still in use only if its query has been pending since whole rounds of 65535 ids ago |
| `ResolverRuns.StepCounts` | telephony/Classes/pjproject-2.2.1/pjlib-util/src/pjlib-util/resolver.c:1298-1381 | Of all steps only the firing of its own timer adds a transmission to a query that stays pending |
| `ResolverRuns.EveryQueryEnds` | telephony/Classes/pjproject-2.2.1/pjlib-util/src/pjlib-util/resolver.c:1298-1381 | A query that stays pending through a run saw fewer than max(1, qretr_count) firings of its timer, and was transmitted at most that often |
| `ResolverRuns.RunInv` | telephony/Classes/pjproject-2.2.1/pjlib-util/src/pjlib-util/resolver.c:738-1600 | Every step, hence every run, keeps the invariant that joins node lists, indices, timers, answers and the cache |
| `ResolverRuns.RunningCallbackKeepsPacket` | telephony/Classes/pjproject-2.2.1/pjlib-util/src/pjlib-util/resolver.c:784-826 | Through any interleaving of expiry, replacement, error and zero-TTL updates, the entry a running callback holds exists and still carries the packet it was given |
| `ResolverRuns.RefCountsExact` | telephony/Classes/pjproject-2.2.1/pjlib-util/src/pjlib-util/resolver.c:694-732 | In every reachable state ref_cnt is one for the table plus one per running callback, and an entry exists exactly while one of them refers to it |
| `ResolverOrigins.EveryCallbackExplained` | telephony/Classes/pjproject-2.2.1/pjlib-util/src/pjlib-util/resolver.c:738-1552 | In every run each callback, of a request for some key, is given what the cache held for that key when the request was made; or the status of a response whose id is that of the query then pending under the key, for which the request waited, and its packet or what earlier callbacks of that query left of it; or a timeout without a packet, after a firing that found qretr_count transmissions made or could not transmit; or its own cancellation |
| `ResolverOrigins.ResponseExact` | telephony/Classes/pjproject-2.2.1/pjlib-util/src/pjlib-util/resolver.c:1459-1479 | A response takes out exactly the pending query whose id field is that of the packet, if there is one, with its children, the packet and its four-bit return code; every other pending or completing query stays as it was |
| `ResolverOrigins.TimeoutExact` | telephony/Classes/pjproject-2.2.1/pjlib-util/src/pjlib-util/resolver.c:1298-1381 | A firing timer takes out its own query, exactly if that is pending and was transmitted qretr_count times or cannot be transmitted again; every other query stays as it was |
| `ResolverOrigins.OriginOf` | telephony/Classes/pjproject-2.2.1/pjlib-util/src/pjlib-util/resolver.c:1480-1506 | While a query completes, its status is that of the response or timeout that took it out, and its packet is that of the response with the changes of the callbacks made since |
| `ResolverOrigins.WaitsUnderItsKey` | telephony/Classes/pjproject-2.2.1/pjlib-util/src/pjlib-util/resolver.c:841-862 | In every run a request that waits for a query does so under its own key |
| `ResolverOrigins.ResponseStored` | telephony/Classes/pjproject-2.2.1/pjlib-util/src/pjlib-util/resolver.c:1507-1552 | In every run a query that got a response is stored under the key it was pending under, with that response's status and what the callbacks left of its packet; one that timed out is not stored |
| `ResolverOrigins.UsefulAnswerTransmits` | telephony/Classes/pjproject-2.2.1/pjlib-util/src/pjlib-util/resolver.c:578-668 | After a useful answer from a known server no transmission fails for want of a server |
| `ResolverOrigins.UselessAnswerFails` | telephony/Classes/pjproject-2.2.1/pjlib-util/src/pjlib-util/resolver.c:1129-1183 | After a useless answer from the only server, or one that does not parse, transmissions fail for want of a server exactly until bad_ns_ttl has passed |
| `ResolverRuns.AnsweredFromCacheExactly` | telephony/Classes/pjproject-2.2.1/pjlib-util/src/pjlib-util/resolver.c:778-839 | In every reachable state a query is answered from the cache exactly when the timed map of the events so far holds an unexpired packet for its key, and with that packet |
| `ResolverRuns.AnsweredByLastUpdate` | telephony/Classes/pjproject-2.2.1/pjlib-util/src/pjlib-util/resolver.c:778-839 | In every run with a clock that does not step back, a query is answered from the cache exactly when its key was ever updated, the last update stored a packet, and that has not expired; the callback gets that packet's query and answer sections |
| `ResolverRuns.AnsweredWithinLifetime` | telephony/Classes/pjproject-2.2.1/pjlib-util/src/pjlib-util/resolver.c:1187-1294 | In every run with a clock that does not step back, a query at t milliseconds is answered from the cache exactly when the last update of its key has a lifetime above zero and t is before its end: the update's time plus 1000 times the lifetime, or 0x7FFFFFFF seconds for an entry without expiry |
| `ResponseCache.UpdateCounted` | telephony/Classes/pjproject-2.2.1/pjlib-util/src/pjlib-util/resolver.c:1187-1294 | Replacing, resetting in place, clearing on zero TTL and inserting all keep the reference counts exact |
| `ResponseCache.LiveExactlyWhileReferenced` | telephony/Classes/pjproject-2.2.1/pjlib-util/src/pjlib-util/resolver.c:727-732 | With exact counts an entry is released exactly when neither table nor callback refers to it |
| `ResponseCache.LookupRefines` | telephony/Classes/pjproject-2.2.1/pjlib-util/src/pjlib-util/resolver.c:778-839 | A lookup hits exactly when the timed map says so, serves its packet, and the table goes on refining the map |
| `ResponseCache.UpdateRefines` | telephony/Classes/pjproject-2.2.1/pjlib-util/src/pjlib-util/resolver.c:1187-1294 | An update has the effect of one stored event on the timed map |
| `ResponseCache.LastUpdateDecides` | telephony/Classes/pjproject-2.2.1/pjlib-util/src/pjlib-util/resolver.c:778-839 | While the clock does not step back, a lookup at t finds a packet exactly when the key was ever updated and its last update stored one that has not expired at t |
| `ResponseCache.TtlIsLifetime` | telephony/Classes/pjproject-2.2.1/pjlib-util/src/pjlib-util/resolver.c:1194-1235 | The seconds an update keeps its packet are the least of cache_max_ttl and every answer's TTL; for errors and empty answers, of cache_max_ttl and sixty; without expiry, cache_max_ttl |
| `ResponseCache.HoldsWithin` | telephony/Classes/pjproject-2.2.1/pjlib-util/src/pjlib-util/resolver.c:1270-1290 | An update holds at t exactly if its lifetime is above zero and t is before its time plus that many seconds, or 0x7FFFFFFF seconds for an entry without expiry |
| `ResponseCache.KeysAgree` | telephony/Classes/pjproject-2.2.1/pjlib-util/src/pjlib-util/resolver.c:674-691 | Two keys are equal exactly for the same type and the same name up to letter case |
| `Nameservers.SelectExact` | telephony/Classes/pjproject-2.2.1/pjlib-util/src/pjlib-util/resolver.c:1068-1125 | The indices are valid and distinct, the first is an active server of least response time if there was one, a server is listed exactly if it is that one or now probing, and it is exactly known which servers are now probing |
| `Nameservers.NoServerExactly` | telephony/Classes/pjproject-2.2.1/pjlib-util/src/pjlib-util/resolver.c:1068-1125 | No server is found exactly when each is bad and not yet due, or a probe that has just expired |
| `Nameservers.BestIsLeast` | telephony/Classes/pjproject-2.2.1/pjlib-util/src/pjlib-util/resolver.c:1080-1093 | The scan finds the first active server of least response time, and -1 exactly if none is active |
| `Nameservers.ReportExact` | telephony/Classes/pjproject-2.2.1/pjlib-util/src/pjlib-util/resolver.c:1129-1183 | The first server with the address ends active exactly if the packet parsed and its return code is not SERVFAIL, REFUSED or NOTAUTH, and else bad, for good_ns_ttl or bad_ns_ttl seconds; its response time is measured exactly if the ids agree; no other server changes |
| `Nameservers.MarkSentExact` | telephony/Classes/pjproject-2.2.1/pjlib-util/src/pjlib-util/resolver.c:640-663 | A transmission starts the clock of exactly the servers sent to that are not timing another query |
| `Nameservers.ScanExact` | telephony/Classes/pjproject-2.2.1/pjlib-util/src/pjlib-util/resolver.c:1030-1125 | Selecting leaves a server alone until its state expires; then a probe ends bad, and any other server is probed for qretr_count + 2 retransmission delays |
| `Nameservers.ProbeFails` | telephony/Classes/pjproject-2.2.1/pjlib-util/src/pjlib-util/resolver.c:1095-1125 | A probe that expires unanswered leaves the server unused and bad |
| `Nameservers.UsefulAnswerServes` | telephony/Classes/pjproject-2.2.1/pjlib-util/src/pjlib-util/resolver.c:1068-1183 | After a useful answer from a known server every next selection finds a server |
| `Nameservers.UselessAnswerWaits` | telephony/Classes/pjproject-2.2.1/pjlib-util/src/pjlib-util/resolver.c:1068-1183 | After a useless answer from the only server none is found until bad_ns_ttl has passed, and then it is probed |
| `DnsResolver.Resolver.StartQuery` | telephony/Classes/pjproject-2.2.1/pjlib-util/src/pjlib-util/resolver.c:738-890 | The object keeps its invariant and moves as the start step does; arguments are rejected exactly in the source's three cases, leaving the state alone |
| `DnsResolver.Resolver.TransmitQuery` | telephony/Classes/pjproject-2.2.1/pjlib-util/src/pjlib-util/resolver.c:578-668 | Selection, timer, busy socket, failing packet builder and the marking of servers have the effect of the transmission step |
| `DnsResolver.Resolver.SelectNameservers` | telephony/Classes/pjproject-2.2.1/pjlib-util/src/pjlib-util/resolver.c:1068-1125 | The loops over the server table compute the selection function and leave the table it says |
| `DnsResolver.Resolver.ReportNameserverStatus` | telephony/Classes/pjproject-2.2.1/pjlib-util/src/pjlib-util/resolver.c:1129-1183 | The first server with the source address is updated as the report function says, the others not |
| `DnsResolver.Resolver.UpdateResCache` | telephony/Classes/pjproject-2.2.1/pjlib-util/src/pjlib-util/resolver.c:1187-1294 | The method over table and entries has the effect of one cache update |
| `DnsResolver.Resolver.OnTimeout` | telephony/Classes/pjproject-2.2.1/pjlib-util/src/pjlib-util/resolver.c:1298-1381 | The first locked region of a timeout: ignored, one more transmission, or the query taken out |
| `DnsResolver.Resolver.OnReadComplete` | telephony/Classes/pjproject-2.2.1/pjlib-util/src/pjlib-util/resolver.c:1385-1479 | The first locked region of a response, for packets that parse and packets that do not |
| `DnsResolver.Resolver.NotifyNext` | telephony/Classes/pjproject-2.2.1/pjlib-util/src/pjlib-util/resolver.c:1480-1506 | One callback, first the query's own and then its children's in order, each shown the packet its predecessor left |
| `DnsResolver.Resolver.FinishQuery` | telephony/Classes/pjproject-2.2.1/pjlib-util/src/pjlib-util/resolver.c:1507-1552 | The response goes to the cache and the query with all its children to the free list |
| `DnsResolver.Resolver.CancelQuery` | telephony/Classes/pjproject-2.2.1/pjlib-util/src/pjlib-util/resolver.c:896-913 | The callback pointer is cleared and, with notification, called with PJ_ECANCELLED |
| `DnsResolver.Resolver.AddCacheEntry` | telephony/Classes/pjproject-2.2.1/pjlib-util/src/pjlib-util/resolver.c:1556-1600 | An injected packet is rejected for the source's reasons or filed under its first answer, else its first question; the mutex is still held on return exactly when the name is too long |
| `ResolverAdds.TakenExactly` | telephony/Classes/pjproject-2.2.1/pjlib-util/src/pjlib-util/resolver.c:1556-1591 | A packet is taken exactly if its top flag bit says response and it tells of a resource, by its first answer or else its first question, of a name under 128 octets |
| `ResolverAdds.AddedServes` | telephony/Classes/pjproject-2.2.1/pjlib-util/src/pjlib-util/resolver.c:1573-1593 | From then on a request for that resource, in whatever letter case, is answered from the cache for as long as the packet lives, and every other request as it would have been |
| `DnsResolver.Resolver.Perform` | telephony/Classes/pjproject-2.2.1/pjlib-util/src/pjlib-util/resolver.c:738-1600 | Each step of the transition system is one call of the object with the same effect, and keeps the invariant |
| `DnsPackets.DupSame` | telephony/Classes/pjproject-2.2.1/pjlib-util/src/pjlib-util/dns.c:540-690 | The duplicate that is cached has the query and answer sections of the packet, up to the letter case of names, and its return code |
| `DnsPackets.DupExact` | telephony/Classes/pjproject-2.2.1/pjlib-util/src/pjlib-util/dns.c:540-690 | For every packet, the duplicate equals those sections if and only if no name in them differs only in letter case from one of the first sixteen names that differ otherwise |
| `DnsPackets.DupExactShort` | telephony/Classes/pjproject-2.2.1/pjlib-util/src/pjlib-util/dns.c:540-690 | With at most sixteen names that is: no two names differ only in letter case |
| `DnsPackets.DupChangesCase` | telephony/Classes/pjproject-2.2.1/pjlib-util/src/pjlib-util/dns.c:540-570 | A question for "A.x" and an answer for "a.x": the duplicate differs |
| `DnsNames.PassesAgree` | telephony/Classes/pjproject-2.2.1/pjlib-util/src/pjlib-util/dns.c:118-244 | On every octet sequence both passes terminate with the same status, and the second writes exactly the octets the first announced |
| `DnsNames.NameRead` | telephony/Classes/pjproject-2.2.1/pjlib-util/src/pjlib-util/dns.c:188-244 | Reading succeeds exactly when a name is spelled there with at most ten pointers (section 4.1.4 of RFC 1035); the text is its labels joined by dots exactly unless the last label is followed by a pointer to the root, which leaves a trailing dot |
| `DnsNames.TrailingDot` | telephony/Classes/pjproject-2.2.1/pjlib-util/src/pjlib-util/dns.c:228-236 | Five octets from which "a." is read for the name "a" |
| `DnsNames.SpellsUnique` | telephony/Classes/pjproject-2.2.1/pjlib-util/src/pjlib-util/dns.c:118-244 | An octet position spells at most one name |
| `DnsNames.NameLength` | telephony/Classes/pjproject-2.2.1/pjlib-util/src/pjlib-util/dns.c:118-184 | The loop with its recursion into pointers computes the first pass |
| `DnsNames.ReadName` | telephony/Classes/pjproject-2.2.1/pjlib-util/src/pjlib-util/dns.c:188-244 | The loop appends to the caller's text what the second pass reads |
| `DnsParser.ParseQuery` | telephony/Classes/pjproject-2.2.1/pjlib-util/src/pjlib-util/dns.c:248-285 | The cursor version reads what the question function reads, with its error cases |
| `DnsParser.ParseRR` | telephony/Classes/pjproject-2.2.1/pjlib-util/src/pjlib-util/dns.c:289-417 | The cursor version reads what the record function reads, with its error cases |
| `DnsParser.ParsePacket` | telephony/Classes/pjproject-2.2.1/pjlib-util/src/pjlib-util/dns.c:424-537 | Header, questions and the three record sections, or the first error |
| `DnsPrinter.MatchExact` | telephony/Classes/pjproject-2.2.1/pjlib-util/src/pjlib-util/dns_server.c:223-239 | Whatever the names, the label table takes a printed name for exactly one name: the printed text with each dot replaced by the length of the next label |
| `DnsPrinter.MatchWrong` | telephony/Classes/pjproject-2.2.1/pjlib-util/src/pjlib-util/dns_server.c:223-239 | The match is wrong exactly when that shifted form is not the printed name itself |
| `DnsLabels.ShiftedIsItself` | telephony/Classes/pjproject-2.2.1/pjlib-util/src/pjlib-util/dns_server.c:223-239 | A repeated name is recognised exactly if every label behind a dot has a length of 46, modulo 256 |
| `DnsLabels.HostnamesConfused` | telephony/Classes/pjproject-2.2.1/pjlib-util/src/pjlib-util/dns_server.c:223-239 | Two names a host may have, "x." and "x2" before the same fifty octets, of which the second is taken for the first |
| `DnsLabels.SeenExact` | telephony/Classes/pjproject-2.2.1/pjlib-util/src/pjlib-util/dns_server.c:358-436 | A reader sees the packet itself exactly when, at its turn, no name is first found at a table entry printed for a different name |
| `DnsPrinter.FullNameExact` | telephony/Classes/pjproject-2.2.1/pjlib-util/src/pjlib-util/dns_server.c:241-272 | For labels of at most 191 octets, a name printed in full is read back exactly if it is the root or has no empty label and so no dot at its end |
| `DnsPrinter.NameReadBack` | telephony/Classes/pjproject-2.2.1/pjlib-util/src/pjlib-util/dns_server.c:214-271 | Whatever print_name writes, in full or as a pointer into the packet, is read back as the name the table took it for, and takes as many octets as were written |
| `DnsPrinter.RecordReadBack` | telephony/Classes/pjproject-2.2.1/pjlib-util/src/pjlib-util/dns_server.c:275-356 | A printed A, CNAME, NS, PTR or SRV record is read back with type, class, TTL and data, and its names as the table took them |
| `DnsPrinter.PacketReadBack` | telephony/Classes/pjproject-2.2.1/pjlib-util/src/pjlib-util/dns_server.c:358-436 | Printing succeeds, and parsing the result gives the packet with each name replaced by the one it was taken for, for names of labels of 1 to 191 octets and whatever lies behind the packet in memory |
| `DnsPrinter.PacketRoundTrip` | telephony/Classes/pjproject-2.2.1/pjlib-util/src/pjlib-util/dns_server.c:358-436 | So header, questions and all records come back if and only if no name is, at its turn, taken for a different one |
| `DnsPrinter.PacketComesBack` | telephony/Classes/pjproject-2.2.1/pjlib-util/src/pjlib-util/dns_server.c:358-436 | In particular if no name of the packet is the shifted form of another |
| `DnsPrinter.HighOctetsComeBack` | telephony/Classes/pjproject-2.2.1/pjlib-util/src/pjlib-util/dns_server.c:358-436 | And always if names have no octet below 45 and no label of more than 44 octets |
| `DnsPrinter.AnswerForAnother` | telephony/Classes/pjproject-2.2.1/pjlib-util/src/pjlib-util/dns_server.c:358-436 | A question and an answer for the two confused names: the answer arrives for the wrong name |
| `DnsWire.HeaderOctets` | telephony/Classes/pjproject-2.2.1/pjlib-util/src/pjlib-util/dns_server.c:371-380 | The twelve octets of the header (section 4.1.1 of RFC 1035), high octets first |
| `DnsWire.QuestionOctets` | telephony/Classes/pjproject-2.2.1/pjlib-util/src/pjlib-util/dns_server.c:382-403 | A question is its name, type and class |
| `DnsWire.HeadOctets` | telephony/Classes/pjproject-2.2.1/pjlib-util/src/pjlib-util/dns_server.c:281-298 | A record begins with its owner, type, class and TTL |
| `DnsWire.DataOctets` | telephony/Classes/pjproject-2.2.1/pjlib-util/src/pjlib-util/dns_server.c:300-355 | The data of A, NS, CNAME and PTR records behind its length; exactly these types and SRV are printed |
| `DnsWire.SrvOctets` | telephony/Classes/pjproject-2.2.1/pjlib-util/src/pjlib-util/dns_server.c:330-348 | An SRV record's data is priority, weight, port and target |
| `DnsWire.PointerOctetsAre` | telephony/Classes/pjproject-2.2.1/pjlib-util/src/pjlib-util/dns_server.c:233-239 | A pointer is two one bits and fourteen bits of offset |
| `DnsWire.NameOctets` | telephony/Classes/pjproject-2.2.1/pjlib-util/src/pjlib-util/dns_server.c:241-271 | A name in full is each label behind its length, and a zero octet |
| `DnsServer.Server.FindName` | telephony/Classes/pjproject-2.2.1/pjlib-util/src/pjlib-util/dns_server.c:214-231 | The loop over the label table finds the first entry that matches |
| `DnsServer.Server.PrintName` | telephony/Classes/pjproject-2.2.1/pjlib-util/src/pjlib-util/dns_server.c:214-271 | The method writes the name's octets at the given position, changes nothing before it, and adds the table entry |
| `DnsServer.Server.PrintRecord` | telephony/Classes/pjproject-2.2.1/pjlib-util/src/pjlib-util/dns_server.c:275-356 | The method appends the record's octets, or fails for an unsupported type |
| `DnsServer.Server.PrintPacket` | telephony/Classes/pjproject-2.2.1/pjlib-util/src/pjlib-util/dns_server.c:358-436 | The buffer ends up with the printed packet; failure exactly for an unsupported record |
| `JsonText.LiteralRoundTrip` | telephony/Classes/pjproject-2.2.1/pjlib-util/src/pjlib-util/json.c:129-199 | For every octet string and whatever text follows, the quote scan stops exactly at the closing quote and unescaping returns the original octets |
| `JsonText.EscapeCloses` | telephony/Classes/pjproject-2.2.1/pjlib-util/src/pjlib-util/scanner.c:375-405 | From the first octet of an escaped string on, the search passes every escape and stops at the quote behind it |
| `JsonText.ParityIsEscape` | telephony/Classes/pjproject-2.2.1/pjlib-util/src/pjlib-util/scanner.c:384-397 | An odd number of backslashes before a character is the same as the character being escaped, read from the left |
| `JsonText.UnescapeEscape` | telephony/Classes/pjproject-2.2.1/pjlib-util/src/pjlib-util/json.c:425-471 | The escapes of the writer are undone by the loop of the parser |
| `JsonDoc.DocumentBack` | telephony/Classes/pjproject-2.2.1/pjlib-util/src/pjlib-util/json.c:201-290 | A document of good names, unnamed strings and digits is parsed into the tree it was printed from, and parsing stops right behind it |
| `JsonDoc.ListBack` | telephony/Classes/pjproject-2.2.1/pjlib-util/src/pjlib-util/json.c:101-126 | Children printed in either layout, with their indentation and separators, are read back as the list |
| `JsonDoc.RootExact` | telephony/Classes/pjproject-2.2.1/pjlib-util/src/pjlib-util/json.c:298-341 | With nothing behind it a document comes back exactly when its root is not null or true; those two fail because the comparison with "false" comes first |
| `JsonDoc.NameExact` | telephony/Classes/pjproject-2.2.1/pjlib-util/src/pjlib-util/json.c:210-222 | A printed name is read back if and only if it is printable, free of quotes, backslashes and slashes, and does not start with a space |
| `JsonDoc.UnnamedExact` | telephony/Classes/pjproject-2.2.1/pjlib-util/src/pjlib-util/json.c:210-228 | An unnamed string is read back if and only if it is not empty and could be a name |
| `JsonDoc.SpanRunsOn` | telephony/Classes/pjproject-2.2.1/pjlib-util/src/pjlib-util/scanner.c:257-285 | A number at the end of the text runs on into what lies behind it, and so is read right exactly if no digit or point is there |
| `JsonDoc.DepthExact` | telephony/Classes/pjproject-2.2.1/pjlib-util/src/pjlib-util/json.c:508-527 | Every indent stays within the hundred blanks of the buffer if and only if at most thirty-three lists of named children are nested |
| `JsonCharacters.WordsAre` | telephony/Classes/pjproject-2.2.1/pjlib-util/src/pjlib-util/json.c:262-271 | The three words of the format |
| `JsonCharacters.EscapesAre` | telephony/Classes/pjproject-2.2.1/pjlib-util/src/pjlib-util/json.c:424-466 | The writer escapes quote, backslash, slash, backspace, form feed, newline, return and tab by letter, and everything else outside 32 to 126 by number |
| `JsonCharacters.HexDigitsAre` | telephony/Classes/pjproject-2.2.1/pjlib-util/src/pjlib-util/json.c:456-466 | Hexadecimal digits are written in lower case |
| `JsonCharacters.HexMeans` | telephony/Classes/pjproject-2.2.1/pjlib-util/src/pjlib-util/json.c:163-165 | Hexadecimal digits are read in either case |
| `JsonCharacters.LettersMean` | telephony/Classes/pjproject-2.2.1/pjlib-util/src/pjlib-util/json.c:154-186 | What each letter behind a backslash is read as, and that no other is accepted |
| `JsonCharacters.SkipExact` | telephony/Classes/pjproject-2.2.1/pjlib-util/src/pjlib-util/scanner.c:138-170 | Exactly blanks, tabs, returns and newlines are skipped |
| `JsonCharacters.ValuesLineUp` | telephony/Classes/pjproject-2.2.1/pjlib-util/src/pjlib-util/json.c:535-560 | Values begin twenty-four columns behind the indent for names of up to twenty characters |
| `JsonCharacters.ObjectIs` | telephony/Classes/pjproject-2.2.1/pjlib-util/src/pjlib-util/json.c:481-533 | An object has a line for each member, three columns further in, with commas between |
| `JsonCharacters.ArrayIs` | telephony/Classes/pjproject-2.2.1/pjlib-util/src/pjlib-util/json.c:481-533 | An array of unnamed elements is one line, with commas between |
| `JsonReader.Scanner.SkipBlanks` | telephony/Classes/pjproject-2.2.1/pjlib-util/src/pjlib-util/scanner.c:138-191 | The loops over blanks and lines move the cursor to the first character that is neither |
| `JsonReader.Scanner.TakeUntil` | telephony/Classes/pjproject-2.2.1/pjlib-util/src/pjlib-util/scanner.c:521-542 | The token up to the character or the end, and the cursor behind it |
| `JsonReader.Scanner.TakeQuote` | telephony/Classes/pjproject-2.2.1/pjlib-util/src/pjlib-util/scanner.c:352-421 | The quoted token found by counting backslashes backwards, or an error at a newline or the end |
| `JsonReader.Scanner.ClosesAt` | telephony/Classes/pjproject-2.2.1/pjlib-util/src/pjlib-util/scanner.c:384-400 | The backward count decides whether a quote closes the literal |
| `JsonReader.Scanner.Compare` | telephony/Classes/pjproject-2.2.1/pjlib-util/src/pjlib-util/scanner.c:586-593 | The comparison, and its error when fewer characters than in the word are left |
| `JsonReader.Scanner.UnescapeToken` | telephony/Classes/pjproject-2.2.1/pjlib-util/src/pjlib-util/json.c:146-199 | The loop over the token computes the unescaped text, or fails at the first invalid escape |
| `JsonReader.Scanner.TakeElem` | telephony/Classes/pjproject-2.2.1/pjlib-util/src/pjlib-util/json.c:201-290 | The recursive descent over the shared cursor computes the parse function, with its failures |
| `JsonReader.Scanner.TakeChildren` | telephony/Classes/pjproject-2.2.1/pjlib-util/src/pjlib-util/json.c:101-126 | The loop over children, repeated commas included, collects them in order |
| `JsonReader.ParseJson` | telephony/Classes/pjproject-2.2.1/pjlib-util/src/pjlib-util/json.c:298-341 | The root element, if any, and on success how much of the input is left behind it |
| `JsonWriter.FillChunk` | telephony/Classes/pjproject-2.2.1/pjlib-util/src/pjlib-util/json.c:417-472 | The inner loop takes at least one character and fills the 64-octet chunk with the escapes of those it took |
| `JsonWriter.Writer.WriteEscaped` | telephony/Classes/pjproject-2.2.1/pjlib-util/src/pjlib-util/json.c:407-479 | The chunks concatenate to the escape of the whole string; an empty string writes nothing |
| `JsonWriter.Writer.WriteElem` | telephony/Classes/pjproject-2.2.1/pjlib-util/src/pjlib-util/json.c:535-602 | Exactly the element's text is written if it fits, and the indent is restored |
| `JsonWriter.Writer.WriteChildren` | telephony/Classes/pjproject-2.2.1/pjlib-util/src/pjlib-util/json.c:481-533 | Brackets, layout chosen by the first child, separators and closing indent |
| `JsonWriter.WriteJson` | telephony/Classes/pjproject-2.2.1/pjlib-util/src/pjlib-util/json.c:365-383 | Writing succeeds exactly when the document leaves two octets of the buffer, which then holds the document and a NUL |
| `Crc32.TableIsReduction` | telephony/Classes/pjproject-2.2.1/pjlib-util/src/pjlib-util/crc32.c:31-80 | Each of the 256 table entries is the eight-step reduction of its index |
| `Crc32.OctetIsReduction` | telephony/Classes/pjproject-2.2.1/pjlib-util/src/pjlib-util/crc32.c:199-223 | Shifting an octet in bit by bit equals adding it to the register and reducing eight times |
| `Crc32.TableStepIsOctet` | telephony/Classes/pjproject-2.2.1/pjlib-util/src/pjlib-util/crc32.c:156-183 | A table look-up step equals shifting in the octet bit by bit |
| `Crc32.WordIsFourOctets` | telephony/Classes/pjproject-2.2.1/pjlib-util/src/pjlib-util/crc32.c:168-176 | Adding a little-endian word and looking up four times equals taking its four octets one by one |
| `Crc32.UpdateExtends` | telephony/Classes/pjproject-2.2.1/pjlib-util/src/pjlib-util/crc32.c:156-183 | Continuing a checksum with more octets gives the checksum of the concatenation |
| `Crc32.BurstDetected` | telephony/Classes/pjproject-2.2.1/pjlib-util/src/pjlib-util/crc32.c:156-183 | Changing four consecutive octets, whatever surrounds them, always changes the checksum |
| `Crc32.TableContext.Update` | telephony/Classes/pjproject-2.2.1/pjlib-util/src/pjlib-util/crc32.c:156-183 | Unaligned prologue, word loop and tail take in the octets for every start address |
| `Crc32.BitContext.Update` | telephony/Classes/pjproject-2.2.1/pjlib-util/src/pjlib-util/crc32.c:199-223 | The bitwise loops take in the octets |
| `Crc32.TableOver` | telephony/Classes/pjproject-2.2.1/pjlib-util/src/pjlib-util/crc32.c:234-242 | The table version over any split of a message, at any addresses, ends in the message's checksum (section 8.1.1.6.2 of ITU-T V.42) |
| `Crc32.BitsOver` | telephony/Classes/pjproject-2.2.1/pjlib-util/src/pjlib-util/crc32.c:234-242 | So does the bitwise version |
| `Crc32.CheckValue` | telephony/Classes/pjproject-2.2.1/pjlib-util/src/pjlib-util/crc32.c:234-242 | The checksum of the digits one to nine is CBF43926 |
| `Sha1.MixIsF` | telephony/Classes/pjproject-2.2.1/pjlib-util/src/pjlib-util/sha1.c:125-130 | The selection of each round macro is the function f(t; B, C, D) of RFC 3174 at every round |
| `Sha1.StoredIsW` | telephony/Classes/pjproject-2.2.1/pjlib-util/src/pjlib-util/sha1.c:116-124 | What the macros store in the sixteen-word ring at round i is word W(i) of the eighty-word schedule |
| `Sha1.FiveRounds` | telephony/Classes/pjproject-2.2.1/pjlib-util/src/pjlib-util/sha1.c:157-184 | Five unrolled rounds in rotated roles equal five register shifts, after which each variable is in its role again |
| `Sha1.Transform` | telephony/Classes/pjproject-2.2.1/pjlib-util/src/pjlib-util/sha1.c:134-189 | The in-place transform (section 6.2 of RFC 3174) computes the compression of section 6.1 for every state and block, and leaves the last sixteen words of the schedule in the block |
| `Sha1.CountExact` | telephony/Classes/pjproject-2.2.1/pjlib-util/src/pjlib-util/sha1.c:206-215 | The carry between the two count words is right for every update under 2^29 octets, and for longer ones exactly in the stated cases |
| `Sha1.PadTest` | telephony/Classes/pjproject-2.2.1/pjlib-util/src/pjlib-util/sha1.c:232-248 | The loop test of the padding stops at exactly the right number of zero octets |
| `Sha1.Context.Update` | telephony/Classes/pjproject-2.2.1/pjlib-util/src/pjlib-util/sha1.c:206-226 | State and buffer stand for the message with the data appended; the bit count stays right exactly under the stated condition |
| `Sha1.Context.Final` | telephony/Classes/pjproject-2.2.1/pjlib-util/src/pjlib-util/sha1.c:232-262 | The digest of the padded message with the count as kept, which is the message digest if the count is right; the context is wiped |
| `Sha1.HashOver` | telephony/Classes/pjproject-2.2.1/pjlib-util/src/pjlib-util/sha1.c:193-262 | Any split into updates under 2^29 octets gives the message digest (section 4 of RFC 3174 for the padding) |
| `Sha1Example.DigestOfAbc` | telephony/Classes/pjproject-2.2.1/pjlib-util/src/pjlib-util/sha1.c:134-262 | The digest of "abc" is that of section 7.3 of RFC 3174, through padding, all eighty words of the schedule, all rounds and the spelling of the words |
| `Md5.CountExact` | telephony/Classes/pjproject-2.2.1/pjlib-util/src/pjlib-util/md5.c:73-85 | The two-word bit count with its carry is right for every update |
| `Md5.Context.Update` | telephony/Classes/pjproject-2.2.1/pjlib-util/src/pjlib-util/md5.c:73-120 | State and buffer stand for the message with the data appended, for every compression function |
| `Md5.Context.Final` | telephony/Classes/pjproject-2.2.1/pjlib-util/src/pjlib-util/md5.c:122-161 | One or two padding blocks (sections 3.1 and 3.2 of RFC 1321) give the digest of the message; the context is wiped |
| `Md5.HashOver` | telephony/Classes/pjproject-2.2.1/pjlib-util/src/pjlib-util/md5.c:58-161 | Any split of a message into updates gives its digest |
| `Md5.DigestOfAbc` | telephony/Classes/pjproject-2.2.1/pjlib-util/src/pjlib-util/md5.c:58-161 | For every compression function that takes the initial words and the padded block of "abc" to the words of its digest, the digest is that of section A.5 of RFC 1321, in its octet order |
| `Blocks.CountField` | telephony/Classes/pjproject-2.2.1/pjlib-util/src/pjlib-util/md5.c:139-146 | The two count words spell the 64-bit length field, in either octet order |
| `Getopt.RotateTo` | telephony/Classes/pjproject-2.2.1/pjlib-util/src/pjlib-util/getopt.c:201-247 | The segment-swapping loop terminates with exactly the rotated array |
| `Getopt.Scanner.Exchange` | telephony/Classes/pjproject-2.2.1/pjlib-util/src/pjlib-util/getopt.c:201-256 | exchange is a block rotation: options then skipped arguments, each in order, all else untouched, and the two indices describe where the skipped arguments are now |
| `Getopt.Scanner.Next` | telephony/Classes/pjproject-2.2.1/pjlib-util/src/pjlib-util/getopt.c:353-729 | A call returns the next of the options still to come with its argument, or -1 exactly when there is none, and then argv is arranged and optind at the first non-option |
| `Getopt.ScanAll` | telephony/Classes/pjproject-2.2.1/pjlib-util/src/pjlib-util/getopt.c:353-729 | Calling until -1 terminates, returns exactly the options of the line in order, and leaves argv a permutation: options with their arguments and any -- first, then the rest, each in original order |
| `Getopt.KindIs` | telephony/Classes/pjproject-2.2.1/pjlib-util/src/pjlib-util/getopt.c:578-691 | A letter takes no argument, needs one or may have one exactly if no, one or two colons stand behind its first place in the option string |
| `Getopt.LineMeans` | telephony/Classes/pjproject-2.2.1/pjlib-util/src/pjlib-util/getopt.c:600-729 | A line of arguments, flags in clusters, options with their argument apart, joined or absent as the colons allow, and an end (nothing, -- and any rest, or an option lacking its argument) means exactly those returns and that arrangement |
| `Getopt.EveryLine` | telephony/Classes/pjproject-2.2.1/pjlib-util/src/pjlib-util/getopt.c:353-729 | Every argument line is such a line |
| `Getopt.ScanLine` | telephony/Classes/pjproject-2.2.1/pjlib-util/src/pjlib-util/getopt.c:353-729 | Scanning such a line returns each option with its own argument, unlisted letters as ? and a lacking argument as ? or :, and leaves argv with the options first and optind at the rest |
| `Getopt.PartitionKeepsAll` | telephony/Classes/pjproject-2.2.1/pjlib-util/src/pjlib-util/getopt.c:353-729 | The two groups together are the arguments |
| `Getopt.PermutedMeansTheSame` | telephony/Classes/pjproject-2.2.1/pjlib-util/src/pjlib-util/getopt.c:353-729 | Scanning the permuted line again returns the same options exactly when no option lacking its argument at the end is followed by a non-option; the permutation is then stable |
| `SrvResolver.SortSorts` | telephony/Classes/pjproject-2.2.1/pjlib-util/src/pjlib-util/srv_resolver.c:244-255 | The first pass yields a permutation sorted by priority |
| `SrvResolver.ElectedIff` | telephony/Classes/pjproject-2.2.1/pjlib-util/src/pjlib-util/srv_resolver.c:286-292 | A draw elects a candidate exactly when it is above the running sum before it and not above its own |
| `SrvResolver.SomeoneElected` | telephony/Classes/pjproject-2.2.1/pjlib-util/src/pjlib-util/srv_resolver.c:286-295 | Every draw up to the total weight elects somebody: the assertion holds |
| `SrvResolver.DrawsPerWeight` | telephony/Classes/pjproject-2.2.1/pjlib-util/src/pjlib-util/srv_resolver.c:276-295 | Of the draws from zero to the total weight, exactly weight many elect a candidate, and one more the first (RFC 2782) |
| `SrvResolver.OrderedIs` | telephony/Classes/pjproject-2.2.1/pjlib-util/src/pjlib-util/srv_resolver.c:244-308 | For any draws the result is a permutation of the accepted records sorted by priority, and each position holds the candidate its draw elected among those left |
| `SrvResolver.OrderServes` | telephony/Classes/pjproject-2.2.1/pjlib-util/src/pjlib-util/srv_resolver.c:207-308 | In terms of the answers: positions are filled one after another from exactly the first eight SRV answers with a target of at most 128 octets, each once, with name and port of the answer; the answers' own prio does not decrease along the positions; and of the draws at a position as many elect an answer left of its prio as its own weight says, one more for the first |
| `SrvResolver.EarlierStay` | telephony/Classes/pjproject-2.2.1/pjlib-util/src/pjlib-util/srv_resolver.c:257-308 | Once a position is filled later elections leave it alone |
| `SrvResolver.EightAreEnough` | telephony/Classes/pjproject-2.2.1/pjlib-util/src/pjlib-util/srv_resolver.c:207-235 | With the table of eight full the remaining answers make no difference |
| `SrvResolver.Query.Accept` | telephony/Classes/pjproject-2.2.1/pjlib-util/src/pjlib-util/srv_resolver.c:207-235 | The records taken over are the acceptable ones, in order, up to the eighth |
| `SrvResolver.Query.SortByPriority` | telephony/Classes/pjproject-2.2.1/pjlib-util/src/pjlib-util/srv_resolver.c:244-255 | The in-place selection sort computes the first pass |
| `SrvResolver.Query.ElectNext` | telephony/Classes/pjproject-2.2.1/pjlib-util/src/pjlib-util/srv_resolver.c:263-308 | Running sums, draw and swap in place compute one election |
| `SrvResolver.Query.BuildServerEntries` | telephony/Classes/pjproject-2.2.1/pjlib-util/src/pjlib-util/srv_resolver.c:202-308 | The whole function leaves the targets that serve the answers as OrderServes says, for the draws made |
| `Telnet.Agreement` | telephony/Classes/pjproject-2.2.1/pjlib-util/src/pjlib-util/cli_telnet.c:475-633 | In every run, whatever the permissions and whenever options are asked for, all options and directions interleaved on the streams: when no command about one side of an option is in flight, both endpoints have it enabled or both disabled |
| `Telnet.DeliveriesBounded` | telephony/Classes/pjproject-2.2.1/pjlib-util/src/pjlib-util/cli_telnet.c:475-633 | After any run, at most three deliveries for each command in flight about an option's side, and one more, follow before it is asked for again; so every exchange ends |
| `Telnet.FourDeliveries` | telephony/Classes/pjproject-2.2.1/pjlib-util/src/pjlib-util/cli_telnet.c:475-574 | The bound is reached: a run with one command in flight and four deliveries |
| `Telnet.ExchangeEnds` | telephony/Classes/pjproject-2.2.1/pjlib-util/src/pjlib-util/cli_telnet.c:475-633 | If nobody asked while awaiting a reply, at most three commands are delivered (RFC 854, "General Considerations") |
| `Telnet.RequestGranted` | telephony/Classes/pjproject-2.2.1/pjlib-util/src/pjlib-util/cli_telnet.c:528-574 | A single request, from either end, ends with the option enabled exactly if the other end allows it |
| `Telnet.CrossedRequests` | telephony/Classes/pjproject-2.2.1/pjlib-util/src/pjlib-util/cli_telnet.c:528-574 | Requests that cross enable the option in every order of delivery |
| `TelnetQueue.StatesMatch` | telephony/Classes/pjproject-2.2.1/pjlib-util/src/pjlib-util/cli_telnet.c:475-509 | The six states are those of section 7 of RFC 1143, one for one |
| `TelnetQueue.RequestExact` | telephony/Classes/pjproject-2.2.1/pjlib-util/src/pjlib-util/cli_telnet.c:475-509 | A request does what RFC 1143 says, commands sent included, if and only if none is awaited, nor queued behind a refusal, already |
| `TelnetQueue.ReceiveExact` | telephony/Classes/pjproject-2.2.1/pjlib-util/src/pjlib-util/cli_telnet.c:528-633 | A command received is answered as RFC 1143 says if and only if it does not find the opposite of its own kind queued |
| `TelnetQueue.RunsAnswer` | telephony/Classes/pjproject-2.2.1/pjlib-util/src/pjlib-util/cli_telnet.c:528-633 | In every run every command is answered as RFC 1143 says, as nothing is ever queued |
| `TelnetQueue.RunsRequest` | telephony/Classes/pjproject-2.2.1/pjlib-util/src/pjlib-util/cli_telnet.c:475-509 | In every run a request is that of RFC 1143 exactly if none is awaited, and else takes the first back without a word |
| `Telnet.Session.SendEnableOption` | telephony/Classes/pjproject-2.2.1/pjlib-util/src/pjlib-util/cli_telnet.c:475-509 | The method on the option table has the effect of a request: new state and command sent |
| `Telnet.Session.ReceiveEnableOption` | telephony/Classes/pjproject-2.2.1/pjlib-util/src/pjlib-util/cli_telnet.c:528-574 | The method has the effect of receiving an enabling command |
| `Telnet.Session.ReceiveDisableOption` | telephony/Classes/pjproject-2.2.1/pjlib-util/src/pjlib-util/cli_telnet.c:576-613 | The method has the effect of receiving a disabling command |
| `Telnet.Session.ReceiveCommand` | telephony/Classes/pjproject-2.2.1/pjlib-util/src/pjlib-util/cli_telnet.c:615-633 | Each of DO, DONT, WILL and WONT acts on the right side of the option |

## Left out

- ResolverRuns.AnsweredExactlyOnce: `pj_dns_resolver_destroy`, which answers what is pending with PJ_ECANCELLED, is not a step.
- ResolverRuns.EveryQueryEnds: counts firings of the timer; that the timer heap fires in time is not part of the model.
- DnsPrinter.PacketRoundTrip: packets of at most 16384 octets, the reach of a compression pointer (the server's own limit is 1500), and names of labels of 1 to 191 octets without a dot at the end; the others do not come back even alone, by DnsPrinter.FullNameExact, or have labels whose length octet would read as a pointer or not fit.
- DnsServer.Server.PrintPacket: the buffer is large enough; the source's size checks, which among other things do not count four octets of a question, are not modelled.
- DnsParser.ParsePacket: octets behind the packet are a fixed sequence continued by zeros, and the parsed record keeps no raw length of its data.
- JsonDoc.DocumentBack: a number is its text; `snprintf` and `pj_strtof` are not part of the model.
- JsonReader.ParseJson: line and column of an error, and how much of the input is left after one, are not stated.
- JsonWriter.WriteJson: what a failed call leaves in the buffer is not stated.
- Md5.HashOver: the compression function is a parameter, so its rounds are not modelled.
- Sha1.HashOver: big-endian machines, where the load macro differs, are not modelled; nor are objects of 2^61 octets and more.
- Crc32.TableContext.Update: the variant for big-endian machines is not modelled.
- Getopt.ScanAll: option strings that start with `-` or `+` or contain `W;`, long options and POSIXLY_CORRECT are not modelled.
- SrvResolver.Query.BuildServerEntries: the loop that repairs name pointers after the swaps has no counterpart, as values carry their names.
- DnsResolver.Resolver.AddCacheEntry: that other threads wait for ever for a mutex left locked is not part of the steps.
- Sockets, polling, the timer heap, memory pools, mutexes and logging; allocation always succeeds.
- Several reads completing at once: a response may arrive at any time, which covers more interleavings than the socket allows.
- The option bits of a resolver query, and changes of settings or name servers during a run.
- The application may change a packet it is shown while a query completes; it is assumed not to change a cached one.
- `pj_dns_make_query`, `pj_dns_parse_a_response` and the record initialisers: straight-line formatting.
- The receive handler of the DNS server, the final callbacks of SRV resolution, HTTP, STUN, PCAP and XML: input and output around the parts modelled.
- The screen, history and line editing of the telnet front end, and the rest of the command-line interface.
- Base64, HMAC, string escaping and the error tables: small members without much state.
