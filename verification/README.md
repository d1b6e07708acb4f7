# Deblocus, verified: routing table, tunnel multiplexer, cipher stream and handshake

A Dafny model of the parts of the deblocus tunnel proxy where a mistake is hard to see, with
proofs about every input, every run or every interleaving.

* **Geo routing table** (`Bits`, `Nets`, `Prefixes`, `Chains`, `Packing`, `Layout`, `Delivery`,
  `Branching`, `Slots`, `Builder`, `RoutingTable`, `SmallTables`, `PairTables`, `HostBits`, `Cidr`).  `BuildRoutingTable`
  sorts the entries, removes duplicates, splits them into base strings and a linked prefix
  table, and packs a level- and path-compressed trie into one array of 32-bit words.  `Find` on
  the result is longest-prefix match (the longest-match rule, section 5.1 of RFC 4632).
* **Cipher stream** (`ChaChaBlock`, `ChaChaStream`, `Connection`).  A 512-byte buffer with an
  offset behaves like one keystream (sections 2.1 and 2.3 of RFC 8439, with a 64-bit counter
  and nonce), for both XOR loops and any cut of the data into calls.
* **Frame codec** (`Frames`).  Packed, hashed and padded frames are read back exactly, also
  through an encrypted connection that is cut anywhere.
* **Multiplexer** (`Mux`, `MuxSession`, `MuxGap`, `MuxRuns`, `MuxRace`, `FastOpen`, `CloseBits`,
  `SessionKeys`).  A step machine in which each lock section or atomic operation is a step.
  Order, absence of gaps, the bound of the fast-open buffer, close bits and session keys.
* **Handshake** (`BigEndian`, `Hello`, `Fields`, `Wire`, `Handshake`, `Agreement`,
  `HandshakeSteps`, `HandshakeRuns`).  Client and server over two byte streams, full and
  resumed, with the cipher switched on in the middle of each stream.
* **Tokens, reconnection, tunnel choice** (`Tokens`, `TokenPool`, `Restart`, `RestartRace`,
  `ConnPool`).

Where the code does not keep a promise, it is modelled as it is; the failing run or input is a
lemma, and another states exactly when the promise holds:

* A `register` between `getRegistered` and `preDeliver` loses a frame (`MuxRace.GapExactly`,
  `MuxRace.RaceLeavesGap`).
* A tunnel whose identifier is a prefix of another's takes that one's sessions with it when it
  ends (`SessionKeys.CleanedIffPrefix`, `SessionKeys.PortPrefixCloses`).
* `restart` stores the working state before it adds to `round`; a restarter that loads in
  between gives up and the client stays offline (`Restart.StuckIff`,
  `RestartRace.OfflineForGood`).
* `bitwiseCompareAndSet` can fail although the caller's own bit is clear
  (`CloseBits.SwapWinsIff`, `CloseBits.LosesWithBitClear`).
* The server takes the hello and the resume token with one read each and refuses a short one,
  so a segment boundary inside them fails an honest handshake (`HandshakeRuns.Completes`,
  `HandshakeRuns.ShortGreetingRefused`, `HandshakeRuns.ShortTokenRefused`).
* A field longer than its length prefix can say is read back shorter (`Fields.FieldRoundTrip`);
  an RSA-2048 signature of 256 bytes in a one-byte field would be read as empty.
* The login of a restart stores the token pool without the lock and can be overwritten
  (`TokenPool.LoginIff`, `TokenPool.LoginOverwritten`).
* A restarter destroys the old multiplexer after it saw that nobody listens on it, but a
  goroutine with a new tunnel may have entered in between (`Restart.DestroyedUnderListener`,
  `RestartRace.ListenerUnderDestroy`).
* An entry with host bits set is sorted behind networks it covers, and the table then answers
  not-found for addresses it matches; `ReadEntries` does not clear them.  `SmallTables` follows
  the build for entry sets whose trie is a single node, host bits and uint32 wrap-around
  included.  `PairTables.PairRightIff` says for any two entries when their table is right,
  `HostBits.CanonicalIff` that up to 30 bits exactly the canonical entries are answered right
  beside every canonical entry, `HostBits.LoseRoute` builds and searches a table that fails.
  One of 31 bits is always answered right beside a single canonical entry
  (`HostBits.ThirtyOneRight`), but takes its neighbour's slot in a larger node
  (`HostBits.ThirtyOneLoses`).

`dafny verify dfyconfig.toml` checks everything.

## Model

| member | source | states |
|---|---|---|
| RoutingTable.Find | geo/trie.go:114-150 | on a table built from a route set, the answer for every 32-bit address is a hop of the longest route that matches it, and not-found exactly when none does |
| RoutingTable.BuildRoutingTable | geo/trie.go:20-111 | for every non-empty canonical entry set with at most 967231 innermost networks: the result is a table Find can rely on, with one base string for each innermost network and at most 65537 + 4 * bases cells, all writes within the allocated array |
| RoutingTable.AnswerUnique | geo/trie.go:34-41 | where equal networks carry equal hops, that answer is the one hop of the longest match |
| RoutingTable.Search | geo/trie.go:114-150 | on any table whose trie lies in the array and whose links lead down: one comparison with the base the walk ends at, then its chain, first link that agrees |
| RoutingTable.WalkTrie | geo/trie.go:114-127 | the walk, which never looks at a skipped bit, ends in bounds at the base the abstract trie names for the address |
| RoutingTable.MaskTest | geo/trie.go:130-131 | the one masked comparison holds exactly when address and base string agree on the first len bits |
| RoutingTable.BaseCount | geo/trie.go:54-81 | the base vector has exactly as many strings as the entry set has innermost networks |
| Builder.BuildTrie | geo/trie.go:159-231 | the recursion terminates, lays a trie over base[first..first+n] out in its own cell and a fresh block behind it, writes nothing else, stays within its share of cells, and the trie delivers every address to a base that the longest match covers |
| Builder.BuildSlot | geo/trie.go:175-228 | one turn of the slot loop, whichever of the three cases it takes, extends the delivering children by the slots it fills |
| Builder.BuildKids | geo/trie.go:173-228 | the slot loop fills every one of the 2^branch slots, each with a trie that delivers, and places every base of the range |
| Builder.FillSpan | geo/trie.go:218-223 | a short string is written into exactly the slots of its span |
| Builder.LongestMatch | geo/trie.go:184-212 | the search along a prefix chain finds the longest prefix of the neighbour that agrees with the empty slot |
| Layout.CellsPartition | geo/trie.go:168-229 | every cell below a node is one child's own cell or in the block of exactly one child, so no cell is laid out twice |
| Builder.GroupRoom | geo/trie.go:176-226 | the bases of one slot share its bits, are fewer than the range and fit the cells left |
| Branching.ComputeBranch | geo/trie.go:239-290 | newprefix is exactly what the range shares; below the root at least half of the 2^branch slots are taken and the node stays within 32 bits |
| Branching.CommonPrefix | geo/trie.go:240-249 | the bit loop stops at the first bit in which first and last string of the range differ, before bit 32 |
| Branching.CountPatterns | geo/trie.go:275-286 | one pass over the patterns and one over the bases counts the distinct slots |
| Branching.RemoveKeepsBit | geo/trie_h.go:114-116 | REMOVE of the shared bits changes no later bit |
| Slots.GroupSlot | geo/trie.go:224-226 | a slot with a group of bases delivers if the trie over the group does |
| Slots.ShortSlot | geo/trie.go:218-223 | a slot in the span of a short base delivers when it points at that base |
| Slots.EmptySlot | geo/trie.go:181-217 | an empty slot delivers when it points at the neighbour with the longer match: the prefix chain of that neighbour holds the longest match |
| Delivery.GroupTouched | geo/trie.go:176-179 | the bases counted for a slot are all through which a longer match of its addresses can be found |
| Delivery.NeighbourTouched | geo/trie.go:184-217 | a longer match of an address in an empty slot covers one of the two neighbours |
| Delivery.PatternAgrees | geo/trie.go:192-206 | the bit comparison with the slot pattern tells, for every address of the slot, whether it starts with that prefix |
| Delivery.InSpan | geo/trie.go:219-223 | an address starts with a short base exactly when its slot is within the base's span |
| Prefixes.SplitPrefixes | geo/trie.go:54-81 | for any entries the vectors of the split loop as a fold over them; for canonical ones: base vector sorted and prefix-free; every route in exactly one of base vector and prefix table; every link names the longest proper prefix or none |
| Prefixes.LinkedStep | geo/trie.go:62-64 | one pass of the inner loop makes entry i the longest cover so far of exactly the later entries it covers |
| Prefixes.ProgressPrefix | geo/trie.go:57-69 | the prefix branch of the split loop keeps links, places and both vectors right for the next entry |
| Prefixes.RemoveDuplicates | geo/trie.go:36-41 | each network stays once, with the hop of one of its entries |
| Prefixes.SortEntries | geo/trie_h.go:63-64 | any sorted permutation, the only thing the rest relies on because Less is `<=` |
| Prefixes.IsPrefixCovers | geo/trie_h.go:52-57 | isprefix is coverage of networks |
| Chains.SplitChains | geo/trie.go:137-147 | following the links from a base lists exactly the entries that are proper prefixes of it, in strictly decreasing length |
| Nets.CoversBetween | geo/trie_h.go:73-85 | in the sort order the networks below a canonical one are contiguous, so the inner loop may stop at the first entry it does not cover |
| SmallTables.BuildSmallTable | geo/trie.go:20-111 | for any entries, host bits or not, whose trie is a leaf or one node: the array, base vector and prefix table that the code builds, as a function of the sorted entries |
| SmallTables.FillSlots | geo/trie.go:173-228 | the slot loop with uint32 wrap-around: which base each slot gets, including spans that run over the next base's slot |
| SmallTables.CommonBitsIs | geo/trie.go:245-249 | the bit loop over two different strings stops at their first differing bit |
| PairTables.PairRightIff | geo/trie.go:114-231 | for any two entries: the search in their table is longest-prefix match for every address if and only if one is linked to the other, they exclude each other, or one is the lower half of the other |
| PairTables.PairLoses | geo/trie.go:129-149 | in any other pair, an address the second entry matches and for which the search gives not-found |
| HostBits.CanonicalIff | geo/geoip.go:79-83 | an entry of at most 30 bits is answered right beside every canonical entry if and only if its host bits are zero |
| HostBits.LoseRoute | geo/trie.go:20-150 | building the table of such an entry and its companion and searching it gives not-found for an address the entry matches |
| HostBits.ThirtyOneRight | geo/trie.go:218-223 | an entry of 31 bits is answered right beside any single canonical entry |
| HostBits.ThirtyOneLoses | geo/trie.go:218-223 | with its host bit set and not the last of its /16, it makes the table of three entries lose the next address |
| Bits.AgreeExtract | geo/trie_h.go:105-107 | on strings that share p bits EXTRACT separates and orders them as their next n bits do, also past bit 32 |
| Packing.Unpack | geo/trie_h.go:88-102 | branch, skip and a 22-bit address come back from a packed node |
| Cidr.ParseCIDR | geo/geoip.go:195-208 | the parse loop computes the fold of its state machine over the text, with 32-bit wrap-around |
| Cidr.PrintParse | geo/geoip.go:195-219 | printing any address and length and parsing the text gives both back |
| Cidr.RangeIsMatch | geo/geoip.go:210-215 | the range of a literal holds exactly the addresses its network matches |
| Cidr.RangeLowCanonical | geo/geoip.go:210-213 | the masked low end of a range is a canonical network |
| ChaChaStream.ChaCha.XORKeyStream | crypto/chacha_generic.go:61-88 | a call of any length, in place or not, combines the data with the next bytes of one keystream and keeps buffer, offset and counter consistent |
| ChaChaStream.ChaCha.ChaChaXor | crypto/chacha_amd64.h:95-115 | the C loop with the wide XOR has the same contract |
| ChaChaStream.FastXORBytes | crypto/chacha_amd64.h:75-93 | 16, 8 and 1 bytes at a time XOR exactly the range asked for |
| ChaChaStream.SafeXORBytes | crypto/chacha_generic.go:50-59 | XORs the shorter of the two rests and nothing else |
| ChaChaStream.ChaCha.EmitsIsCrypt | crypto/modes.go:70-74 | after the filling call the object is the unbuffered cipher at its position |
| ChaChaStream.ChunksDoNotMatter | crypto/chacha_generic.go:61-88 | the calls joined are one call on the joined data |
| ChaChaStream.ReaderRecovers | tunnel/cipher.go:45-51 | a reader that cuts the ciphertext at other places recovers what the writer's calls joined to |
| ChaChaBlock.CounterAt | crypto/chacha_generic.go:148-151 | block j runs on the 64-bit counter advanced by j, all other words unchanged |
| ChaChaBlock.Init | crypto/modes.go:52-68 | constants, little-endian key, zero counter, little-endian nonce |
| Connection.SetUpUnique | tunnel/cipher.go:107-113 | key and nonce determine the state, so the writer's and the reader's object share one keystream |
| Connection.Exchange | tunnel/conn.go:47-60 | whatever chunks are written, and wherever the reads cut the bytes, the joined data arrives |
| Frames.Pack | tunnel/multiplexer.go:765-787 | header and body of the frame in place, the rest of the buffer unchanged |
| Frames.FrameTransform | tunnel/multiplexer.go:719-732 | computes the bytes that go on the wire: hash set, short frames padded by a random tail |
| Frames.SetHashAt6 | crypto/hash.go:14-30 | sets bytes 6 and 7 to the hash of the first six and nothing else |
| Frames.SetHashVerifies | crypto/hash.go:26-36 | a header whose hash was set verifies |
| Frames.Listen | tunnel/multiplexer.go:352-363 | the read loop splits the stream into frames by header, hash, body and tail |
| Frames.CodecRoundTrip | tunnel/multiplexer.go:719-750 | for every sequence of frames and all random tails the read loop gives back the same frames and nothing is left |
| Frames.Tunnel | tunnel/multiplexer.go:689-707 | the same through a tunnel: encrypted by one side and read in pieces of any size by the other |
| MuxRuns.DeliveredInOrder | tunnel/queue.go:275-320 | in every interleaving, what an edge wrote is an in-order, duplicate-free selection of what its own peer sent |
| MuxRuns.DeliveredWithoutGap | tunnel/multiplexer.go:399-407 | unless a register fell into the window, it is a prefix of it |
| MuxRuns.NothingAfterClose | tunnel/queue.go:286-313 | once sendLoop met CLOSE, CLOSE_W or a write error, the edge is never written again |
| MuxRuns.MarkStops | tunnel/queue.go:288-296 | CLOSE and CLOSE_W in the queue stop sendLoop whatever is queued behind them |
| MuxRuns.StepMirrors | tunnel/queue.go:107-171 | every step of the whole machine is, for each session, one step of that session or none: sessions do not touch each other |
| MuxSession.StepChange | tunnel/queue.go:113-171 | no step reorders a session's frames: it moves them on, adds one at the end or cuts some out |
| MuxGap.GaplessKept | tunnel/queue.go:156-171 | every step other than a register in the window keeps the frames consecutive |
| MuxRace.GapExactly | tunnel/queue.go:113-140 | outside the window: either no register fell into it and the output is a prefix, or one did, a frame is lost, and the output is gap-free exactly as long as nothing past the first lost frame is written |
| MuxRace.RaceLosesFrame | tunnel/queue.go:113-119 | preDeliver after a register discards the frame for good |
| MuxRace.LostForever | tunnel/queue.go:113-119 | a lost frame is never written later |
| MuxRace.RaceLeavesGap | tunnel/multiplexer.go:399-406 | a run in which the second frame is written and the first never is |
| FastOpen.BufferBounded | tunnel/multiplexer.go:606-654 | in every reachable state the pre-registration buffer of a session holds at most 65535 + 65527 bytes |
| FastOpen.BoundReached | tunnel/multiplexer.go:621-649 | three reads before the answer fill it to exactly that bound |
| CloseBits.WonOnce | tunnel/queue.go:72-78 | each close bit is won at most once in a run, so one CLOSE_W by relay and one CLOSE_R by sendLoop at most |
| CloseBits.BitsGrow | tunnel/queue.go:345-348 | a bit once set stays set |
| CloseBits.SwapWinsIff | tunnel/queue.go:72-78 | a swap wins exactly when no step between its load and itself stored |
| CloseBits.LosesWithBitClear | tunnel/queue.go:72-78 | a run in which a caller loses although its own bit is clear |
| SessionKeys.KeyInjective | tunnel/multiplexer.go:472-478 | two keys are equal exactly when sid and identifier (or the address pair) are |
| SessionKeys.Router.CleanOfTun | tunnel/queue.go:188-203 | exactly the keys with the prefix leave the registry, each edge with one CLOSE queued or its socket closed; no other edge changes |
| SessionKeys.ForeignCleaned | tunnel/queue.go:191-194 | for any identifiers, when the end of one tunnel takes a session of another |
| SessionKeys.CleanedIffPrefix | tunnel/queue.go:191-194 | for identifiers that end in a port: exactly when one is a prefix of the other |
| SessionKeys.CleanExact | tunnel/queue.go:188-203 | when no live identifier is a proper prefix of another, cleanOfTun takes the sessions of its tunnel and no other |
| SessionKeys.PortPrefixCloses | tunnel/conn.go:31-38 | ports 80 and 8080 of one address: the end of the first tunnel closes the sessions of the second |
| SessionKeys.ClientExact | tunnel/conn.go:35-38 | on the client, where all tunnels go to one port, cleanOfTun is always exact |
| HandshakeRuns.SealsMatch | tunnel/conn.go:41-60 | in every interleaving every byte is read with exactly the cipher state it was written with |
| HandshakeRuns.Agree | tunnel/d5.go:246-300 | when both are through: same hello, key and IV; parameters, tokens and identity arrived; each reader's cipher stands where the bytes under way begin |
| HandshakeRuns.OnlyThen | tunnel/d5.go:389-475 | the only reasons to give up: an incompatible version, a refused or malformed identity, a bad token length, or a short single read |
| HandshakeRuns.Completes | tunnel/d5.go:144-220 | a run that cannot go on has finished on both sides exactly when none of these reasons holds |
| HandshakeRuns.RunsEnd | tunnel/d5.go:389-586 | every run has at most 22 steps |
| HandshakeRuns.ShortGreetingRefused | tunnel/d5.go:396-432 | whatever the setup, a first read of fewer than 264 bytes is refused |
| HandshakeRuns.ShortTokenRefused | tunnel/d5.go:458-474 | a resume token that arrives in two parts is refused |
| HandshakeSteps.GreetingTrusted | tunnel/d5.go:389-418 | the server trusts an honest hello and learns its type and tail length |
| Wire.RecvSealed | tunnel/d5.go:70-88 | a message sealed with the reader's cipher state is read whole and leaves the reader at the next byte with the next cipher state |
| Fields.FieldRoundTrip | tunnel/d5.go:70-88 | a length-prefixed field is read back whole exactly when its length fits the prefix |
| Handshake.WriteAnswer | tunnel/d5.go:491-502 | what finishDHExchange writes in the clear is the answer of the model |
| Handshake.WriteGrant | tunnel/d5.go:566-585 | what authenticate writes is the verdict, parameters and tokens of the model |
| Fields.MsgWriter.WriteL1Msg | tunnel/d5.go:715-719 | appends the low byte of the length and the message |
| Fields.MsgWriter.WriteL2Msg | tunnel/d5.go:721-726 | appends two length bytes and the message |
| Fields.IdentityRoundTrip | tunnel/d5.go:589-605 | the identity comes back exactly when neither part holds a NUL, else it is malformed |
| Hello.CalculateTimeCounter | tunnel/d5.go:640-661 | the loop lists the minute, one back, one ahead, two back... in 64-bit arithmetic, for any error |
| Hello.Window | tunnel/d5.go:640-661 | these are exactly the minutes of the window, each once |
| Hello.MakeDbcHello | tunnel/d5.go:663-676 | hides type and tail length under the key and puts the hash behind, in place over random bytes |
| Hello.VerifyDbcHello | tunnel/d5.go:678-698 | trusts exactly when some listed minute gives the hash, and then unhides type and length |
| Hello.HelloAccepted | tunnel/d5.go:663-698 | a hello of any minute in the window is accepted, its type and tail length are recovered |
| Tokens.SessionMgr.Take | tunnel/server.go:143-153 | the token leaves the container and its session's set, and its session is returned |
| Tokens.SessionMgr.ClearTokens | tunnel/server.go:159-168 | all tokens of the session leave the container, the session is without a set |
| Tokens.SessionMgr.CreateTokens | tunnel/server.go:171-209 | nothing for a cleared session, else fresh distinct tokens in container, set and reply |
| Tokens.AcceptedFresh | tunnel/server.go:189-204 | the retry loop ends with as many tokens as asked for, all distinct and none in use |
| Tokens.InverseKept | tunnel/server.go:143-209 | container and token sets stay inverse to each other |
| Tokens.LiveIff | tunnel/server.go:143-209 | a token yields its session exactly when it was issued to it and since then neither taken nor cleared |
| Tokens.YieldOnce | tunnel/server.go:143-153 | two takes of one token have an issue in between |
| Tokens.AfterClear | tunnel/server.go:171-179 | after clearTokens no token of the session exists or is created |
| TokenPool.FirstInFirstOut | tunnel/client.go:267-330 | wherever the unlocked stores of logins fall, tokens are handed out in the order of logins and of receipt, none twice |
| TokenPool.LoginTakesEffect | tunnel/client.go:55-71 | a login that finds no store pending: all tokens taken later are its own or of a later login |
| TokenPool.LoginIsLost | tunnel/client.go:55-71 | one that does is overwritten: none of its tokens is ever handed out |
| TokenPool.LoginIff | tunnel/client.go:267-294 | the next token is of this login exactly when no store was pending |
| TokenPool.LoginOverwritten | tunnel/client.go:289-290 | a run in which an old token is handed out after a login |
| TokenPool.HandsOutTokens | tunnel/client.go:307-318 | deliveries being whole tokens, every token handed out is one of those received |
| TokenPool.Client.SaveTokens | tunnel/client.go:307-318 | without a login in between, what a reply carries is appended |
| TokenPool.Client.GetToken | tunnel/client.go:267-294 | without a login in between, the first 20 bytes leave the pool and the rest stays |
| Restart.OneRestarter | tunnel/client.go:101-169 | in every interleaving at most one goroutine is between winning the swap and storing the working state |
| Restart.RoundCountsRestarts | tunnel/client.go:92-93 | round is the number of stores of the working state, less those whose add is still to come |
| Restart.DestroyedUnderListener | tunnel/client.go:77-84 | in every run, when the old multiplexer is destroyed somebody listens on it if and only if somebody entered since the restarter's last look at dtCnt and has not left |
| Restart.WorkingIsServed | tunnel/client.go:107-168 | in every reachable state in which the client is working, some goroutine serves the present round or restarts |
| Restart.GivesUpIff | tunnel/client.go:105-113 | a restarter exits exactly when another's add falls between its load and its check |
| Restart.StuckIff | tunnel/client.go:92-117 | the client is pending with nobody to restart it exactly when that happened |
| Restart.NeverStuck | tunnel/client.go:92-105 | it never happens if no restarter loads while a store waits for its add |
| RestartRace.ListenerUnderDestroy | tunnel/client.go:77-84 | a run in which a multiplexer is destroyed while a goroutine listens on it |
| RestartRace.OfflineForGood | tunnel/client.go:73-169 | a run after which the client is pending and no goroutine is left |
| ConnPool.ConnPool.Remove | tunnel/connPool.go:39-65 | the first occurrence goes, the others keep their order; false exactly when there is none |
| ConnPool.ConnPool.Select | tunnel/connPool.go:73-86 | the choice has the highest rank and pays one decrement; the pool is only reordered |
| ConnPool.SpreadBounded | tunnel/connPool.go:79-85 | for any tie-breaking the spread of ranks never exceeds the larger of the first spread and one decrement |
| ConnPool.PickedStaysClose | tunnel/connPool.go:79-85 | whatever the ranks were, a tunnel once chosen stays within one decrement of the top |
| ConnPool.Fair | tunnel/connPool.go:73-86 | from equal ranks, the numbers of choices of any two tunnels differ by at most one |
| ConnPool.SelectRepeatedly | tunnel/connPool.go:73-86 | the same for any number of calls of Select on a pool of distinct tunnels |

## Left out

- HostBits.ThirtyOneLoses: nothing is claimed about an entry of 31 bits that is the last address of its /16, beside two or more others.
- SmallTables.BuildSmallTable: tries of more than one level are modelled for canonical entries only (Builder).
- Restart.DestroyedUnderListener: what becomes of the goroutine that listens on a destroyed multiplexer is not part of this model.
- RoutingTable.BuildRoutingTable: entries must be canonical (HostBits shows why) and the innermost networks at most 967231, the number for which the 22-bit address field is proved to suffice.
- Prefixes.SortEntries: stands for the library sort; nothing about its order of equal keys or its running time.
- Prefixes.SplitPrefixes: the vectors b and p are sequences that grow, not slices of pointers with spare room.
- Tokens.SessionMgr.CreateTokens: the hashes drawn are a parameter, and the retry loop must find enough of them; sessions are named by numbers and keys are the token bytes instead of their hex text.
- ConnPool.SelectRepeatedly: Conn.Update, which also moves ranks, is not called in between, and ranks are unbounded integers.
- FastOpen.BufferBounded: takes a pooled byte slice of n bytes to have length n.
- MuxRuns.DeliveredInOrder: a key stands for one life of a session id, so ids are distinct in a run; the wrap-around of next_sid and its two separate atomics are not part of the model.
- SessionKeys.Router.CleanOfTun: edges are removed under the router's lock in any order; that of Go's map iteration is not fixed either.
- HandshakeRuns.Completes: the honest setup keeps every field within its length prefix; timeouts, a closed connection and the optional error feedback are not steps.
- CLOSE_W for a key that is only pre-registered is ignored as in the code; nothing is claimed about half-close reaching the peer.
- Writes to a tunnel are whole or fail; sockets, deadlines, keep-alive and ping timing are not modelled.
- AES, elliptic curves, signatures, SHA and SipHash are parameters of the model, or not part of it.
- timedWait, the SOCKS5 and HTTP front end, configuration, logging, IPv6 and country codes are not part of this model.
- Serialize and deserialize reinterpret memory by machine layout and are not part of this model.
